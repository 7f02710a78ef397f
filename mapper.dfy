/**
 * `create_template_dataframe` (data_processor/core.py): every extracted
 * record becomes one row of the upload template, combining the record
 * (specification, thickness, price, piece count) with the file-wide facts.
 * The product name gains a square/rectangular-tube suffix read from the
 * specification, the specification columns are filled by product type,
 * and a round pipe's model keeps only the bore before the first `*`.
 */
module Mapper {
  import opened Wrappers
  import opened Numbers
  import opened Text
  import opened Cells
  import opened Sheet
  import opened Metadata
  import Seqs

  /** The template row; the columns the template always leaves empty are not represented. */
  datatype TemplateRow = TemplateRow(
    productType: string, productName: string, model: string,
    spec1: string, spec2: string, spec3: string, spec4: Cell, spec5: string, unit: string,
    material: string, standard: string, brand: string,
    province: string, city: string, area: string,
    price: Dec, priceType: string, notes: string, contact: string, supplyPrice: Dec)

  // ---------------------------------------------------------------------
  // re.match(r'(\d+)\s*\*\s*(\d+)', spec)

  /** The two dimensions of a leading `a*b`. */
  datatype Dims = Dims(first: string, second: string)

  function DimensionMatch(spec: string): (r: Option<Dims>)
    ensures r.Some? ==> r.value.first != [] && AllDigits(r.value.first) && StartsWith(spec, r.value.first)
    ensures r.Some? ==> r.value.second != [] && AllDigits(r.value.second)
  {
    var n := DigitRunLength(spec);
    var rest := LStrip(spec[n..]);
    if n == 0 || rest == [] || rest[0] != '*' then None
    else
      var after := LStrip(rest[1..]);
      var m := DigitRunLength(after);
      if m == 0 then None else Some(Dims(spec[..n], after[..m]))
  }

  /** The square/rectangular suffix: equal dimensions make a square tube, else a `方` or `矩` in the text decides. */
  function ShapeSuffix(spec: string): (r: string)
    ensures r == "" || r == "方管" || r == "矩管"
    ensures r == "" <==> DimensionMatch(spec).None? && !Contains(spec, "方") && !Contains(spec, "矩")
  {
    match DimensionMatch(spec)
    case Some(d) => if DigitsValue(d.first) == DigitsValue(d.second) then "方管" else "矩管"
    case None => if Contains(spec, "方") then "方管" else if Contains(spec, "矩") then "矩管" else ""
  }

  /** Whether the file names a galvanized product of type pipe: such rows are all named `镀锌管`. */
  predicate GalvanizedPipe(info: FileInfo) {
    (Contains(info.productName, "热镀") || Contains(info.productName, "镀锌")) && info.productType == "管材"
  }

  /** The full product name of a row with the given specification. */
  function ProductName(info: FileInfo, spec: string): string {
    var suffix := ShapeSuffix(spec);
    var base := info.productName;
    var named :=
      if suffix == "" then base
      else if base == "黑" then "黑" + suffix
      else if Contains(base, suffix) then base
      else if Contains(base, "方矩管") then ReplaceAll(base, "方矩管", suffix)
      else base + suffix;
    if GalvanizedPipe(info) then "镀锌管" else named
  }

  // ---------------------------------------------------------------------
  // the per-type table

  /** The four specification columns and the unit. */
  datatype SpecColumns = SpecColumns(spec1: string, spec2: string, spec3: string, spec4: Cell, unit: string)

  /** A plate's width and length: the smaller and the larger of two dimensions. */
  function PlateSizes(dims: seq<string>, length: string): (r: SpecColumns)
    requires forall k | 0 <= k < |dims| :: dims[k] != [] && AllDigits(dims[k])
  {
    if |dims| >= 2 then
      var a := DigitsValue(dims[0]);
      var b := DigitsValue(dims[1]);
      SpecColumns("", NatText(if a <= b then a else b), NatText(if a <= b then b else a), Text(""), "块")
    else if |dims| == 1 then SpecColumns("", dims[0], length, Text(""), "块")
    else SpecColumns("", "", length, Text(""), "块")
  }

  /** The product types with a row of their own in the table. */
  const TableTypes: set<string> := {"方矩管", "板材", "型材", "管材", "矿用品", "棒材", "彩涂卷"}

  /** The specification columns of a record, by product type. */
  function Columns(info: FileInfo, rec: RawRecord): SpecColumns {
    var none := Text("");
    var dims := DigitRuns(rec.spec);
    match info.productType
    case "方矩管" => SpecColumns(rec.thickness, info.length, "", none, "件")
    case "板材" => PlateSizes(dims, info.length).(spec1 := rec.thickness)
    case "型材" => SpecColumns("", info.length, "", none, "件")
    case "管材" => SpecColumns(rec.thickness, info.length, "", if rec.count.Some? then rec.count.value else none, "件")
    case "矿用品" => SpecColumns("", info.length, "", none, "件")
    case "棒材" => SpecColumns(info.length, "", "", none, "件")
    case "彩涂卷" => SpecColumns(rec.thickness, if |dims| >= 1 then dims[0] else "", info.length, none, "块")
    case _ => SpecColumns(rec.thickness, rec.spec, "", none, info.unit)
  }

  // ---------------------------------------------------------------------
  // model and notes

  /** A round pipe: type `管材`, or a pipe name without a square or rectangular mark on a list not of square/rectangular tubes. */
  predicate RoundPipe(info: FileInfo, name: string) {
    info.productType == "管材" ||
    (Contains(name, "管") && info.productType != "方矩管" && !Contains(name, "方") && !Contains(name, "矩"))
  }

  /** The model: for a round pipe with a `*`, the stripped text before the first `*`; else the specification. */
  function Model(info: FileInfo, name: string, spec: string): string {
    if RoundPipe(info, name) && '*' in spec then Strip(Split(spec, {'*'})[0]) else spec
  }

  /** The file's notes joined with `"; "`, or the model when there are none. */
  function NotesText(info: FileInfo, model: string): string {
    if info.notes != [] then Join(info.notes, "; ") else "规格: " + model
  }

  /** The template row of one record. */
  function TemplateRowOf(info: FileInfo, rec: RawRecord): (r: TemplateRow)
    ensures r.price == rec.price && r.supplyPrice == rec.price
    ensures r.productType == info.productType && r.brand == info.brand && r.material == info.material
    ensures r.standard == info.standard && r.priceType == info.priceType && r.contact == info.contact
    ensures r.province == info.province && r.city == info.city && r.area == info.area && r.spec5 == ""
  {
    var name := ProductName(info, rec.spec);
    var model := Model(info, name, rec.spec);
    var c := Columns(info, rec);
    TemplateRow(
      info.productType, name, model, c.spec1, c.spec2, c.spec3, c.spec4, "", c.unit,
      info.material, info.standard, info.brand, info.province, info.city, info.area,
      rec.price, info.priceType, NotesText(info, model), info.contact, rec.price)
  }

  /** `TemplateRowOf` for the records of one file. */
  function RowOf(info: FileInfo): RawRecord -> TemplateRow {
    rec => TemplateRowOf(info, rec)
  }

  /** The template rows of a sequence of records: one per record, in order. */
  function TemplateRows(info: FileInfo, records: seq<RawRecord>): (rows: seq<TemplateRow>)
    ensures |rows| == |records|
    ensures forall k | 0 <= k < |records| :: rows[k] == TemplateRowOf(info, records[k])
  {
    Seqs.Map(RowOf(info), records)
  }

  /** The loop appending one template row per record. */
  method CreateTemplate(info: FileInfo, records: seq<RawRecord>) returns (rows: seq<TemplateRow>)
    ensures rows == TemplateRows(info, records)
  {
    rows := [];
    for i := 0 to |records|
      invariant rows == TemplateRows(info, records[..i])
    {
      Seqs.MapSnoc(RowOf(info), records, i);
      rows := rows + [TemplateRowOf(info, records[i])];
    }
    assert records[..|records|] == records;
  }

  // ---------------------------------------------------------------------
  // properties

  /** Text starting with a non-space is its own `lstrip()`. */
  lemma LStripKeeps(s: string)
    requires s != [] && !IsSpace(s[0])
    ensures LStrip(s) == s
  {
  }

  /** The first dimension of `a*b...` is `a`, and what follows it starts with the `*`. */
  lemma FirstDimension(a: string, tail: string)
    requires a != [] && AllDigits(a) && tail != [] && tail[0] == '*'
    ensures DigitRunLength(a + tail) == |a|
    ensures (a + tail)[..|a|] == a && LStrip((a + tail)[|a|..]) == tail
  {
    DigitRunLengthOfRun(a, tail);
    assert (a + tail)[|a|..] == tail;
    LStripKeeps(tail);
  }

  /** After the `*`, the second dimension is the whole run of digits `b`. */
  lemma SecondDimension(b: string, rest: string)
    requires b != [] && AllDigits(b)
    requires rest == [] || !IsDigit(rest[0])
    ensures LStrip(("*" + (b + rest))[1..]) == b + rest
    ensures DigitRunLength(b + rest) == |b| && (b + rest)[..|b|] == b
  {
    assert ("*" + (b + rest))[1..] == b + rest;
    assert IsDigit(b[0]);
    LStripKeeps(b + rest);
    DigitRunLengthOfRun(b, rest);
  }

  /** A specification starting `a*b` is read as the dimensions `a` and `b`. */
  lemma DimensionsRead(a: string, b: string, rest: string)
    requires a != [] && AllDigits(a) && b != [] && AllDigits(b)
    requires rest == [] || !IsDigit(rest[0])
    ensures DimensionMatch(a + "*" + b + rest) == Some(Dims(a, b))
  {
    var tail := "*" + (b + rest);
    assert a + "*" + b + rest == a + tail;
    FirstDimension(a, tail);
    SecondDimension(b, rest);
  }

  /** `a*b` names a square tube exactly when the two numbers are equal. */
  lemma SquareWhenEqual(a: string, b: string, rest: string)
    requires a != [] && AllDigits(a) && b != [] && AllDigits(b)
    requires rest == [] || !IsDigit(rest[0])
    ensures ShapeSuffix(a + "*" + b + rest) == (if DigitsValue(a) == DigitsValue(b) then "方管" else "矩管")
  {
    DimensionsRead(a, b, rest);
  }

  /** A `黑` list names each row `黑方管` or `黑矩管` by its specification. */
  lemma BlackTubeName(info: FileInfo, spec: string)
    requires info.productName == "黑" && ShapeSuffix(spec) != ""
    ensures ProductName(info, spec) == "黑" + ShapeSuffix(spec)
  {
    ContainsNeedsRoom("黑", "热镀");
    ContainsNeedsRoom("黑", "镀锌");
    assert !GalvanizedPipe(info);
  }

  /** Galvanized pipe overrides every suffix. */
  lemma GalvanizedPipeName(info: FileInfo, spec: string)
    requires GalvanizedPipe(info)
    ensures ProductName(info, spec) == "镀锌管"
  {
  }

  /** Replacing an occurring pattern leaves the replacement in the text. */
  lemma {:induction false} ReplaceAllShows(s: string, pattern: string, replacement: string)
    requires pattern != [] && Contains(s, pattern)
    ensures Contains(ReplaceAll(s, pattern, replacement), replacement)
    decreases |s|
  {
    if StartsWith(s, pattern) {
      var r := ReplaceAll(s[|pattern|..], pattern, replacement);
      assert StartsWith(replacement + r, replacement);
    } else {
      ReplaceAllShows(s[1..], pattern, replacement);
      var r := ReplaceAll(s[1..], pattern, replacement);
      assert (s[0..1] + r)[1..] == r;
    }
  }

  /** `t` occurs in `a + t`. */
  lemma {:induction false} ContainsSuffix(a: string, t: string)
    ensures Contains(a + t, t)
    decreases |a|
  {
    if a == [] {
      assert a + t == t;
    } else {
      assert (a + t)[1..] == a[1..] + t;
      ContainsSuffix(a[1..], t);
    }
  }

  /** Unless galvanized pipe overrides it, the product name shows the shape read from the specification. */
  lemma NameShowsShape(info: FileInfo, spec: string)
    requires ShapeSuffix(spec) != "" && !GalvanizedPipe(info)
    ensures Contains(ProductName(info, spec), ShapeSuffix(spec))
  {
    var suffix := ShapeSuffix(spec);
    var base := info.productName;
    if base == "黑" {
      ContainsSuffix("黑", suffix);
    } else if !Contains(base, suffix) {
      if Contains(base, "方矩管") {
        ReplaceAllShows(base, "方矩管", suffix);
      } else {
        ContainsSuffix(base, suffix);
      }
    }
  }

  /** A plate's width is the smaller and its length the larger of the first two numbers in its specification. */
  lemma PlateWidthBeforeLength(info: FileInfo, rec: RawRecord)
    requires info.productType == "板材" && |DigitRuns(rec.spec)| >= 2
    ensures var c := Columns(info, rec); var dims := DigitRuns(rec.spec);
      && AllDigits(c.spec2) && AllDigits(c.spec3)
      && DigitsValue(c.spec2) <= DigitsValue(c.spec3)
      && multiset{DigitsValue(c.spec2), DigitsValue(c.spec3)} == multiset{DigitsValue(dims[0]), DigitsValue(dims[1])}
      && c.spec1 == rec.thickness && c.unit == "块"
  {
    var dims := DigitRuns(rec.spec);
    var a := DigitsValue(dims[0]);
    var b := DigitsValue(dims[1]);
    NatTextValue(a);
    NatTextValue(b);
  }

  /**
   * A plate written "a*b..." takes `a` and `b` as its sizes: the smaller
   * as its width, the larger as its length.
   */
  lemma PlateFromDimensions(info: FileInfo, rec: RawRecord, a: string, b: string, rest: string)
    requires info.productType == "板材"
    requires a != [] && AllDigits(a) && b != [] && AllDigits(b)
    requires rest == [] || !IsDigit(rest[0])
    requires rec.spec == a + "*" + b + rest
    ensures Columns(info, rec).spec2 == NatText(if DigitsValue(a) <= DigitsValue(b) then DigitsValue(a) else DigitsValue(b))
    ensures Columns(info, rec).spec3 == NatText(if DigitsValue(a) <= DigitsValue(b) then DigitsValue(b) else DigitsValue(a))
  {
    DigitRunsOfDimensions(a, b, rest);
    assert DigitRuns(rec.spec)[0] == a && DigitRuns(rec.spec)[1] == b;
  }

  /**
   * Which column holds the thickness and which the length: the thickness
   * is spec1 for every type but profiles, mining products and bars; bars
   * put the length in spec1, the others that carry it in spec2 or spec3.
   * Plates and coils are sold by the sheet (`块`), the other listed types
   * by the bundle (`件`); any other type keeps the file's unit and its
   * raw specification in spec2.
   */
  lemma ThicknessAndLength(info: FileInfo, rec: RawRecord)
    ensures var c := Columns(info, rec);
      && (info.productType in {"型材", "矿用品"} ==> c.spec1 == "" && c.spec2 == info.length)
      && (info.productType == "棒材" ==> c.spec1 == info.length)
      && (info.productType in {"方矩管", "管材"} ==> c.spec1 == rec.thickness && c.spec2 == info.length)
      && (info.productType !in {"型材", "矿用品", "棒材"} ==> c.spec1 == rec.thickness)
      && (info.productType == "彩涂卷" ==> c.spec3 == info.length)
      && (info.productType in {"板材", "彩涂卷"} ==> c.unit == "块")
      && (info.productType in {"方矩管", "型材", "管材", "矿用品", "棒材"} ==> c.unit == "件")
      && (info.productType !in TableTypes ==> c.unit == info.unit && c.spec2 == rec.spec)
  {
  }

  /** Only a pipe list carries the piece count, in spec4; every other row leaves it empty. */
  lemma CountOnlyForPipes(info: FileInfo, rec: RawRecord)
    ensures Columns(info, rec).spec4 ==
      if info.productType == "管材" && rec.count.Some? then rec.count.value else Text("")
  {
  }

  /** A round pipe's model is the stripped bore before the first `*`, which is a prefix of the specification. */
  lemma RoundPipeModel(info: FileInfo, name: string, spec: string)
    requires RoundPipe(info, name) && '*' in spec
    ensures var bore := Split(spec, {'*'})[0];
      StartsWith(spec, bore) && '*' !in bore && Model(info, name, spec) == Strip(bore)
  {
    var bore := Split(spec, {'*'})[0];
    SplitFirstIsPrefix(spec, {'*'});
    assert Avoids(bore, {'*'});
  }

  /** Any other row keeps its whole specification as the model. */
  lemma ModelIsSpec(info: FileInfo, name: string, spec: string)
    requires !RoundPipe(info, name) || '*' !in spec
    ensures Model(info, name, spec) == spec
  {
  }

  /** The notes column repeats the file's notes on every row, or names the row's own model when there are none. */
  lemma NotesColumn(info: FileInfo, rec: RawRecord, rec': RawRecord)
    ensures info.notes != [] ==> TemplateRowOf(info, rec).notes == TemplateRowOf(info, rec').notes
    ensures info.notes == [] ==> TemplateRowOf(info, rec).notes == "规格: " + TemplateRowOf(info, rec).model
  {
  }
}
