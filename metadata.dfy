/**
 * `extract_all_info_from_file` (data_processor/core.py): the file-wide
 * facts of a price list (product type and name, length, pricing basis,
 * brand, contact, material, standard, notes), found by keyword priority
 * in the rendered text of the whole sheet and in the file name, and
 * `process_file`'s manufacturer override of the brand.
 *
 * The rendered text of the sheet is an input, and so is what each
 * regular-expression search over it finds first (`Finds`).
 */
module Metadata {
  import opened Wrappers
  import opened Text
  import opened Cells
  import opened Utils
  import opened Sheet

  const ProductTypes: seq<string> := ["方矩管", "板材", "型材", "管材", "矿用品", "棒材", "彩涂卷", "不锈钢"]
  const ProductKeywords: seq<string> := ["热镀锌", "冷轧", "热轧", "镀锌", "不锈钢", "彩涂", "黑退", "热镀"]
  const NoteKeywords: seq<string> := ["说明", "备注", "注意", "提示", "要求"]
  /** Only this many leading rows are searched for notes. */
  const NoteRows: nat := 20
  /** The choice in the manufacturer selector that means "keep what the file says". */
  const AutoDetect: string := "自动识别"

  /** The `file_info` dictionary. */
  datatype FileInfo = FileInfo(
    productType: string, productName: string, length: string, priceType: string,
    brand: string, contact: string, unit: string, material: string, standard: string,
    province: string, city: string, area: string, notes: seq<string>)

  /**
   * The first match of each regular-expression search over the sheet's
   * text: the length (numeral and unit, concatenated), each of the five
   * brand patterns in order, the telephone number, each of the four
   * material patterns in order, and the standard.
   */
  datatype Finds = Finds(
    length: Option<string>, brands: seq<Option<string>>, contact: Option<string>,
    materials: seq<Option<string>>, standard: Option<string>)

  // ---------------------------------------------------------------------
  // for ... in candidates: if present: ...; break

  /** The position of the first of `xs[from..]` that is `present`. */
  function FirstPresent<T>(xs: seq<T>, present: T -> bool, from: nat): (r: Option<nat>)
    requires from <= |xs|
    ensures r.Some? ==> from <= r.value < |xs| && present(xs[r.value])
    ensures r.Some? ==> forall k | from <= k < r.value :: !present(xs[k])
    ensures r.None? <==> forall k | from <= k < |xs| :: !present(xs[k])
    decreases |xs| - from
  {
    if from == |xs| then None
    else if present(xs[from]) then Some(from)
    else FirstPresent(xs, present, from + 1)
  }

  /** A loop over the candidates that stops at the first present one. */
  method FindFirst<T>(xs: seq<T>, present: T -> bool) returns (r: Option<nat>)
    ensures r == FirstPresent(xs, present, 0)
  {
    for i := 0 to |xs|
      invariant forall k | 0 <= k < i :: !present(xs[k])
    {
      if present(xs[i]) {
        return Some(i);
      }
    }
    return None;
  }

  // ---------------------------------------------------------------------
  // product type and name

  /** A product type counts as present in the text, or in the text with its spaces removed. */
  predicate TypePresent(text: string, p: string) {
    Contains(text, p) || Contains(RemoveChar(text, ' '), p)
  }

  /** The test each vocabulary entry is put to. */
  function TypeIn(text: string): string -> bool {
    p => TypePresent(text, p)
  }

  /** The test each product keyword is put to. */
  function KeywordIn(s: string): string -> bool {
    w => Contains(s, w)
  }

  /** Step 1: the first vocabulary entry present, else `管材` for a galvanized-pipe text. */
  function ProductType(text: string): string {
    match FirstPresent(ProductTypes, TypeIn(text), 0)
    case Some(k) => ProductTypes[k]
    case None => if Contains(text, "热镀管") || Contains(text, "镀锌管") then "管材" else ""
  }

  /** Step 2: the first keyword in the file name, else the first in the text. */
  function KeywordName(text: string, filename: string): string {
    match FirstPresent(ProductKeywords, KeywordIn(filename), 0)
    case Some(k) => ProductKeywords[k]
    case None =>
      match FirstPresent(ProductKeywords, KeywordIn(text), 0)
      case Some(k) => ProductKeywords[k]
      case None => ""
  }

  datatype Naming = Naming(productType: string, productName: string)

  /** Whether the text or the file name mentions Zhengda's galvanized pipe. */
  predicate ZhengdaPipe(text: string, filename: string) {
    Contains(text, "正大热镀管") || Contains(filename, "正大热镀管")
  }

  /**
   * Product type and name once the overrides are applied: Zhengda's
   * galvanized pipe is named `镀锌管` (and typed `管材` if nothing else
   * typed it), and a nameless square/rectangular tube is named `黑`.
   */
  function NamingOf(text: string, filename: string): Naming {
    var productType := ProductType(text);
    var name := KeywordName(text, filename);
    var zhengda := ZhengdaPipe(text, filename);
    var name' := if zhengda then "镀锌管" else name;
    var productType' := if zhengda && productType == "" then "管材" else productType;
    var name'' := if name' == "" && Contains(productType', "方矩管") then "黑" else name';
    Naming(productType', name'')
  }

  // ---------------------------------------------------------------------
  // the other fields

  /** Step 3: the first length found, normalized; a numeral `float` rejects fails the whole extraction. */
  function LengthOf(finds: Finds): Result<string> {
    match finds.length
    case None => Ok("")
    case Some(raw) => NormalizeLength(raw)
  }

  /** Step 4: weighed (`过磅`) before theoretical (`理计`). */
  function PriceType(text: string): string {
    if Contains(text, "检斤价") || Contains(text, "过磅") then "过磅"
    else if Contains(text, "理计") || Contains(text, "理论") then "理计"
    else ""
  }

  /** A brand pattern's first match is used only when it is shorter than ten characters. */
  predicate UsableBrand(b: Option<string>) {
    b.Some? && |b.value| < 10
  }

  /** Step 5: `正大制管` whenever Zhengda is named, else the first usable brand match. */
  function Brand(text: string, filename: string, brands: seq<Option<string>>): string {
    if Contains(text, "正大") || Contains(filename, "正大") then "正大制管"
    else match FirstPresent(brands, UsableBrand, 0)
      case Some(k) => brands[k].value
      case None => ""
  }

  predicate Matched(m: Option<string>) {
    m.Some?
  }

  /** Step 7: the first material pattern that matched at all. */
  function Material(materials: seq<Option<string>>): string {
    match FirstPresent(materials, Matched, 0)
    case Some(k) => materials[k].value
    case None => ""
  }

  function OrEmpty(s: Option<string>): string {
    if s.Some? then s.value else ""
  }

  // ---------------------------------------------------------------------
  // notes

  /** The notes a row contributes for the first `n` note keywords: `note`, once per keyword its text contains. */
  function KeywordNotes(rowText: string, note: string, n: nat): (r: seq<string>)
    requires n <= |NoteKeywords|
  {
    if n == 0 then []
    else KeywordNotes(rowText, note, n - 1) + (if Contains(rowText, NoteKeywords[n - 1]) then [note] else [])
  }

  /** The notes of one row: its stripped text, once per note keyword it contains. */
  function RowNotes(row: seq<Cell>): seq<string> {
    var rowText := RowText(row);
    KeywordNotes(rowText, Strip(rowText), |NoteKeywords|)
  }

  /** The notes of the first `n` rows. */
  function NotesOf(t: Table, n: nat): seq<string>
    requires n <= |t.rows|
  {
    if n == 0 then []
    else NotesOf(t, n - 1) + RowNotes(t.rows[n - 1])
  }

  /** Step 9: the notes of the first twenty rows. */
  function Notes(t: Table): seq<string> {
    NotesOf(t, Min(NoteRows, |t.rows|))
  }

  /** The inner loop: the row's stripped text, once per note keyword its text contains. */
  method NoteRow(rowText: string) returns (notes: seq<string>)
    ensures notes == KeywordNotes(rowText, Strip(rowText), |NoteKeywords|)
  {
    notes := [];
    for k := 0 to |NoteKeywords|
      invariant notes == KeywordNotes(rowText, Strip(rowText), k)
    {
      if Contains(rowText, NoteKeywords[k]) {
        notes := notes + [Strip(rowText)];
      }
    }
  }

  /** The outer loop over the leading rows. */
  method CollectNotes(t: Table) returns (notes: seq<string>)
    ensures notes == Notes(t)
  {
    notes := [];
    for i := 0 to Min(NoteRows, |t.rows|)
      invariant notes == NotesOf(t, i)
    {
      var here := NoteRow(RowText(t.rows[i]));
      notes := notes + here;
    }
  }

  // ---------------------------------------------------------------------
  // the whole extraction

  /** `extract_all_info_from_file` over the sheet's text, the file name, the sheet and what the searches found. */
  function InfoOf(text: string, filename: string, t: Table, finds: Finds): (r: Result<FileInfo>)
    ensures r.Err? <==> finds.length.Some? && NormalizeLength(finds.length.value).Err?
    ensures r.Ok? ==> r.value.unit == "件" && r.value.province == "" && r.value.city == "" && r.value.area == ""
  {
    match LengthOf(finds)
    case Err(e) => Err(e)
    case Ok(length) =>
      var naming := NamingOf(text, filename);
      Ok(FileInfo(
        naming.productType, naming.productName, length, PriceType(text),
        Brand(text, filename, finds.brands), OrEmpty(finds.contact), "件",
        Material(finds.materials), OrEmpty(finds.standard), "", "", "", Notes(t)))
  }

  /** Step 1: the vocabulary loop, then the galvanized-pipe fallback. */
  method IdentifyType(text: string) returns (productType: string)
    ensures productType == ProductType(text)
  {
    productType := "";
    var p := FindFirst(ProductTypes, TypeIn(text));
    if p.Some? {
      productType := ProductTypes[p.value];
    }
    if productType == "" && (Contains(text, "热镀管") || Contains(text, "镀锌管")) {
      productType := "管材";
    }
  }

  /** Step 2: the keyword loop over the file name, then over the text. */
  method IdentifyKeyword(text: string, filename: string) returns (name: string)
    ensures name == KeywordName(text, filename)
  {
    name := "";
    var n := FindFirst(ProductKeywords, KeywordIn(filename));
    if n.Some? {
      name := ProductKeywords[n.value];
    }
    if name == "" {
      n := FindFirst(ProductKeywords, KeywordIn(text));
      if n.Some? {
        name := ProductKeywords[n.value];
      }
    }
  }

  /** Steps 1 and 2 with their overrides. */
  method IdentifyNaming(text: string, filename: string) returns (naming: Naming)
    ensures naming == NamingOf(text, filename)
  {
    var productType := IdentifyType(text);
    var name := IdentifyKeyword(text, filename);
    naming := Naming(productType, name);
    if Contains(text, "正大热镀管") || Contains(filename, "正大热镀管") {
      naming := naming.(productName := "镀锌管");
      if naming.productType == "" {
        naming := naming.(productType := "管材");
      }
    }
    if naming.productName == "" && Contains(naming.productType, "方矩管") {
      naming := naming.(productName := "黑");
    }
  }

  /** Step 5: Zhengda first, then the pattern loop with its length filter. */
  method IdentifyBrand(text: string, filename: string, brands: seq<Option<string>>) returns (brand: string)
    ensures brand == Brand(text, filename, brands)
  {
    brand := "";
    if Contains(text, "正大") || Contains(filename, "正大") {
      brand := "正大制管";
    } else {
      var b := FindFirst(brands, UsableBrand);
      if b.Some? {
        brand := brands[b.value].value;
      }
    }
  }

  /** Step 7: the material pattern loop. */
  method IdentifyMaterial(materials: seq<Option<string>>) returns (material: string)
    ensures material == Material(materials)
  {
    material := "";
    var m := FindFirst(materials, Matched);
    if m.Some? {
      material := materials[m.value].value;
    }
  }

  /** The dictionary filled in step by step. */
  method ExtractAllInfo(text: string, filename: string, t: Table, finds: Finds) returns (r: Result<FileInfo>)
    ensures r == InfoOf(text, filename, t, finds)
  {
    var info := FileInfo("", "", "", "", "", "", "", "", "", "", "", "", []);
    var naming := IdentifyNaming(text, filename);
    info := info.(productType := naming.productType, productName := naming.productName);

    if finds.length.Some? {
      var length := NormalizeLength(finds.length.value);
      if length.Err? {
        return Err(length.error);
      }
      info := info.(length := length.value);
    }

    if Contains(text, "检斤价") || Contains(text, "过磅") {
      info := info.(priceType := "过磅");
    } else if Contains(text, "理计") || Contains(text, "理论") {
      info := info.(priceType := "理计");
    }

    var brand := IdentifyBrand(text, filename, finds.brands);
    info := info.(brand := brand);

    if finds.contact.Some? {
      info := info.(contact := finds.contact.value);
    }
    var material := IdentifyMaterial(finds.materials);
    info := info.(material := material);
    if finds.standard.Some? {
      info := info.(standard := finds.standard.value);
    }

    var notes := CollectNotes(t);
    info := info.(notes := notes, unit := "件");
    r := Ok(info);
  }

  /** `process_file`'s override: a manufacturer chosen other than "auto-detect" replaces the brand. */
  function WithManufacturer(info: FileInfo, manufacturer: Option<string>): (r: FileInfo)
    ensures manufacturer.Some? && manufacturer.value != "" && manufacturer.value != AutoDetect ==>
      r.brand == manufacturer.value
    ensures !(manufacturer.Some? && manufacturer.value != "" && manufacturer.value != AutoDetect) ==> r == info
    ensures r.(brand := info.brand) == info
  {
    match manufacturer
    case Some(m) => if m != "" && m != AutoDetect then info.(brand := m) else info
    case None => info
  }

  // ---------------------------------------------------------------------
  // properties

  /** The product type is the first vocabulary entry present, whatever else the text says. */
  lemma ProductTypePriority(text: string, filename: string, k: nat)
    requires k < |ProductTypes| && TypePresent(text, ProductTypes[k])
    requires forall j | 0 <= j < k :: !TypePresent(text, ProductTypes[j])
    ensures NamingOf(text, filename).productType == ProductTypes[k]
  {
    var p := FirstPresent(ProductTypes, TypeIn(text), 0);
    assert p == Some(k);
  }

  /** A keyword in the file name decides the name over anything in the text, unless Zhengda's galvanized pipe is mentioned. */
  lemma FilenameKeywordFirst(text: string, filename: string, k: nat)
    requires k < |ProductKeywords| && Contains(filename, ProductKeywords[k])
    requires !ZhengdaPipe(text, filename)
    ensures exists j | 0 <= j <= k :: NamingOf(text, filename).productName == ProductKeywords[j]
    ensures Contains(filename, NamingOf(text, filename).productName)
  {
    var f := FirstPresent(ProductKeywords, KeywordIn(filename), 0);
    assert f.Some? && f.value <= k;
    assert KeywordName(text, filename) == ProductKeywords[f.value];
  }

  /** Zhengda's galvanized pipe is named `镀锌管` and has a type. */
  lemma ZhengdaPipeNaming(text: string, filename: string)
    requires ZhengdaPipe(text, filename)
    ensures NamingOf(text, filename).productName == "镀锌管"
    ensures NamingOf(text, filename).productType != ""
  {
  }

  /** A square/rectangular-tube list with no product keyword anywhere is named `黑`. */
  lemma BlackByDefault(text: string, filename: string)
    requires forall k | 0 <= k < |ProductKeywords| :: !Contains(filename, ProductKeywords[k]) && !Contains(text, ProductKeywords[k])
    requires !ZhengdaPipe(text, filename)
    requires TypePresent(text, "方矩管")
    ensures NamingOf(text, filename) == Naming("方矩管", "黑")
  {
    ProductTypePriority(text, filename, 0);
    assert FirstPresent(ProductKeywords, KeywordIn(filename), 0).None?;
    assert FirstPresent(ProductKeywords, KeywordIn(text), 0).None?;
    assert Contains("方矩管", "方矩管");
  }

  /** Whenever Zhengda is named, in the text or the file name, the brand is `正大制管`. */
  lemma ZhengdaBrand(text: string, filename: string, t: Table, finds: Finds)
    requires Contains(text, "正大") || Contains(filename, "正大")
    ensures InfoOf(text, filename, t, finds).Ok? ==> InfoOf(text, filename, t, finds).value.brand == "正大制管"
  {
  }

  /**
   * Otherwise the brand is the first brand match shorter than ten
   * characters: a longer match is skipped and the next pattern tried.
   */
  lemma BrandFromPatterns(text: string, filename: string, brands: seq<Option<string>>)
    requires !Contains(text, "正大") && !Contains(filename, "正大")
    ensures (forall k | 0 <= k < |brands| :: !UsableBrand(brands[k])) ==> Brand(text, filename, brands) == ""
    ensures (exists k | 0 <= k < |brands| :: UsableBrand(brands[k])) ==>
      exists k | 0 <= k < |brands| :: UsableBrand(brands[k]) && Brand(text, filename, brands) == brands[k].value &&
        forall j | 0 <= j < k :: !UsableBrand(brands[j])
  {
    var f := FirstPresent(brands, UsableBrand, 0);
    if f.Some? {
      assert Brand(text, filename, brands) == brands[f.value].value;
    }
  }

  /** The number of the first `n` note keywords that `rowText` contains. */
  function KeywordCount(rowText: string, n: nat): (c: nat)
    requires n <= |NoteKeywords|
    ensures c <= n
  {
    if n == 0 then 0
    else KeywordCount(rowText, n - 1) + (if Contains(rowText, NoteKeywords[n - 1]) then 1 else 0)
  }

  /** A row is noted once per note keyword it contains: there is no `break` after the first. */
  lemma {:induction false} NotedPerKeyword(rowText: string, note: string, n: nat)
    requires n <= |NoteKeywords|
    ensures |KeywordNotes(rowText, note, n)| == KeywordCount(rowText, n)
    ensures forall k | 0 <= k < |KeywordNotes(rowText, note, n)| :: KeywordNotes(rowText, note, n)[k] == note
  {
    if n > 0 {
      NotedPerKeyword(rowText, note, n - 1);
    }
  }

  /** Whether a row contains at least one note keyword. */
  predicate HasNoteKeyword(row: seq<Cell>) {
    KeywordCount(RowText(row), |NoteKeywords|) > 0
  }

  /** Whether `note` is the stripped text of one of the first `n` rows, one with a note keyword. */
  predicate NoteOfLeadingRow(t: Table, n: nat, note: string)
    requires n <= |t.rows|
  {
    exists i | 0 <= i < n :: note == Strip(RowText(t.rows[i])) && HasNoteKeyword(t.rows[i])
  }

  /** Every note is the stripped text of one of the first `n` rows, and that row contains a note keyword. */
  lemma {:induction false} NotesFromLeadingRows(t: Table, n: nat)
    requires n <= |t.rows|
    ensures forall k | 0 <= k < |NotesOf(t, n)| :: NoteOfLeadingRow(t, n, NotesOf(t, n)[k])
  {
    if n > 0 {
      NotesFromLeadingRows(t, n - 1);
      var row := t.rows[n - 1];
      NotedPerKeyword(RowText(row), Strip(RowText(row)), |NoteKeywords|);
      var prev := NotesOf(t, n - 1);
      var here := RowNotes(row);
      forall k | 0 <= k < |prev + here|
        ensures NoteOfLeadingRow(t, n, (prev + here)[k])
      {
        if k < |prev| {
          assert NoteOfLeadingRow(t, n - 1, prev[k]);
        } else {
          assert here[k - |prev|] == Strip(RowText(row));
        }
      }
    }
  }
}
