/**
 * The Zhengda galvanised-pipe layout (ZhengdaGalvanizedStrategy in
 * data_processor/strategies.py): blocks of three columns, specification,
 * price and piece count, repeated across the sheet. A specification
 * without '*' is a thickness under the size last given in its block, and
 * a blank count cell keeps the count last given in its block.
 */
module Zhengda {
  import opened Wrappers
  import opened Text
  import opened Numbers
  import opened Cells
  import opened Utils
  import opened Sheet
  import opened Seqs

  const Labels: seq<string> := ["正大热镀", "规格"]

  /** `match`: the first of the first 20 rows naming both the brand line and the specification column. */
  function ZhengdaLayout(t: Table): (r: Option<Layout>)
    ensures r.Some? ==> r.value.header < 20 && r.value.header < |t.rows| && r.value.dataStart == r.value.header + 1
    ensures r.Some? ==> HasLabels(t.rows[r.value.header], Labels)
    ensures r.Some? ==> forall i | 0 <= i < r.value.header :: !HasLabels(t.rows[i], Labels)
    ensures r.None? ==> forall i | 0 <= i < Min(20, |t.rows|) :: !HasLabels(t.rows[i], Labels)
  {
    match FirstLabelledRow(t, Labels, 20)
    case None => None
    case Some(i) => Some(Layout(i, i + 1))
  }

  method Match(t: Table) returns (r: Option<Layout>)
    ensures r == ZhengdaLayout(t)
  {
    var found := ScanForLabels(t, Labels, 20);
    if found.Some? {
      return Some(Layout(found.value, found.value + 1));
    }
    return None;
  }

  /** The specification text of a cell: its stripped rendering, or "" when the cell is missing. */
  function SpecText(c: Cell): string {
    if c == Empty then "" else Strip(Render(c))
  }

  /** How a block's specification reads. */
  datatype Reading =
    | Missing
      /** With '*': the size before the first '*' and the formatted thickness after it. */
    | Sized(size: string, thickness: string)
      /** Without '*': the whole specification is a thickness, formatted. */
    | Bare(thickness: string)

  function ReadSpec(spec: string): (r: Reading)
    ensures r.Missing? <==> spec == ""
    ensures r.Sized? <==> '*' in spec
  {
    if spec == "" then Missing
    else if '*' in spec then
      SplitAtPresent(spec, '*');
      var parts := Split(spec, {'*'});
      Sized(Strip(parts[0]), FormattedThickness(Strip(parts[1])))
    else Bare(FormattedThickness(spec))
  }

  /** One block of a row: its specification text and how it reads, its price cell and its count cell. */
  datatype BlockInput = BlockInput(spec: string, reading: Reading, price: Cell, count: Cell)

  function BlockAt(row: seq<Cell>, start: nat): BlockInput
    requires start + 2 < |row|
  {
    var spec := SpecText(row[start]);
    BlockInput(spec, ReadSpec(spec), row[start + 1], row[start + 2])
  }

  /** The first `n` blocks of a row, left to right; block `j` starts at column `3 * j`. */
  function Cut(row: seq<Cell>, n: nat): (r: seq<BlockInput>)
    requires 3 * n <= |row|
    ensures |r| == n
  {
    Build(n, (j: nat) requires 3 * j + 2 < |row| => BlockAt(row, 3 * j))
  }

  lemma CutAt(row: seq<Cell>, n: nat, j: nat)
    requires 3 * n <= |row| && j < n
    ensures Cut(row, n)[j] == BlockAt(row, 3 * j)
  {
    BuildAt(n, (j: nat) requires 3 * j + 2 < |row| => BlockAt(row, 3 * j), j);
  }

  /** What the extraction remembers per block, keyed by the block's first column. */
  datatype Memory = Memory(sizes: map<nat, string>, counts: map<nat, Cell>)

  /** The count remembered for a block, if any. */
  function CountOf(counts: map<nat, Cell>, start: nat): Option<Cell> {
    if start in counts then Some(counts[start]) else None
  }

  /** The memory after some blocks, and the records they yielded. */
  datatype Step = Step(memory: Memory, records: seq<RawRecord>)

  /** A filled count cell becomes the block's remembered count. */
  function NewCounts(counts: map<nat, Cell>, cell: Cell, start: nat): map<nat, Cell> {
    if Filled(cell) then counts[start := cell] else counts
  }

  /** The remembered sizes after a block, and the record it yields if any. */
  datatype Emitted = Emitted(sizes: map<nat, string>, records: seq<RawRecord>)

  /**
   * A record needs a specification and a truthy price. A sized
   * specification also becomes the block's remembered size; a bare one
   * is put under the remembered size, and without one nothing is yielded.
   */
  function Emit(sizes: map<nat, string>, start: nat, b: BlockInput, count: Option<Cell>): (r: Emitted)
    ensures |r.records| <= 1
    ensures forall k | 0 <= k < |r.records| :: r.records[k].count == count && r.records[k].price == PriceValue(b.price)
  {
    if b.reading.Missing? || !Truthy(b.price) then Emitted(sizes, [])
    else match b.reading
      case Sized(size, thickness) =>
        Emitted(sizes[start := size], [RawRecord(b.spec, thickness, PriceValue(b.price), count)])
      case Bare(thickness) =>
        if start in sizes && sizes[start] != "" then
          Emitted(sizes, [RawRecord(sizes[start] + "*" + b.spec, thickness, PriceValue(b.price), count)])
        else Emitted(sizes, [])
  }

  /** One block of one row: the count cell is remembered first, then the record is decided. */
  function Block(m: Memory, b: BlockInput, start: nat): (r: Step)
    ensures |r.records| <= 1
  {
    var counts := NewCounts(m.counts, b.count, start);
    var e := Emit(m.sizes, start, b, CountOf(counts, start));
    Step(Memory(e.sizes, counts), e.records)
  }

  /** The first `n` blocks of a row, left to right. */
  function RowBlocks(m: Memory, blocks: seq<BlockInput>, n: nat): Step
    requires n <= |blocks|
  {
    if n == 0 then Step(m, [])
    else
      var before := RowBlocks(m, blocks, n - 1);
      var step := Block(before.memory, blocks[n - 1], 3 * (n - 1));
      Step(step.memory, before.records + step.records)
  }

  /** Every row of the sheet cut into its blocks. */
  function CutTable(t: Table): (r: seq<seq<BlockInput>>)
    ensures |r| == |t.rows|
  {
    seq(|t.rows|, i requires 0 <= i < |t.rows| => Cut(t.rows[i], Triples(t.width)))
  }

  /** Rows `ds` up to `end` (exclusive) of the cut sheet, skipping rows with nothing in them. */
  function Rows(t: Table, cuts: seq<seq<BlockInput>>, ds: nat, end: nat): Step
    requires end <= |t.rows| == |cuts|
  {
    if end <= ds then Step(Memory(map[], map[]), [])
    else
      var before := Rows(t, cuts, ds, end - 1);
      if AllEmpty(t.rows[end - 1]) then before
      else
        var step := RowBlocks(before.memory, cuts[end - 1], |cuts[end - 1]|);
        Step(step.memory, before.records + step.records)
  }

  /** `extract`: the header texts of row `h` and the records of rows `ds` onwards. */
  function ZhengdaExtraction(t: Table, h: nat, ds: nat): Result<Extraction> {
    match ColumnHeaders(t, h)
    case Err(e) => Err(e)
    case Ok(headers) => Ok(Extraction(Rows(t, CutTable(t), ds, |t.rows|).records, headers))
  }

  /** The body of the block loop. */
  method BlockStep(sizes: map<nat, string>, counts: map<nat, Cell>, row: seq<Cell>, start: nat)
    returns (sizes': map<nat, string>, counts': map<nat, Cell>, records: seq<RawRecord>)
    requires start + 2 < |row|
    ensures Step(Memory(sizes', counts'), records) == Block(Memory(sizes, counts), BlockAt(row, start), start)
  {
    sizes', counts', records := sizes, counts, [];
    var spec := SpecText(row[start]);
    var price := row[start + 1];
    var countCell := row[start + 2];
    StripEmpty(Render(countCell));
    if countCell != Empty && Strip(Render(countCell)) != "" {
      counts' := counts'[start := countCell];
    }
    var count := CountOf(counts', start);
    if spec == "" || !Truthy(price) {
      return;
    }
    var thickness, fullSpec;
    if '*' in spec {
      SplitAtPresent(spec, '*');
      var parts := Split(spec, {'*'});
      var size := Strip(parts[0]);
      thickness := Strip(parts[1]);
      sizes' := sizes'[start := size];
      fullSpec := spec;
    } else if start in sizes && sizes[start] != "" {
      thickness := spec;
      fullSpec := sizes[start] + "*" + thickness;
    } else {
      return;
    }
    var thicknessRange := FormatThickness(thickness);
    records := [RawRecord(fullSpec, thicknessRange, PriceValue(price), count)];
  }

  /** The block loop over one row. */
  method RowStep(sizes: map<nat, string>, counts: map<nat, Cell>, row: seq<Cell>)
    returns (sizes': map<nat, string>, counts': map<nat, Cell>, records: seq<RawRecord>)
    ensures Step(Memory(sizes', counts'), records) ==
      RowBlocks(Memory(sizes, counts), Cut(row, Triples(|row|)), Triples(|row|))
  {
    sizes', counts', records := sizes, counts, [];
    var start := 0;
    ghost var b := 0;
    while start + 2 < |row|
      invariant start == 3 * b && b <= Triples(|row|)
      invariant Step(Memory(sizes', counts'), records) == RowBlocks(Memory(sizes, counts), Cut(row, Triples(|row|)), b)
    {
      CutAt(row, Triples(|row|), b);
      var more;
      sizes', counts', more := BlockStep(sizes', counts', row, start);
      records := records + more;
      start, b := start + 3, b + 1;
    }
    assert b == Triples(|row|);
  }

  /** A row with nothing in it leaves the memory and the records as they are. */
  lemma RowsSkip(t: Table, ds: nat, i: nat)
    requires ds <= i < |t.rows| && AllEmpty(t.rows[i])
    ensures Rows(t, CutTable(t), ds, i + 1) == Rows(t, CutTable(t), ds, i)
  {
  }

  /** Any other row adds what its block loop yields. */
  lemma RowsNext(t: Table, ds: nat, i: nat, m: Memory, records: seq<RawRecord>, m': Memory, more: seq<RawRecord>)
    requires ds <= i < |t.rows| && !AllEmpty(t.rows[i])
    requires Step(m, records) == Rows(t, CutTable(t), ds, i)
    requires Step(m', more) == RowBlocks(m, Cut(t.rows[i], Triples(|t.rows[i]|)), Triples(|t.rows[i]|))
    ensures Step(m', records + more) == Rows(t, CutTable(t), ds, i + 1)
  {
    assert CutTable(t)[i] == Cut(t.rows[i], Triples(t.width));
  }

  /** The row loop of `extract`, from row `ds` to the last. */
  method ExtractRows(t: Table, ds: nat) returns (records: seq<RawRecord>)
    ensures records == Rows(t, CutTable(t), ds, |t.rows|).records
  {
    records := [];
    if |t.rows| <= ds {
      return;
    }
    var sizes: map<nat, string> := map[];
    var counts: map<nat, Cell> := map[];
    var i := ds;
    while i < |t.rows|
      invariant ds <= i <= |t.rows|
      invariant Step(Memory(sizes, counts), records) == Rows(t, CutTable(t), ds, i)
    {
      if AllEmpty(t.rows[i]) {
        RowsSkip(t, ds, i);
      } else {
        var sizes', counts', more := RowStep(sizes, counts, t.rows[i]);
        RowsNext(t, ds, i, Memory(sizes, counts), records, Memory(sizes', counts'), more);
        sizes, counts, records := sizes', counts', records + more;
      }
      i := i + 1;
    }
  }

  /** `ZhengdaGalvanizedStrategy.extract`. */
  method Extract(t: Table, h: nat, ds: nat) returns (r: Result<Extraction>)
    ensures r == ZhengdaExtraction(t, h, ds)
  {
    var headers := GetColumnHeaders(t, h);
    if headers.Err? {
      return Err(headers.error);
    }
    var records := ExtractRows(t, ds);
    return Ok(Extraction(records, headers.value));
  }

  // ---------------------------------------------------------------------
  // properties

  /** When a block yields a record: a specification, a truthy price, and a size to go with it. */
  lemma EmitWhen(sizes: map<nat, string>, start: nat, spec: string, price: Cell, count: Cell, counted: Option<Cell>)
    ensures var b := BlockInput(spec, ReadSpec(spec), price, count);
      Emit(sizes, start, b, counted).records != [] <==>
        spec != "" && Truthy(price) && ('*' in spec || (start in sizes && sizes[start] != ""))
  {
  }

  /** A '*' in the specification, and a filled count cell if any. */
  predicate Shaped(rec: RawRecord) {
    '*' in rec.spec && (rec.count.Some? ==> Filled(rec.count.value))
  }

  /** What every record of the layout looks like. */
  predicate Sound(rec: RawRecord) {
    Shaped(rec) && Formatted(rec.thickness)
  }

  /*
   * The fold lemmas below take the property of thickness texts as a
   * parameter `ok`: a record's thickness is always the thickness of the
   * reading of its block, whatever that property is.
   */

  /** A block whose reading agrees with its specification text, with thicknesses satisfying `ok`. */
  predicate InputSound(b: BlockInput, ok: string -> bool) {
    (b.reading.Sized? ==> '*' in b.spec)
    && (!b.reading.Missing? ==> ok(b.reading.thickness))
  }

  predicate RecordSound(rec: RawRecord, ok: string -> bool) {
    Shaped(rec) && ok(rec.thickness)
  }

  lemma ReadSpecSound(spec: string, price: Cell, count: Cell)
    ensures InputSound(BlockInput(spec, ReadSpec(spec), price, count), Formatted)
  {
    if spec != "" {
      if '*' in spec {
        SplitAtPresent(spec, '*');
        FormattedThicknessIdempotent(Strip(Split(spec, {'*'})[1]));
      } else {
        FormattedThicknessIdempotent(spec);
      }
    }
  }

  /** Every block of the cut sheet reads soundly, and carries its row's count cell. */
  lemma CutTableSound(t: Table)
    ensures forall i | 0 <= i < |t.rows| :: |CutTable(t)[i]| == Triples(t.width)
    ensures forall i, j | 0 <= i < |t.rows| && 0 <= j < |CutTable(t)[i]| ::
      InputSound(CutTable(t)[i][j], Formatted) && CutTable(t)[i][j].count == t.rows[i][3 * j + 2]
  {
    forall i, j | 0 <= i < |t.rows| && 0 <= j < |CutTable(t)[i]|
      ensures InputSound(CutTable(t)[i][j], Formatted) && CutTable(t)[i][j].count == t.rows[i][3 * j + 2]
    {
      var row := t.rows[i];
      CutAt(row, Triples(t.width), j);
      ReadSpecSound(SpecText(row[3 * j]), row[3 * j + 1], row[3 * j + 2]);
    }
  }

  /** Only filled count cells are ever remembered. */
  predicate CountsFilled(m: Memory) {
    forall k | k in m.counts :: Filled(m.counts[k])
  }

  lemma EmitSound(sizes: map<nat, string>, start: nat, b: BlockInput, count: Option<Cell>, ok: string -> bool)
    requires InputSound(b, ok) && (count.Some? ==> Filled(count.value))
    ensures forall k | 0 <= k < |Emit(sizes, start, b, count).records| ::
      RecordSound(Emit(sizes, start, b, count).records[k], ok)
  {
    if b.reading.Bare? && Truthy(b.price) && start in sizes && sizes[start] != "" {
      var full := sizes[start] + "*" + b.spec;
      assert full[|sizes[start]|] == '*';
    }
  }

  lemma BlockSound(m: Memory, b: BlockInput, start: nat, ok: string -> bool)
    requires InputSound(b, ok) && CountsFilled(m)
    ensures CountsFilled(Block(m, b, start).memory)
    ensures forall k | 0 <= k < |Block(m, b, start).records| :: RecordSound(Block(m, b, start).records[k], ok)
  {
    EmitSound(m.sizes, start, b, CountOf(NewCounts(m.counts, b.count, start), start), ok);
  }

  lemma {:induction false} RowBlocksSound(m: Memory, blocks: seq<BlockInput>, n: nat, ok: string -> bool)
    requires n <= |blocks| && CountsFilled(m)
    requires forall j | 0 <= j < |blocks| :: InputSound(blocks[j], ok)
    ensures CountsFilled(RowBlocks(m, blocks, n).memory)
    ensures forall k | 0 <= k < |RowBlocks(m, blocks, n).records| :: RecordSound(RowBlocks(m, blocks, n).records[k], ok)
  {
    if n > 0 {
      RowBlocksSound(m, blocks, n - 1, ok);
      BlockSound(RowBlocks(m, blocks, n - 1).memory, blocks[n - 1], 3 * (n - 1), ok);
    }
  }

  lemma {:induction false} RowsSound(t: Table, cuts: seq<seq<BlockInput>>, ds: nat, end: nat, ok: string -> bool)
    requires end <= |t.rows| == |cuts|
    requires forall i, j | 0 <= i < |cuts| && 0 <= j < |cuts[i]| :: InputSound(cuts[i][j], ok)
    ensures CountsFilled(Rows(t, cuts, ds, end).memory)
    ensures forall k | 0 <= k < |Rows(t, cuts, ds, end).records| :: RecordSound(Rows(t, cuts, ds, end).records[k], ok)
  {
    if end > ds {
      RowsSound(t, cuts, ds, end - 1, ok);
      if !AllEmpty(t.rows[end - 1]) {
        RowBlocksSound(Rows(t, cuts, ds, end - 1).memory, cuts[end - 1], |cuts[end - 1]|, ok);
      }
    }
  }

  /** Every specification the layout yields holds a '*', every thickness is already formatted, every count is filled. */
  lemma ZhengdaRecordsSound(t: Table, h: nat, ds: nat)
    requires ZhengdaExtraction(t, h, ds).Ok?
    ensures forall k | 0 <= k < |ZhengdaExtraction(t, h, ds).value.records| ::
      Sound(ZhengdaExtraction(t, h, ds).value.records[k])
  {
    CutTableSound(t);
    RowsSound(t, CutTable(t), ds, |t.rows|, Formatted);
  }

  /** The filled count cell nearest above row `end` (exclusive) in column `col`, from row `ds` on. */
  function LatestFilled(t: Table, ds: nat, end: nat, col: nat): Option<Cell>
    requires end <= |t.rows| && col < t.width
  {
    if end <= ds then None
    else if Filled(t.rows[end - 1][col]) then Some(t.rows[end - 1][col])
    else LatestFilled(t, ds, end - 1, col)
  }

  /** The remembered counts after the first `n` blocks of a row: only the count cells matter. */
  function RowCounts(counts: map<nat, Cell>, row: seq<Cell>, n: nat): map<nat, Cell>
    requires 3 * n <= |row|
  {
    if n == 0 then counts
    else NewCounts(RowCounts(counts, row, n - 1), row[3 * (n - 1) + 2], 3 * (n - 1))
  }

  /** The remembered counts after rows `ds` to `end` (exclusive). */
  function RowsCounts(t: Table, ds: nat, end: nat): map<nat, Cell>
    requires end <= |t.rows|
  {
    if end <= ds then map[]
    else
      var row := t.rows[end - 1];
      if AllEmpty(row) then RowsCounts(t, ds, end - 1)
      else RowCounts(RowsCounts(t, ds, end - 1), row, Triples(|row|))
  }

  lemma {:induction false} RowBlocksMemoryCounts(m: Memory, row: seq<Cell>, blocks: seq<BlockInput>, n: nat)
    requires 3 * n <= |row| && n <= |blocks|
    requires forall j | 0 <= j < n :: blocks[j].count == row[3 * j + 2]
    ensures RowBlocks(m, blocks, n).memory.counts == RowCounts(m.counts, row, n)
  {
    if n > 0 {
      RowBlocksMemoryCounts(m, row, blocks, n - 1);
    }
  }

  lemma {:induction false} RowsMemoryCounts(t: Table, cuts: seq<seq<BlockInput>>, ds: nat, end: nat)
    requires end <= |t.rows| == |cuts|
    requires forall i | 0 <= i < |cuts| :: |cuts[i]| == Triples(t.width)
    requires forall i, j | 0 <= i < |cuts| && 0 <= j < |cuts[i]| && j < Triples(t.width) ::
      cuts[i][j].count == t.rows[i][3 * j + 2]
    ensures Rows(t, cuts, ds, end).memory.counts == RowsCounts(t, ds, end)
  {
    if end > ds {
      RowsMemoryCounts(t, cuts, ds, end - 1);
      if !AllEmpty(t.rows[end - 1]) {
        RowBlocksMemoryCounts(Rows(t, cuts, ds, end - 1).memory, t.rows[end - 1], cuts[end - 1], Triples(t.width));
      }
    }
  }

  /** Within a row, block `j`'s count is replaced by its own count cell when that is filled. */
  lemma {:induction false} RowCountsAt(counts: map<nat, Cell>, row: seq<Cell>, n: nat, j: nat)
    requires 3 * n <= |row|
    ensures CountOf(RowCounts(counts, row, n), 3 * j) ==
      if j < n && Filled(row[3 * j + 2]) then Some(row[3 * j + 2]) else CountOf(counts, 3 * j)
  {
    if n > 0 {
      RowCountsAt(counts, row, n - 1, j);
    }
  }

  lemma {:induction false} RowsCountsTrack(t: Table, ds: nat, end: nat, j: nat)
    requires end <= |t.rows| && j < Triples(t.width)
    ensures CountOf(RowsCounts(t, ds, end), 3 * j) == LatestFilled(t, ds, end, 3 * j + 2)
  {
    if end > ds {
      RowsCountsTrack(t, ds, end - 1, j);
      var row := t.rows[end - 1];
      if !AllEmpty(row) {
        RowCountsAt(RowsCounts(t, ds, end - 1), row, Triples(|row|), j);
      }
    }
  }

  /**
   * After rows `ds` to `end`, the count a block remembers is the nearest
   * filled count cell above in that block's count column, or none.
   */
  lemma CountsTrack(t: Table, ds: nat, end: nat, j: nat)
    requires end <= |t.rows| && j < Triples(t.width)
    ensures CountOf(Rows(t, CutTable(t), ds, end).memory.counts, 3 * j) == LatestFilled(t, ds, end, 3 * j + 2)
  {
    CutTableSound(t);
    RowsMemoryCounts(t, CutTable(t), ds, end);
    RowsCountsTrack(t, ds, end, j);
  }

  /** Every record carries the count its block remembers once its own count cell is read. */
  lemma BlockRecordCount(m: Memory, b: BlockInput, start: nat)
    ensures forall k | 0 <= k < |Block(m, b, start).records| ::
      Block(m, b, start).records[k].count == CountOf(Block(m, b, start).memory.counts, start)
  {
  }

  /** The size remembered for a block, if any. */
  function SizeOf(sizes: map<nat, string>, start: nat): Option<string> {
    if start in sizes then Some(sizes[start]) else None
  }

  /** A block remembers a new size when its specification holds a '*' and its price is truthy. */
  predicate SetsSize(b: BlockInput) {
    b.reading.Sized? && Truthy(b.price)
  }

  /** Block `j` of row `i` sets a size exactly when its specification cell holds a '*' and its price cell is truthy; the size is the stripped text before the first '*'. */
  lemma CutSetsSize(t: Table, i: nat, j: nat)
    requires i < |t.rows| && j < Triples(t.width)
    ensures SetsSize(CutTable(t)[i][j]) <==> '*' in SpecText(t.rows[i][3 * j]) && Truthy(t.rows[i][3 * j + 1])
    ensures SetsSize(CutTable(t)[i][j]) ==>
      CutTable(t)[i][j].reading.size == Strip(Split(SpecText(t.rows[i][3 * j]), {'*'})[0])
  {
    CutAt(t.rows[i], Triples(t.width), j);
  }

  /**
   * The size set by block `j` of the nearest row above `end` (exclusive),
   * from row `ds` on, that has something in it and whose block `j` sets one.
   */
  function LatestSize(t: Table, cuts: seq<seq<BlockInput>>, ds: nat, end: nat, j: nat): Option<string>
    requires end <= |t.rows| == |cuts|
  {
    if end <= ds then None
    else if !AllEmpty(t.rows[end - 1]) && j < |cuts[end - 1]| && SetsSize(cuts[end - 1][j]) then
      Some(cuts[end - 1][j].reading.size)
    else LatestSize(t, cuts, ds, end - 1, j)
  }

  /** A block changes the remembered sizes only at its own start, and only when it sets a size. */
  lemma EmitSizes(sizes: map<nat, string>, start: nat, b: BlockInput, count: Option<Cell>, at: nat)
    ensures SizeOf(Emit(sizes, start, b, count).sizes, at) ==
      if at == start && SetsSize(b) then Some(b.reading.size) else SizeOf(sizes, at)
  {
  }

  /** Within a row, block `j`'s size is replaced only by block `j` itself. */
  lemma {:induction false} RowBlocksSizesAt(m: Memory, blocks: seq<BlockInput>, n: nat, j: nat)
    requires n <= |blocks|
    ensures SizeOf(RowBlocks(m, blocks, n).memory.sizes, 3 * j) ==
      if j < n && SetsSize(blocks[j]) then Some(blocks[j].reading.size) else SizeOf(m.sizes, 3 * j)
  {
    if n > 0 {
      RowBlocksSizesAt(m, blocks, n - 1, j);
      EmitSizes(RowBlocks(m, blocks, n - 1).memory.sizes, 3 * (n - 1), blocks[n - 1],
        CountOf(NewCounts(RowBlocks(m, blocks, n - 1).memory.counts, blocks[n - 1].count, 3 * (n - 1)), 3 * (n - 1)), 3 * j);
    }
  }

  lemma {:induction false} RowsSizesTrack(t: Table, cuts: seq<seq<BlockInput>>, ds: nat, end: nat, j: nat)
    requires end <= |t.rows| == |cuts|
    ensures SizeOf(Rows(t, cuts, ds, end).memory.sizes, 3 * j) == LatestSize(t, cuts, ds, end, j)
  {
    if end > ds {
      RowsSizesTrack(t, cuts, ds, end - 1, j);
      if !AllEmpty(t.rows[end - 1]) {
        RowBlocksSizesAt(Rows(t, cuts, ds, end - 1).memory, cuts[end - 1], |cuts[end - 1]|, j);
      }
    }
  }

  /**
   * After rows `ds` to `end`, the size a block remembers is the one given
   * by the nearest sized specification with a truthy price above in that
   * block, or none.
   */
  lemma SizesTrack(t: Table, ds: nat, end: nat, j: nat)
    requires end <= |t.rows|
    ensures SizeOf(Rows(t, CutTable(t), ds, end).memory.sizes, 3 * j) == LatestSize(t, CutTable(t), ds, end, j)
  {
    RowsSizesTrack(t, CutTable(t), ds, end, j);
  }

  /**
   * A bare specification with a truthy price is put under the size its
   * block remembers, and yields nothing when that size is missing or empty.
   */
  lemma BareUsesSize(sizes: map<nat, string>, start: nat, b: BlockInput, count: Option<Cell>)
    requires b.reading.Bare? && Truthy(b.price)
    ensures Emit(sizes, start, b, count).sizes == sizes
    ensures Emit(sizes, start, b, count).records ==
      if SizeOf(sizes, start).Some? && SizeOf(sizes, start).value != "" then
        [RawRecord(SizeOf(sizes, start).value + "*" + b.spec, b.reading.thickness, PriceValue(b.price), count)]
      else []
  {
  }

  /**
   * In the fold, block `j` of a non-empty row `i` with a bare specification
   * and a truthy price yields a record exactly when the latest size set in
   * that block by a row above is non-empty, and its specification is that
   * size, a '*' and the bare specification.
   */
  lemma BareRecordSize(t: Table, ds: nat, i: nat, j: nat)
    requires ds <= i < |t.rows| && j < Triples(t.width)
    requires CutTable(t)[i][j].reading.Bare? && Truthy(CutTable(t)[i][j].price)
    ensures var m := RowBlocks(Rows(t, CutTable(t), ds, i).memory, CutTable(t)[i], j).memory;
      var recs := Block(m, CutTable(t)[i][j], 3 * j).records;
      (recs != [] <==> LatestSize(t, CutTable(t), ds, i, j).Some? && LatestSize(t, CutTable(t), ds, i, j).value != "")
      && forall k | 0 <= k < |recs| ::
        recs[k].spec == LatestSize(t, CutTable(t), ds, i, j).value + "*" + CutTable(t)[i][j].spec
  {
    CutTableSound(t);
    SizesTrack(t, ds, i, j);
    RowBlocksSizesAt(Rows(t, CutTable(t), ds, i).memory, CutTable(t)[i], j, j);
  }

  /**
   * A sized specification with a truthy price yields one record carrying
   * the whole specification and the reading's thickness, and becomes the
   * size its block remembers.
   */
  lemma SizedEmits(sizes: map<nat, string>, start: nat, b: BlockInput, count: Option<Cell>)
    requires b.reading.Sized? && Truthy(b.price)
    ensures Emit(sizes, start, b, count).sizes == sizes[start := b.reading.size]
    ensures Emit(sizes, start, b, count).records == [RawRecord(b.spec, b.reading.thickness, PriceValue(b.price), count)]
  {
  }

  /**
   * Block `j` of row `i` whose specification cell holds a '*' and whose
   * price cell is truthy yields exactly one record: its specification is
   * the cell's stripped text, its thickness the formatted, stripped text
   * after the first '*', its price the price cell's and its count the one
   * remembered once the block's count cell is read. The stripped text
   * before the first '*' becomes the block's size.
   */
  lemma SizedRecord(t: Table, m: Memory, i: nat, j: nat)
    requires i < |t.rows| && j < Triples(t.width)
    requires '*' in SpecText(t.rows[i][3 * j]) && Truthy(t.rows[i][3 * j + 1])
    ensures |Split(SpecText(t.rows[i][3 * j]), {'*'})| >= 2
    ensures Block(m, CutTable(t)[i][j], 3 * j).records ==
      [RawRecord(SpecText(t.rows[i][3 * j]),
                 FormattedThickness(Strip(Split(SpecText(t.rows[i][3 * j]), {'*'})[1])),
                 PriceValue(t.rows[i][3 * j + 1]),
                 CountOf(NewCounts(m.counts, t.rows[i][3 * j + 2], 3 * j), 3 * j))]
    ensures Block(m, CutTable(t)[i][j], 3 * j).memory.sizes ==
      m.sizes[3 * j := Strip(Split(SpecText(t.rows[i][3 * j]), {'*'})[0])]
  {
    SplitAtPresent(SpecText(t.rows[i][3 * j]), '*');
    CutAt(t.rows[i], Triples(t.width), j);
    SizedEmits(m.sizes, 3 * j, CutTable(t)[i][j],
      CountOf(NewCounts(m.counts, CutTable(t)[i][j].count, 3 * j), 3 * j));
  }
}
