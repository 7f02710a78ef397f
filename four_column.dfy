/**
 * The four-column layout (FourColumnStrategy in
 * data_processor/strategies.py): blocks of square-tube specifications,
 * rectangular-tube specifications, thickness and price repeated across
 * the sheet. Each of the two specification columns remembers the last
 * list given in it, and a block uses its square specifications followed
 * by its rectangular ones.
 */
module FourColumn {
  import opened Wrappers
  import opened Numbers
  import opened Cells
  import opened Utils
  import opened Sheet
  import opened Seqs
  import opened SpecMemory

  const Labels: seq<string> := ["方管", "矩管", "厚度", "价格"]

  /** `match`: the first of the first 20 rows naming square tube, rectangular tube, thickness and price. */
  function FourColumnLayout(t: Table): (r: Option<Layout>)
    ensures r.Some? ==> r.value.header < Min(20, |t.rows|) && r.value.dataStart == r.value.header + 1
    ensures r.Some? ==> HasLabels(t.rows[r.value.header], Labels)
    ensures r.Some? ==> forall i | 0 <= i < r.value.header :: !HasLabels(t.rows[i], Labels)
    ensures r.None? ==> forall i | 0 <= i < Min(20, |t.rows|) :: !HasLabels(t.rows[i], Labels)
  {
    match FirstLabelledRow(t, Labels, 20)
    case None => None
    case Some(i) => Some(Layout(i, i + 1))
  }

  method Match(t: Table) returns (r: Option<Layout>)
    ensures r == FourColumnLayout(t)
  {
    var found := ScanForLabels(t, Labels, 20);
    if found.Some? {
      return Some(Layout(found.value, found.value + 1));
    }
    return None;
  }

  /** One block of a row: the square and rectangular specifications its cells list, its thickness and its price. */
  datatype Quad = Quad(square: seq<string>, rect: seq<string>, thickness: Option<string>, price: Option<Dec>)

  function QuadAt(row: seq<Cell>, start: nat): Quad
    requires start + 3 < |row|
  {
    Quad(SpecValues(row[start]), SpecValues(row[start + 1]), ThicknessOf(row[start + 2]), PriceOf(row[start + 3]))
  }

  /** The first `n` blocks of a row, left to right; block `j` starts at column `4 * j`. */
  function Cut(row: seq<Cell>, n: nat): (r: seq<Quad>)
    requires 4 * n <= |row|
    ensures |r| == n
  {
    Build(n, (j: nat) requires 4 * j + 3 < |row| => QuadAt(row, 4 * j))
  }

  lemma CutAt(row: seq<Cell>, n: nat, j: nat)
    requires 4 * n <= |row| && j < n
    ensures Cut(row, n)[j] == QuadAt(row, 4 * j)
  {
    BuildAt(n, (j: nat) requires 4 * j + 3 < |row| => QuadAt(row, 4 * j), j);
  }

  /** Every row of the sheet cut into its blocks. */
  function CutTable(t: Table): (r: seq<seq<Quad>>)
    ensures |r| == |t.rows|
  {
    seq(|t.rows|, i requires 0 <= i < |t.rows| => Cut(t.rows[i], Quads(t.width)))
  }

  /** The remembered specifications after some blocks, and the records they yielded. */
  datatype Step = Step(memory: Memory, records: seq<RawRecord>)

  /** What the two specification columns of the block starting at `start` remember, square first. */
  function BlockSpecs(m: Memory, start: nat): seq<string> {
    SpecsOf(m, start) + SpecsOf(m, start + 1)
  }

  /**
   * One block: each specification column remembers its own list when it
   * has one, and every specification the two columns then remember,
   * square ones first, gives a record, as long as the thickness and the
   * price are present.
   */
  function BlockMemory(m: Memory, b: Quad, start: nat): Memory {
    Remember(Remember(m, start, b.square), start + 1, b.rect)
  }

  function Block(m: Memory, b: Quad, start: nat): Step {
    var after := BlockMemory(m, b, start);
    Step(after, Records(BlockSpecs(after, start), b.thickness, b.price))
  }

  /**
   * A block yields records exactly when its two columns then remember
   * some specifications and both its thickness and price are present: one
   * record per remembered specification, square ones first. No other
   * column's memory changes.
   */
  lemma BlockEffect(m: Memory, b: Quad, start: nat)
    ensures var r := Block(m, b, start);
      && (r.records != [] <==> BlockSpecs(r.memory, start) != [] && b.thickness.Some? && b.price.Some?)
      && (r.records != [] ==> |r.records| == |BlockSpecs(r.memory, start)| && forall k | 0 <= k < |r.records| ::
            r.records[k].spec == BlockSpecs(r.memory, start)[k]
            && r.records[k].thickness == b.thickness.value && r.records[k].price == b.price.value)
      && forall col | col != start && col != start + 1 :: SpecsOf(r.memory, col) == SpecsOf(m, col)
  {
    RememberElsewhere(Remember(m, start, b.square), start + 1, b.rect, start);
  }

  /** The first `n` blocks of a row, left to right. */
  function RowBlocks(m: Memory, blocks: seq<Quad>, n: nat): Step
    requires n <= |blocks|
  {
    if n == 0 then Step(m, [])
    else
      var before := RowBlocks(m, blocks, n - 1);
      var step := Block(before.memory, blocks[n - 1], 4 * (n - 1));
      Step(step.memory, before.records + step.records)
  }

  /** Rows `ds` up to `end` (exclusive) of the cut sheet, skipping rows with nothing in them. */
  function Rows(t: Table, cuts: seq<seq<Quad>>, ds: nat, end: nat): Step
    requires end <= |t.rows| == |cuts|
  {
    if end <= ds then Step(map[], [])
    else
      var before := Rows(t, cuts, ds, end - 1);
      if AllEmpty(t.rows[end - 1]) then before
      else
        var step := RowBlocks(before.memory, cuts[end - 1], |cuts[end - 1]|);
        Step(step.memory, before.records + step.records)
  }

  /** `extract`: the header texts of row `h` and the records of rows `ds` onwards. */
  function FourColumnExtraction(t: Table, h: nat, ds: nat): Result<Extraction> {
    match ColumnHeaders(t, h)
    case Err(e) => Err(e)
    case Ok(headers) => Ok(Extraction(Rows(t, CutTable(t), ds, |t.rows|).records, headers))
  }

  /** The body of the block loop. */
  method BlockStep(m: Memory, row: seq<Cell>, start: nat, ghost n: nat, ghost j: nat)
    returns (m': Memory, records: seq<RawRecord>)
    requires 4 * n <= |row| && j < n && start == 4 * j
    ensures Step(m', records) == Block(m, Cut(row, n)[j], start)
  {
    CutAt(row, n, j);
    var squares, rects;
    m', squares := ReadSpecColumn(m, row[start], start);
    RememberElsewhere(m', start + 1, SpecValues(row[start + 1]), start);
    m', rects := ReadSpecColumn(m', row[start + 1], start + 1);
    records := EmitRecords(squares + rects, row[start + 2], row[start + 3]);
  }

  /** One more block of a row adds what it yields to what came before. */
  lemma RowBlocksNext(m: Memory, blocks: seq<Quad>, n: nat, m1: Memory, records: seq<RawRecord>, m2: Memory, more: seq<RawRecord>)
    requires n < |blocks|
    requires Step(m1, records) == RowBlocks(m, blocks, n)
    requires Step(m2, more) == Block(m1, blocks[n], 4 * n)
    ensures Step(m2, records + more) == RowBlocks(m, blocks, n + 1)
  {
  }

  /** The block loop over one row. */
  method RowStep(m: Memory, row: seq<Cell>) returns (m': Memory, records: seq<RawRecord>)
    ensures Step(m', records) == RowBlocks(m, Cut(row, Quads(|row|)), Quads(|row|))
  {
    m', records := m, [];
    var start := 0;
    ghost var b := 0;
    while start + 3 < |row|
      invariant start == 4 * b && b <= Quads(|row|)
      invariant Step(m', records) == RowBlocks(m, Cut(row, Quads(|row|)), b)
    {
      var m2, more := BlockStep(m', row, start, Quads(|row|), b);
      RowBlocksNext(m, Cut(row, Quads(|row|)), b, m', records, m2, more);
      m', records := m2, records + more;
      start, b := start + 4, b + 1;
    }
    QuadsExit(|row|, b);
  }

  /** A row with nothing in it leaves the memory and the records as they are. */
  lemma RowsSkip(t: Table, ds: nat, i: nat)
    requires ds <= i < |t.rows| && AllEmpty(t.rows[i])
    ensures Rows(t, CutTable(t), ds, i + 1) == Rows(t, CutTable(t), ds, i)
  {
  }

  /** Any other row adds what its block loop yields. */
  lemma RowsNext(t: Table, ds: nat, i: nat, m: Memory, records: seq<RawRecord>, m': Memory, more: seq<RawRecord>)
    requires ds <= i < |t.rows| && !AllEmpty(t.rows[i])
    requires Step(m, records) == Rows(t, CutTable(t), ds, i)
    requires Step(m', more) == RowBlocks(m, Cut(t.rows[i], Quads(|t.rows[i]|)), Quads(|t.rows[i]|))
    ensures Step(m', records + more) == Rows(t, CutTable(t), ds, i + 1)
  {
    assert CutTable(t)[i] == Cut(t.rows[i], Quads(t.width));
  }

  /** The row loop of `extract`, from row `ds` to the last. */
  method ExtractRows(t: Table, ds: nat) returns (records: seq<RawRecord>)
    ensures records == Rows(t, CutTable(t), ds, |t.rows|).records
  {
    records := [];
    if |t.rows| <= ds {
      return;
    }
    var m: Memory := map[];
    var i := ds;
    while i < |t.rows|
      invariant ds <= i <= |t.rows|
      invariant Step(m, records) == Rows(t, CutTable(t), ds, i)
    {
      if AllEmpty(t.rows[i]) {
        RowsSkip(t, ds, i);
      } else {
        var m', more := RowStep(m, t.rows[i]);
        RowsNext(t, ds, i, m, records, m', more);
        m, records := m', records + more;
      }
      i := i + 1;
    }
  }

  /** `FourColumnStrategy.extract`. */
  method Extract(t: Table, h: nat, ds: nat) returns (r: Result<Extraction>)
    ensures r == FourColumnExtraction(t, h, ds)
  {
    var headers := GetColumnHeaders(t, h);
    if headers.Err? {
      return Err(headers.error);
    }
    var records := ExtractRows(t, ds);
    return Ok(Extraction(records, headers.value));
  }

  // ---------------------------------------------------------------------
  // properties

  /** What every record of the layout looks like. */
  predicate Sound(rec: RawRecord) {
    RecordSound(rec, CleanSpec, Formatted)
  }

  predicate QuadSound(b: Quad, okSpec: string -> bool, okThickness: string -> bool) {
    SpecsSound(b.square, okSpec) && SpecsSound(b.rect, okSpec)
    && (b.thickness.Some? ==> okThickness(b.thickness.value))
  }

  /** Every block of the cut sheet lists clean specifications and a formatted thickness. */
  lemma CutTableSound(t: Table)
    ensures forall i | 0 <= i < |t.rows| :: |CutTable(t)[i]| == Quads(t.width)
    ensures forall i, j | 0 <= i < |t.rows| && 0 <= j < |CutTable(t)[i]| ::
      QuadSound(CutTable(t)[i][j], CleanSpec, Formatted)
  {
    forall i, j | 0 <= i < |t.rows| && 0 <= j < |CutTable(t)[i]|
      ensures QuadSound(CutTable(t)[i][j], CleanSpec, Formatted)
    {
      var row := t.rows[i];
      CutAt(row, Quads(t.width), j);
      SpecValuesClean(row[4 * j]);
      SpecValuesClean(row[4 * j + 1]);
      ThicknessOfFormatted(row[4 * j + 2]);
    }
  }

  lemma BlockSound(m: Memory, b: Quad, start: nat, okSpec: string -> bool, okThickness: string -> bool)
    requires QuadSound(b, okSpec, okThickness) && MemorySound(m, okSpec)
    ensures MemorySound(Block(m, b, start).memory, okSpec)
    ensures forall k | 0 <= k < |Block(m, b, start).records| ::
      RecordSound(Block(m, b, start).records[k], okSpec, okThickness)
  {
    var squares := Remember(m, start, b.square);
    RememberSound(m, start, b.square, okSpec);
    RememberSound(squares, start + 1, b.rect, okSpec);
    var use := InUse(m, start, b.square) + InUse(squares, start + 1, b.rect);
    assert SpecsSound(use, okSpec);
    RecordsSound(use, b.thickness, b.price, okSpec, okThickness);
  }

  lemma {:induction false} RowBlocksSound(m: Memory, blocks: seq<Quad>, n: nat,
                                          okSpec: string -> bool, okThickness: string -> bool)
    requires n <= |blocks| && MemorySound(m, okSpec)
    requires forall j | 0 <= j < |blocks| :: QuadSound(blocks[j], okSpec, okThickness)
    ensures MemorySound(RowBlocks(m, blocks, n).memory, okSpec)
    ensures forall k | 0 <= k < |RowBlocks(m, blocks, n).records| ::
      RecordSound(RowBlocks(m, blocks, n).records[k], okSpec, okThickness)
  {
    if n > 0 {
      RowBlocksSound(m, blocks, n - 1, okSpec, okThickness);
      BlockSound(RowBlocks(m, blocks, n - 1).memory, blocks[n - 1], 4 * (n - 1), okSpec, okThickness);
    }
  }

  lemma {:induction false} RowsSound(t: Table, cuts: seq<seq<Quad>>, ds: nat, end: nat,
                                     okSpec: string -> bool, okThickness: string -> bool)
    requires end <= |t.rows| == |cuts|
    requires forall i, j | 0 <= i < |cuts| && 0 <= j < |cuts[i]| :: QuadSound(cuts[i][j], okSpec, okThickness)
    ensures MemorySound(Rows(t, cuts, ds, end).memory, okSpec)
    ensures forall k | 0 <= k < |Rows(t, cuts, ds, end).records| ::
      RecordSound(Rows(t, cuts, ds, end).records[k], okSpec, okThickness)
  {
    if end > ds {
      RowsSound(t, cuts, ds, end - 1, okSpec, okThickness);
      if !AllEmpty(t.rows[end - 1]) {
        RowBlocksSound(Rows(t, cuts, ds, end - 1).memory, cuts[end - 1], |cuts[end - 1]|, okSpec, okThickness);
      }
    }
  }

  /** Every specification the layout yields is clean, every thickness already formatted, and no count is given. */
  lemma FourColumnRecordsSound(t: Table, h: nat, ds: nat)
    requires FourColumnExtraction(t, h, ds).Ok?
    ensures forall k | 0 <= k < |FourColumnExtraction(t, h, ds).value.records| ::
      Sound(FourColumnExtraction(t, h, ds).value.records[k])
  {
    CutTableSound(t);
    RowsSound(t, CutTable(t), ds, |t.rows|, CleanSpec, Formatted);
  }

  /** The specifications a block lists in its square (`side` 0) or rectangular (`side` 1) column. */
  function Side(b: Quad, side: nat): seq<string>
    requires side < 2
  {
    if side == 0 then b.square else b.rect
  }

  /**
   * The specifications in column `4 * j + side` nearest above row `end`
   * (exclusive), from row `ds` on: those of the lowest row that lists some there.
   */
  function LatestSpecs(t: Table, cuts: seq<seq<Quad>>, ds: nat, end: nat, j: nat, side: nat): seq<string>
    requires end <= |t.rows| == |cuts| && side < 2
    requires forall i | 0 <= i < |cuts| :: j < |cuts[i]|
  {
    if end <= ds then []
    else if !AllEmpty(t.rows[end - 1]) && Side(cuts[end - 1][j], side) != [] then Side(cuts[end - 1][j], side)
    else LatestSpecs(t, cuts, ds, end - 1, j, side)
  }

  /** The memory after the first `n` blocks of a row. */
  function RowMemory(m: Memory, blocks: seq<Quad>, n: nat): Memory
    requires n <= |blocks|
  {
    if n == 0 then m else BlockMemory(RowMemory(m, blocks, n - 1), blocks[n - 1], 4 * (n - 1))
  }

  lemma {:induction false} RowBlocksMemory(m: Memory, blocks: seq<Quad>, n: nat)
    requires n <= |blocks|
    ensures RowBlocks(m, blocks, n).memory == RowMemory(m, blocks, n)
  {
    if n > 0 {
      RowBlocksMemory(m, blocks, n - 1);
    }
  }

  /** Within a row, a specification column's memory is replaced by its own list when it has one. */
  lemma {:induction false} RowMemoryAt(m: Memory, blocks: seq<Quad>, n: nat, j: nat, side: nat)
    requires n <= |blocks| && side < 2
    ensures SpecsOf(RowMemory(m, blocks, n), 4 * j + side) ==
      if j < n && Side(blocks[j], side) != [] then Side(blocks[j], side) else SpecsOf(m, 4 * j + side)
  {
    if n > 0 {
      RowMemoryAt(m, blocks, n - 1, j, side);
    }
  }

  lemma {:induction false} RowsSpecsTrack(t: Table, cuts: seq<seq<Quad>>, ds: nat, end: nat, j: nat, side: nat)
    requires end <= |t.rows| == |cuts| && side < 2
    requires forall i | 0 <= i < |cuts| :: j < |cuts[i]|
    ensures SpecsOf(Rows(t, cuts, ds, end).memory, 4 * j + side) == LatestSpecs(t, cuts, ds, end, j, side)
  {
    if end > ds {
      RowsSpecsTrack(t, cuts, ds, end - 1, j, side);
      if !AllEmpty(t.rows[end - 1]) {
        RowBlocksMemory(Rows(t, cuts, ds, end - 1).memory, cuts[end - 1], |cuts[end - 1]|);
        RowMemoryAt(Rows(t, cuts, ds, end - 1).memory, cuts[end - 1], |cuts[end - 1]|, j, side);
      }
    }
  }

  /**
   * A block of the cut sheet lists the specifications `parse_spec_cell`
   * reads from its two cells, and carries the formatted thickness of its
   * third cell and the price of its fourth, each missing when its cell is.
   */
  lemma CutTableSpecs(t: Table, i: nat, j: nat)
    requires i < |t.rows| && j < Quads(t.width)
    ensures CutTable(t)[i][j].square == SpecValues(t.rows[i][4 * j])
    ensures CutTable(t)[i][j].rect == SpecValues(t.rows[i][4 * j + 1])
    ensures CutTable(t)[i][j].thickness == ThicknessOf(t.rows[i][4 * j + 2])
    ensures CutTable(t)[i][j].price == PriceOf(t.rows[i][4 * j + 3])
  {
    CutAt(t.rows[i], Quads(t.width), j);
  }

  /**
   * After rows `ds` to `end`, each specification column of block `j`
   * remembers the list of the lowest non-empty row above that gives one
   * in that column (see `CutTableSpecs` for what a row gives).
   */
  lemma SpecsTrack(t: Table, ds: nat, end: nat, j: nat, side: nat)
    requires end <= |t.rows| && j < Quads(t.width) && side < 2
    ensures SpecsOf(Rows(t, CutTable(t), ds, end).memory, 4 * j + side) == LatestSpecs(t, CutTable(t), ds, end, j, side)
  {
    RowsSpecsTrack(t, CutTable(t), ds, end, j, side);
  }
}
