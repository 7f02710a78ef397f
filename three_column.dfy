/**
 * The standard three-column layout (ThreeColumnStrategy in
 * data_processor/strategies.py): blocks of specification, thickness and
 * price repeated across the sheet. A specification cell may list several
 * specifications; a block whose cell lists none uses the list last given
 * in its column.
 */
module ThreeColumn {
  import opened Wrappers
  import opened Numbers
  import opened Cells
  import opened Utils
  import opened Sheet
  import opened Seqs
  import opened SpecMemory

  const HeaderLabels: seq<string> := ["规格", "厚度", "价格"]
  const SpecLabel: seq<string> := ["规格"]

  /**
   * `match`, which always succeeds: the first of the first 20 rows naming
   * specification, thickness and price; failing that, the first of the
   * first 10 rows naming the specification; failing that, header row 6.
   */
  function ThreeColumnLayout(t: Table): (r: Layout)
    ensures r.dataStart == r.header + 1
    ensures
      || (r.header < Min(20, |t.rows|) && HasLabels(t.rows[r.header], HeaderLabels)
          && forall i | 0 <= i < r.header :: !HasLabels(t.rows[i], HeaderLabels))
      || ((forall i | 0 <= i < Min(20, |t.rows|) :: !HasLabels(t.rows[i], HeaderLabels))
          && r.header < Min(10, |t.rows|) && HasLabels(t.rows[r.header], SpecLabel)
          && forall i | 0 <= i < r.header :: !HasLabels(t.rows[i], SpecLabel))
      || ((forall i | 0 <= i < Min(20, |t.rows|) :: !HasLabels(t.rows[i], HeaderLabels))
          && (forall i | 0 <= i < Min(10, |t.rows|) :: !HasLabels(t.rows[i], SpecLabel))
          && r == Layout(6, 7))
  {
    match FirstLabelledRow(t, HeaderLabels, 20)
    case Some(i) => Layout(i, i + 1)
    case None =>
      match FirstLabelledRow(t, SpecLabel, 10)
      case Some(i) => Layout(i, i + 1)
      case None => Layout(6, 7)
  }

  method Match(t: Table) returns (r: Layout)
    ensures r == ThreeColumnLayout(t)
  {
    var found := ScanForLabels(t, HeaderLabels, 20);
    if found.Some? {
      return Layout(found.value, found.value + 1);
    }
    found := ScanForLabels(t, SpecLabel, 10);
    if found.Some? {
      return Layout(found.value, found.value + 1);
    }
    return Layout(6, 7);
  }

  /** One block of a row: the specifications its cell lists, its thickness and its price. */
  datatype Triple = Triple(specs: seq<string>, thickness: Option<string>, price: Option<Dec>)

  function TripleAt(row: seq<Cell>, start: nat): Triple
    requires start + 2 < |row|
  {
    Triple(SpecValues(row[start]), ThicknessOf(row[start + 1]), PriceOf(row[start + 2]))
  }

  /** The first `n` blocks of a row, left to right; block `j` starts at column `3 * j`. */
  function Cut(row: seq<Cell>, n: nat): (r: seq<Triple>)
    requires 3 * n <= |row|
    ensures |r| == n
  {
    Build(n, (j: nat) requires 3 * j + 2 < |row| => TripleAt(row, 3 * j))
  }

  lemma CutAt(row: seq<Cell>, n: nat, j: nat)
    requires 3 * n <= |row| && j < n
    ensures Cut(row, n)[j] == TripleAt(row, 3 * j)
  {
    BuildAt(n, (j: nat) requires 3 * j + 2 < |row| => TripleAt(row, 3 * j), j);
  }

  /** Every row of the sheet cut into its blocks. */
  function CutTable(t: Table): (r: seq<seq<Triple>>)
    ensures |r| == |t.rows|
  {
    seq(|t.rows|, i requires 0 <= i < |t.rows| => Cut(t.rows[i], Triples(t.width)))
  }

  /** The remembered specifications after some blocks, and the records they yielded. */
  datatype Step = Step(memory: Memory, records: seq<RawRecord>)

  /**
   * One block: its specifications are remembered when there are any, and
   * every specification its column then remembers gives a record, as long
   * as the thickness and the price are present.
   */
  function Block(m: Memory, b: Triple, start: nat): Step {
    Step(Remember(m, start, b.specs), Records(InUse(m, start, b.specs), b.thickness, b.price))
  }

  /**
   * A block yields records exactly when its column then remembers some
   * specifications and both its thickness and price are present: one
   * record per remembered specification. No other column's memory changes.
   */
  lemma BlockEffect(m: Memory, b: Triple, start: nat)
    ensures var r := Block(m, b, start);
      && (r.records != [] <==> SpecsOf(r.memory, start) != [] && b.thickness.Some? && b.price.Some?)
      && (r.records != [] ==> |r.records| == |SpecsOf(r.memory, start)| && forall k | 0 <= k < |r.records| ::
            r.records[k].spec == SpecsOf(r.memory, start)[k]
            && r.records[k].thickness == b.thickness.value && r.records[k].price == b.price.value)
      && forall col | col != start :: SpecsOf(r.memory, col) == SpecsOf(m, col)
  {
  }

  /** The first `n` blocks of a row, left to right. */
  function RowBlocks(m: Memory, blocks: seq<Triple>, n: nat): Step
    requires n <= |blocks|
  {
    if n == 0 then Step(m, [])
    else
      var before := RowBlocks(m, blocks, n - 1);
      var step := Block(before.memory, blocks[n - 1], 3 * (n - 1));
      Step(step.memory, before.records + step.records)
  }

  /** Rows `ds` up to `end` (exclusive) of the cut sheet, skipping rows with nothing in them. */
  function Rows(t: Table, cuts: seq<seq<Triple>>, ds: nat, end: nat): Step
    requires end <= |t.rows| == |cuts|
  {
    if end <= ds then Step(map[], [])
    else
      var before := Rows(t, cuts, ds, end - 1);
      if AllEmpty(t.rows[end - 1]) then before
      else
        var step := RowBlocks(before.memory, cuts[end - 1], |cuts[end - 1]|);
        Step(step.memory, before.records + step.records)
  }

  /** `extract`: the header texts of row `h` and the records of rows `ds` onwards. */
  function ThreeColumnExtraction(t: Table, h: nat, ds: nat): Result<Extraction> {
    match ColumnHeaders(t, h)
    case Err(e) => Err(e)
    case Ok(headers) => Ok(Extraction(Rows(t, CutTable(t), ds, |t.rows|).records, headers))
  }

  /** The body of the block loop. */
  method BlockStep(m: Memory, row: seq<Cell>, start: nat) returns (m': Memory, records: seq<RawRecord>)
    requires start + 2 < |row|
    ensures Step(m', records) == Block(m, TripleAt(row, start), start)
  {
    var use;
    m', use := ReadSpecColumn(m, row[start], start);
    records := EmitRecords(use, row[start + 1], row[start + 2]);
  }

  /** One more block of a row adds what it yields to what came before. */
  lemma RowBlocksNext(m: Memory, blocks: seq<Triple>, n: nat, m1: Memory, records: seq<RawRecord>, m2: Memory, more: seq<RawRecord>)
    requires n < |blocks|
    requires Step(m1, records) == RowBlocks(m, blocks, n)
    requires Step(m2, more) == Block(m1, blocks[n], 3 * n)
    ensures Step(m2, records + more) == RowBlocks(m, blocks, n + 1)
  {
  }

  /** The block loop over one row. */
  method RowStep(m: Memory, row: seq<Cell>) returns (m': Memory, records: seq<RawRecord>)
    ensures Step(m', records) == RowBlocks(m, Cut(row, Triples(|row|)), Triples(|row|))
  {
    m', records := m, [];
    var start := 0;
    ghost var b := 0;
    while start + 2 < |row|
      invariant start == 3 * b && b <= Triples(|row|)
      invariant Step(m', records) == RowBlocks(m, Cut(row, Triples(|row|)), b)
    {
      CutAt(row, Triples(|row|), b);
      var m2, more := BlockStep(m', row, start);
      RowBlocksNext(m, Cut(row, Triples(|row|)), b, m', records, m2, more);
      m', records := m2, records + more;
      start, b := start + 3, b + 1;
    }
  }

  /** A row with nothing in it leaves the memory and the records as they are. */
  lemma RowsSkip(t: Table, ds: nat, i: nat)
    requires ds <= i < |t.rows| && AllEmpty(t.rows[i])
    ensures Rows(t, CutTable(t), ds, i + 1) == Rows(t, CutTable(t), ds, i)
  {
  }

  /** Any other row adds what its block loop yields. */
  lemma RowsNext(t: Table, ds: nat, i: nat, m: Memory, records: seq<RawRecord>, m': Memory, more: seq<RawRecord>)
    requires ds <= i < |t.rows| && !AllEmpty(t.rows[i])
    requires Step(m, records) == Rows(t, CutTable(t), ds, i)
    requires Step(m', more) == RowBlocks(m, Cut(t.rows[i], Triples(|t.rows[i]|)), Triples(|t.rows[i]|))
    ensures Step(m', records + more) == Rows(t, CutTable(t), ds, i + 1)
  {
    assert CutTable(t)[i] == Cut(t.rows[i], Triples(t.width));
  }

  /** The row loop of `extract`, from row `ds` to the last. */
  method ExtractRows(t: Table, ds: nat) returns (records: seq<RawRecord>)
    ensures records == Rows(t, CutTable(t), ds, |t.rows|).records
  {
    records := [];
    if |t.rows| <= ds {
      return;
    }
    var m: Memory := map[];
    var i := ds;
    while i < |t.rows|
      invariant ds <= i <= |t.rows|
      invariant Step(m, records) == Rows(t, CutTable(t), ds, i)
    {
      if AllEmpty(t.rows[i]) {
        RowsSkip(t, ds, i);
      } else {
        var m', more := RowStep(m, t.rows[i]);
        RowsNext(t, ds, i, m, records, m', more);
        m, records := m', records + more;
      }
      i := i + 1;
    }
  }

  /** `ThreeColumnStrategy.extract`. */
  method Extract(t: Table, h: nat, ds: nat) returns (r: Result<Extraction>)
    ensures r == ThreeColumnExtraction(t, h, ds)
  {
    var headers := GetColumnHeaders(t, h);
    if headers.Err? {
      return Err(headers.error);
    }
    var records := ExtractRows(t, ds);
    return Ok(Extraction(records, headers.value));
  }

  // ---------------------------------------------------------------------
  // properties

  /** What every record of the layout looks like. */
  predicate Sound(rec: RawRecord) {
    RecordSound(rec, CleanSpec, Formatted)
  }

  predicate TripleSound(b: Triple, okSpec: string -> bool, okThickness: string -> bool) {
    SpecsSound(b.specs, okSpec) && (b.thickness.Some? ==> okThickness(b.thickness.value))
  }

  /** Every block of the cut sheet lists clean specifications and a formatted thickness. */
  lemma CutTableSound(t: Table)
    ensures forall i | 0 <= i < |t.rows| :: |CutTable(t)[i]| == Triples(t.width)
    ensures forall i, j | 0 <= i < |t.rows| && 0 <= j < |CutTable(t)[i]| ::
      TripleSound(CutTable(t)[i][j], CleanSpec, Formatted)
  {
    forall i, j | 0 <= i < |t.rows| && 0 <= j < |CutTable(t)[i]|
      ensures TripleSound(CutTable(t)[i][j], CleanSpec, Formatted)
    {
      var row := t.rows[i];
      CutAt(row, Triples(t.width), j);
      SpecValuesClean(row[3 * j]);
      ThicknessOfFormatted(row[3 * j + 1]);
    }
  }

  lemma BlockSound(m: Memory, b: Triple, start: nat, okSpec: string -> bool, okThickness: string -> bool)
    requires TripleSound(b, okSpec, okThickness) && MemorySound(m, okSpec)
    ensures MemorySound(Block(m, b, start).memory, okSpec)
    ensures forall k | 0 <= k < |Block(m, b, start).records| ::
      RecordSound(Block(m, b, start).records[k], okSpec, okThickness)
  {
    RememberSound(m, start, b.specs, okSpec);
    RecordsSound(InUse(m, start, b.specs), b.thickness, b.price, okSpec, okThickness);
  }

  lemma {:induction false} RowBlocksSound(m: Memory, blocks: seq<Triple>, n: nat,
                                          okSpec: string -> bool, okThickness: string -> bool)
    requires n <= |blocks| && MemorySound(m, okSpec)
    requires forall j | 0 <= j < |blocks| :: TripleSound(blocks[j], okSpec, okThickness)
    ensures MemorySound(RowBlocks(m, blocks, n).memory, okSpec)
    ensures forall k | 0 <= k < |RowBlocks(m, blocks, n).records| ::
      RecordSound(RowBlocks(m, blocks, n).records[k], okSpec, okThickness)
  {
    if n > 0 {
      RowBlocksSound(m, blocks, n - 1, okSpec, okThickness);
      BlockSound(RowBlocks(m, blocks, n - 1).memory, blocks[n - 1], 3 * (n - 1), okSpec, okThickness);
    }
  }

  lemma {:induction false} RowsSound(t: Table, cuts: seq<seq<Triple>>, ds: nat, end: nat,
                                     okSpec: string -> bool, okThickness: string -> bool)
    requires end <= |t.rows| == |cuts|
    requires forall i, j | 0 <= i < |cuts| && 0 <= j < |cuts[i]| :: TripleSound(cuts[i][j], okSpec, okThickness)
    ensures MemorySound(Rows(t, cuts, ds, end).memory, okSpec)
    ensures forall k | 0 <= k < |Rows(t, cuts, ds, end).records| ::
      RecordSound(Rows(t, cuts, ds, end).records[k], okSpec, okThickness)
  {
    if end > ds {
      RowsSound(t, cuts, ds, end - 1, okSpec, okThickness);
      if !AllEmpty(t.rows[end - 1]) {
        RowBlocksSound(Rows(t, cuts, ds, end - 1).memory, cuts[end - 1], |cuts[end - 1]|, okSpec, okThickness);
      }
    }
  }

  /** Every specification the layout yields is clean, every thickness already formatted, and no count is given. */
  lemma ThreeColumnRecordsSound(t: Table, h: nat, ds: nat)
    requires ThreeColumnExtraction(t, h, ds).Ok?
    ensures forall k | 0 <= k < |ThreeColumnExtraction(t, h, ds).value.records| ::
      Sound(ThreeColumnExtraction(t, h, ds).value.records[k])
  {
    CutTableSound(t);
    RowsSound(t, CutTable(t), ds, |t.rows|, CleanSpec, Formatted);
  }

  /**
   * The specifications of block `j` nearest above row `end` (exclusive),
   * from row `ds` on: those of the lowest row that lists some there.
   */
  function LatestSpecs(t: Table, cuts: seq<seq<Triple>>, ds: nat, end: nat, j: nat): seq<string>
    requires end <= |t.rows| == |cuts|
    requires forall i | 0 <= i < |cuts| :: j < |cuts[i]|
  {
    if end <= ds then []
    else if !AllEmpty(t.rows[end - 1]) && cuts[end - 1][j].specs != [] then cuts[end - 1][j].specs
    else LatestSpecs(t, cuts, ds, end - 1, j)
  }

  /** Within a row, block `j`'s memory is replaced by its own specifications when it lists some. */
  lemma {:induction false} RowBlocksSpecsAt(m: Memory, blocks: seq<Triple>, n: nat, j: nat)
    requires n <= |blocks|
    ensures SpecsOf(RowBlocks(m, blocks, n).memory, 3 * j) ==
      if j < n && blocks[j].specs != [] then blocks[j].specs else SpecsOf(m, 3 * j)
  {
    if n > 0 {
      RowBlocksSpecsAt(m, blocks, n - 1, j);
    }
  }

  lemma {:induction false} RowsSpecsTrack(t: Table, cuts: seq<seq<Triple>>, ds: nat, end: nat, j: nat)
    requires end <= |t.rows| == |cuts|
    requires forall i | 0 <= i < |cuts| :: j < |cuts[i]|
    ensures SpecsOf(Rows(t, cuts, ds, end).memory, 3 * j) == LatestSpecs(t, cuts, ds, end, j)
  {
    if end > ds {
      RowsSpecsTrack(t, cuts, ds, end - 1, j);
      if !AllEmpty(t.rows[end - 1]) {
        RowBlocksSpecsAt(Rows(t, cuts, ds, end - 1).memory, cuts[end - 1], |cuts[end - 1]|, j);
      }
    }
  }

  /**
   * A block of the cut sheet lists the specifications `parse_spec_cell`
   * reads from its first cell, and carries the formatted thickness of its
   * second cell and the price of its third, each missing when its cell is.
   */
  lemma CutTableSpecs(t: Table, i: nat, j: nat)
    requires i < |t.rows| && j < Triples(t.width)
    ensures CutTable(t)[i][j].specs == SpecValues(t.rows[i][3 * j])
    ensures CutTable(t)[i][j].thickness == ThicknessOf(t.rows[i][3 * j + 1])
    ensures CutTable(t)[i][j].price == PriceOf(t.rows[i][3 * j + 2])
  {
    CutAt(t.rows[i], Triples(t.width), j);
  }

  /**
   * After rows `ds` to `end`, block `j` remembers the specifications of
   * the lowest non-empty row above whose cell in column `3 * j` lists
   * some (see `CutTableSpecs` for what a row lists).
   */
  lemma SpecsTrack(t: Table, ds: nat, end: nat, j: nat)
    requires end <= |t.rows| && j < Triples(t.width)
    ensures SpecsOf(Rows(t, CutTable(t), ds, end).memory, 3 * j) == LatestSpecs(t, CutTable(t), ds, end, j)
  {
    RowsSpecsTrack(t, CutTable(t), ds, end, j);
  }
}
