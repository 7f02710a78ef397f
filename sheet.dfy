/**
 * A decoded worksheet and what every layout strategy reads from it: the
 * text of a row as the label search sees it, the column headers, and the
 * search for the first row that carries a set of labels
 * (data_processor/strategies.py).
 */
module Sheet {
  import opened Wrappers
  import opened Text
  import opened Numbers
  import opened Cells

  /** A sheet: a number of columns and rows of exactly that many cells. */
  datatype RawTable = RawTable(width: nat, rows: seq<seq<Cell>>)

  type Table = t: RawTable | forall i | 0 <= i < |t.rows| :: |t.rows[i]| == t.width
    witness RawTable(0, [])

  /** `row.dropna().empty`: no cell of the row holds anything. */
  predicate AllEmpty(row: seq<Cell>) {
    forall k | 0 <= k < |row| :: row[k] == Empty
  }

  /** The renderings of a row's cells, in column order. */
  function Renderings(row: seq<Cell>): (r: seq<string>)
    ensures |r| == |row|
    ensures forall k | 0 <= k < |row| :: r[k] == Render(row[k])
  {
    seq(|row|, k requires 0 <= k < |row| => Render(row[k]))
  }

  /** `row.astype(str).str.cat(sep=' ')`: what the label search looks in. */
  function RowText(row: seq<Cell>): string {
    Join(Renderings(row), " ")
  }

  /** Whether the row's text contains every one of `labels`. */
  predicate HasLabels(row: seq<Cell>, labels: seq<string>) {
    forall k | 0 <= k < |labels| :: Contains(RowText(row), labels[k])
  }

  // ---------------------------------------------------------------------
  // get_column_headers

  /** The stripped renderings of the first `n` cells that are not blank, in column order. */
  function HeaderTexts(row: seq<Cell>, n: nat): (r: seq<string>)
    requires n <= |row|
    ensures |r| <= n
    ensures forall k | 0 <= k < |r| :: r[k] != "" && Strip(r[k]) == r[k]
  {
    if n == 0 then []
    else
      var before := HeaderTexts(row, n - 1);
      var text := Strip(Render(row[n - 1]));
      StripIdempotent(Render(row[n - 1]));
      if text != "" then before + [text] else before
  }

  /**
   * `get_column_headers`: the header texts of row `h`. Indexing a row
   * that does not exist raises once there is a column to read, which is
   * the `IndexOutOfBounds` error.
   */
  function ColumnHeaders(t: Table, h: nat): (r: Result<seq<string>>)
    ensures r.Err? <==> t.width > 0 && h >= |t.rows|
  {
    if t.width == 0 then Ok([])
    else if h < |t.rows| then Ok(HeaderTexts(t.rows[h], t.width))
    else Err(IndexOutOfBounds)
  }

  /** The header loop of `get_column_headers`. */
  method GetColumnHeaders(t: Table, h: nat) returns (r: Result<seq<string>>)
    ensures r == ColumnHeaders(t, h)
  {
    var headers: seq<string> := [];
    for col := 0 to t.width
      invariant col == 0 ==> headers == []
      invariant col > 0 ==> h < |t.rows|
      invariant h < |t.rows| ==> headers == HeaderTexts(t.rows[h], col)
    {
      if h >= |t.rows| {
        return Err(IndexOutOfBounds);
      }
      var text := Strip(Render(t.rows[h][col]));
      if text != "" {
        headers := headers + [text];
      }
    }
    return Ok(headers);
  }

  /** A missing cell in the header row still yields a header: the text "nan". */
  lemma EmptyHeaderIsNan(row: seq<Cell>, n: nat)
    requires 0 < n <= |row| && row[n - 1] == Empty
    ensures HeaderTexts(row, n) == HeaderTexts(row, n - 1) + ["nan"]
  {
    assert NoSpaces("nan");
    StripNoSpaces("nan");
  }

  // ---------------------------------------------------------------------
  // header search

  /** Where a strategy found its header: the header row and the first data row. */
  datatype Layout = Layout(header: nat, dataStart: nat)

  function Min(a: nat, b: nat): nat {
    if a <= b then a else b
  }

  /** The first of the first `limit` rows whose text holds all of `labels`. */
  function FirstLabelledRow(t: Table, labels: seq<string>, limit: nat): (r: Option<nat>)
    ensures r.Some? ==> r.value < Min(limit, |t.rows|) && HasLabels(t.rows[r.value], labels)
    ensures r.Some? ==> forall i | 0 <= i < r.value :: !HasLabels(t.rows[i], labels)
    ensures r.None? ==> forall i | 0 <= i < Min(limit, |t.rows|) :: !HasLabels(t.rows[i], labels)
  {
    FirstLabelledFrom(t, labels, Min(limit, |t.rows|), 0)
  }

  function FirstLabelledFrom(t: Table, labels: seq<string>, end: nat, i: nat): (r: Option<nat>)
    requires i <= end <= |t.rows|
    ensures r.Some? ==> i <= r.value < end && HasLabels(t.rows[r.value], labels)
    ensures r.Some? ==> forall j | i <= j < r.value :: !HasLabels(t.rows[j], labels)
    ensures r.None? ==> forall j | i <= j < end :: !HasLabels(t.rows[j], labels)
    decreases end - i
  {
    if i == end then None
    else if HasLabels(t.rows[i], labels) then Some(i)
    else FirstLabelledFrom(t, labels, end, i + 1)
  }

  /** The scan every `match` performs: the first of the first `limit` rows holding all `labels`. */
  method ScanForLabels(t: Table, labels: seq<string>, limit: nat) returns (r: Option<nat>)
    ensures r == FirstLabelledRow(t, labels, limit)
  {
    var end := Min(limit, |t.rows|);
    for i := 0 to end
      invariant FirstLabelledRow(t, labels, limit) == FirstLabelledFrom(t, labels, end, i)
    {
      var text := RowText(t.rows[i]);
      var all := true;
      for k := 0 to |labels|
        invariant all <==> forall j | 0 <= j < k :: Contains(text, labels[j])
      {
        all := all && Contains(text, labels[k]);
      }
      if all {
        return Some(i);
      }
    }
    return None;
  }

  /** The start columns 0, 3, 6, ... with `start + 2 < width`: there are `width / 3` of them. */
  function Triples(width: nat): (n: nat)
    ensures 3 * n <= width < 3 * n + 3
  {
    if width < 3 then 0 else 1 + Triples(width - 3)
  }

  /** The start columns 0, 4, 8, ... with `start + 3 < width`: there are `width / 4` of them. */
  function Quads(width: nat): (n: nat)
    ensures 4 * n <= width < 4 * n + 4
  {
    if width < 4 then 0 else 1 + Quads(width - 4)
  }

  /** A block loop stepping by four stops after exactly `Quads(width)` blocks. */
  lemma QuadsExit(width: nat, b: nat)
    requires b <= Quads(width) && width <= 4 * b + 3
    ensures b == Quads(width)
  {
  }

  /** A sheet row's contents once a strategy has read it. */
  datatype RawRecord = RawRecord(spec: string, thickness: string, price: Dec, count: Option<Cell>)

  /** What `extract` returns: the records and the header texts. */
  datatype Extraction = Extraction(records: seq<RawRecord>, headers: seq<string>)
}
