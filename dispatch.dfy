/**
 * `extract_price_data` (data_processor/core.py): the layout strategies are
 * tried in a fixed order, Zhengda, then four-column, then three-column,
 * and the first that matches extracts the sheet. The three-column
 * strategy always matches, so one of them always extracts.
 */
module Dispatch {
  import opened Wrappers
  import opened Text
  import opened Cells
  import opened Sheet
  import Zhengda
  import FourColumn
  import ThreeColumn

  datatype Strategy = ZhengdaGalvanized | FourColumnLayout | ThreeColumnLayout

  /** The strategy that matches first, and where it found its header. */
  datatype Choice = Choice(strategy: Strategy, layout: Layout)

  function Choose(t: Table): (c: Choice)
    ensures c.strategy == ZhengdaGalvanized <==> Zhengda.ZhengdaLayout(t).Some?
    ensures c.strategy == FourColumnLayout <==>
      Zhengda.ZhengdaLayout(t).None? && FourColumn.FourColumnLayout(t).Some?
    ensures c.strategy == ZhengdaGalvanized ==> Some(c.layout) == Zhengda.ZhengdaLayout(t)
    ensures c.strategy == FourColumnLayout ==> Some(c.layout) == FourColumn.FourColumnLayout(t)
    ensures c.strategy == ThreeColumnLayout ==> c.layout == ThreeColumn.ThreeColumnLayout(t)
  {
    match Zhengda.ZhengdaLayout(t)
    case Some(l) => Choice(ZhengdaGalvanized, l)
    case None =>
      match FourColumn.FourColumnLayout(t)
      case Some(l) => Choice(FourColumnLayout, l)
      case None => Choice(ThreeColumnLayout, ThreeColumn.ThreeColumnLayout(t))
  }

  /** `extract_price_data`: what the chosen strategy extracts at the header it found. */
  function PriceData(t: Table): Result<Extraction> {
    var c := Choose(t);
    match c.strategy
    case ZhengdaGalvanized => Zhengda.ZhengdaExtraction(t, c.layout.header, c.layout.dataStart)
    case FourColumnLayout => FourColumn.FourColumnExtraction(t, c.layout.header, c.layout.dataStart)
    case ThreeColumnLayout => ThreeColumn.ThreeColumnExtraction(t, c.layout.header, c.layout.dataStart)
  }

  /**
   * The strategy loop of `extract_price_data`, unrolled over its three
   * strategies; since the last one always matches, the `[], []` after the
   * loop is never reached and has no counterpart here.
   */
  method ExtractPriceData(t: Table) returns (r: Result<Extraction>)
    ensures r == PriceData(t)
  {
    var z := Zhengda.Match(t);
    if z.Some? {
      r := Zhengda.Extract(t, z.value.header, z.value.dataStart);
      return;
    }
    var f := FourColumn.Match(t);
    if f.Some? {
      r := FourColumn.Extract(t, f.value.header, f.value.dataStart);
      return;
    }
    var l := ThreeColumn.Match(t);
    r := ThreeColumn.Extract(t, l.header, l.dataStart);
  }

  /** A row naming specification, thickness and price also names the specification. */
  lemma HeaderNamesSpec(row: seq<Cell>)
    ensures HasLabels(row, ThreeColumn.HeaderLabels) ==> HasLabels(row, ThreeColumn.SpecLabel)
  {
    if HasLabels(row, ThreeColumn.HeaderLabels) {
      assert Contains(RowText(row), ThreeColumn.HeaderLabels[0]);
    }
  }

  /**
   * Extraction fails exactly on a sheet with columns, at most six rows,
   * no row matching the Zhengda or four-column labels and no row naming
   * the specification: the three-column fallback then reads header row 6,
   * which does not exist.
   */
  lemma PriceDataErr(t: Table)
    ensures PriceData(t).Err? <==>
      && t.width > 0 && |t.rows| <= 6
      && Zhengda.ZhengdaLayout(t).None? && FourColumn.FourColumnLayout(t).None?
      && forall i | 0 <= i < |t.rows| :: !HasLabels(t.rows[i], ThreeColumn.SpecLabel)
  {
    var c := Choose(t);
    if c.strategy == ThreeColumnLayout && |t.rows| <= 6 && (forall i | 0 <= i < |t.rows| :: !HasLabels(t.rows[i], ThreeColumn.SpecLabel)) {
      forall i | 0 <= i < |t.rows|
        ensures !HasLabels(t.rows[i], ThreeColumn.HeaderLabels)
      {
        HeaderNamesSpec(t.rows[i]);
      }
    }
  }
}
