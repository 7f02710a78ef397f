/**
 * What the three- and four-column layouts share (FourColumnStrategy and
 * ThreeColumnStrategy in data_processor/strategies.py): a specification
 * column remembers the last non-empty list of specifications written in
 * it, and a block whose own cell gives none uses that list; each
 * specification in use becomes one record with the block's thickness and
 * price.
 */
module SpecMemory {
  import opened Wrappers
  import opened Numbers
  import opened Cells
  import opened Utils
  import opened Sheet

  /** `last_specs`: per specification column, the last non-empty list of specifications. */
  type Memory = map<nat, seq<string>>

  /** `last_specs.get(col, [])`. */
  function SpecsOf(m: Memory, col: nat): seq<string> {
    if col in m then m[col] else []
  }

  /** `if specs: last_specs[col] = specs`. */
  function Remember(m: Memory, col: nat, specs: seq<string>): Memory {
    if specs != [] then m[col := specs] else m
  }

  /**
   * `specs if specs else last_specs.get(col, [])`: the specifications a
   * block uses are what its column remembers once its own cell is read.
   */
  function InUse(m: Memory, col: nat, specs: seq<string>): (r: seq<string>)
    ensures r == SpecsOf(Remember(m, col, specs), col)
    ensures r == [] <==> specs == [] && SpecsOf(m, col) == []
  {
    if specs != [] then specs else SpecsOf(m, col)
  }

  /** Remembering in one column leaves every other column's memory as it was. */
  lemma RememberElsewhere(m: Memory, col: nat, specs: seq<string>, other: nat)
    requires other != col
    ensures SpecsOf(Remember(m, col, specs), other) == SpecsOf(m, other)
  {
  }

  /** One specification column of a block: `parse_spec_cell`, then remembering, then choosing the list in use. */
  method ReadSpecColumn(m: Memory, c: Cell, col: nat) returns (m': Memory, specs: seq<string>)
    ensures m' == Remember(m, col, SpecValues(c))
    ensures specs == InUse(m, col, SpecValues(c))
  {
    var current := ParseSpecCell(c);
    m' := m;
    if current != [] {
      m' := m'[col := current];
    }
    specs := if current != [] then current else SpecsOf(m, col);
  }

  /** The thickness of a block: `format_thickness(str(cell))` when the cell is present. */
  function ThicknessOf(c: Cell): (r: Option<string>)
    ensures r.None? <==> c == Empty
  {
    if c == Empty then None else Some(FormattedThickness(Render(c)))
  }

  /** The price of a block: the number in the cell, 0 for text, when the cell is present. */
  function PriceOf(c: Cell): (r: Option<Dec>)
    ensures r.None? <==> c == Empty
  {
    if c == Empty then None else Some(PriceValue(c))
  }

  /** One record per specification in use, in order, all with the same thickness and price and no count. */
  function SpecRecords(specs: seq<string>, thickness: string, price: Dec): (r: seq<RawRecord>)
    ensures |r| == |specs|
  {
    seq(|specs|, k requires 0 <= k < |specs| => RawRecord(specs[k], thickness, price, None))
  }

  /**
   * The records of a block: none unless some specifications are in use
   * and both the thickness and the price cell are present.
   */
  function Records(specs: seq<string>, thickness: Option<string>, price: Option<Dec>): (r: seq<RawRecord>)
    ensures r != [] <==> specs != [] && thickness.Some? && price.Some?
    ensures r != [] ==> |r| == |specs| && forall k | 0 <= k < |r| ::
      r[k].spec == specs[k] && r[k].thickness == thickness.value && r[k].price == price.value && r[k].count.None?
  {
    if specs != [] && thickness.Some? && price.Some? then SpecRecords(specs, thickness.value, price.value) else []
  }

  /** One specification more gives one record more. */
  lemma SpecRecordsSnoc(specs: seq<string>, i: nat, thickness: string, price: Dec)
    requires i < |specs|
    ensures SpecRecords(specs[..i + 1], thickness, price) ==
      SpecRecords(specs[..i], thickness, price) + [RawRecord(specs[i], thickness, price, None)]
  {
  }

  /** The loop over the specifications in use, once the thickness and the price cell are known to be present. */
  method EmitSpecRecords(specs: seq<string>, thicknessCell: Cell, price: Dec) returns (records: seq<RawRecord>)
    ensures records == SpecRecords(specs, FormattedThickness(Render(thicknessCell)), price)
  {
    records := [];
    for i := 0 to |specs|
      invariant records == SpecRecords(specs[..i], FormattedThickness(Render(thicknessCell)), price)
    {
      var thickness := FormatThickness(Render(thicknessCell));
      SpecRecordsSnoc(specs, i, thickness, price);
      records := records + [RawRecord(specs[i], thickness, price, None)];
    }
    assert specs[..|specs|] == specs;
  }

  /** The records of a block, with the loop skipped when a cell is missing or no specification is in use. */
  method EmitRecords(specs: seq<string>, thicknessCell: Cell, priceCell: Cell) returns (records: seq<RawRecord>)
    ensures records == Records(specs, ThicknessOf(thicknessCell), PriceOf(priceCell))
  {
    if specs == [] || thicknessCell == Empty || priceCell == Empty {
      return [];
    }
    var price := PriceValue(priceCell);
    records := EmitSpecRecords(specs, thicknessCell, price);
  }

  // ---------------------------------------------------------------------
  // soundness, for any property `okSpec` of specifications and `okThickness` of thicknesses

  /** Every remembered list is non-empty and made of specifications satisfying `okSpec`. */
  predicate MemorySound(m: Memory, okSpec: string -> bool) {
    forall col | col in m :: m[col] != [] && forall k | 0 <= k < |m[col]| :: okSpec(m[col][k])
  }

  predicate SpecsSound(specs: seq<string>, okSpec: string -> bool) {
    forall k | 0 <= k < |specs| :: okSpec(specs[k])
  }

  predicate RecordSound(rec: RawRecord, okSpec: string -> bool, okThickness: string -> bool) {
    okSpec(rec.spec) && okThickness(rec.thickness) && rec.count.None?
  }

  lemma RememberSound(m: Memory, col: nat, specs: seq<string>, okSpec: string -> bool)
    requires MemorySound(m, okSpec) && SpecsSound(specs, okSpec)
    ensures MemorySound(Remember(m, col, specs), okSpec)
    ensures SpecsSound(InUse(m, col, specs), okSpec)
  {
  }

  lemma RecordsSound(specs: seq<string>, thickness: Option<string>, price: Option<Dec>,
                     okSpec: string -> bool, okThickness: string -> bool)
    requires SpecsSound(specs, okSpec) && (thickness.Some? ==> okThickness(thickness.value))
    ensures forall k | 0 <= k < |Records(specs, thickness, price)| ::
      RecordSound(Records(specs, thickness, price)[k], okSpec, okThickness)
  {
  }

  /** The thickness of a block is always already formatted. */
  lemma ThicknessOfFormatted(c: Cell)
    ensures ThicknessOf(c).Some? ==> Formatted(ThicknessOf(c).value)
  {
    if c != Empty {
      FormattedThicknessIdempotent(Render(c));
    }
  }
}
