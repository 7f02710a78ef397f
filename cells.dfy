/**
 * One cell of a decoded sheet, as pandas hands it over: missing (NaN),
 * text, or a number. A number keeps the text pandas writes for it with
 * `str(...)`/`astype(str)` ("3", "3.0", ...), which the model does not
 * derive from the value.
 */
module Cells {
  import opened Numbers
  import opened Text

  datatype Cell =
    | Empty
    | Text(s: string)
    | Num(value: Dec, rendering: string)

  /** `str(cell)`; a missing cell is NaN and renders as "nan". */
  function Render(c: Cell): string {
    match c
    case Empty => "nan"
    case Text(s) => s
    case Num(_, t) => t
  }

  /** `float(price) if isinstance(price, number) else 0`. */
  function PriceValue(c: Cell): (v: Dec)
    ensures !c.Num? ==> v == Zero
  {
    if c.Num? then c.value else Zero
  }

  /** Python truthiness of a cell read with `notna(...)` else `None`. */
  predicate Truthy(c: Cell) {
    match c
    case Empty => false
    case Text(s) => s != ""
    case Num(v, _) => NonZero(v)
  }

  /** `notna(c) and str(c).strip()`: present and not just whitespace (see `StripEmpty`). */
  predicate Filled(c: Cell) {
    c != Empty && !Blank(Render(c))
  }
}
