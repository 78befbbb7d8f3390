/**
 * Table cells as pandas holds them, the verdict labels, and the few Python
 * operations on single values that the comparison engine uses.
 */
module Cells {
  import opened Config

  datatype Option<T> = None | Some(value: T)

  /** One cell: pandas' missing marker (NaN), a string, or any other scalar
      (a number or a boolean read from the file), kept as the text `str()` gives. */
  datatype Cell = Missing | Str(s: string) | Other(repr: string)

  /** The two verdicts; `Label` gives the text the tool writes. */
  datatype Status = Valid | NoValid {
    function Label(): (l: string)
      ensures l == VALID_STATUS <==> this == Valid
      ensures l == INVALID_STATUS <==> this == NoValid
    {
      match this
      case Valid => VALID_STATUS
      case NoValid => INVALID_STATUS
    }
  }

  /** Python's `==` between two cells as pandas compares them: NaN equals nothing,
      not even NaN, and a string never equals a number. */
  predicate Equal(a: Cell, b: Cell) {
    !a.Missing? && a == b
  }

  /** `str(x)`: the text Python prints for a cell (`'nan'` for NaN). */
  function Text(c: Cell): string {
    match c
    case Missing => "nan"
    case Str(s) => s
    case Other(r) => r
  }

  /** `fillna(fill)`. */
  function FillMissing(c: Cell, fill: string): (r: Cell)
    ensures !r.Missing?
    ensures c.Missing? ==> r == Str(fill)
    ensures !c.Missing? ==> r == c
  {
    if c.Missing? then Str(fill) else c
  }
}
