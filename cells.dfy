/** A cell of a loaded table, as pandas hands it to the generator. */
module Cells {

  /** The values for which `pd.isna` holds: Python `None`, float `NaN`, `pd.NaT` and `pd.NA`. */
  datatype Missing = NoneValue | NaN | NaT | NA

  /** `str(x)` of a missing value. */
  function MissingText(m: Missing): string
  {
    match m
    case NoneValue => "None"
    case NaN => "nan"
    case NaT => "NaT"
    case NA => "<NA>"
  }

  /**
   * `Null` is a missing value of one of the four kinds, `Str` a string, and
   * `Other` any other value (a number, a date), carried as its `str(x)`
   * rendering together with its truth value `bool(x)`.
   */
  datatype Cell = Null(missing: Missing) | Str(s: string) | Other(text: string, truthy: bool)

  /** `str(x)` of a cell. */
  function Text(c: Cell): string
  {
    match c
    case Null(m) => MissingText(m)
    case Str(s) => s
    case Other(t, _) => t
  }

  /**
   * Truthiness of a cell once `pd.notna` has replaced a missing value by ""
   * (whatsapp_generator.py:144-145): missing values and `""` are false.
   */
  predicate Truthy(c: Cell)
  {
    match c
    case Null(_) => false
    case Str(s) => s != ""
    case Other(_, b) => b
  }
}
