/** The model-level validator of a title's year. The clock is not read:
    the current year is a parameter. */
module Validators {
  import opened Wrappers

  /** The raised validation error; it carries the offending value as its parameter. */
  datatype ValidationError = InvalidValue(value: int)

  /** `validate_year`: `None` when the year is accepted, the error otherwise. */
  function ValidateYear(value: int, currentYear: int): (error: Option<ValidationError>)
    ensures error.None? <==> value <= currentYear
    ensures error.Some? ==> error.value.value == value
  {
    if value > currentYear then Some(InvalidValue(value)) else None
  }

  lemma CurrentYearAccepted(currentYear: int)
    ensures ValidateYear(currentYear, currentYear).None?
  {
  }

  /** Acceptance is downward closed: a year below an accepted year is accepted. */
  lemma AcceptanceIsMonotone(y: int, z: int, currentYear: int)
    requires ValidateYear(y, currentYear).None? && z <= y
    ensures ValidateYear(z, currentYear).None?
  {
  }
}
