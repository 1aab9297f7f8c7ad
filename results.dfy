/** Error conditions of the ledger engine and the Option/Result wrappers that carry them. */
module Results {

  /** Why an operation of the ledger stopped.
      - Malformed: a cell could not be read as its expected type (Python ValueError or IndexError).
      - MonthNotFound: the explicit MonthNotFoundError of markRentAsPaid.
      - NoMonthBlock: a month block was needed but none was found (Python AttributeError on None).
      - UnknownTenant: a tenant name was looked up in a month block that lacks it (Python KeyError).
      - Unaddressable: a month read from the roster lies before the epoch.
      - NoCharges: the maximum of an empty column of charges was taken (NaN cast to int).
      - DateOverflow: a date computed lies before the first date Python represents (OverflowError). */
  datatype Error = Malformed | MonthNotFound | NoMonthBlock | UnknownTenant | Unaddressable | NoCharges | DateOverflow

  datatype Option<+T> = None | Some(value: T)

  datatype Result<+T> = Ok(value: T) | Err(error: Error) {
    predicate IsFailure() { Err? }
    function PropagateFailure<U>(): Result<U>
      requires Err?
    {
      Err(error)
    }
    function Extract(): T
      requires Ok?
    {
      value
    }
  }
}
