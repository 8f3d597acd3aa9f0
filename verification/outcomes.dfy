/** The failures the allocation code runs into, as values: Python raises them as
    exceptions, the model returns them. */
module Outcomes {

  datatype Failure =
    | DivisionByZero        // `x / 0` or `x // 0` on a Python number
    | NonPositiveBins       // `pd.cut(..., bins=num)` with `num < 1`
    | NothingToConcatenate  // `pd.concat([])`

  datatype Result<T> = Ok(value: T) | Err(failure: Failure)
}
