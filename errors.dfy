/** The exceptions the survey handler can raise, one constructor per cause. */
module Errors {

  datatype Error =
    /** ValueError from `int(...)` on the answer field named `field` (the first one the generator reaches). */
    | NonNumericAnswer(field: string)
    /** ValueError from `datetime(year, month, day)` on eight digits that are not a calendar date. */
    | InvalidDate
    /** IndexError from `thresholds[-1]` on an empty threshold table. */
    | EmptyTable
    /** UnboundLocalError: the local `variable` is read before any assignment to it. */
    | UnboundScore(variable: string)
}
