/** Values shared by the models of both generations of the SUA views: optional
    values, request outcomes that end in an uncaught exception, points in time,
    hours, publicity windows, and the filtering that the store's queries do. */
module Common {

  datatype Option<+T> = None | Some(value: T)

  /** The uncaught exception a request ends in when it cannot produce a response. */
  datatype Crash =
    | NameError                  // a local variable read before it was bound
    | IndexError                 // `[0]` on an empty query set
    | AssertionError             // a failing `assert` statement
    | DoesNotExist               // `objects.get(...)` matched no row
    | RelatedObjectDoesNotExist  // `user.student` on a user without a student

  datatype Result<+T> = Ok(value: T) | Err(error: Crash)

  /** A point in time as the store compares datetimes. */
  type Instant = int

  type Month = m: int | 1 <= m <= 12 witness 1

  /** An aware datetime: the instant together with its calendar year and month. */
  datatype DateTime = DateTime(instant: Instant, year: int, month: Month)

  /** Service hours, a float in the store, as whole tenths of an hour. */
  type Hours = int

  /** The publishing state of a publicity: its flag and its time window. */
  datatype Window = Window(isPublished: bool, begin: Instant, end: Instant)

  /** The rows of `s` that satisfy `p`, in the order of `s` (a query's `filter`). */
  function Filter<T>(s: seq<T>, p: T -> bool): (r: seq<T>)
    ensures |r| <= |s|
    ensures forall i :: 0 <= i < |r| ==> r[i] in s && p(r[i])
    ensures forall i :: 0 <= i < |s| && p(s[i]) ==> s[i] in r
  {
    if s == [] then [] else (if p(s[0]) then [s[0]] else []) + Filter(s[1..], p)
  }
}
