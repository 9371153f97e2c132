/** Two ways to report a bad birthday: `parse` returns the date or one of
    two error objects, `parse2` returns a list of zero or one dates. The
    `Date` type is a type parameter; building a date from a string, testing
    it for validity and reading its time in milliseconds are parameters, as
    is the current time. */
module Birthdays {

  /** The return type of `parse`: `Date | InvalidDateFormatError | DateIsInTheFutureError`. */
  datatype ParseResult<D> = Parsed(date: D) | InvalidDateFormatError | DateIsInTheFutureError

  /** `parse(birthday)`: format is checked first, then the date is compared
      with the current time. */
  function Parse<D>(birthday: string, newDate: string -> D, isValid: D -> bool,
                    getTime: D -> int, now: int): (r: ParseResult<D>)
    ensures r == InvalidDateFormatError <==> !isValid(newDate(birthday))
    ensures r == DateIsInTheFutureError <==>
              isValid(newDate(birthday)) && getTime(newDate(birthday)) > now
    ensures r.Parsed? <==> isValid(newDate(birthday)) && getTime(newDate(birthday)) <= now
    ensures r.Parsed? ==> r.date == newDate(birthday)
  {
    var date := newDate(birthday);
    if !isValid(date) then InvalidDateFormatError
    else if getTime(date) > now then DateIsInTheFutureError
    else Parsed(date)
  }

  /** The format check wins: an invalid date is reported as such even when
      its time lies in the future. */
  lemma ParseChecksFormatFirst<D>(birthday: string, newDate: string -> D, isValid: D -> bool,
                                  getTime: D -> int, now: int)
    requires !isValid(newDate(birthday)) && getTime(newDate(birthday)) > now
    ensures Parse(birthday, newDate, isValid, getTime, now) == InvalidDateFormatError
  {
  }

  /** `parse2(birthday)`: no date for an invalid one, otherwise the date alone. */
  function Parse2<D>(birthday: string, newDate: string -> D, isValid: D -> bool): (r: seq<D>)
    ensures |r| <= 1
    ensures |r| == 0 <==> !isValid(newDate(birthday))
    ensures |r| == 1 ==> r[0] == newDate(birthday)
  {
    var date := newDate(birthday);
    if !isValid(date) then [] else [date]
  }

  /** `parse2` drops the future check: it is empty exactly when `parse`
      reports a format error, and when `parse` succeeds both give the same
      date. */
  lemma Parse2VersusParse<D>(birthday: string, newDate: string -> D, isValid: D -> bool,
                             getTime: D -> int, now: int)
    ensures var r := Parse(birthday, newDate, isValid, getTime, now);
            var l := Parse2(birthday, newDate, isValid);
            && (l == [] <==> r == InvalidDateFormatError)
            && (r.Parsed? ==> l == [r.date])
            && (r == DateIsInTheFutureError ==> l == [newDate(birthday)])
  {
  }
}
