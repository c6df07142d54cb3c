/**
 * The JavaScript `Date` library as the site uses it. Parsing a full timestamp and
 * `toLocaleDateString` depend on the viewer's time zone and locale, so they are not
 * computed here: a date value records how the `Date` object was built, and a date text
 * records either a string the site returns itself or the locale formatter's output.
 */
module Dates {
  import opened Wrappers

  /** `Date.prototype.getTime()` of a valid date: milliseconds since the epoch. */
  type Timestamp = int

  /** The timestamp parser behind `new Date(text)`; `None` stands for an Invalid Date (NaN time). */
  type Parser = string -> Option<Timestamp>

  datatype DateValue =
    | LocalDate(year: int, monthIndex: int, day: int)  // new Date(year, monthIndex, day): local calendar
    | Instant(time: Timestamp)                         // new Date(text) that parsed

  /** The `month` option given to `toLocaleDateString`. */
  datatype MonthStyle = ShortMonth | LongMonth

  datatype DateText =
    | Literal(text: string)                        // a string the code returns as it is
    | Localized(date: DateValue, month: MonthStyle) // toLocaleDateString output, never empty

  /** True when the text renders as the empty string (falsy in a JSX condition). */
  predicate IsBlank(t: DateText)
  {
    t == Literal("")
  }
}
