/** Values shared by the server routes and the React client: optional values,
    the error taxonomy of the API, transaction kinds, calendar dates and the
    JavaScript truthiness tests the route handlers apply to request fields. */
module Base {

  datatype Option<T> = None | Some(value: T) {
    function GetOr(default: T): T {
      match this
      case Some(v) => v
      case None => default
    }
  }

  /** The two caller-recoverable failures: a malformed request (HTTP 400) and a
      row that is absent or belongs to someone else (HTTP 404). */
  datatype Error = ValidationError | NotFoundError

  datatype Result<T> = Ok(value: T) | Err(error: Error)

  /** The `type` column of a transaction. */
  datatype Kind = Expense | Income

  function KindName(k: Kind): (s: string)
    ensures ParseKind(s) == Some(k)
  {
    match k
    case Expense => "expense"
    case Income => "income"
  }

  /** `isIn(['expense', 'income'])`: the only two accepted spellings. */
  function ParseKind(s: string): (r: Option<Kind>)
    ensures r.Some? <==> s == "expense" || s == "income"
  {
    if s == "expense" then Some(Expense)
    else if s == "income" then Some(Income)
    else None
  }

  /** A request string field is truthy when present and non-empty. */
  predicate Truthy(s: Option<string>) {
    s.Some? && s.value != ""
  }

  /** A request number field is truthy when present and non-zero. */
  predicate TruthyAmount(a: Option<real>) {
    a.Some? && a.value != 0.0
  }

  /** A calendar date as stored in the `date` column (YYYY-MM-DD). */
  datatype Date = Date(year: int, month: int, day: int)

  /** The shape an ISO 8601 calendar date must have to pass the validator:
      a four-digit year, a month 01-12 and a day 01-31. */
  predicate IsIsoDate(d: Date) {
    0 <= d.year <= 9999 && 1 <= d.month <= 12 && 1 <= d.day <= 31
  }

  /** Text comparison of two YYYY-MM-DD strings, as SQLite compares the
      `date` column: year first, then month, then day. */
  predicate DateLe(a: Date, b: Date) {
    a.year < b.year
    || (a.year == b.year && a.month < b.month)
    || (a.year == b.year && a.month == b.month && a.day <= b.day)
  }

  lemma DateLeIsTotalOrder(a: Date, b: Date, c: Date)
    ensures DateLe(a, a)
    ensures DateLe(a, b) || DateLe(b, a)
    ensures DateLe(a, b) && DateLe(b, a) ==> a == b
    ensures DateLe(a, b) && DateLe(b, c) ==> DateLe(a, c)
  {
  }

  /** `BETWEEN lo AND hi` on the `date` column: both ends included. */
  predicate InRange(d: Date, lo: Date, hi: Date) {
    DateLe(lo, d) && DateLe(d, hi)
  }

  /** The `strftime('%Y-%m', date)` key of a date. */
  datatype Month = Month(year: int, month: int)

  /** The length of a month in the proleptic Gregorian calendar. */
  function DaysInMonth(year: int, month: int): int {
    if month == 2 then
      (if (year % 4 == 0 && year % 100 != 0) || year % 400 == 0 then 29 else 28)
    else if month == 4 || month == 6 || month == 9 || month == 11 then 30
    else 31
  }

  /** SQLite reads the stored text as a day count from the first of the
      month, so a day past the month's end (which the validator lets
      through, e.g. 2024-02-30) lands in the next month. December has 31
      days, so the rollover never crosses a year. */
  function MonthOf(d: Date): (m: Month)
    ensures IsIsoDate(d) ==> 1 <= m.month <= 12 && m.year == d.year
    ensures IsIsoDate(d) ==> (m.month == d.month <==> d.day <= DaysInMonth(d.year, d.month))
    ensures IsIsoDate(d) && d.day > DaysInMonth(d.year, d.month) ==> m.month == d.month + 1
  {
    if d.day > DaysInMonth(d.year, d.month) then Month(d.year, d.month + 1)
    else Month(d.year, d.month)
  }

  /** A day past the end of February is reported under March. */
  lemma OverflowingDayRollsOver()
    ensures IsIsoDate(Date(2024, 2, 30)) && MonthOf(Date(2024, 2, 30)) == Month(2024, 3)
    ensures IsIsoDate(Date(2023, 2, 29)) && MonthOf(Date(2023, 2, 29)) == Month(2023, 3)
    ensures MonthOf(Date(2024, 2, 29)) == Month(2024, 2)
  {
  }

  /** Text comparison of two YYYY-MM keys. */
  predicate MonthLe(a: Month, b: Month) {
    a.year < b.year || (a.year == b.year && a.month <= b.month)
  }

  /** SQLite's BINARY collation on text: character by character, a proper
      prefix first. (UTF-8 byte order and code point order agree.) */
  predicate TextLe(a: string, b: string) {
    a == [] || (b != [] && (a[0] < b[0] || (a[0] == b[0] && TextLe(a[1..], b[1..]))))
  }

  lemma {:induction false} TextLeTotal(a: string, b: string)
    ensures TextLe(a, b) || TextLe(b, a)
  {
    if a != [] && b != [] && a[0] == b[0] {
      TextLeTotal(a[1..], b[1..]);
    }
  }

  lemma {:induction false} TextLeTransitive(a: string, b: string, c: string)
    requires TextLe(a, b) && TextLe(b, c)
    ensures TextLe(a, c)
  {
    if a != [] && b != [] && c != [] && a[0] == b[0] && b[0] == c[0] {
      TextLeTransitive(a[1..], b[1..], c[1..]);
    }
  }

  function Min(a: int, b: int): int {
    if a <= b then a else b
  }

  function MinReal(a: real, b: real): (r: real)
    ensures r <= a && r <= b && (r == a || r == b)
  {
    if a <= b then a else b
  }
}
