/** The rows and request bodies of the finance tracker's API (main.py), as values. */
module Records {

  datatype Option<T> = None | Some(value: T)

  datatype Result<T, E> = Ok(value: T) | Err(error: E)

  /** The ways a request is refused. */
  datatype Failure =
    | UsernameTaken        // 400 "Username already registered"
    | InvalidCredentials   // 401 "Invalid credentials" at login
    | NotAuthenticated     // 401 "Could not validate credentials" on a protected route

  /** A date as Python's `datetime.date` holds it (no time component). */
  datatype Date = Date(year: int, month: int, day: int)

  /** Dates that can come out of request parsing: months 1..12, days 1..31. */
  type CalendarDate = d: Date | 1 <= d.month <= 12 && 1 <= d.day <= 31 witness Date(2000, 1, 1)

  /** Python's date comparison: lexicographic on (year, month, day). */
  predicate DateLe(a: Date, b: Date)
  {
    a.year < b.year
    || (a.year == b.year && a.month < b.month)
    || (a.year == b.year && a.month == b.month && a.day <= b.day)
  }

  /** A position on the day line used as the sort key for dates. */
  function DayIndex(d: Date): int
  {
    d.year * 372 + (d.month - 1) * 31 + (d.day - 1)
  }

  /** Sorting calendar dates by DayIndex is sorting them in date order. */
  lemma DayIndexOrdersDates(a: CalendarDate, b: CalendarDate)
    ensures DayIndex(a) <= DayIndex(b) <==> DateLe(a, b)
  {
    if a.year < b.year {
      assert DayIndex(a) <= a.year * 372 + 371;
      assert (a.year + 1) * 372 <= b.year * 372;
    } else if b.year < a.year {
      assert DayIndex(b) <= b.year * 372 + 371;
      assert (b.year + 1) * 372 <= a.year * 372;
    }
  }

  /** The two values of a transaction's `type` that the summary distinguishes. */
  const Credit: string := "Credit"
  const Debit: string := "Debit"

  /** Row of the `Users` table; `password` holds the bcrypt hash. */
  datatype User = User(id: int, username: string, password: string)

  /** Row of the `Transaction` table. `kind` is the column `type`: "Credit" or "Debit"
      as the client sends it, but stored as any string. */
  datatype Transaction = Transaction(
    id: int,
    user: string,
    name: string,
    amount: int,
    kind: string,
    category: string,
    date: CalendarDate,
    description: string)

  /** Body of POST /transactions/. */
  datatype TransactionCreate = TransactionCreate(
    name: string,
    amount: int,
    kind: string,
    category: string,
    date: CalendarDate,
    description: string)

  /** Projection of a transaction listed under `top_transactions`. */
  datatype TransactionView = TransactionView(
    name: string,
    amount: int,
    kind: string,
    category: string,
    date: CalendarDate)

  function View(t: Transaction): TransactionView
  {
    TransactionView(t.name, t.amount, t.kind, t.category, t.date)
  }
}
