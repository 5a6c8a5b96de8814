/** The SQLite store behind the API (main.py) and the routes that read and write it. */
module Store {
  import opened Records
  import opened Ranking
  import opened Auth
  import opened Summary

  // ---------------------------------------------------------------------------
  // Listing

  /** `filter_by(user=caller)`: the summary's query with neither date bound. */
  function Owned(rows: seq<Transaction>, caller: string): (r: seq<Transaction>)
    ensures forall t :: t in r <==> t in rows && t.user == caller
    ensures forall t :: multiset(r)[t] == if t.user == caller then multiset(rows)[t] else 0
    ensures |r| <= |rows|
  {
    Query(rows, caller, None, None)
  }

  /** A row of someone else leaves the caller's rows as they were. */
  lemma OwnedIgnoresOthers(rows: seq<Transaction>, t: Transaction, caller: string)
    requires t.user != caller
    ensures Owned(rows + [t], caller) == Owned(rows, caller)
  {
    assert (rows + [t])[..|rows|] == rows;
  }

  function DateKey(t: Transaction): int
  {
    DayIndex(t.date)
  }

  /** `read_transactions`: the caller's rows, newest date first, `OFFSET skip LIMIT limit`. */
  function ListTransactions(rows: seq<Transaction>, caller: string, skip: int, limit: int): (r: seq<Transaction>)
    ensures |r| == PageEnd(|Owned(rows, caller)|, skip, limit) - PageStart(|Owned(rows, caller)|, skip)
  {
    PageBetweenCuts(Owned(rows, caller), DateKey, skip, limit);
    Limit(Offset(SortDesc(Owned(rows, caller), DateKey), skip), limit)
  }

  /** `skip` and `limit` when the request does not give them. */
  const DefaultSkip: int := 0
  const DefaultLimit: int := 100

  /** A request without `skip` and `limit` lists the caller's hundred newest rows (all of them
      when there are fewer). */
  lemma DefaultListing(rows: seq<Transaction>, caller: string)
    ensures var owned := Owned(rows, caller);
      && |SortDesc(owned, DateKey)| == |owned|
      && ListTransactions(rows, caller, DefaultSkip, DefaultLimit)
           == SortDesc(owned, DateKey)[..if |owned| <= DefaultLimit then |owned| else DefaultLimit]
  {
    var owned := Owned(rows, caller);
    SortKeepsLength(owned, DateKey);
    PageIsWindow(SortDesc(owned, DateKey), DefaultSkip, DefaultLimit);
  }

  /** A listing holds only the caller's rows, never a date after an earlier-listed one, at most
      `limit` rows when a limit is set, and, with nothing skipped and nothing cut, every row of
      the caller exactly once. In general it is the window of the caller's rows in date order
      that the skipped rows and the cut rows bound. */
  lemma {:induction false} ListingCorrect(rows: seq<Transaction>, caller: string, skip: int, limit: int)
    ensures var r := ListTransactions(rows, caller, skip, limit);
      && (forall t :: t in r ==> t in rows && t.user == caller)
      && (forall i, j :: 0 <= i < j < |r| ==> DateLe(r[j].date, r[i].date))
      && (limit >= 0 ==> |r| <= limit)
      && (skip <= 0 && (limit < 0 || limit >= |Owned(rows, caller)|) ==> multiset(r) == multiset(Owned(rows, caller)))
    // which rows: the window of the date order between the skipped rows and the cut rows
    ensures var owned := Owned(rows, caller);
      var sorted := SortDesc(owned, DateKey);
      var r := ListTransactions(rows, caller, skip, limit);
      && |sorted| == |owned|
      && r == sorted[PageStart(|owned|, skip)..PageEnd(|owned|, skip, limit)]
      && |r| == PageEnd(|owned|, skip, limit) - PageStart(|owned|, skip)
      && (forall i, t :: 0 <= i < PageStart(|owned|, skip) && t in r ==> DateLe(t.date, sorted[i].date))
      && (forall i, t :: PageEnd(|owned|, skip, limit) <= i < |sorted| && t in r ==> DateLe(sorted[i].date, t.date))
  {
    var owned := Owned(rows, caller);
    var sorted := SortDesc(owned, DateKey);
    var r := ListTransactions(rows, caller, skip, limit);
    assert r == Limit(Offset(sorted, skip), limit);
    PageOfSort(owned, DateKey, skip, limit);
    PageIsWindow(sorted, skip, limit);
    ListingWindow(owned, skip, limit);
    forall t | t in r ensures t in rows && t.user == caller {
      assert t in multiset(r);
    }
    forall i, j | 0 <= i < j < |r| ensures DateLe(r[j].date, r[i].date) {
      DayIndexOrdersDates(r[j].date, r[i].date);
    }
  }

  /** The date order, read on the calendar: a page lies between the skipped rows and the cut
      rows. */
  lemma {:induction false} ListingWindow(owned: seq<Transaction>, skip: int, limit: int)
    ensures var sorted := SortDesc(owned, DateKey);
      var r := Limit(Offset(sorted, skip), limit);
      && |sorted| == |owned|
      && |r| == PageEnd(|owned|, skip, limit) - PageStart(|owned|, skip)
      && (forall i, t :: 0 <= i < PageStart(|owned|, skip) && t in r ==> DateLe(t.date, sorted[i].date))
      && (forall i, t :: PageEnd(|owned|, skip, limit) <= i < |sorted| && t in r ==> DateLe(sorted[i].date, t.date))
  {
    var sorted := SortDesc(owned, DateKey);
    var r := Limit(Offset(sorted, skip), limit);
    var a, b := PageStart(|owned|, skip), PageEnd(|owned|, skip, limit);
    PageBetweenCuts(owned, DateKey, skip, limit);
    forall i, t | 0 <= i < a && t in r ensures DateLe(t.date, sorted[i].date) {
      assert DateKey(t) <= DateKey(sorted[i]);
      DayIndexOrdersDates(t.date, sorted[i].date);
    }
    forall i, t | b <= i < |sorted| && t in r ensures DateLe(sorted[i].date, t.date) {
      assert DateKey(sorted[i]) <= DateKey(t);
      DayIndexOrdersDates(sorted[i].date, t.date);
    }
  }

  /** What the listing response shows of a row: the fields of `TransactionCreate`. */
  function Listed(t: Transaction): TransactionCreate
  {
    TransactionCreate(t.name, t.amount, t.kind, t.category, t.date, t.description)
  }

  /** `response_model=list[TransactionCreate]`: the rows in the same order, each shown with
      its own fields and without its id and owner. */
  function ListedAll(rows: seq<Transaction>): (r: seq<TransactionCreate>)
    ensures |r| == |rows|
    ensures forall i :: 0 <= i < |rows| ==>
      && r[i].name == rows[i].name && r[i].amount == rows[i].amount && r[i].kind == rows[i].kind
      && r[i].category == rows[i].category && r[i].date == rows[i].date && r[i].description == rows[i].description
  {
    seq(|rows|, i requires 0 <= i < |rows| => Listed(rows[i]))
  }

  // ---------------------------------------------------------------------------
  // The database

  /** The `Users` and `Transaction` tables. Ids are the rowids SQLite hands out: with no
      deletions, one more than the number of rows inserted before. */
  class Database {
    var users: seq<User>
    var transactions: seq<Transaction>

    ghost predicate Valid()
      reads this
    {
      && UniqueNames(users)
      && (forall i :: 0 <= i < |users| ==> users[i].id == i + 1)
      && (forall i :: 0 <= i < |transactions| ==> transactions[i].id == i + 1)
    }

    /** `Base.metadata.create_all`: empty tables. */
    constructor ()
      ensures Valid()
      ensures users == [] && transactions == []
    {
      users := [];
      transactions := [];
    }

    /** `create_user_route`: a taken name is refused and nothing changes; otherwise one user is
        added, holding `hash(password)` and never anything else. */
    method CreateUserRoute(username: string, password: string, salt: string, ctx: PasswordContext)
      returns (r: Result<User, Failure>)
      requires Valid()
      modifies this
      ensures Valid()
      ensures r.Err? <==> FindUser(old(users), username).Some?
      ensures r.Err? ==> r.error == UsernameTaken && users == old(users)
      ensures r.Ok? ==> r.value == User(|old(users)| + 1, username, ctx.hash(password, salt))
                        && users == old(users) + [r.value]
      ensures transactions == old(transactions)
    {
      if FindUser(users, username).Some? {
        return Err(UsernameTaken);
      }
      var newUser := User(|users| + 1, username, ctx.hash(password, salt));
      users := users + [newUser];
      r := Ok(newUser);
    }

    /** `create_transaction_route`: an authenticated caller's row is appended, owned by the
        caller, with the next id; nothing else changes, and an unauthenticated request changes
        nothing at all. */
    method CreateTransactionRoute(token: Token, now: int, input: TransactionCreate)
      returns (r: Result<Transaction, Failure>)
      requires Valid()
      modifies this
      ensures Valid()
      ensures users == old(users)
      ensures r.Err? <==> GetCurrentUser(old(users), token, now).Err?
      ensures r.Err? ==> r.error == NotAuthenticated && transactions == old(transactions)
      ensures r.Ok? ==>
        && r.value == Transaction(|old(transactions)| + 1, GetCurrentUser(old(users), token, now).value.username,
                                  input.name, input.amount, input.kind, input.category, input.date, input.description)
        && transactions == old(transactions) + [r.value]
    {
      var current := GetCurrentUser(users, token, now);
      if current.Err? {
        return Err(current.error);
      }
      var row := Transaction(|transactions| + 1, current.value.username,
                             input.name, input.amount, input.kind, input.category, input.date, input.description);
      transactions := transactions + [row];
      r := Ok(row);
    }

    /** `read_transactions`: the caller's page of rows, or a refusal. */
    method ReadTransactions(token: Token, now: int, skip: int, limit: int)
      returns (r: Result<seq<TransactionCreate>, Failure>)
      ensures r.Err? <==> GetCurrentUser(users, token, now).Err?
      ensures r.Err? ==> r.error == NotAuthenticated
      ensures r.Ok? ==> r.value == ListedAll(ListTransactions(transactions, GetCurrentUser(users, token, now).value.username, skip, limit))
    {
      var current := GetCurrentUser(users, token, now);
      if current.Err? {
        return Err(current.error);
      }
      r := Ok(ListedAll(ListTransactions(transactions, current.value.username, skip, limit)));
    }

    /** `transactions_summary` behind its authentication. */
    method SummaryRoute(token: Token, now: int, startDate: Option<CalendarDate>, endDate: Option<CalendarDate>, topCount: int)
      returns (r: Result<SummaryResponse, Failure>)
      ensures r.Err? <==> GetCurrentUser(users, token, now).Err?
      ensures r.Err? ==> r.error == NotAuthenticated
      ensures r.Ok? ==>
        r.value == SummaryOf(Query(transactions, GetCurrentUser(users, token, now).value.username, startDate, endDate), topCount)
    {
      var current := GetCurrentUser(users, token, now);
      if current.Err? {
        return Err(current.error);
      }
      var s := TransactionsSummary(transactions, current.value.username, startDate, endDate, topCount);
      r := Ok(s);
    }
  }

  // ---------------------------------------------------------------------------
  // Isolation between users

  /** A row created by one user changes neither the listing nor the summary rows of another. */
  lemma OtherUsersRowInvisible(rows: seq<Transaction>, t: Transaction, caller: string,
                               skip: int, limit: int, startDate: Option<CalendarDate>, endDate: Option<CalendarDate>)
    requires t.user != caller
    ensures ListTransactions(rows + [t], caller, skip, limit) == ListTransactions(rows, caller, skip, limit)
    ensures Query(rows + [t], caller, startDate, endDate) == Query(rows, caller, startDate, endDate)
  {
    OwnedIgnoresOthers(rows, t, caller);
    assert (rows + [t])[..|rows|] == rows;
  }
}
