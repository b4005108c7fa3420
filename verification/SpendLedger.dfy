/**
 The three places a spend event is entered in: the request log, the daily aggregates
 and the budget counter of the API key. All of them are written in one transaction.
 Amounts are integers here.
 */
module SpendLedger {
  import opened Options

  datatype Spend = Spend(project: string, apiKey: string, day: string, model: Option<string>, provider: Option<string>,
                         promptTokens: int, completionTokens: int, spend: int, succeeded: bool)

  /** The conflict target of the upsert. */
  datatype Bucket = Bucket(project: string, apiKey: string, day: string, model: string, provider: string)

  datatype Totals = Totals(promptTokens: int, completionTokens: int, spend: int, requests: int, successes: int, failures: int)

  /** An API key by project and public key, with the amount it has spent. */
  type Budgets = map<(string, string), int>

  datatype Books = Books(log: seq<Spend>, daily: map<Bucket, Totals>, budgets: Budgets)

  const ZERO := Totals(0, 0, 0, 0, 0, 0)

  function BucketOf(e: Spend): Bucket {
    Bucket(e.project, e.apiKey, e.day, if e.model.Some? then e.model.value else "", if e.provider.Some? then e.provider.value else "")
  }

  function Plus(t: Totals, e: Spend): Totals {
    Totals(t.promptTokens + e.promptTokens, t.completionTokens + e.completionTokens, t.spend + e.spend, t.requests + 1,
           t.successes + (if e.succeeded then 1 else 0), t.failures + (if e.succeeded then 0 else 1))
  }

  function At(daily: map<Bucket, Totals>, b: Bucket): Totals {
    if b in daily then daily[b] else ZERO
  }

  /** The upsert. */
  function DailyWith(daily: map<Bucket, Totals>, e: Spend): map<Bucket, Totals> {
    daily[BucketOf(e) := Plus(At(daily, BucketOf(e)), e)]
  }

  /** The update of the key's counter. */
  function BudgetsWith(budgets: Budgets, e: Spend): Budgets {
    if e.apiKey != "" && (e.project, e.apiKey) in budgets
    then budgets[(e.project, e.apiKey) := budgets[(e.project, e.apiKey)] + e.spend] else budgets
  }

  /** One transaction that commits. An unknown or empty key has no counter to update. */
  function Entered(books: Books, e: Spend, logRequests: bool): Books {
    Books(if logRequests then books.log + [e] else books.log, DailyWith(books.daily, e), BudgetsWith(books.budgets, e))
  }

  class Database {
    var log: seq<Spend>
    var daily: map<Bucket, Totals>
    var budgets: Budgets

    constructor (budgets: Budgets)
      ensures Now() == Books([], map[], budgets)
    {
      log, daily, this.budgets := [], map[], budgets;
    }

    ghost function Now(): Books
      reads this
    {
      Books(log, daily, budgets)
    }

    /** What the callback of `recordSpend`'s transaction writes. */
    method RecordSpend(e: Spend, logRequests: bool)
      modifies this
      ensures Now() == Entered(old(Now()), e, logRequests)
    {
      if logRequests { log := log + [e]; }
      var bucket := BucketOf(e);
      if bucket in daily {
        daily := daily[bucket := Plus(daily[bucket], e)];
      } else {
        daily := daily[bucket := Totals(e.promptTokens, e.completionTokens, e.spend, 1,
                                        if e.succeeded then 1 else 0, if e.succeeded then 0 else 1)];
      }
      if e.apiKey != "" && (e.project, e.apiKey) in budgets {
        budgets := budgets[(e.project, e.apiKey) := budgets[(e.project, e.apiKey)] + e.spend];
      }
    }
  }

  // ---- Runs -----------------------------------------------------------------------------

  /** A call of `recordSpend`, and whether its transaction commits; if not, the database has nothing of it. */
  datatype Attempt = Attempt(event: Spend, commits: bool)

  function Run(budgets: Budgets, attempts: seq<Attempt>, logRequests: bool): Books {
    if attempts == [] then Books([], map[], budgets)
    else
      var books := Run(budgets, attempts[..|attempts| - 1], logRequests);
      var last := attempts[|attempts| - 1];
      if last.commits then Entered(books, last.event, logRequests) else books
  }

  /** The events whose transaction committed. */
  function Committed(attempts: seq<Attempt>): seq<Spend> {
    if attempts == [] then []
    else Committed(attempts[..|attempts| - 1]) + if attempts[|attempts| - 1].commits then [attempts[|attempts| - 1].event] else []
  }

  function InBucket(b: Bucket): Spend -> bool { (e: Spend) => BucketOf(e) == b }

  function OfKey(project: string, apiKey: string): Spend -> bool { (e: Spend) => e.project == project && e.apiKey == apiKey }

  function TotalOf(events: seq<Spend>, which: Spend -> bool): Totals {
    if events == [] then ZERO
    else
      var t := TotalOf(events[..|events| - 1], which);
      if which(events[|events| - 1]) then Plus(t, events[|events| - 1]) else t
  }

  /** Every aggregate is the total over the committed events of its bucket, and the log is those events. */
  lemma {:induction false} DailyIsTotal(budgets: Budgets, attempts: seq<Attempt>, logRequests: bool, b: Bucket)
    ensures At(Run(budgets, attempts, logRequests).daily, b) == TotalOf(Committed(attempts), InBucket(b))
    ensures b in Run(budgets, attempts, logRequests).daily <==> TotalOf(Committed(attempts), InBucket(b)).requests > 0
    ensures Run(budgets, attempts, logRequests).log == if logRequests then Committed(attempts) else []
    decreases |attempts|
  {
    if attempts != [] {
      DailyIsTotal(budgets, attempts[..|attempts| - 1], logRequests, b);
      TotalSnoc(Committed(attempts[..|attempts| - 1]), attempts[|attempts| - 1].event, InBucket(b));
      RequestsCount(Committed(attempts[..|attempts| - 1]), InBucket(b));
    }
  }

  lemma TotalSnoc(events: seq<Spend>, e: Spend, which: Spend -> bool)
    ensures TotalOf(events + [e], which) == if which(e) then Plus(TotalOf(events, which), e) else TotalOf(events, which)
    ensures TotalOf(events + [], which) == TotalOf(events, which)
  {
    assert (events + [e])[..|events|] == events;
    assert events + [] == events;
  }

  /** Requests are counted once, as a success or as a failure. */
  lemma {:induction false} RequestsCount(events: seq<Spend>, which: Spend -> bool)
    ensures TotalOf(events, which).requests == TotalOf(events, which).successes + TotalOf(events, which).failures
    ensures TotalOf(events, which).requests >= 0
  {
    if events != [] { RequestsCount(events[..|events| - 1], which); }
  }

  function SumOf(events: seq<Spend>, which: Spend -> bool, amount: Spend -> int): int {
    if events == [] then 0
    else SumOf(events[..|events| - 1], which, amount) + if which(events[|events| - 1]) then amount(events[|events| - 1]) else 0
  }

  /** Every figure of a total is the sum of that figure of the events, and every event is one request. */
  lemma {:induction false} TotalsAreSums(events: seq<Spend>, which: Spend -> bool)
    ensures TotalOf(events, which).promptTokens == SumOf(events, which, (e: Spend) => e.promptTokens)
    ensures TotalOf(events, which).completionTokens == SumOf(events, which, (e: Spend) => e.completionTokens)
    ensures TotalOf(events, which).spend == SumOf(events, which, (e: Spend) => e.spend)
    ensures TotalOf(events, which).requests == SumOf(events, which, (e: Spend) => 1)
    ensures TotalOf(events, which).successes == SumOf(events, which, (e: Spend) => if e.succeeded then 1 else 0)
    ensures TotalOf(events, which).failures == SumOf(events, which, (e: Spend) => if e.succeeded then 0 else 1)
  {
    if events != [] { TotalsAreSums(events[..|events| - 1], which); }
  }

  /** No name and the empty name are the same. */
  predicate SameName(a: Option<string>, b: Option<string>) {
    a == b || (a in {None, Some("")} && b in {None, Some("")})
  }

  /** Two events share a bucket exactly if they agree in project, key, day, model and provider. */
  lemma SameBucketIff(a: Spend, b: Spend)
    ensures BucketOf(a) == BucketOf(b) <==>
              && a.project == b.project && a.apiKey == b.apiKey && a.day == b.day
              && SameName(a.model, b.model) && SameName(a.provider, b.provider)
    ensures BucketOf(a).project == a.project && BucketOf(a).apiKey == a.apiKey && BucketOf(a).day == a.day
    ensures SameName(Some(BucketOf(a).model), a.model) && SameName(Some(BucketOf(a).provider), a.provider)
  {
  }

  /** No run adds or removes a counter, and what is spent without a key changes none. */
  lemma {:induction false} OtherBudgetsStay(budgets: Budgets, attempts: seq<Attempt>, logRequests: bool, key: (string, string))
    ensures key in Run(budgets, attempts, logRequests).budgets <==> key in budgets
    ensures key in budgets && (key.1 == "" || forall a :: a in attempts && a.commits ==> !OfKey(key.0, key.1)(a.event)) ==>
              key in Run(budgets, attempts, logRequests).budgets && Run(budgets, attempts, logRequests).budgets[key] == budgets[key]
  {
    if attempts != [] {
      OtherBudgetsStay(budgets, attempts[..|attempts| - 1], logRequests, key);
      assert attempts[|attempts| - 1] in attempts;
    }
  }

  /** A key's counter has grown by what its committed events spent. */
  lemma {:induction false} BudgetIsTotal(budgets: Budgets, attempts: seq<Attempt>, logRequests: bool,
                                         project: string, apiKey: string)
    requires apiKey != "" && (project, apiKey) in budgets
    ensures (project, apiKey) in Run(budgets, attempts, logRequests).budgets
    ensures Run(budgets, attempts, logRequests).budgets[(project, apiKey)]
         == budgets[(project, apiKey)] + TotalOf(Committed(attempts), OfKey(project, apiKey)).spend
    decreases |attempts|
  {
    if attempts != [] {
      var init, last := attempts[..|attempts| - 1], attempts[|attempts| - 1];
      BudgetIsTotal(budgets, init, logRequests, project, apiKey);
      TotalSnoc(Committed(init), last.event, OfKey(project, apiKey));
      BudgetStep(Run(budgets, init, logRequests).budgets, last.event, project, apiKey);
    }
  }

  lemma BudgetStep(budgets: Budgets, e: Spend, project: string, apiKey: string)
    requires apiKey != "" && (project, apiKey) in budgets
    ensures (project, apiKey) in BudgetsWith(budgets, e)
    ensures BudgetsWith(budgets, e)[(project, apiKey)]
         == budgets[(project, apiKey)] + if OfKey(project, apiKey)(e) then e.spend else 0
  {
  }

  // ---- The counter against the aggregates ---------------------------------------------------

  ghost function SpentIn(daily: map<Bucket, Totals>, buckets: set<Bucket>): int {
    if buckets == {} then 0
    else
      var b :| b in buckets;
      At(daily, b).spend + SpentIn(daily, buckets - {b})
  }

  /** Any bucket can be taken out first. */
  lemma {:induction false} SpentTakeOut(daily: map<Bucket, Totals>, buckets: set<Bucket>, x: Bucket)
    requires x in buckets
    ensures SpentIn(daily, buckets) == At(daily, x).spend + SpentIn(daily, buckets - {x})
    decreases |buckets|
  {
    var b :| b in buckets && SpentIn(daily, buckets) == At(daily, b).spend + SpentIn(daily, buckets - {b});
    if b != x {
      SpentTakeOut(daily, buckets - {b}, x);
      SpentTakeOut(daily, buckets - {x}, b);
      assert buckets - {b} - {x} == buckets - {x} - {b};
    }
  }

  lemma {:induction false} SpentAgrees(daily: map<Bucket, Totals>, daily': map<Bucket, Totals>, buckets: set<Bucket>)
    requires forall b :: b in buckets ==> At(daily, b) == At(daily', b)
    ensures SpentIn(daily, buckets) == SpentIn(daily', buckets)
    decreases |buckets|
  {
    if buckets != {} {
      var b :| b in buckets;
      SpentTakeOut(daily, buckets, b);
      SpentTakeOut(daily', buckets, b);
      SpentAgrees(daily, daily', buckets - {b});
    }
  }

  /** The daily rows of an API key. */
  function RowsOf(daily: map<Bucket, Totals>, project: string, apiKey: string): set<Bucket> {
    set b | b in daily && b.project == project && b.apiKey == apiKey
  }

  lemma OneMoreEvent(daily: map<Bucket, Totals>, e: Spend, project: string, apiKey: string)
    ensures SpentIn(DailyWith(daily, e), RowsOf(DailyWith(daily, e), project, apiKey))
         == SpentIn(daily, RowsOf(daily, project, apiKey)) + if OfKey(project, apiKey)(e) then e.spend else 0
  {
    var b := BucketOf(e);
    var daily' := DailyWith(daily, e);
    var rows, rows' := RowsOf(daily, project, apiKey), RowsOf(daily', project, apiKey);
    if OfKey(project, apiKey)(e) {
      assert rows' == rows + {b};
      SpentTakeOut(daily', rows', b);
      assert rows' - {b} == rows - {b};
      SpentAgrees(daily, daily', rows - {b});
      if b in rows { SpentTakeOut(daily, rows, b); } else { assert rows - {b} == rows; }
    } else {
      assert rows' == rows;
      SpentAgrees(daily, daily', rows);
    }
  }

  lemma {:induction false} DailyRowsSum(budgets: Budgets, attempts: seq<Attempt>, logRequests: bool, project: string,
                                        apiKey: string)
    ensures var daily := Run(budgets, attempts, logRequests).daily;
            SpentIn(daily, RowsOf(daily, project, apiKey)) == TotalOf(Committed(attempts), OfKey(project, apiKey)).spend
    decreases |attempts|
  {
    if attempts == [] {
      assert RowsOf(map[], project, apiKey) == {};
    } else {
      var init, last := attempts[..|attempts| - 1], attempts[|attempts| - 1];
      DailyRowsSum(budgets, init, logRequests, project, apiKey);
      OneMoreEvent(Run(budgets, init, logRequests).daily, last.event, project, apiKey);
      TotalSnoc(Committed(init), last.event, OfKey(project, apiKey));
    }
  }

  /** The books agree: a key's counter has grown by exactly what its daily rows add up to. */
  lemma BooksAgree(budgets: Budgets, attempts: seq<Attempt>, logRequests: bool, project: string, apiKey: string)
    requires apiKey != "" && (project, apiKey) in budgets
    ensures var books := Run(budgets, attempts, logRequests);
            (project, apiKey) in books.budgets &&
            books.budgets[(project, apiKey)] - budgets[(project, apiKey)] == SpentIn(books.daily, RowsOf(books.daily, project, apiKey))
  {
    BudgetIsTotal(budgets, attempts, logRequests, project, apiKey);
    DailyRowsSum(budgets, attempts, logRequests, project, apiKey);
  }
}
