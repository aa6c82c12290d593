/**
 * The ledger engine of the transaction form: the sign rule, the running cash
 * balance (Saldo Kas) carried from the latest transaction, the monthly
 * balance documents it keeps up to date, the bootstrap prompt for the very
 * first entry and the back-fill of the previous month's closing balance.
 *
 * The `transactions` collection is a sequence in insertion order, the
 * `monthlyBalances` collection a map from `YYYY-MM` keys to documents, and the
 * server timestamp `createdAt` a counter the store hands out.
 */
module Ledger {
  import opened Wrappers
  import opened Strings
  import opened Dates
  import opened Categories

  function Abs(x: int): nat
  {
    if x < 0 then -x else x
  }

  /**
   * The sign rule of `calculateSaldoKas`: income categories (index starting
   * with '2') add, expense categories (index starting with '3') subtract, and
   * anything else uses the amount as it is. The test is a string prefix, so a
   * root "20" counts as income as well.
   */
  function SignedAmount(index: string, amount: int): (r: int)
    ensures Abs(r) == Abs(amount)
    ensures StartsWith(index, "2") ==> r >= 0
    ensures !StartsWith(index, "2") && StartsWith(index, "3") ==> r <= 0
    ensures !StartsWith(index, "2") && !StartsWith(index, "3") ==> r == amount
  {
    if StartsWith(index, "2") then Abs(amount)
    else if StartsWith(index, "3") then -(Abs(amount) as int)
    else amount
  }

  /** A positive amount is added for income, subtracted for an expense and kept for the opening-balance branch. */
  lemma SignOfPositive(index: string, amount: int)
    requires amount > 0
    ensures StartsWith(index, "2") ==> SignedAmount(index, amount) == amount
    ensures !StartsWith(index, "2") && StartsWith(index, "3") ==> SignedAmount(index, amount) == -amount
    ensures StartsWith(index, "1") ==> SignedAmount(index, amount) == amount
  {
  }

  /** The prefix test reads the first character only: "20" and "2.1" are both income, "3" an expense. */
  lemma SignByPrefixExamples()
    ensures SignedAmount("20", 5000) == 5000
    ensures SignedAmount("2.1", -5000) == 5000
    ensures SignedAmount("3.4.1", 5000) == -5000
    ensures SignedAmount("1", -70) == -70
  {
    assert StartsWith("20", "2");
    assert StartsWith("2.1", "2");
    assert "3.4.1"[..1] == "3";
    assert "1"[..1] == "1";
  }

  // ---------------------------------------------------------------- documents

  /** A transaction document as the form writes it (the audit fields of the session are not modelled). */
  datatype Transaction = Transaction(
    name: string,
    date: Date,
    amount: int,
    accountId: string,
    description: string,
    categoryId: string,
    createdAt: nat,
    saldoKas: int)

  /**
   * A `monthlyBalances` document. An absent `accountBalances` field reads as
   * the empty map; each per-account entry holds its `total` when that is a
   * number.
   */
  datatype MonthlyBalance = MonthlyBalance(
    year: Option<int>,
    month: Option<int>,
    endingBalance: Option<int>,
    isInitialSetup: bool,
    autoSaved: bool,
    accountBalances: map<string, Option<int>>)

  // ---------------------------------------------------------------- the latest transaction

  /** `a` comes before `b` under `orderBy('date', 'desc').orderBy('createdAt', 'desc')`. */
  predicate Later(a: Transaction, b: Transaction)
  {
    Before(b.date, a.date) || (b.date == a.date && b.createdAt < a.createdAt)
  }

  lemma LaterTransitive(a: Transaction, b: Transaction, c: Transaction)
    ensures Later(a, b) && Later(b, c) ==> Later(a, c)
    ensures Later(a, b) && !Later(c, b) ==> Later(a, c)
    ensures Later(a, b) ==> !Later(b, a)
  {
    if Before(b.date, a.date) && Before(c.date, b.date) {
      BeforeTransitive(c.date, b.date, a.date);
    }
    BeforeTotal(b.date, c.date);
    BeforeTotal(a.date, b.date);
    BeforeTotal(a.date, c.date);
    if Before(b.date, a.date) && Before(b.date, c.date) && Before(c.date, a.date) {
    }
    if Before(c.date, b.date) && Before(b.date, a.date) {
      BeforeTransitive(c.date, b.date, a.date);
    }
    if Before(a.date, b.date) && Before(b.date, c.date) {
      BeforeTransitive(a.date, b.date, c.date);
    }
  }

  /**
   * The position of the transaction a descending (date, createdAt) query
   * returns first: no transaction comes before it, and it comes strictly
   * before every transaction stored ahead of it (ties go to the older entry,
   * as in a stable sort).
   */
  function LatestIndex(ts: seq<Transaction>): (k: nat)
    requires ts != []
    ensures k < |ts|
    ensures forall j | 0 <= j < |ts| :: !Later(ts[j], ts[k])
    ensures forall j | 0 <= j < k :: Later(ts[k], ts[j])
  {
    if |ts| == 1 then 0
    else
      var init := ts[..|ts| - 1];
      var k := LatestIndex(init);
      var last := ts[|ts| - 1];
      assert forall j | 0 <= j < |init| :: ts[j] == init[j];
      if Later(last, ts[k]) then
        assert forall j | 0 <= j < |ts| - 1 :: Later(last, ts[j]) && !Later(ts[j], last) by {
          forall j | 0 <= j < |ts| - 1 ensures Later(last, ts[j]) && !Later(ts[j], last) {
            LaterTransitive(last, ts[k], ts[j]);
          }
        }
        LaterIrreflexive(last);
        |ts| - 1
      else
        k
  }

  lemma LaterIrreflexive(a: Transaction)
    ensures !Later(a, a)
  {
    BeforeIrreflexive(a.date);
  }

  /** `snapshot.docs[0].data().saldoKas`: the running balance of the latest transaction. */
  function LatestSaldo(ts: seq<Transaction>): int
    requires ts != []
  {
    ts[LatestIndex(ts)].saldoKas
  }

  /** The balance a new entry starts from: the latest transaction's Saldo Kas, or the opening balance of an empty ledger. */
  function PreviousBalance(ts: seq<Transaction>, opening: int): int
  {
    if ts == [] then opening else LatestSaldo(ts)
  }

  // ---------------------------------------------------------------- monthly balance documents

  /** `monthKey` of the month before the one `d` falls in (January wraps to December of the previous year). */
  function PreviousMonthKey(d: Date): (key: string)
    requires ValidDate(d)
  {
    MonthKey(PreviousMonth(MonthOf(d)))
  }

  /** The previous month's key of a January date names December of the year before. */
  lemma PreviousMonthKeyWraps(d: Date)
    requires ValidDate(d)
    ensures d.month == 1 ==> PreviousMonthKey(d) == MonthKey(YearMonth(d.year - 1, 12))
    ensures d.month > 1 ==> PreviousMonthKey(d) == MonthKey(YearMonth(d.year, d.month - 1))
  {
  }

  /** The answer to the bootstrap prompt: the entered value (None when it is not a number), or a cancel. */
  datatype PromptReply = Cancel | Submit(entered: Option<int>)

  /**
   * The document the bootstrap prompt writes (a plain `set`): year and month
   * read back from the key with `parseInt`, the entered closing balance and
   * the initial-setup flag.
   */
  function InitialBalanceDoc(key: string, value: int): MonthlyBalance
  {
    var ym := ParseMonthKey(key);
    MonthlyBalance(Some(ym.year), Some(ym.month), Some(value), true, false, map[])
  }

  /** The bootstrap document records the month of its key, for every non-negative year. */
  lemma InitialBalanceDocMonth(ym: YearMonth, value: int)
    requires ValidMonth(ym) && ym.year >= 0
    ensures InitialBalanceDoc(MonthKey(ym), value).year == Some(ym.year)
    ensures InitialBalanceDoc(MonthKey(ym), value).month == Some(ym.month)
    ensures InitialBalanceDoc(MonthKey(ym), value).endingBalance == Some(value)
  {
    MonthKeyRoundTrip(ym);
  }

  /** `promptForInitialBalance(key)`: the value it resolves and the collection after it. */
  function PromptOutcome(bs: map<string, MonthlyBalance>, key: string, reply: PromptReply)
    : (r: (int, map<string, MonthlyBalance>))
    ensures reply.Cancel? ==> r == (0, bs)
    ensures reply.Submit? ==> r.0 == reply.entered.GetOr(0)
    ensures reply.Submit? ==> r.1 == bs[key := InitialBalanceDoc(key, r.0)]
  {
    match reply
    case Cancel => (0, bs)
    case Submit(entered) =>
      var v := entered.GetOr(0);
      (v, bs[key := InitialBalanceDoc(key, v)])
  }

  /**
   * `getMonthlyStartingBalance(date)`: the previous month's closing balance
   * when its document exists (0 when it has none), otherwise the prompt.
   */
  function StartingBalance(bs: map<string, MonthlyBalance>, d: Date, reply: PromptReply)
    : (r: (int, map<string, MonthlyBalance>))
    requires ValidDate(d)
  {
    var key := PreviousMonthKey(d);
    if key in bs then (bs[key].endingBalance.GetOr(0), bs)
    else PromptOutcome(bs, key, reply)
  }

  /**
   * Consulting the starting balance never alters an existing document, writes
   * at most the previous month's document, and writes nothing on a cancel.
   */
  lemma StartingBalanceWrites(bs: map<string, MonthlyBalance>, d: Date, reply: PromptReply)
    requires ValidDate(d)
    ensures var r := StartingBalance(bs, d, reply);
      && (forall k | k in bs :: k in r.1 && r.1[k] == bs[k])
      && (forall k | k in r.1 && k !in bs :: k == PreviousMonthKey(d) && r.1[k].isInitialSetup)
      && (reply.Cancel? ==> r.1 == bs)
    ensures PreviousMonthKey(d) in bs ==> StartingBalance(bs, d, reply) == (bs[PreviousMonthKey(d)].endingBalance.GetOr(0), bs)
  {
  }

  /** The document `updateMonthlyBalance` merges into: year, month and closing balance set, every other field kept. */
  function MergedDoc(prior: Option<MonthlyBalance>, ym: YearMonth, saldo: int): (m: MonthlyBalance)
    ensures m.year == Some(ym.year) && m.month == Some(ym.month) && m.endingBalance == Some(saldo)
    ensures prior.Some? ==>
      m.isInitialSetup == prior.value.isInitialSetup && m.autoSaved == prior.value.autoSaved
      && m.accountBalances == prior.value.accountBalances
    ensures prior.None? ==> !m.isInitialSetup && !m.autoSaved && m.accountBalances == map[]
  {
    match prior
    case Some(doc) => doc.(year := Some(ym.year), month := Some(ym.month), endingBalance := Some(saldo))
    case None => MonthlyBalance(Some(ym.year), Some(ym.month), Some(saldo), false, false, map[])
  }

  /** `set({...}, {merge: true})` on the document of month `ym`. */
  function MergeMonth(bs: map<string, MonthlyBalance>, ym: YearMonth, saldo: int): (r: map<string, MonthlyBalance>)
    requires ValidMonth(ym)
    ensures r.Keys == bs.Keys + {MonthKey(ym)}
    ensures forall k | k in bs && k != MonthKey(ym) :: r[k] == bs[k]
    ensures r[MonthKey(ym)].endingBalance == Some(saldo)
    ensures MonthKey(ym) in bs ==>
      r[MonthKey(ym)].accountBalances == bs[MonthKey(ym)].accountBalances
      && r[MonthKey(ym)].isInitialSetup == bs[MonthKey(ym)].isInitialSetup
      && r[MonthKey(ym)].autoSaved == bs[MonthKey(ym)].autoSaved
  {
    var key := MonthKey(ym);
    bs[key := MergedDoc(if key in bs then Some(bs[key]) else None, ym, saldo)]
  }

  // ---------------------------------------------------------------- back-fill of the previous month

  /** The transactions whose date lies in `[first, last]`, in stored order. */
  function Window(ts: seq<Transaction>, first: Date, last: Date): (w: seq<Transaction>)
    ensures forall t | t in w :: t in ts && Within(t.date, first, last)
    ensures forall t | t in ts && Within(t.date, first, last) :: t in w
  {
    if ts == [] then []
    else
      var init := ts[..|ts| - 1];
      var t := ts[|ts| - 1];
      assert forall x | x in ts :: x in init || x == t;
      Window(init, first, last) + (if Within(t.date, first, last) then [t] else [])
  }

  /**
   * `checkAndSavePreviousMonthBalance` at the moment `now`: when the previous
   * month has no document, the latest transaction dated between its first
   * midnight and 23:59:59 on its last day supplies the closing balance of an
   * auto-saved document; otherwise nothing is written.
   */
  function Backfill(ts: seq<Transaction>, bs: map<string, MonthlyBalance>, now: Date): (r: map<string, MonthlyBalance>)
    requires ValidDate(now)
    ensures PreviousMonthKey(now) in bs ==> r == bs
    ensures forall k | k in bs :: k in r && r[k] == bs[k]
    ensures forall k | k in r && k !in bs :: k == PreviousMonthKey(now) && r[k].autoSaved
    ensures var p := PreviousMonth(MonthOf(now));
      PreviousMonthKey(now) !in bs ==>
        (PreviousMonthKey(now) in r <==> exists t | t in ts :: Within(t.date, FirstInstant(p), LastSecond(p)))
    ensures var p := PreviousMonth(MonthOf(now));
      PreviousMonthKey(now) in r && PreviousMonthKey(now) !in bs ==>
        exists t | t in ts && Within(t.date, FirstInstant(p), LastSecond(p)) ::
          && r[PreviousMonthKey(now)] == MonthlyBalance(Some(p.year), Some(p.month), Some(t.saldoKas), false, true, map[])
          && forall u | u in ts && Within(u.date, FirstInstant(p), LastSecond(p)) :: !Later(u, t)
  {
    var p := PreviousMonth(MonthOf(now));
    var key := MonthKey(p);
    if key in bs then bs
    else
      var w := Window(ts, FirstInstant(p), LastSecond(p));
      if w == [] then
        assert forall t | t in ts :: !Within(t.date, FirstInstant(p), LastSecond(p));
        bs
      else
        var last := w[LatestIndex(w)];
        assert last in ts && Within(last.date, FirstInstant(p), LastSecond(p));
        assert forall u | u in ts && Within(u.date, FirstInstant(p), LastSecond(p)) :: !Later(u, last) by {
          forall u | u in ts && Within(u.date, FirstInstant(p), LastSecond(p)) ensures !Later(u, last) {
            var j := IndexOf(w, u);
          }
        }
        bs[key := MonthlyBalance(Some(p.year), Some(p.month), Some(last.saldoKas), false, true, map[])]
  }

  /** A valid date inside the back-fill window of a month falls in that month. */
  lemma WindowMonth(d: Date, ym: YearMonth)
    requires ValidDate(d) && ValidMonth(ym)
    ensures Within(d, FirstInstant(ym), LastSecond(ym)) ==> MonthOf(d) == ym
  {
  }

  /** Every stored transaction's month has a balance document. */
  ghost predicate Covered(ts: seq<Transaction>, bs: map<string, MonthlyBalance>)
  {
    forall t | t in ts :: ValidDate(t.date) && MonthKey(MonthOf(t.date)) in bs
  }

  /**
   * When every transaction's month already has a document (which saving
   * transactions maintains), the back-fill never writes: a month without a
   * document has no transaction to take a balance from.
   */
  lemma {:induction false} BackfillIsNoOpWhenCovered(ts: seq<Transaction>, bs: map<string, MonthlyBalance>, now: Date)
    requires ValidDate(now) && Covered(ts, bs)
    ensures Backfill(ts, bs, now) == bs
  {
    var p := PreviousMonth(MonthOf(now));
    var key := MonthKey(p);
    if key !in bs {
      var w := Window(ts, FirstInstant(p), LastSecond(p));
      if w != [] {
        var t := w[0];
        assert t in ts && Within(t.date, FirstInstant(p), LastSecond(p));
        WindowMonth(t.date, p);
      }
    }
  }

  // ---------------------------------------------------------------- the form

  /** The raw form input: `transactionDate` is None when empty; `amount` is already `parseFloat(..) || 0`. */
  datatype TransactionForm = TransactionForm(
    name: string,
    date: Option<Date>,
    amount: int,
    accountId: string,
    description: string,
    categorySelects: seq<string>)

  datatype FormError = NotSignedIn | EmptyName | MissingDate | NonPositiveAmount | MissingAccount | MissingCategory

  /**
   * `getSelectedCategoryId`: the deepest level selector (`category5` first,
   * `category1` last) holding a value; `selects[i]` is the value of selector
   * `category(i+1)`, "" when it is empty or absent.
   */
  method GetSelectedCategoryId(selects: seq<string>) returns (r: Option<string>)
    ensures r == SelectedCategory(selects)
    ensures r.None? <==> forall i | 0 <= i < |selects| :: selects[i] == ""
    ensures r.Some? ==> exists i | 0 <= i < |selects| ::
      selects[i] == r.value && r.value != "" && forall j | i < j < |selects| :: selects[j] == ""
  {
    var i := |selects|;
    assert selects[..i] == selects;
    while i > 0
      invariant 0 <= i <= |selects|
      invariant forall j | i <= j < |selects| :: selects[j] == ""
      invariant SelectedCategory(selects[..i]) == SelectedCategory(selects)
    {
      assert selects[..i][..i - 1] == selects[..i - 1];
      i := i - 1;
      if selects[i] != "" {
        return Some(selects[i]);
      }
    }
    return None;
  }

  /** The value of the last non-empty selector, if any (the reference for `GetSelectedCategoryId`). */
  function SelectedCategory(selects: seq<string>): Option<string>
  {
    if selects == [] then None
    else if selects[|selects| - 1] != "" then Some(selects[|selects| - 1])
    else SelectedCategory(selects[..|selects| - 1])
  }

  /** The checks of `handleTransactionSubmit`, in order; None when the entry may be saved. */
  function CheckForm(signedIn: bool, form: TransactionForm, categoryId: Option<string>): (e: Option<FormError>)
    ensures e.None? <==> (signedIn && Trim(form.name) != [] && form.date.Some? && form.amount > 0
                          && form.accountId != "" && categoryId.Some? && categoryId.value != "")
    ensures e == Some(EmptyName) ==> signedIn && Trim(form.name) == []
    ensures e == Some(MissingDate) ==> signedIn && Trim(form.name) != [] && form.date.None?
    ensures e == Some(NonPositiveAmount) ==> signedIn && Trim(form.name) != [] && form.date.Some? && form.amount <= 0
    ensures e == Some(MissingAccount) ==>
      signedIn && Trim(form.name) != [] && form.date.Some? && form.amount > 0 && form.accountId == ""
    ensures e == Some(MissingCategory) ==>
      signedIn && Trim(form.name) != [] && form.date.Some? && form.amount > 0
      && form.accountId != "" && (categoryId.None? || categoryId.value == "")
    ensures e == Some(NotSignedIn) <==> !signedIn
  {
    if !signedIn then Some(NotSignedIn)
    else if Trim(form.name) == [] then Some(EmptyName)
    else if form.date.None? then Some(MissingDate)
    else if form.amount <= 0 then Some(NonPositiveAmount)
    else if form.accountId == "" then Some(MissingAccount)
    else if categoryId.None? || categoryId.value == "" then Some(MissingCategory)
    else None
  }

  datatype SubmitOutcome = Rejected(error: FormError) | UnknownCategory | Saved(entry: Transaction)

  /** What a saved entry satisfies: the form checks passed on it. */
  predicate EntryAccepted(t: Transaction)
  {
    t.name != [] && ValidDate(t.date) && t.amount > 0 && t.accountId != "" && t.categoryId != ""
  }

  // ---------------------------------------------------------------- running balance

  function Sum(s: seq<int>): int
  {
    if s == [] then 0 else Sum(s[..|s| - 1]) + s[|s| - 1]
  }

  /**
   * Every entry's Saldo Kas is the balance of the transaction that was latest
   * when it was saved (or the opening balance of the first entry) plus its
   * signed amount.
   */
  ghost predicate Chained(ts: seq<Transaction>, signed: seq<int>, opening: int)
  {
    |signed| == |ts| && forall i {:trigger signed[i]} | 0 <= i < |ts| :: ts[i].saldoKas == PreviousBalance(ts[..i], opening) + signed[i]
  }

  /** Every entry comes after all entries saved before it (no entry was back-dated). */
  predicate Chronological(ts: seq<Transaction>)
  {
    forall i, j | 0 <= i < j < |ts| :: Later(ts[j], ts[i])
  }

  /** Without back-dated entries the current balance is the opening balance plus every signed amount. */
  lemma {:induction false} RunningBalance(ts: seq<Transaction>, signed: seq<int>, opening: int)
    requires Chained(ts, signed, opening) && Chronological(ts) && ts != []
    ensures LatestSaldo(ts) == opening + Sum(signed)
  {
    var n := |ts|;
    var init, sg := ts[..n - 1], signed[..n - 1];
    var k := LatestIndex(ts);
    assert k == n - 1;
    assert ts[n - 1].saldoKas == PreviousBalance(init, opening) + signed[n - 1];
    if n == 1 {
      assert sg == [];
    } else {
      ChainedFront(ts, signed, opening);
      assert Chronological(init) by {
        forall i, j | 0 <= i < j < |init| ensures Later(init[j], init[i]) {
          assert init[i] == ts[i] && init[j] == ts[j];
        }
      }
      RunningBalance(init, sg, opening);
    }
  }

  /**
   * With a back-dated entry the chain no longer adds up: an entry for 5 March
   * saved after one for 10 March starts from the 10 March balance, but the
   * entry saved next, for 12 March, starts from 10 March again, so the
   * 5 March amount is missing from the current balance.
   */
  lemma BackDatedEntryIsLost()
    ensures var a := Transaction("a", Date(2024, 3, 10, 0), 100, "kas", "", "2.1", 1, 100);
      var b := Transaction("b", Date(2024, 3, 5, 0), 50, "kas", "", "2.1", 2, 150);
      var c := Transaction("c", Date(2024, 3, 12, 0), 10, "kas", "", "2.1", 3, 110);
      && Chained([a, b, c], [100, 50, 10], 0)
      && !Chronological([a, b, c])
      && LatestSaldo([a, b, c]) == 110
      && Sum([100, 50, 10]) == 160
  {
    var a := Transaction("a", Date(2024, 3, 10, 0), 100, "kas", "", "2.1", 1, 100);
    var b := Transaction("b", Date(2024, 3, 5, 0), 50, "kas", "", "2.1", 2, 150);
    var c := Transaction("c", Date(2024, 3, 12, 0), 10, "kas", "", "2.1", 3, 110);
    var ts := [a, b, c];
    assert ts[..0] == [] && ts[..1] == [a] && ts[..2] == [a, b];
    assert LatestIndex([a]) == 0;
    assert LatestIndex([a, b]) == 0;
    assert LatestIndex(ts) == 2;
    assert Sum([100, 50, 10]) == Sum([100, 50]) + 10;
    assert Sum([100, 50]) == Sum([100]) + 50;
    assert Sum([100]) == Sum([]) + 100;
  }

  /** The chain of a ledger holds for the ledger without its last entry. */
  lemma ChainedFront(ts: seq<Transaction>, signed: seq<int>, opening: int)
    requires Chained(ts, signed, opening) && ts != []
    ensures Chained(ts[..|ts| - 1], signed[..|ts| - 1], opening)
  {
    var n := |ts|;
    var init, sg := ts[..n - 1], signed[..n - 1];
    forall i | 0 <= i < n - 1 ensures init[i].saldoKas == PreviousBalance(init[..i], opening) + sg[i] {
      assert init[..i] == ts[..i] && init[i] == ts[i] && sg[i] == signed[i];
    }
  }

  /** Appending an entry saved on top of the latest balance extends the chain. */
  lemma AppendKeepsChain(ts: seq<Transaction>, signed: seq<int>, opening: int, t: Transaction, s: int)
    requires Chained(ts, signed, opening)
    requires t.saldoKas == PreviousBalance(ts, opening) + s
    ensures Chained(ts + [t], signed + [s], opening)
  {
    var ts' := ts + [t];
    forall i | 0 <= i < |ts'| ensures ts'[i].saldoKas == PreviousBalance(ts'[..i], opening) + (signed + [s])[i] {
      assert ts'[..i] == if i < |ts| then ts[..i] else ts;
    }
  }

  /** No document's `accountBalances` is altered and new documents carry none. */
  predicate KeepsAccountBalances(before: map<string, MonthlyBalance>, after: map<string, MonthlyBalance>)
  {
    && (forall k | k in before :: k in after && after[k].accountBalances == before[k].accountBalances)
    && (forall k | k in after && k !in before :: after[k].accountBalances == map[])
  }

  /** The writes of the transaction form never touch per-account balances: not the prompt, the merge or the back-fill. */
  lemma {:induction false} WritesKeepAccountBalances(bs: map<string, MonthlyBalance>, d: Date, reply: PromptReply,
                                                     ts: seq<Transaction>, ym: YearMonth, saldo: int, now: Date)
    requires ValidDate(d) && ValidMonth(ym) && ValidDate(now)
    ensures KeepsAccountBalances(bs, StartingBalance(bs, d, reply).1)
    ensures KeepsAccountBalances(bs, MergeMonth(bs, ym, saldo))
    ensures KeepsAccountBalances(bs, Backfill(ts, bs, now))
  {
    PromptKeepsAccountBalances(bs, d, reply);
    MergeKeepsAccountBalances(bs, ym, saldo);
    BackfillKeepsAccountBalances(bs, ts, now);
  }

  lemma PromptKeepsAccountBalances(bs: map<string, MonthlyBalance>, d: Date, reply: PromptReply)
    requires ValidDate(d)
    ensures KeepsAccountBalances(bs, StartingBalance(bs, d, reply).1)
  {
  }

  lemma MergeKeepsAccountBalances(bs: map<string, MonthlyBalance>, ym: YearMonth, saldo: int)
    requires ValidMonth(ym)
    ensures KeepsAccountBalances(bs, MergeMonth(bs, ym, saldo))
  {
    var key := MonthKey(ym);
    var r := MergeMonth(bs, ym, saldo);
    assert r[key].accountBalances == if key in bs then bs[key].accountBalances else map[];
  }

  lemma BackfillKeepsAccountBalances(bs: map<string, MonthlyBalance>, ts: seq<Transaction>, now: Date)
    requires ValidDate(now)
    ensures KeepsAccountBalances(bs, Backfill(ts, bs, now))
  {
  }

  lemma KeepsAccountBalancesTransitive(a: map<string, MonthlyBalance>, b: map<string, MonthlyBalance>,
                                       c: map<string, MonthlyBalance>)
    requires KeepsAccountBalances(a, b) && KeepsAccountBalances(b, c)
    ensures KeepsAccountBalances(a, c)
  {
  }

  /** The writes of one saved entry keep the chain of balances, the month documents and the timestamps below the clock. */
  lemma RecordKeepsValid(ts: seq<Transaction>, signed: seq<int>, opening: int, op: int,
                         bs: map<string, MonthlyBalance>, t: Transaction, s: int, now: Date, clock: int)
    requires Chained(ts, signed, opening) && Covered(ts, bs)
    requires forall u | u in ts :: EntryAccepted(u) && u.createdAt < clock
    requires EntryAccepted(t) && t.createdAt == clock && ValidDate(now)
    requires ts != [] ==> t.saldoKas == LatestSaldo(ts) + s && op == opening
    requires ts == [] ==> op == t.saldoKas - s
    ensures Chained(ts + [t], signed + [s], op)
    ensures Covered(ts + [t], Backfill(ts + [t], MergeMonth(bs, MonthOf(t.date), t.saldoKas), now))
    ensures forall u | u in ts + [t] :: EntryAccepted(u) && u.createdAt < clock + 1
  {
    AppendKeepsChain(ts, signed, op, t, s);
    SaveKeepsCovered(ts, bs, t, now);
  }

  /** Saving an entry keeps every stored month covered: its own month gets a document and no document is removed. */
  lemma SaveKeepsCovered(ts: seq<Transaction>, bs: map<string, MonthlyBalance>, t: Transaction, now: Date)
    requires Covered(ts, bs) && ValidDate(t.date) && ValidDate(now)
    ensures Covered(ts + [t], Backfill(ts + [t], MergeMonth(bs, MonthOf(t.date), t.saldoKas), now))
  {
    var merged := MergeMonth(bs, MonthOf(t.date), t.saldoKas);
    var r := Backfill(ts + [t], merged, now);
    forall x | x in ts + [t] ensures ValidDate(x.date) && MonthKey(MonthOf(x.date)) in r {
      if x != t {
        assert x in ts;
      }
    }
  }

  /** Each entry's signed amount is the sign rule applied to its category's index at save time. */
  ghost predicate SignedBy(ts: seq<Transaction>, signed: seq<int>, indexes: seq<string>)
  {
    |signed| == |ts| && |indexes| == |ts|
    && forall i | 0 <= i < |ts| :: signed[i] == SignedAmount(indexes[i], ts[i].amount)
  }

  lemma SignedByAppend(ts: seq<Transaction>, signed: seq<int>, indexes: seq<string>, t: Transaction, index: string)
    requires SignedBy(ts, signed, indexes)
    ensures SignedBy(ts + [t], signed + [SignedAmount(index, t.amount)], indexes + [index])
  {
    var ts', sg', ix' := ts + [t], signed + [SignedAmount(index, t.amount)], indexes + [index];
    forall i | 0 <= i < |ts'| ensures sg'[i] == SignedAmount(ix'[i], ts'[i].amount) {
      if i < |ts| {
        assert sg'[i] == signed[i] && ix'[i] == indexes[i] && ts'[i] == ts[i];
      }
    }
  }

  /** The store and the globals of the transaction form. */
  class Ledger {
    /** The `transactions` collection, in insertion order. */
    var transactions: seq<Transaction>
    /** The `monthlyBalances` collection, by `YYYY-MM` key. */
    var balances: map<string, MonthlyBalance>
    /** The next server timestamp. */
    var clock: nat
    /** The signed amount each entry was saved with. */
    ghost var signed: seq<int>
    /** The balance the first entry started from. */
    ghost var opening: int
    /** The index of each entry's category when it was saved. */
    ghost var indexes: seq<string>

    ghost predicate Valid()
      reads this
    {
      && Chained(transactions, signed, opening)
      && SignedBy(transactions, signed, indexes)
      && Covered(transactions, balances)
      && (forall t | t in transactions :: EntryAccepted(t) && t.createdAt < clock)
    }

    /** An empty ledger over whatever monthly balance documents already exist. */
    constructor(existing: map<string, MonthlyBalance>)
      ensures Valid() && transactions == [] && balances == existing && clock == 0
    {
      transactions := [];
      balances := existing;
      clock := 0;
      signed := [];
      opening := 0;
      indexes := [];
    }

    /** `promptForInitialBalance(key)` answered with `reply`. */
    method PromptForInitialBalance(key: string, reply: PromptReply) returns (v: int)
      modifies this
      ensures (v, balances) == PromptOutcome(old(balances), key, reply)
      ensures transactions == old(transactions) && clock == old(clock)
      ensures signed == old(signed) && opening == old(opening) && indexes == old(indexes)
    {
      match reply {
        case Cancel =>
          v := 0;
        case Submit(entered) =>
          v := entered.GetOr(0);
          balances := balances[key := InitialBalanceDoc(key, v)];
      }
    }

    /** `getMonthlyStartingBalance(date)`. */
    method GetMonthlyStartingBalance(d: Date, reply: PromptReply) returns (v: int)
      requires ValidDate(d)
      modifies this
      ensures (v, balances) == StartingBalance(old(balances), d, reply)
      ensures transactions == old(transactions) && clock == old(clock)
      ensures signed == old(signed) && opening == old(opening) && indexes == old(indexes)
    {
      var key := MonthKey(PreviousMonth(MonthOf(d)));
      if key in balances {
        v := balances[key].endingBalance.GetOr(0);
        return;
      }
      v := PromptForInitialBalance(key, reply);
    }

    /**
     * `getPreviousSaldoKas(date)`: the Saldo Kas of the latest transaction
     * whatever the entered date; only an empty ledger consults the monthly
     * balances.
     */
    method GetPreviousSaldoKas(d: Date, reply: PromptReply) returns (v: int)
      requires ValidDate(d)
      modifies this
      ensures old(transactions) != [] ==> v == LatestSaldo(old(transactions)) && balances == old(balances)
      ensures old(transactions) == [] ==> (v, balances) == StartingBalance(old(balances), d, reply)
      ensures transactions == old(transactions) && clock == old(clock)
      ensures signed == old(signed) && opening == old(opening) && indexes == old(indexes)
    {
      if transactions != [] {
        v := transactions[LatestIndex(transactions)].saldoKas;
      } else {
        v := GetMonthlyStartingBalance(d, reply);
      }
    }

    /**
     * `calculateSaldoKas`: an unknown category is an error (None) and nothing
     * is consulted; otherwise the previous balance plus the signed amount.
     */
    method CalculateSaldoKas(categoryId: string, amount: int, d: Date, cats: seq<Category>, reply: PromptReply)
      returns (r: Option<int>)
      requires ValidDate(d)
      modifies this
      ensures r.None? <==> FindById(cats, categoryId).None?
      ensures r.None? ==> balances == old(balances)
      ensures r.Some? && old(transactions) != [] ==>
        balances == old(balances)
        && r.value == LatestSaldo(old(transactions)) + SignedAmount(FindById(cats, categoryId).value.index, amount)
      ensures r.Some? && old(transactions) == [] ==>
        balances == StartingBalance(old(balances), d, reply).1
        && r.value == StartingBalance(old(balances), d, reply).0 + SignedAmount(FindById(cats, categoryId).value.index, amount)
      ensures transactions == old(transactions) && clock == old(clock)
      ensures signed == old(signed) && opening == old(opening) && indexes == old(indexes)
    {
      var category := FindById(cats, categoryId);
      if category.None? {
        return None;
      }
      var signedAmount := SignedAmount(category.value.index, amount);
      var previous := GetPreviousSaldoKas(d, reply);
      r := Some(previous + signedAmount);
    }

    /** `updateMonthlyBalance(t)`: merge the entry's balance into its own month's document. */
    method UpdateMonthlyBalance(t: Transaction)
      requires ValidDate(t.date)
      modifies this
      ensures balances == MergeMonth(old(balances), MonthOf(t.date), t.saldoKas)
      ensures transactions == old(transactions) && clock == old(clock)
      ensures signed == old(signed) && opening == old(opening) && indexes == old(indexes)
    {
      var ym := MonthOf(t.date);
      var key := MonthKey(ym);
      balances := balances[key := MergedDoc(if key in balances then Some(balances[key]) else None, ym, t.saldoKas)];
    }

    /** `checkAndSavePreviousMonthBalance()` at the moment `now`. */
    method CheckAndSavePreviousMonthBalance(now: Date)
      requires ValidDate(now)
      modifies this
      ensures balances == Backfill(old(transactions), old(balances), now)
      ensures transactions == old(transactions) && clock == old(clock)
      ensures signed == old(signed) && opening == old(opening) && indexes == old(indexes)
    {
      var p := PreviousMonth(MonthOf(now));
      var key := MonthKey(p);
      if key !in balances {
        var w := Window(transactions, FirstInstant(p), LastSecond(p));
        if w != [] {
          var last := w[LatestIndex(w)];
          balances := balances[key := MonthlyBalance(Some(p.year), Some(p.month), Some(last.saldoKas), false, true, map[])];
        }
      }
    }

    /**
     * The writes of a saved entry: append it with the next server timestamp,
     * merge its month's balance, then back-fill the previous month of `now`.
     */
    method Record(t: Transaction, index: string, now: Date)
      requires Valid() && EntryAccepted(t) && t.createdAt == clock && ValidDate(now)
      requires transactions != [] ==> t.saldoKas == LatestSaldo(transactions) + SignedAmount(index, t.amount)
      modifies this
      ensures Valid()
      ensures transactions == old(transactions) + [t] && clock == old(clock) + 1
      ensures balances == Backfill(transactions, MergeMonth(old(balances), MonthOf(t.date), t.saldoKas), now)
      ensures indexes == old(indexes) + [index] && signed == old(signed) + [SignedAmount(index, t.amount)]
      ensures old(transactions) != [] ==> opening == old(opening)
      ensures old(transactions) == [] ==> opening == t.saldoKas - SignedAmount(index, t.amount)
    {
      ghost var ts, bs, sg, op0, c0, ix := transactions, balances, signed, opening, clock, indexes;
      var s := SignedAmount(index, t.amount);
      var op := opening;
      if transactions == [] {
        op := t.saldoKas - s;
      }
      opening := op;
      signed := signed + [s];
      indexes := indexes + [index];
      transactions := transactions + [t];
      clock := clock + 1;
      ghost var ts1 := transactions;
      assert balances == bs;
      UpdateMonthlyBalance(t);
      ghost var merged := balances;
      CheckAndSavePreviousMonthBalance(now);
      assert transactions == ts1 == ts + [t] && signed == sg + [s] && opening == op && clock == c0 + 1;
      assert merged == MergeMonth(bs, MonthOf(t.date), t.saldoKas);
      assert balances == Backfill(ts1, merged, now);
      assert indexes == ix + [index];
      RecordKeepsValid(ts, sg, op0, op, bs, t, s, now, c0);
      SignedByAppend(ts, sg, ix, t, index);
    }

    /**
     * `handleTransactionSubmit`: check the form, compute the Saldo Kas, store
     * the entry with the next server timestamp, merge its month's balance and
     * back-fill the previous month of `now`. A rejected form or an unknown
     * category writes nothing.
     */
    method HandleTransactionSubmit(signedIn: bool, form: TransactionForm, cats: seq<Category>,
                                   reply: PromptReply, now: Date) returns (outcome: SubmitOutcome)
      requires Valid()
      requires form.date.Some? ==> ValidDate(form.date.value)
      requires ValidDate(now)
      modifies this
      ensures Valid()
      ensures outcome.Rejected? <==> CheckForm(signedIn, form, SelectedCategory(form.categorySelects)).Some?
      ensures outcome.Rejected? ==> outcome.error == CheckForm(signedIn, form, SelectedCategory(form.categorySelects)).value
      ensures outcome.Rejected? || outcome.UnknownCategory? ==>
        transactions == old(transactions) && balances == old(balances) && clock == old(clock)
      ensures outcome.Rejected? || outcome.UnknownCategory? ==>
        signed == old(signed) && opening == old(opening) && indexes == old(indexes)
      ensures outcome.Saved? ==> transactions == old(transactions) + [outcome.entry] && clock == old(clock) + 1
      ensures outcome.Saved? ==> var t := outcome.entry;
        && FindById(cats, t.categoryId).Some?
        && indexes == old(indexes) + [FindById(cats, t.categoryId).value.index]
        && (old(transactions) != [] ==> opening == old(opening))
        && (old(transactions) == [] ==> opening == StartingBalance(old(balances), t.date, reply).0)
      ensures outcome.Saved? ==> var t := outcome.entry;
        && EntryAccepted(t) && t.name == Trim(form.name) && t.amount == form.amount && t.accountId == form.accountId
        && t.description == Trim(form.description)
        && Some(t.date) == form.date && t.createdAt == old(clock)
        && Some(t.categoryId) == SelectedCategory(form.categorySelects)
        && FindById(cats, t.categoryId).Some?
        && (old(transactions) != [] ==>
              t.saldoKas == LatestSaldo(old(transactions)) + SignedAmount(FindById(cats, t.categoryId).value.index, t.amount))
        && (old(transactions) == [] ==>
              t.saldoKas == StartingBalance(old(balances), t.date, reply).0
                            + SignedAmount(FindById(cats, t.categoryId).value.index, t.amount))
      ensures outcome.Saved? ==>
        MonthKey(MonthOf(outcome.entry.date)) in balances
        && balances[MonthKey(MonthOf(outcome.entry.date))].endingBalance == Some(outcome.entry.saldoKas)
      ensures outcome.Saved? ==> var t := outcome.entry;
        var prompted := if old(transactions) == [] then StartingBalance(old(balances), t.date, reply).1 else old(balances);
        balances == Backfill(transactions, MergeMonth(prompted, MonthOf(t.date), t.saldoKas), now)
      ensures KeepsAccountBalances(old(balances), balances)
    {
      var categoryId := GetSelectedCategoryId(form.categorySelects);
      var error := CheckForm(signedIn, form, categoryId);
      if error.Some? {
        return Rejected(error.value);
      }
      var d := form.date.value;
      var saldo := CalculateSaldoKas(categoryId.value, form.amount, d, cats, reply);
      if saldo.None? {
        return UnknownCategory;
      }
      ghost var prompted := balances;
      ghost var ts0, ix0, op0 := transactions, indexes, opening;
      assert ts0 == old(transactions) && ix0 == old(indexes) && op0 == old(opening);
      var t := Transaction(Trim(form.name), d, form.amount, form.accountId, Trim(form.description),
                           categoryId.value, clock, saldo.value);
      var index := FindById(cats, t.categoryId).value.index;
      Record(t, index, now);
      assert indexes == ix0 + [index];
      assert ts0 != [] ==> opening == op0;
      assert ts0 == [] ==> opening == t.saldoKas - SignedAmount(index, t.amount);
      WritesKeepAccountBalances(old(balances), d, reply, old(transactions), MonthOf(d), saldo.value, now);
      WritesKeepAccountBalances(prompted, d, reply, transactions, MonthOf(d), saldo.value, now);
      var merged := MergeMonth(prompted, MonthOf(d), saldo.value);
      WritesKeepAccountBalances(merged, d, reply, transactions, MonthOf(d), saldo.value, now);
      KeepsAccountBalancesTransitive(old(balances), prompted, merged);
      KeepsAccountBalancesTransitive(old(balances), merged, balances);
      outcome := Saved(t);
    }
  }
}
