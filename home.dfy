/**
 * The home page's summaries over the loaded transactions: the `YYYY-MM` month
 * key of a date, the grouping by month, the month and category filters, the
 * opening (Saldo Awal) and closing (Saldo Akhir) balance of a month, the
 * per-account totals of the summary cards and the filter options.
 */
module Home {
  import opened Wrappers
  import opened Strings
  import opened Dates
  import opened Categories
  import opened Accounts
  import opened Ledger

  // ---------------------------------------------------------------- month keys

  /**
   * The `date` field as the page meets it: a Firestore timestamp, a JavaScript
   * `Date`, a string (with what `new Date` makes of it, None for an Invalid
   * Date) or anything else.
   */
  datatype DateField = Stamp(d: Date) | Native(d: Date) | Text(parsed: Option<Date>) | Other

  /** Every date the field carries is a real calendar instant. */
  predicate Sane(v: DateField)
  {
    match v
    case Stamp(d) => ValidDate(d)
    case Native(d) => ValidDate(d)
    case Text(p) => p.Some? ==> ValidDate(p.value)
    case Other => true
  }

  /** The instant the field denotes, if any. */
  function Instant(v: DateField): Option<Date>
  {
    match v
    case Stamp(d) => Some(d)
    case Native(d) => Some(d)
    case Text(p) => p
    case Other => None
  }

  /**
   * `getMonthYearFromDate`: the month key of the instant; an Invalid Date
   * renders both halves as NaN and an unrecognised value gives ''.
   */
  function MonthYear(v: DateField): (key: string)
    requires Sane(v)
    ensures key == "" <==> v.Other?
    ensures Instant(v).Some? ==> key == MonthKey(MonthOf(Instant(v).value))
    ensures v == Text(None) ==> key == "NaN-NaN"
  {
    match v
    case Other => ""
    case Text(p) => if p.None? then "NaN-NaN" else MonthKey(MonthOf(p.value))
    case Stamp(d) => MonthKey(MonthOf(d))
    case Native(d) => MonthKey(MonthOf(d))
  }

  /**
   * The key of a recognised date is `<year digits>-<two month digits>`, the two
   * digits spell a month from 01 to 12, and reading the key back gives the month.
   */
  lemma MonthYearShape(v: DateField)
    requires Sane(v) && Instant(v).Some? && Instant(v).value.year >= 0
    ensures var ym := MonthOf(Instant(v).value); var key := MonthYear(v);
      && |key| == |NatToString(ym.year)| + 3
      && key[|key| - 3] == '-'
      && AllDigits(key[|key| - 2..])
      && 1 <= DigitsValue(key[|key| - 2..]) <= 12
      && ParseMonthKey(key) == ym
  {
    var ym := MonthOf(Instant(v).value);
    MonthKeyShape(ym);
    MonthDigits(ym.month);
    MonthKeyRoundTrip(ym);
    var key := MonthYear(v);
    assert key[|key| - 2..] == PadStart2(NatToString(ym.month));
  }

  /** Every stored transaction carries a real instant (the form writes a timestamp). */
  predicate Dated(ts: seq<Transaction>)
  {
    forall t | t in ts :: ValidDate(t.date)
  }

  /** The month key of a stored transaction, whose date is a Firestore timestamp. */
  function TxMonth(t: Transaction): string
    requires ValidDate(t.date)
  {
    MonthYear(Stamp(t.date))
  }

  // ---------------------------------------------------------------- grouping by month

  /** The transactions of month `key`, in the order of `ts`. */
  function OfMonth(ts: seq<Transaction>, key: string): (r: seq<Transaction>)
    requires Dated(ts)
    ensures |r| <= |ts|
    ensures forall t :: t in r <==> t in ts && TxMonth(t) == key
  {
    if ts == [] then []
    else
      var init := ts[..|ts| - 1];
      var last := ts[|ts| - 1];
      assert forall t | t in ts :: t in init || t == last;
      OfMonth(init, key) + (if TxMonth(last) == key then [last] else [])
  }

  /** A month's transactions keep their loaded order, and each occurrence of one of them is kept. */
  lemma {:induction false} OfMonthKeepsOrder(ts: seq<Transaction>, key: string)
    requires Dated(ts)
    ensures Subsequence(OfMonth(ts, key), ts)
    ensures forall t | t in ts :: multiset(OfMonth(ts, key))[t] == if TxMonth(t) == key then multiset(ts)[t] else 0
  {
    if ts != [] {
      var init, last := ts[..|ts| - 1], ts[|ts| - 1];
      assert forall t | t in init :: t in ts;
      OfMonthKeepsOrder(init, key);
      var g := OfMonth(init, key);
      assert OfMonth(ts, key) == g + (if TxMonth(last) == key then [last] else []);
      SplitLast(ts);
      SubsequenceSnoc(g, init, last, TxMonth(last) == key);
      forall t | t in ts ensures multiset(OfMonth(ts, key))[t] == if TxMonth(t) == key then multiset(ts)[t] else 0 {
        assert t !in init ==> t !in g;
        CountStep(init, last, g, TxMonth(last) == key, t, TxMonth(t) == key);
      }
    }
  }

  lemma OfMonthSnoc(ts: seq<Transaction>, t: Transaction, key: string)
    requires Dated(ts + [t])
    ensures Dated(ts)
    ensures OfMonth(ts + [t], key) == OfMonth(ts, key) + (if TxMonth(t) == key then [t] else [])
  {
    assert (ts + [t])[..|ts|] == ts;
  }

  lemma DatedPrefix(ts: seq<Transaction>, i: int)
    requires Dated(ts) && 0 <= i < |ts|
    ensures ts[..i + 1] == ts[..i] + [ts[i]]
    ensures Dated(ts[..i]) && Dated(ts[..i] + [ts[i]])
  {
    assert ts[..i + 1] == ts[..i] + [ts[i]];
    assert forall t | t in ts[..i + 1] :: t in ts;
  }

  /** `groups` holds one group per month of `ts`, each with exactly that month's transactions in order. */
  ghost predicate GroupedAs(groups: map<string, seq<Transaction>>, ts: seq<Transaction>)
    requires Dated(ts)
  {
    && (forall key :: key in groups <==> OfMonth(ts, key) != [])
    && (forall key | key in groups :: groups[key] == OfMonth(ts, key))
  }

  /** Appending a transaction to the group of its month keeps the grouping exact. */
  lemma GroupStep(groups: map<string, seq<Transaction>>, ts: seq<Transaction>, t: Transaction)
    requires Dated(ts + [t]) && Dated(ts) && GroupedAs(groups, ts)
    ensures var key := TxMonth(t);
      GroupedAs(groups[key := (if key in groups then groups[key] else []) + [t]], ts + [t])
  {
    var key := TxMonth(t);
    var g := groups[key := (if key in groups then groups[key] else []) + [t]];
    forall k ensures k in g <==> OfMonth(ts + [t], k) != [] {
      GroupStepAt(groups, ts, t, k);
    }
    forall k | k in g ensures g[k] == OfMonth(ts + [t], k) {
      GroupStepAt(groups, ts, t, k);
    }
  }

  lemma GroupStepAt(groups: map<string, seq<Transaction>>, ts: seq<Transaction>, t: Transaction, k: string)
    requires Dated(ts + [t]) && Dated(ts) && GroupedAs(groups, ts)
    ensures var key := TxMonth(t);
      var g := groups[key := (if key in groups then groups[key] else []) + [t]];
      (k in g <==> OfMonth(ts + [t], k) != []) && (k in g ==> g[k] == OfMonth(ts + [t], k))
  {
    OfMonthSnoc(ts, t, k);
    assert k in groups <==> OfMonth(ts, k) != [];
    if k in groups {
      assert groups[k] == OfMonth(ts, k);
    }
  }

  /**
   * `groupTransactionsByMonth`: one group per month that has a transaction,
   * holding exactly that month's transactions in their original order.
   */
  method GroupTransactionsByMonth(ts: seq<Transaction>) returns (groups: map<string, seq<Transaction>>)
    requires Dated(ts)
    ensures forall key :: key in groups <==> OfMonth(ts, key) != []
    ensures forall key | key in groups :: groups[key] == OfMonth(ts, key)
    ensures forall key | key in groups :: Subsequence(groups[key], ts)
    ensures forall key, t | key in groups && t in ts ::
      multiset(groups[key])[t] == if TxMonth(t) == key then multiset(ts)[t] else 0
  {
    groups := map[];
    var i := 0;
    ghost var seen: seq<Transaction> := [];
    while i < |ts|
      invariant 0 <= i <= |ts| && seen == ts[..i] && Dated(seen)
      invariant GroupedAs(groups, seen)
    {
      var t := ts[i];
      var key := TxMonth(t);
      DatedPrefix(ts, i);
      GroupStep(groups, seen, t);
      var group := if key in groups then groups[key] else [];
      groups := groups[key := group + [t]];
      seen := seen + [t];
      i := i + 1;
    }
    assert seen == ts;
    forall key | key in groups
      ensures Subsequence(groups[key], ts)
      ensures forall t | t in ts :: multiset(groups[key])[t] == if TxMonth(t) == key then multiset(ts)[t] else 0
    {
      OfMonthKeepsOrder(ts, key);
    }
  }

  /** The groups partition the transactions: each one lies in the group of its own month and in no other. */
  lemma GroupsPartition(ts: seq<Transaction>, t: Transaction, key: string)
    requires Dated(ts) && t in ts
    ensures t in OfMonth(ts, TxMonth(t))
    ensures key != TxMonth(t) ==> t !in OfMonth(ts, key)
  {
  }

  // ---------------------------------------------------------------- filters

  /** `currentFilters`: a month key and a category id, '' when not set. */
  datatype Filters = Filters(month: string, category: string)

  /**
   * The predicate of `applyFilters`: the month filter matches the
   * transaction's month, and the category filter names a known category whose
   * index is a string prefix of the index of the transaction's (known) category.
   */
  predicate Keeps(cats: seq<Category>, f: Filters, t: Transaction)
    requires ValidDate(t.date)
  {
    && (f.month == "" || TxMonth(t) == f.month)
    && (f.category == "" ||
         (&& FindById(cats, t.categoryId).Some?
          && FindById(cats, f.category).Some?
          && StartsWith(FindById(cats, t.categoryId).value.index, FindById(cats, f.category).value.index)))
  }

  /** `applyFilters`: the transactions that pass both filters, in their loaded order. */
  function ApplyFilters(ts: seq<Transaction>, cats: seq<Category>, f: Filters): (r: seq<Transaction>)
    requires Dated(ts)
    ensures |r| <= |ts| && Dated(r)
    ensures forall t :: t in r <==> t in ts && Keeps(cats, f, t)
  {
    if ts == [] then []
    else
      var init := ts[..|ts| - 1];
      var last := ts[|ts| - 1];
      assert forall t | t in ts :: t in init || t == last;
      ApplyFilters(init, cats, f) + (if Keeps(cats, f, last) then [last] else [])
  }

  /** The filtered transactions keep their loaded order, and each occurrence of one that passes is kept. */
  lemma {:induction false} ApplyFiltersKeepsOrder(ts: seq<Transaction>, cats: seq<Category>, f: Filters)
    requires Dated(ts)
    ensures Subsequence(ApplyFilters(ts, cats, f), ts)
    ensures forall t | t in ts :: multiset(ApplyFilters(ts, cats, f))[t] == if Keeps(cats, f, t) then multiset(ts)[t] else 0
  {
    if ts != [] {
      var init, last := ts[..|ts| - 1], ts[|ts| - 1];
      assert forall t | t in init :: t in ts;
      ApplyFiltersKeepsOrder(init, cats, f);
      var g := ApplyFilters(init, cats, f);
      assert ApplyFilters(ts, cats, f) == g + (if Keeps(cats, f, last) then [last] else []);
      SplitLast(ts);
      SubsequenceSnoc(g, init, last, Keeps(cats, f, last));
      forall t | t in ts ensures multiset(ApplyFilters(ts, cats, f))[t] == if Keeps(cats, f, t) then multiset(ts)[t] else 0 {
        assert t !in init ==> t !in g;
        CountStep(init, last, g, Keeps(cats, f, last), t, Keeps(cats, f, t));
      }
    }
  }

  /** With no filter set every transaction is shown. */
  lemma {:induction false} NoFilterKeepsAll(ts: seq<Transaction>, cats: seq<Category>)
    requires Dated(ts)
    ensures ApplyFilters(ts, cats, Filters("", "")) == ts
  {
    if ts != [] {
      var init := ts[..|ts| - 1];
      NoFilterKeepsAll(init, cats);
      SplitLast(ts);
    }
  }

  /** A month filter alone shows exactly that month's group. */
  lemma {:induction false} MonthFilterIsGroup(ts: seq<Transaction>, cats: seq<Category>, key: string)
    requires Dated(ts) && key != ""
    ensures ApplyFilters(ts, cats, Filters(key, "")) == OfMonth(ts, key)
  {
    if ts != [] {
      MonthFilterIsGroup(ts[..|ts| - 1], cats, key);
    }
  }

  /** With unique ids, looking up a loaded category's id finds that category. */
  lemma FindUnique(cats: seq<Category>, x: Category)
    requires UniqueIds(cats) && x in cats
    ensures FindById(cats, x.id) == Some(x)
  {
    var fx := FindById(cats, x.id).value;
    var i :| 0 <= i < |cats| && cats[i] == fx;
    var j :| 0 <= j < |cats| && cats[j] == x;
    assert i == j;
  }

  /** In a well-formed tree the index of every category of a subtree starts with the index of its top. */
  lemma SubtreeIndexPrefix(cats: seq<Category>, x: Category, d: Category)
    requires WellFormed(cats) && x in cats && d in cats
    requires d == x || d in GetAllChildCategories(cats, x.id)
    ensures StartsWith(d.index, x.index)
  {
    assert WellPlaced(x) && WellPlaced(d);
    if d != x {
      assert StartsWith(d.id, x.id + ".");
      assert d.id[..|x.id|] == (x.id + ".")[..|x.id|];
    }
  }

  /** In a well-formed tree with unique ids, the category filter keeps the whole subtree of the selected category. */
  lemma CategoryFilterKeepsSubtree(cats: seq<Category>, x: Category, t: Transaction, month: string)
    requires WellFormed(cats) && UniqueIds(cats) && x in cats && ValidDate(t.date) && x.id != ""
    requires FindById(cats, t.categoryId).Some?
    requires var d := FindById(cats, t.categoryId).value; d == x || d in GetAllChildCategories(cats, x.id)
    requires month == "" || TxMonth(t) == month
    ensures Keeps(cats, Filters(month, x.id), t)
  {
    FindUnique(cats, x);
    SubtreeIndexPrefix(cats, x, FindById(cats, t.categoryId).value);
  }

  /** The prefix test is wider than the subtree: with a root "20" present, the filter for root "2" also shows it. */
  lemma PrefixFilterAdmitsRootTwenty(t: Transaction)
    requires ValidDate(t.date) && t.categoryId == "20"
    ensures var two := Category("2", "Pemasukan", "2. Pemasukan", "2", 1, None);
      var twenty := Category("20", "Lain", "20. Lain", "20", 1, None);
      Keeps([two, twenty], Filters("", "2"), t) && twenty !in GetAllChildCategories([two, twenty], "2")
  {
    var two := Category("2", "Pemasukan", "2. Pemasukan", "2", 1, None);
    var twenty := Category("20", "Lain", "20. Lain", "20", 1, None);
    var cats := [two, twenty];
    assert FindById(cats, "20") == Some(twenty);
    assert StartsWith("20", "2");
    assert Split("2", '.') == ["2"] && Split("20", '.') == ["20"] by {
      SplitNoSeparator("2", '.');
      SplitNoSeparator("20", '.');
    }
    assert WellFormed(cats);
    assert twenty.parentId == None;
  }

  // ---------------------------------------------------------------- opening and closing balance

  /** The position of the first transaction of an ascending (date, createdAt) sort: none is earlier, and it is strictly earlier than every one before it. */
  function EarliestIndex(ts: seq<Transaction>): (k: nat)
    requires ts != []
    ensures k < |ts|
    ensures forall j | 0 <= j < |ts| :: !Later(ts[k], ts[j])
    ensures forall j | 0 <= j < k :: Later(ts[j], ts[k])
  {
    if |ts| == 1 then LaterIrreflexive(ts[0]); 0
    else
      var init := ts[..|ts| - 1];
      var k := EarliestIndex(init);
      var last := ts[|ts| - 1];
      assert forall j | 0 <= j < |init| :: ts[j] == init[j];
      if Later(ts[k], last) then
        assert forall j | 0 <= j < |ts| - 1 :: Later(ts[j], last) && !Later(last, ts[j]) by {
          forall j | 0 <= j < |ts| - 1 ensures Later(ts[j], last) && !Later(last, ts[j]) {
            LaterAfterEarliest(ts[k], last, ts[j]);
          }
        }
        LaterIrreflexive(last);
        |ts| - 1
      else
        k
  }

  /** Whatever is not earlier than `a` is later than everything `a` is later than. */
  lemma LaterAfterEarliest(a: Transaction, b: Transaction, c: Transaction)
    requires Later(a, b) && !Later(a, c)
    ensures Later(c, b) && !Later(b, c)
  {
    LaterTransitive(c, a, b);
    BeforeTotal(a.date, c.date);
    BeforeTotal(b.date, c.date);
    if Before(b.date, a.date) && Before(a.date, c.date) {
      BeforeTransitive(b.date, a.date, c.date);
    }
    if Before(c.date, b.date) && Before(b.date, a.date) {
      BeforeTransitive(c.date, b.date, a.date);
    }
    if Before(c.date, b.date) && Before(a.date, c.date) {
      BeforeTransitive(a.date, c.date, b.date);
    }
    if Before(b.date, c.date) && Before(c.date, b.date) {
      BeforeTransitive(b.date, c.date, b.date);
      BeforeIrreflexive(b.date);
    }
  }

  /**
   * The amount the opening balance backs out: signed by the index of the
   * transaction's category, and taken as stored when the category is unknown.
   */
  function HomeSigned(c: Option<Category>, amount: int): (r: int)
    ensures c.None? ==> r == amount
    ensures c.Some? ==> r == SignedAmount(c.value.index, amount)
  {
    if c.Some? then SignedAmount(c.value.index, amount) else amount
  }

  /** The balance before a transaction: its Saldo Kas minus its signed amount. */
  function BalanceBefore(t: Transaction, cats: seq<Category>): int
  {
    t.saldoKas - HomeSigned(FindById(cats, t.categoryId), t.amount)
  }

  /** The current Saldo Kas: the balance of the first transaction under (date, createdAt) descending, 0 without transactions. */
  function CurrentSaldoKas(all: seq<Transaction>): (r: int)
    ensures all == [] ==> r == 0
    ensures all != [] ==> exists k | 0 <= k < |all| ::
      r == all[k].saldoKas && forall j | 0 <= j < |all| :: !Later(all[j], all[k])
  {
    if all == [] then 0 else LatestSaldo(all)
  }

  /** `new Date(y, ...)` reads the years 0 to 99 as 1900 to 1999. */
  function JsYear(y: nat): int
  {
    if y <= 99 then 1900 + y else y
  }

  /**
   * The month `new Date(year, month - 1, 1)` falls in for the two halves of a
   * key, with an out-of-range month carried into the year as the `Date`
   * constructor does; None when a half is not a number (or missing), which
   * makes both boundaries Invalid Dates.
   */
  function MonthWindow(key: string): (w: Option<YearMonth>)
    ensures w.Some? ==> ValidMonth(w.value)
    ensures w.Some? ==> |Split(key, '-')| >= 2
  {
    var parts := Split(key, '-');
    if |parts| < 2 then None
    else
      match (NumberValue(parts[0]), NumberValue(parts[1]))
      case (Some(y), Some(m)) =>
        var n := JsYear(y) * 12 + m - 1;
        Some(YearMonth(n / 12, n % 12 + 1))
      case (_, _) => None
  }

  /** The window of a month key written for a year from 100 on is that month. */
  lemma MonthWindowOfKey(ym: YearMonth)
    requires ValidMonth(ym) && ym.year >= 100
    ensures MonthWindow(MonthKey(ym)) == Some(ym)
  {
    MonthKeySplits(ym);
    MonthDigits(ym.month);
    NatToStringValue(ym.year);
    var n := ym.year * 12 + ym.month - 1;
    assert n / 12 == ym.year && n % 12 == ym.month - 1;
  }

  /** A month key splits on '-' into the year digits and the two month digits. */
  lemma MonthKeySplits(ym: YearMonth)
    requires ValidMonth(ym) && ym.year >= 0
    ensures Split(MonthKey(ym), '-') == [NatToString(ym.year), PadStart2(NatToString(ym.month))]
  {
    var y := NatToString(ym.year);
    var m := PadStart2(NatToString(ym.month));
    MonthDigits(ym.month);
    assert '-' !in y && '-' !in m by {
      assert forall i | 0 <= i < |y| :: IsDigit(y[i]);
      assert forall i | 0 <= i < |m| :: IsDigit(m[i]);
    }
    assert MonthKey(ym) == y + ['-'] + m;
    SplitNoSeparator(y, '-');
    SplitAppend(y, '-', m);
  }

  datatype MonthBalances = MonthBalances(saldoAwal: int, saldoAkhir: int)

  /**
   * `getMonthlyBalances(monthYear, monthTransactions)` over all loaded
   * transactions: Saldo Akhir is the current Saldo Kas whatever the month;
   * Saldo Awal is the balance before the month's earliest transaction,
   * 0 for an empty group or when the month has no transaction at all.
   */
  function MonthlyBalances(key: string, monthTx: seq<Transaction>, all: seq<Transaction>, cats: seq<Category>)
    : (r: MonthBalances)
    ensures r.saldoAkhir == CurrentSaldoKas(all)
    ensures monthTx == [] || MonthWindow(key).None? ==> r.saldoAwal == 0
    ensures monthTx != [] && MonthWindow(key).Some? ==>
      var ym := MonthWindow(key).value;
      var w := Window(all, FirstInstant(ym), LastInstant(ym));
      && (w == [] ==> r.saldoAwal == 0)
      && (w != [] ==> exists k | 0 <= k < |w| ::
            r.saldoAwal == BalanceBefore(w[k], cats) && forall j | 0 <= j < |w| :: !Later(w[k], w[j]))
  {
    var awal :=
      if monthTx == [] then 0
      else match MonthWindow(key)
        case None => 0
        case Some(ym) =>
          var w := Window(all, FirstInstant(ym), LastInstant(ym));
          if w == [] then 0 else BalanceBefore(w[EarliestIndex(w)], cats);
    MonthBalances(awal, CurrentSaldoKas(all))
  }

  /** Under a chronological chain the earliest transaction of `all` within a month is the first one of that month. */
  lemma {:induction false} EarliestOfMonthIsFirst(all: seq<Transaction>, ts: seq<Transaction>, ym: YearMonth, k: int)
    requires Chronological(ts) && Dated(ts) && ValidMonth(ym)
    requires forall t :: t in all <==> t in ts
    requires 0 <= k < |ts| && MonthOf(ts[k].date) == ym
    requires forall j | 0 <= j < k :: MonthOf(ts[j].date) != ym
    ensures var w := Window(all, FirstInstant(ym), LastInstant(ym)); w != [] && w[EarliestIndex(w)] == ts[k]
  {
    var w := Window(all, FirstInstant(ym), LastInstant(ym));
    WithinMonth(ts[k].date, ym);
    assert ts[k] in w;
    var e := w[EarliestIndex(w)];
    assert e in ts && Within(e.date, FirstInstant(ym), LastInstant(ym));
    var m :| 0 <= m < |ts| && ts[m] == e;
    WithinMonth(e.date, ym);
    assert m == k;
  }

  /** A non-empty group whose window holds some transaction opens at the balance before the window's earliest one. */
  lemma SaldoAwalOfEarliest(key: string, monthTx: seq<Transaction>, all: seq<Transaction>, cats: seq<Category>, ym: YearMonth)
    requires monthTx != [] && MonthWindow(key) == Some(ym)
    requires Window(all, FirstInstant(ym), LastInstant(ym)) != []
    ensures var w := Window(all, FirstInstant(ym), LastInstant(ym));
      MonthlyBalances(key, monthTx, all, cats).saldoAwal == BalanceBefore(w[EarliestIndex(w)], cats)
  {
  }

  /** On a chronological chain the balance before an entry is the Saldo Kas of the entry saved just before it. */
  lemma {:induction false} ChainedPrevious(ts: seq<Transaction>, signed: seq<int>, opening: int, k: int)
    requires Chained(ts, signed, opening) && Chronological(ts) && 0 < k < |ts|
    ensures PreviousBalance(ts[..k], opening) == ts[k - 1].saldoKas
  {
    var init := ts[..k];
    assert LatestIndex(init) == k - 1;
  }

  /**
   * On a chronological chain, a month's Saldo Awal is the balance the month's
   * first transaction was saved on: the Saldo Kas of the transaction before
   * it, or the opening balance when it is the very first. The loaded order of
   * `all` does not matter, and the key must name a year from 100 on.
   */
  lemma {:induction false} SaldoAwalIsPreviousBalance(all: seq<Transaction>, ts: seq<Transaction>, signed: seq<int>,
                                                      opening: int, cats: seq<Category>, monthTx: seq<Transaction>,
                                                      ym: YearMonth, k: int)
    requires Chained(ts, signed, opening) && Chronological(ts) && Dated(ts)
    requires forall t :: t in all <==> t in ts
    requires ValidMonth(ym) && ym.year >= 100 && monthTx != []
    requires 0 <= k < |ts| && MonthOf(ts[k].date) == ym
    requires forall j | 0 <= j < k :: MonthOf(ts[j].date) != ym
    requires signed[k] == HomeSigned(FindById(cats, ts[k].categoryId), ts[k].amount)
    ensures MonthlyBalances(MonthKey(ym), monthTx, all, cats).saldoAwal == PreviousBalance(ts[..k], opening)
    ensures k == 0 ==> MonthlyBalances(MonthKey(ym), monthTx, all, cats).saldoAwal == opening
    ensures k > 0 ==> MonthlyBalances(MonthKey(ym), monthTx, all, cats).saldoAwal == ts[k - 1].saldoKas
  {
    SaldoAwalOfFirstInMonth(all, ts, signed, opening, cats, monthTx, ym, k);
    if k > 0 {
      ChainedPrevious(ts, signed, opening, k);
    }
  }

  lemma SaldoAwalOfFirstInMonth(all: seq<Transaction>, ts: seq<Transaction>, signed: seq<int>,
                                opening: int, cats: seq<Category>, monthTx: seq<Transaction>,
                                ym: YearMonth, k: int)
    requires Chained(ts, signed, opening) && Chronological(ts) && Dated(ts)
    requires forall t :: t in all <==> t in ts
    requires ValidMonth(ym) && ym.year >= 100 && monthTx != []
    requires 0 <= k < |ts| && MonthOf(ts[k].date) == ym
    requires forall j | 0 <= j < k :: MonthOf(ts[j].date) != ym
    requires signed[k] == HomeSigned(FindById(cats, ts[k].categoryId), ts[k].amount)
    ensures MonthlyBalances(MonthKey(ym), monthTx, all, cats).saldoAwal == PreviousBalance(ts[..k], opening)
  {
    MonthWindowOfKey(ym);
    EarliestOfMonthIsFirst(all, ts, ym, k);
    SaldoAwalOfEarliest(MonthKey(ym), monthTx, all, cats, ym);
    assert ts[k].saldoKas == PreviousBalance(ts[..k], opening) + signed[k];
  }

  /** On a chronological chain the current Saldo Kas, in any loaded order, is the opening balance plus every signed amount. */
  lemma {:induction false} SaldoAkhirIsRunningBalance(all: seq<Transaction>, ts: seq<Transaction>, signed: seq<int>,
                                                      opening: int)
    requires Chained(ts, signed, opening) && Chronological(ts) && ts != []
    requires forall t :: t in all <==> t in ts
    ensures CurrentSaldoKas(all) == opening + Sum(signed)
  {
    RunningBalance(ts, signed, opening);
    var n := |ts|;
    assert LatestIndex(ts) == n - 1;
    assert ts[n - 1] in all;
    var c := LatestIndex(all);
    assert all[c] in ts;
    var m :| 0 <= m < n && ts[m] == all[c];
    assert m == n - 1;
  }

  // ---------------------------------------------------------------- summary cards

  /** What a transaction adds to the card of account `id`: its signed amount when it is that account's and its category is known. */
  function Contribution(t: Transaction, cats: seq<Category>, id: string): int
  {
    if t.accountId != "" && t.accountId == id && FindById(cats, t.categoryId).Some? then
      SignedAmount(FindById(cats, t.categoryId).value.index, t.amount)
    else 0
  }

  /** The total of account `id` over `ts`. */
  function AccountTotal(ts: seq<Transaction>, cats: seq<Category>, id: string): int
  {
    if ts == [] then 0 else AccountTotal(ts[..|ts| - 1], cats, id) + Contribution(ts[|ts| - 1], cats, id)
  }

  lemma AccountTotalSnoc(ts: seq<Transaction>, t: Transaction, cats: seq<Category>, id: string)
    ensures AccountTotal(ts + [t], cats, id) == AccountTotal(ts, cats, id) + Contribution(t, cats, id)
  {
    assert (ts + [t])[..|ts|] == ts;
  }

  /** The ids of the loaded accounts. */
  function AccountIds(accounts: seq<Account>): set<string>
  {
    set a | a in accounts :: a.id
  }

  /**
   * `updateSummaryCards`: the current Saldo Kas over all transactions, and one
   * balance per loaded account over the filtered transactions, starting at 0
   * and adding each transaction of that account whose category is known.
   */
  method UpdateSummaryCards(all: seq<Transaction>, filtered: seq<Transaction>, accounts: seq<Account>,
                            cats: seq<Category>)
    returns (current: int, balances: map<string, int>)
    ensures current == CurrentSaldoKas(all)
    ensures balances.Keys == AccountIds(accounts)
    ensures forall id | id in balances :: balances[id] == AccountTotal(filtered, cats, id)
  {
    current := 0;
    if all != [] {
      current := all[LatestIndex(all)].saldoKas;
    }
    balances := map[];
    var i := 0;
    while i < |accounts|
      invariant 0 <= i <= |accounts|
      invariant balances.Keys == AccountIds(accounts[..i])
      invariant forall id | id in balances :: balances[id] == 0
    {
      TakeOneMore(accounts, i);
      balances := balances[accounts[i].id := 0];
      i := i + 1;
    }
    assert accounts[..|accounts|] == accounts;
    i := 0;
    ghost var seen: seq<Transaction> := [];
    while i < |filtered|
      invariant 0 <= i <= |filtered| && seen == filtered[..i]
      invariant Tallied(balances, AccountIds(accounts), seen, cats)
    {
      var t := filtered[i];
      TakeOneMore(filtered, i);
      TallyStep(balances, AccountIds(accounts), seen, t, cats);
      if t.accountId != "" && t.accountId in balances {
        var category := FindById(cats, t.categoryId);
        if category.Some? {
          balances := balances[t.accountId := balances[t.accountId] + SignedAmount(category.value.index, t.amount)];
        }
      }
      seen := seen + [t];
      i := i + 1;
    }
    assert seen == filtered;
  }

  /** The cards hold, for the accounts `keys`, their totals over `ts`. */
  ghost predicate Tallied(cards: map<string, int>, keys: set<string>, ts: seq<Transaction>, cats: seq<Category>)
  {
    cards.Keys == keys && forall id | id in cards :: cards[id] == AccountTotal(ts, cats, id)
  }

  /** Adding one transaction's signed amount to its account's card keeps the cards the totals. */
  lemma TallyStep(cards: map<string, int>, keys: set<string>, ts: seq<Transaction>, t: Transaction, cats: seq<Category>)
    requires Tallied(cards, keys, ts, cats)
    ensures Tallied(
      if t.accountId != "" && t.accountId in cards && FindById(cats, t.categoryId).Some? then
        cards[t.accountId := cards[t.accountId] + SignedAmount(FindById(cats, t.categoryId).value.index, t.amount)]
      else cards,
      keys, ts + [t], cats)
  {
    forall id {
      AccountTotalSnoc(ts, t, cats, id);
    }
  }

  /** The sum of the totals of the accounts `ids`. */
  function TotalOver(ids: seq<string>, ts: seq<Transaction>, cats: seq<Category>): int
  {
    if ids == [] then 0 else TotalOver(ids[..|ids| - 1], ts, cats) + AccountTotal(ts, cats, ids[|ids| - 1])
  }

  /** The sum over `ids` of what one transaction contributes. */
  function ContributionOver(ids: seq<string>, t: Transaction, cats: seq<Category>): int
  {
    if ids == [] then 0 else ContributionOver(ids[..|ids| - 1], t, cats) + Contribution(t, cats, ids[|ids| - 1])
  }

  predicate DistinctIds(ids: seq<string>)
  {
    forall i, j | 0 <= i < j < |ids| :: ids[i] != ids[j]
  }

  /** A transaction of a listed account with a known category adds its signed amount to exactly one card. */
  lemma {:induction false} ContributionOnce(ids: seq<string>, t: Transaction, cats: seq<Category>)
    requires DistinctIds(ids)
    ensures ContributionOver(ids, t, cats) ==
      if t.accountId in ids && t.accountId != "" then Contribution(t, cats, t.accountId) else 0
  {
    if ids != [] {
      var init := ids[..|ids| - 1];
      assert DistinctIds(init);
      ContributionOnce(init, t, cats);
      assert forall x | x in ids :: x in init || x == ids[|ids| - 1];
      if t.accountId == ids[|ids| - 1] {
        assert t.accountId !in init;
      }
    }
  }

  lemma {:induction false} TotalOverSnoc(ids: seq<string>, ts: seq<Transaction>, t: Transaction, cats: seq<Category>)
    ensures TotalOver(ids, ts + [t], cats) == TotalOver(ids, ts, cats) + ContributionOver(ids, t, cats)
  {
    if ids != [] {
      TotalOverSnoc(ids[..|ids| - 1], ts, t, cats);
      AccountTotalSnoc(ts, t, cats, ids[|ids| - 1]);
    }
  }

  /**
   * When every transaction belongs to a listed account and has a known
   * category, the cards together hold the sum of the signed amounts.
   */
  lemma {:induction false} CardsAddUp(ids: seq<string>, ts: seq<Transaction>, signed: seq<int>, cats: seq<Category>)
    requires DistinctIds(ids) && |signed| == |ts|
    requires forall i | 0 <= i < |ts| :: ts[i].accountId in ids && ts[i].accountId != ""
    requires forall i | 0 <= i < |ts| :: FindById(cats, ts[i].categoryId).Some?
    requires forall i | 0 <= i < |ts| :: signed[i] == SignedAmount(FindById(cats, ts[i].categoryId).value.index, ts[i].amount)
    ensures TotalOver(ids, ts, cats) == Sum(signed)
  {
    if ts == [] {
      assert TotalOver(ids, ts, cats) == 0 by {
        ZeroTotals(ids, cats);
      }
    } else {
      var n := |ts|;
      var init := ts[..n - 1];
      CardsAddUp(ids, init, signed[..n - 1], cats);
      SplitLast(ts);
      TotalOverSnoc(ids, init, ts[n - 1], cats);
      ContributionOnce(ids, ts[n - 1], cats);
    }
  }

  lemma {:induction false} ZeroTotals(ids: seq<string>, cats: seq<Category>)
    ensures TotalOver(ids, [], cats) == 0
  {
    if ids != [] {
      ZeroTotals(ids[..|ids| - 1], cats);
    }
  }

  /**
   * With no filter set, on a chronological chain whose entries were signed
   * by the categories as loaded, the account cards add up to the current
   * Saldo Kas minus the opening balance.
   */
  lemma CardsMatchSaldoKas(all: seq<Transaction>, ts: seq<Transaction>, signed: seq<int>, opening: int,
                           ids: seq<string>, cats: seq<Category>)
    requires Chained(ts, signed, opening) && Chronological(ts) && ts != []
    requires forall t :: t in all <==> t in ts
    requires DistinctIds(ids)
    requires forall i | 0 <= i < |ts| :: ts[i].accountId in ids && ts[i].accountId != ""
    requires forall i | 0 <= i < |ts| :: FindById(cats, ts[i].categoryId).Some?
    requires forall i | 0 <= i < |ts| :: signed[i] == SignedAmount(FindById(cats, ts[i].categoryId).value.index, ts[i].amount)
    ensures CurrentSaldoKas(all) == opening + TotalOver(ids, ts, cats)
  {
    SaldoAkhirIsRunningBalance(all, ts, signed, opening);
    CardsAddUp(ids, ts, signed, cats);
  }

  // ---------------------------------------------------------------- names and options

  /** `getAccountNameById`: the name of the first loaded account with that id, or 'Unknown Account'. */
  function AccountName(accounts: seq<Account>, id: string): (r: string)
    ensures (forall a | a in accounts :: a.id != id) ==> r == "Unknown Account"
    ensures (exists a | a in accounts :: a.id == id) ==>
      exists i | 0 <= i < |accounts| :: accounts[i].id == id && r == accounts[i].name
        && forall j | 0 <= j < i :: accounts[j].id != id
  {
    match FindAccount(accounts, id)
    case Some(a) => a.name
    case None => "Unknown Account"
  }

  /** Strictly descending under the default string order. */
  predicate Descending(r: seq<string>)
  {
    forall i, j | 0 <= i < j < |r| :: LexLess(r[j], r[i])
  }

  /** Put `k` into its place in a strictly descending list, unless it is there already. */
  function InsertDescending(r: seq<string>, k: string): (s: seq<string>)
    requires Descending(r)
    ensures Descending(s)
    ensures forall x :: x in s <==> x in r || x == k
  {
    if r == [] then [k]
    else if r[0] == k then r
    else if LexLess(r[0], k) then
      assert forall j | 0 < j < |r| :: LexLess(r[j], k) by {
        forall j | 0 < j < |r| ensures LexLess(r[j], k) {
          LexTransitive(r[j], r[0], k);
        }
      }
      [k] + r
    else
      LexTotal(r[0], k);
      var rest := InsertDescending(r[1..], k);
      assert forall x | x in rest :: LexLess(x, r[0]);
      [r[0]] + rest
  }

  /** The month filter's options: the distinct non-empty month keys of the transactions, latest first. */
  function MonthOptions(ts: seq<Transaction>): (r: seq<string>)
    requires Dated(ts)
    ensures Descending(r)
    ensures forall k :: k in r <==> k != "" && exists t | t in ts :: TxMonth(t) == k
  {
    if ts == [] then []
    else
      var init := ts[..|ts| - 1];
      var last := ts[|ts| - 1];
      assert forall t | t in ts :: t in init || t == last;
      var r := MonthOptions(init);
      var key := TxMonth(last);
      if key != "" then InsertDescending(r, key) else r
  }

  /** A descending list without repetition names each month once. */
  lemma DescendingDistinct(r: seq<string>)
    requires Descending(r)
    ensures DistinctIds(r)
  {
    forall i, j | 0 <= i < j < |r| ensures r[i] != r[j] {
      LexIrreflexive(r[j]);
    }
  }

  /** The category filter's options: the loaded root categories except those whose index starts with '1'. */
  function CategoryOptions(all: seq<Category>): (r: seq<Category>)
    ensures forall c :: c in r <==>
      c in all && c.level == 1 && ParentKey(c.parentId) == "root" && !StartsWith(c.index, "1")
  {
    var r := ExcludeByIndex(Group(all, 1, "root"), ["1"]);
    forall c: Category ensures StartsWithAny(c.index, ["1"]) <==> StartsWith(c.index, "1") {
      assert ["1"][0] == "1";
    }
    r
  }
}
