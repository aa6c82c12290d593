/**
 * The extract (Ekstrak Data): for a range of months, one row per category
 * and one column per active account. The matrix starts at zero, the first
 * opening-balance category (index "1...") takes the previous month's
 * per-account balances, each transaction of the range is added to the cell
 * of its category and account, and the rows are ordered by their dotted
 * index compared segment by segment as numbers. Each row shows the bank and
 * the total cash of its accounts; the summary shows each account's column
 * total and their grand total.
 */
module Extract {
  import opened Wrappers
  import opened Strings
  import opened Dates
  import opened Categories
  import opened Accounts
  import opened Ledger
  import Home
  import Seeding

  // ---------------------------------------------------------------- index order (compareIndexes)

  /** `Number(parts[i]) || 0`, with a missing segment read as 0. */
  function Seg(parts: seq<string>, i: nat): nat
  {
    if i < |parts| then NumberOrZero(parts[i]) else 0
  }

  function Max(a: nat, b: nat): (m: nat)
    ensures m >= a && m >= b && (m == a || m == b)
  {
    if a >= b then a else b
  }

  /** The comparison from segment `i` on: the difference of the first differing segments before `n`, else 0. */
  function CompareFrom(pa: seq<string>, pb: seq<string>, i: nat, n: nat): int
    decreases n - i
  {
    if i >= n then 0
    else if Seg(pa, i) != Seg(pb, i) then Seg(pa, i) - Seg(pb, i)
    else CompareFrom(pa, pb, i + 1, n)
  }

  /** What `compareIndexes(a, b)` returns: negative, zero or positive as `a` orders before, with or after `b`. */
  function IndexOrder(a: string, b: string): int
  {
    var pa := Split(a, '.');
    var pb := Split(b, '.');
    CompareFrom(pa, pb, 0, Max(|pa|, |pb|))
  }

  /** `compareIndexes(a, b)`: walk both segment lists and return at the first difference. */
  method CompareIndexes(a: string, b: string) returns (r: int)
    ensures r == IndexOrder(a, b)
  {
    var pa := Split(a, '.');
    var pb := Split(b, '.');
    var n := Max(|pa|, |pb|);
    var i := 0;
    while i < n
      invariant 0 <= i <= n
      invariant CompareFrom(pa, pb, i, n) == CompareFrom(pa, pb, 0, n)
    {
      var numA := if i < |pa| then NumberOrZero(pa[i]) else 0;
      var numB := if i < |pb| then NumberOrZero(pb[i]) else 0;
      if numA != numB {
        return numA - numB;
      }
      i := i + 1;
    }
    return 0;
  }

  /** Past the end of both lists every segment is 0, so a wider bound changes nothing. */
  lemma {:induction false} CompareWider(pa: seq<string>, pb: seq<string>, i: nat, n: nat)
    requires n >= Max(|pa|, |pb|)
    ensures CompareFrom(pa, pb, i, n) == CompareFrom(pa, pb, i, Max(|pa|, |pb|))
    decreases n - i
  {
    if i < n {
      CompareWider(pa, pb, i + 1, n);
      if i >= Max(|pa|, |pb|) {
        assert Seg(pa, i) == 0 && Seg(pb, i) == 0;
      }
    }
  }

  lemma {:induction false} CompareFromReflexive(p: seq<string>, i: nat, n: nat)
    ensures CompareFrom(p, p, i, n) == 0
    decreases n - i
  {
    if i < n {
      CompareFromReflexive(p, i + 1, n);
    }
  }

  lemma {:induction false} CompareFromAntisymmetric(pa: seq<string>, pb: seq<string>, i: nat, n: nat)
    ensures CompareFrom(pb, pa, i, n) == -CompareFrom(pa, pb, i, n)
    decreases n - i
  {
    if i < n {
      CompareFromAntisymmetric(pa, pb, i + 1, n);
    }
  }

  lemma {:induction false} CompareFromTransitive(pa: seq<string>, pb: seq<string>, pc: seq<string>, i: nat, n: nat)
    requires CompareFrom(pa, pb, i, n) <= 0 && CompareFrom(pb, pc, i, n) <= 0
    ensures CompareFrom(pa, pc, i, n) <= 0
    decreases n - i
  {
    if i < n && Seg(pa, i) == Seg(pb, i) && Seg(pb, i) == Seg(pc, i) {
      CompareFromTransitive(pa, pb, pc, i + 1, n);
    }
  }

  /** Every index compares equal to itself. */
  lemma IndexOrderReflexive(a: string)
    ensures IndexOrder(a, a) == 0
  {
    CompareFromReflexive(Split(a, '.'), 0, |Split(a, '.')|);
  }

  /** Swapping the arguments negates the result. */
  lemma IndexOrderAntisymmetric(a: string, b: string)
    ensures IndexOrder(b, a) == -IndexOrder(a, b)
  {
    var pa := Split(a, '.');
    var pb := Split(b, '.');
    CompareFromAntisymmetric(pa, pb, 0, Max(|pa|, |pb|));
    assert Max(|pb|, |pa|) == Max(|pa|, |pb|);
  }

  /** "Orders no later than" is transitive, so the sort the comparator drives is well defined. */
  lemma IndexOrderTransitive(a: string, b: string, c: string)
    requires IndexOrder(a, b) <= 0 && IndexOrder(b, c) <= 0
    ensures IndexOrder(a, c) <= 0
  {
    var pa := Split(a, '.');
    var pb := Split(b, '.');
    var pc := Split(c, '.');
    var n := Max(Max(|pa|, |pb|), |pc|);
    CompareWider(pa, pb, 0, n);
    CompareWider(pb, pc, 0, n);
    CompareWider(pa, pc, 0, n);
    CompareFromTransitive(pa, pb, pc, 0, n);
  }

  /** Segments compare as numbers, and a missing segment counts as 0. */
  lemma IndexOrderExamples()
    ensures IndexOrder("2.10", "2.9") > 0
    ensures IndexOrder("2", "2.0") == 0
    ensures IndexOrder("1", "2.1") < 0
  {
    NumericSegments();
    MissingSegment();
    FirstSegmentDecides();
  }

  lemma TwoSegments(a: string, b: string)
    requires '.' !in a && '.' !in b
    ensures Split(a + ['.'] + b, '.') == [a, b]
  {
    SplitNoSeparator(a, '.');
    SplitAppend(a, '.', b);
  }

  lemma NumericSegments()
    ensures IndexOrder("2.10", "2.9") > 0
  {
    assert "2.10" == "2" + ['.'] + "10";
    assert "2.9" == "2" + ['.'] + "9";
    TwoSegments("2", "10");
    TwoSegments("2", "9");
    OneDigit('1');
    OneDigit('9');
    assert DigitsValue("10") == 10 by {
      assert "10"[..1] == "1";
    }
    var pa, pb := Split("2.10", '.'), Split("2.9", '.');
    assert Seg(pa, 0) == Seg(pb, 0) && Seg(pa, 1) == 10 && Seg(pb, 1) == 9;
    assert CompareFrom(pa, pb, 0, 2) == CompareFrom(pa, pb, 1, 2) == 1;
  }

  lemma MissingSegment()
    ensures IndexOrder("2", "2.0") == 0
  {
    assert "2.0" == "2" + ['.'] + "0";
    SplitNoSeparator("2", '.');
    TwoSegments("2", "0");
    OneDigit('2');
    OneDigit('0');
    var pa, pb := Split("2", '.'), Split("2.0", '.');
    assert Seg(pa, 0) == Seg(pb, 0) && Seg(pa, 1) == Seg(pb, 1);
    assert CompareFrom(pa, pb, 0, 2) == CompareFrom(pa, pb, 2, 2) == 0;
  }

  lemma OneDigit(c: char)
    requires IsDigit(c)
    ensures NumberOrZero([c]) == DigitValue(c)
  {
    assert AllDigits([c]);
    assert [c][..0] == "";
    assert DigitsValue([c]) == DigitsValue([c][..0]) * 10 + DigitValue(c);
  }

  lemma FirstSegmentDecides()
    ensures IndexOrder("1", "2.1") < 0
  {
    assert "2.1" == "2" + ['.'] + "1";
    SplitNoSeparator("1", '.');
    TwoSegments("2", "1");
    OneDigit('1');
    OneDigit('2');
    var pa, pb := Split("1", '.'), Split("2.1", '.');
    assert Seg(pa, 0) == 1 && Seg(pb, 0) == 2;
  }

  // ---------------------------------------------------------------- rows and their order

  /** A row of the extract: the category's id, full name and index, and one cell per account id. */
  datatype Row = Row(id: string, name: string, index: string, cells: map<string, int>)

  /** `accounts[id] || 0`: an absent cell reads as 0. */
  function Cell(cells: map<string, int>, id: string): int
  {
    if id in cells then cells[id] else 0
  }

  predicate SortedRows(s: seq<Row>)
  {
    forall i, j | 0 <= i < j < |s| :: IndexOrder(s[i].index, s[j].index) <= 0
  }

  /** Put `x` after every row that orders no later than it (a stable insertion). */
  function InsertRow(s: seq<Row>, x: Row): (r: seq<Row>)
    ensures multiset(r) == multiset(s) + multiset{x}
  {
    if s == [] then [x]
    else if IndexOrder(s[0].index, x.index) > 0 then [x] + s
    else
      assert s == [s[0]] + s[1..];
      [s[0]] + InsertRow(s[1..], x)
  }

  /** Inserting into index order keeps index order. */
  lemma {:induction false} InsertRowSorted(s: seq<Row>, x: Row)
    requires SortedRows(s)
    ensures SortedRows(InsertRow(s, x))
  {
    if s == [] {
    } else if IndexOrder(s[0].index, x.index) > 0 {
      IndexOrderAntisymmetric(s[0].index, x.index);
      forall j | 0 < j < |s| ensures IndexOrder(x.index, s[j].index) <= 0 {
        IndexOrderTransitive(x.index, s[0].index, s[j].index);
      }
    } else {
      var rest := InsertRow(s[1..], x);
      InsertRowSorted(s[1..], x);
      forall y | y in rest ensures IndexOrder(s[0].index, y.index) <= 0 {
        assert y in multiset(rest);
        if y != x {
          assert y in multiset(s[1..]);
          var k :| 0 <= k < |s[1..]| && s[1..][k] == y;
          assert s[k + 1] == y;
        }
      }
      SortedConsRows(s[0], rest);
    }
  }

  lemma SortedConsRows(x: Row, t: seq<Row>)
    requires SortedRows(t)
    requires forall y | y in t :: IndexOrder(x.index, y.index) <= 0
    ensures SortedRows([x] + t)
  {
    var r := [x] + t;
    forall i, j | 0 <= i < j < |r| ensures IndexOrder(r[i].index, r[j].index) <= 0 {
      assert r[j] == t[j - 1];
      if i > 0 {
        assert r[i] == t[i - 1];
      } else {
        assert r[j] in t;
      }
    }
  }

  /** The rows in ascending index order (the stable sort of `Object.values(categoryData)`). */
  function SortRows(rows: seq<Row>): (r: seq<Row>)
    ensures SortedRows(r)
    ensures multiset(r) == multiset(rows)
  {
    if rows == [] then []
    else
      var init := rows[..|rows| - 1];
      assert rows == init + [rows[|rows| - 1]];
      var sorted := SortRows(init);
      InsertRowSorted(sorted, rows[|rows| - 1]);
      InsertRow(sorted, rows[|rows| - 1])
  }

  /** The sum of column `id` over the rows. */
  function ColumnSum(rows: seq<Row>, id: string): int
  {
    if rows == [] then 0 else ColumnSum(rows[..|rows| - 1], id) + Cell(rows[|rows| - 1].cells, id)
  }

  lemma {:induction false} ColumnSumCons(x: Row, s: seq<Row>, id: string)
    ensures ColumnSum([x] + s, id) == Cell(x.cells, id) + ColumnSum(s, id)
  {
    if s != [] {
      var init := s[..|s| - 1];
      ColumnSumCons(x, init, id);
      assert ([x] + s)[..|s|] == [x] + init;
    }
  }

  lemma {:induction false} ColumnSumInsert(s: seq<Row>, x: Row, id: string)
    ensures ColumnSum(InsertRow(s, x), id) == ColumnSum(s, id) + Cell(x.cells, id)
  {
    if s == [] {
      assert [x][..0] == [];
    } else if IndexOrder(s[0].index, x.index) > 0 {
      ColumnSumCons(x, s, id);
    } else {
      ColumnSumInsert(s[1..], x, id);
      ColumnSumCons(s[0], InsertRow(s[1..], x), id);
      ColumnSumCons(s[0], s[1..], id);
      assert s == [s[0]] + s[1..];
    }
  }

  /** Sorting moves rows, so no column total changes. */
  lemma {:induction false} ColumnSumSorted(rows: seq<Row>, id: string)
    ensures ColumnSum(SortRows(rows), id) == ColumnSum(rows, id)
  {
    if rows != [] {
      var init := rows[..|rows| - 1];
      ColumnSumSorted(init, id);
      ColumnSumInsert(SortRows(init), rows[|rows| - 1], id);
    }
  }

  // ---------------------------------------------------------------- range

  datatype RangeCheck = MissingMonth | StartAfterEnd | RangeOk(start: YearMonth, end: YearMonth)

  /**
   * The checks of `handleExtractSubmit`: both month inputs filled, and the
   * first day of the start month not after the first day of the end month.
   */
  function CheckRange(start: Option<YearMonth>, end: Option<YearMonth>): (r: RangeCheck)
    requires start.Some? ==> ValidMonth(start.value)
    requires end.Some? ==> ValidMonth(end.value)
    ensures r.MissingMonth? <==> start.None? || end.None?
    ensures r.StartAfterEnd? <==> start.Some? && end.Some? && MonthNumber(start.value) > MonthNumber(end.value)
    ensures r.RangeOk? ==> r.start == start.value && r.end == end.value
  {
    if start.None? || end.None? then MissingMonth
    else if Before(FirstInstant(end.value), FirstInstant(start.value)) then StartAfterEnd
    else RangeOk(start.value, end.value)
  }

  /**
   * `filterTransactionsByDateRange`: the transactions from midnight of the
   * start month's first day to the last millisecond of the end month.
   */
  function FilterByRange(all: seq<Transaction>, start: YearMonth, end: YearMonth): (r: seq<Transaction>)
    requires ValidMonth(start) && ValidMonth(end)
    ensures forall t | t in r :: t in all
  {
    Window(all, FirstInstant(start), LastInstant(end))
  }

  /** A dated transaction is in the range exactly when its month lies between the two months. */
  lemma FilterByRangeMonths(all: seq<Transaction>, start: YearMonth, end: YearMonth, t: Transaction)
    requires ValidMonth(start) && ValidMonth(end) && ValidDate(t.date)
    ensures t in FilterByRange(all, start, end) <==>
      t in all && MonthNumber(start) <= MonthNumber(MonthOf(t.date)) <= MonthNumber(end)
  {
    WithinMonthRange(t.date, start, end);
  }

  /** An accepted range is not empty: it holds at least the start month's first instant. */
  lemma AcceptedRangeIsInhabited(start: Option<YearMonth>, end: Option<YearMonth>)
    requires start.Some? ==> ValidMonth(start.value)
    requires end.Some? ==> ValidMonth(end.value)
    requires CheckRange(start, end).RangeOk?
    ensures Within(FirstInstant(start.value), FirstInstant(start.value), LastInstant(end.value))
  {
    WithinMonthRange(FirstInstant(start.value), start.value, end.value);
  }

  // ---------------------------------------------------------------- the zero matrix (createCategoryStructure)

  /** One zero cell per loaded account id. */
  function Zeros(accounts: seq<Account>): (cells: map<string, int>)
    ensures cells.Keys == Home.AccountIds(accounts)
    ensures forall id | id in cells :: cells[id] == 0
  {
    map id | id in Home.AccountIds(accounts) :: 0
  }

  lemma ZerosSnoc(accounts: seq<Account>, a: Account)
    ensures Zeros(accounts + [a]) == Zeros(accounts)[a.id := 0]
  {
    assert Home.AccountIds(accounts + [a]) == Home.AccountIds(accounts) + {a.id} by {
      assert forall x | x in accounts + [a] :: x in accounts || x == a;
    }
  }

  /** The zero row of a category: its id, its full name as the row label, its index, and a zero for every account. */
  function ZeroRow(c: Category, accounts: seq<Account>): Row
  {
    Row(c.id, c.fullName, c.index, Zeros(accounts))
  }

  function CategoryIds(cats: seq<Category>): set<string>
  {
    set c | c in cats :: c.id
  }

  /** The matrix `createCategoryStructure` builds, a later category overwriting an earlier one with the same id. */
  function Structure(cats: seq<Category>, accounts: seq<Account>): (s: map<string, Row>)
    ensures s.Keys == CategoryIds(cats)
  {
    if cats == [] then map[]
    else
      var init := cats[..|cats| - 1];
      var last := cats[|cats| - 1];
      assert forall c | c in cats :: c in init || c == last;
      Structure(init, accounts)[last.id := ZeroRow(last, accounts)]
  }

  /** `createCategoryStructure`: one row per category, one zero cell per account in each. */
  method CreateCategoryStructure(cats: seq<Category>, accounts: seq<Account>) returns (s: map<string, Row>)
    ensures s == Structure(cats, accounts)
  {
    s := map[];
    var i := 0;
    while i < |cats|
      invariant 0 <= i <= |cats|
      invariant s == Structure(cats[..i], accounts)
    {
      var c := cats[i];
      var cells: map<string, int> := map[];
      var j := 0;
      while j < |accounts|
        invariant 0 <= j <= |accounts|
        invariant cells == Zeros(accounts[..j])
      {
        TakeOneMore(accounts, j);
        ZerosSnoc(accounts[..j], accounts[j]);
        cells := cells[accounts[j].id := 0];
        j := j + 1;
      }
      assert accounts[..|accounts|] == accounts;
      s := s[c.id := Row(c.id, c.fullName, c.index, cells)];
      assert cats[..i + 1][..i] == cats[..i];
      i := i + 1;
    }
    assert cats[..|cats|] == cats;
  }

  /**
   * The rows of `s` keep the tree's categories: exactly their ids as keys,
   * and the row under each id carries that category's id, full name and index.
   */
  ghost predicate Shaped(s: map<string, Row>, cats: seq<Category>)
  {
    && s.Keys == CategoryIds(cats)
    && forall c | c in cats :: s[c.id].id == c.id && s[c.id].name == c.fullName && s[c.id].index == c.index
  }

  /** With unique ids the matrix has exactly one zero row per category: every loaded account starts at 0. */
  lemma {:induction false} StructureRows(cats: seq<Category>, accounts: seq<Account>)
    requires UniqueIds(cats)
    ensures forall c | c in cats :: Structure(cats, accounts)[c.id] == ZeroRow(c, accounts)
    ensures Shaped(Structure(cats, accounts), cats)
  {
    if cats != [] {
      var init := cats[..|cats| - 1];
      var last := cats[|cats| - 1];
      assert UniqueIds(init);
      StructureRows(init, accounts);
      forall c | c in cats ensures Structure(cats, accounts)[c.id] == ZeroRow(c, accounts) {
        if c != last {
          SplitLast(cats);
          var i := IndexOf(init, c);
          assert cats[i] == c;
        }
      }
    }
  }

  // ---------------------------------------------------------------- opening balances (addSaldoAwalFromMonthlyBalances)

  /** `allCategories.find(cat => cat.index.startsWith(p))`. */
  function FirstWithPrefix(cats: seq<Category>, p: string): (r: Option<Category>)
    ensures r.None? <==> forall c | c in cats :: !StartsWith(c.index, p)
    ensures r.Some? ==> r.value in cats && StartsWith(r.value.index, p)
    ensures r.Some? ==> exists i | 0 <= i < |cats| :: cats[i] == r.value && forall j | 0 <= j < i :: !StartsWith(cats[j].index, p)
  {
    if cats == [] then None
    else if StartsWith(cats[0].index, p) then Some(cats[0])
    else
      var r := FirstWithPrefix(cats[1..], p);
      assert forall c | c in cats :: c == cats[0] || c in cats[1..];
      if r.Some? then
        var i :| 0 <= i < |cats[1..]| && cats[1..][i] == r.value && forall j | 0 <= j < i :: !StartsWith(cats[1..][j].index, p);
        assert cats[i + 1] == r.value;
        assert forall j | 0 <= j < i + 1 :: !StartsWith(cats[j].index, p) by {
          forall j | 0 <= j < i + 1 ensures !StartsWith(cats[j].index, p) {
            if j > 0 {
              assert cats[j] == cats[1..][j - 1];
            }
          }
        }
        r
      else r
  }

  /** The entry of account `id` in a document's `accountBalances`: its `total` when that is a number, else nothing. */
  function SeedAmount(bal: map<string, Option<int>>, id: string): int
  {
    if id in bal && bal[id].Some? then bal[id].value else 0
  }

  /** The cells after adding the balances of the accounts in `done` (a cell is created for an account the row lacked). */
  function SeededCells(cells: map<string, int>, bal: map<string, Option<int>>, done: set<string>): (r: map<string, int>)
    ensures forall id :: Cell(r, id) == Cell(cells, id) + (if id in done then SeedAmount(bal, id) else 0)
  {
    map k | k in cells.Keys + (set a | a in done && a in bal && bal[a].Some?) ::
      Cell(cells, k) + (if k in done then SeedAmount(bal, k) else 0)
  }

  /** `r` holds the cells with the balances of the accounts in `done` added, put pointwise. */
  ghost predicate SeededSoFar(r: map<string, int>, cells: map<string, int>, bal: map<string, Option<int>>, done: set<string>)
  {
    && (forall id :: id in r <==> id in cells || (id in done && SeedAmountIn(bal, id)))
    && (forall id | id in r :: r[id] == Cell(cells, id) + (if id in done then SeedAmount(bal, id) else 0))
  }

  predicate SeedAmountIn(bal: map<string, Option<int>>, id: string)
  {
    id in bal && bal[id].Some?
  }

  lemma SeededSoFarStep(r: map<string, int>, cells: map<string, int>, bal: map<string, Option<int>>, done: set<string>, k: string)
    requires SeededSoFar(r, cells, bal, done) && k in bal && k !in done
    ensures SeededSoFar(if bal[k].Some? then r[k := Cell(r, k) + bal[k].value] else r, cells, bal, done + {k})
  {
  }

  lemma SeededSoFarIs(r: map<string, int>, cells: map<string, int>, bal: map<string, Option<int>>, done: set<string>)
    requires SeededSoFar(r, cells, bal, done)
    ensures r == SeededCells(cells, bal, done)
  {
    var v := SeededCells(cells, bal, done);
    assert r.Keys == v.Keys;
  }

  /** The key of the month before `start` (`setMonth(getMonth() - 1)` on its first day). */
  function PreviousKey(start: YearMonth): string
    requires ValidMonth(start)
  {
    MonthKey(PreviousMonth(start))
  }

  /** The row that takes the opening balances, when there is one in the matrix. */
  function SaldoAwalRow(s: map<string, Row>, cats: seq<Category>): Option<string>
  {
    var c := FirstWithPrefix(cats, "1");
    if c.Some? && c.value.id in s then Some(c.value.id) else None
  }

  /** The matrix after the opening balances: the previous month's per-account totals added to the opening-balance row. */
  function Seeded(s: map<string, Row>, cats: seq<Category>, bs: map<string, MonthlyBalance>, start: YearMonth)
    : (r: map<string, Row>)
    requires ValidMonth(start)
    ensures r.Keys == s.Keys
  {
    var key := PreviousKey(start);
    if key !in bs || SaldoAwalRow(s, cats).None? then s
    else
      var id := SaldoAwalRow(s, cats).value;
      var bal := bs[key].accountBalances;
      s[id := s[id].(cells := SeededCells(s[id].cells, bal, bal.Keys))]
  }

  /** The loop over `accountBalances` that adds each numeric total to its account's cell. */
  method SeedCells(cells: map<string, int>, bal: map<string, Option<int>>) returns (r: map<string, int>)
    ensures r == SeededCells(cells, bal, bal.Keys)
  {
    r := cells;
    var rest := bal.Keys;
    ghost var done: set<string> := {};
    while rest != {}
      invariant rest <= bal.Keys && done == bal.Keys - rest
      invariant SeededSoFar(r, cells, bal, done)
      decreases |rest|
    {
      var k :| k in rest;
      SeededSoFarStep(r, cells, bal, done, k);
      if bal[k].Some? {
        r := r[k := Cell(r, k) + bal[k].value];
      }
      rest := rest - {k};
      done := done + {k};
    }
    SeededSoFarIs(r, cells, bal, bal.Keys);
  }

  /** `addSaldoAwalFromMonthlyBalances(categoryData, startMonth)`. */
  method AddSaldoAwal(s: map<string, Row>, cats: seq<Category>, bs: map<string, MonthlyBalance>, start: YearMonth)
    returns (r: map<string, Row>)
    requires ValidMonth(start)
    ensures r == Seeded(s, cats, bs, start)
  {
    r := s;
    var key := MonthKey(PreviousMonth(start));
    if key in bs {
      var bal := bs[key].accountBalances;
      var saldoAwal := FirstWithPrefix(cats, "1");
      if saldoAwal.Some? && saldoAwal.value.id in s {
        var id := saldoAwal.value.id;
        assert SaldoAwalRow(s, cats) == Some(id);
        var cells := SeedCells(s[id].cells, bal);
        r := s[id := s[id].(cells := cells)];
      }
    }
  }

  /**
   * The opening balances touch one row only: the first category whose index
   * starts with '1' gains each account's previous total; every other row,
   * and every row without a previous-month document, stays as it was.
   */
  lemma SeedingTouchesOneRow(s: map<string, Row>, cats: seq<Category>, bs: map<string, MonthlyBalance>,
                             start: YearMonth)
    requires ValidMonth(start)
    ensures var r := Seeded(s, cats, bs, start);
      && r.Keys == s.Keys
      && (PreviousKey(start) !in bs ==> r == s)
      && (forall id | id in s && Some(id) != SaldoAwalRow(s, cats) :: r[id] == s[id])
      && (forall id | id in s ::
            r[id].id == s[id].id && r[id].name == s[id].name && r[id].index == s[id].index)
      && (PreviousKey(start) in bs && SaldoAwalRow(s, cats).Some? ==>
            forall acc :: Cell(r[SaldoAwalRow(s, cats).value].cells, acc) ==
              Cell(s[SaldoAwalRow(s, cats).value].cells, acc) + SeedAmount(bs[PreviousKey(start)].accountBalances, acc))
  {
  }

  /** No document carries per-account balances. */
  predicate NoAccountBalances(bs: map<string, MonthlyBalance>)
  {
    forall k | k in bs :: bs[k].accountBalances == map[]
  }

  /**
   * The transaction form never writes per-account balances, so on documents
   * it wrote the opening balances add nothing: the extract's opening row
   * stays at zero.
   */
  lemma SeedingAddsNothingOnLedgerDocs(s: map<string, Row>, cats: seq<Category>, before: map<string, MonthlyBalance>,
                                       bs: map<string, MonthlyBalance>, start: YearMonth)
    requires ValidMonth(start)
    requires NoAccountBalances(before) && KeepsAccountBalances(before, bs)
    ensures NoAccountBalances(bs)
    ensures Seeded(s, cats, bs, start) == s
  {
    var key := PreviousKey(start);
    if key in bs && SaldoAwalRow(s, cats).Some? {
      var id := SaldoAwalRow(s, cats).value;
      var bal := bs[key].accountBalances;
      assert SeededCells(s[id].cells, bal, bal.Keys) == s[id].cells;
      assert s[id].(cells := s[id].cells) == s[id];
    }
  }

  // ---------------------------------------------------------------- transactions into cells

  /**
   * What a transaction adds to its cell. The code adds the amount as stored
   * (`AsStored`); amounts are stored unsigned, so the sign the rest of the
   * ledger gives them is `Signed`.
   */
  datatype AmountRule = AsStored | Signed

  function CellAmount(rule: AmountRule, index: string, amount: int): int
  {
    match rule
    case AsStored => amount
    case Signed => SignedAmount(index, amount)
  }

  /** One transaction added to the cell of its category and account; a category outside the matrix drops it. */
  function AddTransaction(s: map<string, Row>, t: Transaction, rule: AmountRule): (r: map<string, Row>)
    ensures r.Keys == s.Keys
    ensures forall id | id in s && id != t.categoryId :: r[id] == s[id]
    ensures t.categoryId in s ==>
      && r[t.categoryId] == s[t.categoryId].(cells := r[t.categoryId].cells)
      && forall acc :: Cell(r[t.categoryId].cells, acc) == Cell(s[t.categoryId].cells, acc)
           + (if acc == t.accountId then CellAmount(rule, s[t.categoryId].index, t.amount) else 0)
  {
    if t.categoryId !in s then s
    else
      var row := s[t.categoryId];
      var cell := Cell(row.cells, t.accountId) + CellAmount(rule, row.index, t.amount);
      s[t.categoryId := row.(cells := row.cells[t.accountId := cell])]
  }

  /** The matrix after adding the transactions one after the other. */
  function Accumulated(s: map<string, Row>, ts: seq<Transaction>, rule: AmountRule): (r: map<string, Row>)
    ensures r.Keys == s.Keys
  {
    if ts == [] then s else AddTransaction(Accumulated(s, ts[..|ts| - 1], rule), ts[|ts| - 1], rule)
  }

  /** Shaped matrices stay shaped under the opening balances and the transactions. */
  lemma {:induction false} AccumulatedShaped(s: map<string, Row>, cats: seq<Category>, ts: seq<Transaction>, rule: AmountRule)
    requires Shaped(s, cats)
    ensures Shaped(Accumulated(s, ts, rule), cats)
  {
    if ts != [] {
      AccumulatedShaped(s, cats, ts[..|ts| - 1], rule);
    }
  }

  lemma SeededShaped(s: map<string, Row>, cats: seq<Category>, bs: map<string, MonthlyBalance>, start: YearMonth)
    requires ValidMonth(start) && Shaped(s, cats)
    ensures Shaped(Seeded(s, cats, bs, start), cats)
  {
    SeedingTouchesOneRow(s, cats, bs, start);
  }

  // ---------------------------------------------------------------- rows in category order, column sums

  /** `Object.values(categoryData)` for unique ids: the row of each category, in category order. */
  function RowsOf(cats: seq<Category>, s: map<string, Row>): (rows: seq<Row>)
    requires CategoryIds(cats) <= s.Keys
    ensures |rows| == |cats|
    ensures forall i | 0 <= i < |cats| :: rows[i] == s[cats[i].id]
  {
    if cats == [] then []
    else
      var init := cats[..|cats| - 1];
      assert CategoryIds(init) <= CategoryIds(cats);
      RowsOf(init, s) + [s[cats[|cats| - 1].id]]
  }

  /** With unique ids the last category's id is not among the others'. */
  lemma LastIdFresh(cats: seq<Category>)
    requires UniqueIds(cats) && cats != []
    ensures cats[|cats| - 1].id !in CategoryIds(cats[..|cats| - 1])
    ensures CategoryIds(cats) == CategoryIds(cats[..|cats| - 1]) + {cats[|cats| - 1].id}
  {
    var n := |cats|;
    var init := cats[..n - 1];
    assert forall c | c in cats :: c in init || c == cats[n - 1];
  }

  lemma RowsOfInit(cats: seq<Category>, s: map<string, Row>, acc: string)
    requires CategoryIds(cats) <= s.Keys && cats != []
    ensures CategoryIds(cats[..|cats| - 1]) <= s.Keys
    ensures ColumnSum(RowsOf(cats, s), acc) ==
      ColumnSum(RowsOf(cats[..|cats| - 1], s), acc) + Cell(s[cats[|cats| - 1].id].cells, acc)
  {
    var n := |cats|;
    assert CategoryIds(cats[..n - 1]) <= CategoryIds(cats);
    assert RowsOf(cats, s)[..n - 1] == RowsOf(cats[..n - 1], s);
  }

  /**
   * When `s2` differs from `s` in the cells of one category id at most, the
   * column sum over the categories changes by the change of that one cell.
   */
  lemma {:induction false} ColumnSumChange(cats: seq<Category>, s: map<string, Row>, s2: map<string, Row>,
                                           acc: string, target: string)
    requires UniqueIds(cats) && CategoryIds(cats) <= s.Keys && CategoryIds(cats) <= s2.Keys
    requires forall c | c in cats && c.id != target :: Cell(s2[c.id].cells, acc) == Cell(s[c.id].cells, acc)
    ensures ColumnSum(RowsOf(cats, s2), acc) == ColumnSum(RowsOf(cats, s), acc)
      + (if target in CategoryIds(cats) then Cell(s2[target].cells, acc) - Cell(s[target].cells, acc) else 0)
  {
    if cats != [] {
      var n := |cats|;
      var init := cats[..n - 1];
      assert UniqueIds(init);
      RowsOfInit(cats, s, acc);
      RowsOfInit(cats, s2, acc);
      LastIdFresh(cats);
      ColumnSumChange(init, s, s2, acc, target);
    }
  }

  /** A column over cells that are all zero sums to zero. */
  lemma {:induction false} ZeroColumn(cats: seq<Category>, s: map<string, Row>, acc: string)
    requires CategoryIds(cats) <= s.Keys
    requires forall c | c in cats :: Cell(s[c.id].cells, acc) == 0
    ensures ColumnSum(RowsOf(cats, s), acc) == 0
  {
    if cats != [] {
      var n := |cats|;
      var init := cats[..n - 1];
      RowsOfInit(cats, s, acc);
      forall c | c in init ensures Cell(s[c.id].cells, acc) == 0 {
        assert c in cats;
      }
      ZeroColumn(init, s, acc);
      assert cats[n - 1] in cats;
    }
  }

  /** Adding a transaction leaves the cells of every other category's row as they were. */
  lemma AddTransactionOthers(cats: seq<Category>, s: map<string, Row>, t: Transaction, acc: string)
    requires Shaped(s, cats)
    ensures CategoryIds(cats) <= AddTransaction(s, t, Signed).Keys
    ensures forall c | c in cats && c.id != t.categoryId ::
      Cell(AddTransaction(s, t, Signed)[c.id].cells, acc) == Cell(s[c.id].cells, acc)
  {
  }

  /** The change of the transaction's own cell is what the home page's card for that account adds. */
  lemma AddTransactionDelta(cats: seq<Category>, s: map<string, Row>, t: Transaction, acc: string)
    requires UniqueIds(cats) && Shaped(s, cats) && acc != ""
    ensures var s2 := AddTransaction(s, t, Signed);
      (if t.categoryId in CategoryIds(cats) then Cell(s2[t.categoryId].cells, acc) - Cell(s[t.categoryId].cells, acc) else 0)
      == Home.Contribution(t, cats, acc)
  {
    if t.categoryId in CategoryIds(cats) {
      var c :| c in cats && c.id == t.categoryId;
      Home.FindUnique(cats, c);
      assert s[t.categoryId].index == c.index;
    } else {
      assert FindById(cats, t.categoryId).None?;
    }
  }

  /** Adding a transaction under the signed rule changes a column by what the home page's card for that account adds. */
  lemma AddTransactionColumn(cats: seq<Category>, s: map<string, Row>, t: Transaction, acc: string)
    requires UniqueIds(cats) && Shaped(s, cats) && acc != ""
    ensures ColumnSum(RowsOf(cats, AddTransaction(s, t, Signed)), acc) ==
      ColumnSum(RowsOf(cats, s), acc) + Home.Contribution(t, cats, acc)
  {
    AddTransactionOthers(cats, s, t, acc);
    AddTransactionDelta(cats, s, t, acc);
    ColumnSumChange(cats, s, AddTransaction(s, t, Signed), acc, t.categoryId);
  }

  /**
   * Under the signed rule, each column of the matrix is what it started with
   * plus the home page's total of that account over the same transactions.
   */
  lemma {:induction false} AccumulatedColumn(cats: seq<Category>, s: map<string, Row>, ts: seq<Transaction>, acc: string)
    requires UniqueIds(cats) && Shaped(s, cats) && acc != ""
    ensures ColumnSum(RowsOf(cats, Accumulated(s, ts, Signed)), acc) ==
      ColumnSum(RowsOf(cats, s), acc) + Home.AccountTotal(ts, cats, acc)
  {
    if ts != [] {
      var init := ts[..|ts| - 1];
      AccumulatedColumn(cats, s, init, acc);
      AccumulatedShaped(s, cats, init, Signed);
      AddTransactionColumn(cats, Accumulated(s, init, Signed), ts[|ts| - 1], acc);
    }
  }

  /** The opening balances add the previous month's total of an account to its column, when they apply. */
  function SeedOf(cats: seq<Category>, bs: map<string, MonthlyBalance>, start: YearMonth, acc: string): int
    requires ValidMonth(start)
  {
    if PreviousKey(start) in bs && FirstWithPrefix(cats, "1").Some? then
      SeedAmount(bs[PreviousKey(start)].accountBalances, acc)
    else 0
  }

  lemma SeededColumn(cats: seq<Category>, s: map<string, Row>, bs: map<string, MonthlyBalance>, start: YearMonth,
                     acc: string)
    requires ValidMonth(start) && UniqueIds(cats) && Shaped(s, cats)
    ensures ColumnSum(RowsOf(cats, Seeded(s, cats, bs, start)), acc) ==
      ColumnSum(RowsOf(cats, s), acc) + SeedOf(cats, bs, start, acc)
  {
    SeededOthers(cats, s, bs, start, acc);
    SeededDelta(cats, s, bs, start, acc);
    ColumnSumChange(cats, s, Seeded(s, cats, bs, start), acc, SeedTarget(s, cats));
  }

  /** The id of the row the opening balances go to, "" when there is none. */
  function SeedTarget(s: map<string, Row>, cats: seq<Category>): string
  {
    if SaldoAwalRow(s, cats).Some? then SaldoAwalRow(s, cats).value else ""
  }

  lemma SeededOthers(cats: seq<Category>, s: map<string, Row>, bs: map<string, MonthlyBalance>, start: YearMonth,
                     acc: string)
    requires ValidMonth(start) && Shaped(s, cats)
    ensures CategoryIds(cats) <= Seeded(s, cats, bs, start).Keys
    ensures forall c | c in cats && c.id != SeedTarget(s, cats) ::
      Cell(Seeded(s, cats, bs, start)[c.id].cells, acc) == Cell(s[c.id].cells, acc)
  {
    SeedingTouchesOneRow(s, cats, bs, start);
  }

  lemma SeededDelta(cats: seq<Category>, s: map<string, Row>, bs: map<string, MonthlyBalance>, start: YearMonth,
                    acc: string)
    requires ValidMonth(start) && Shaped(s, cats)
    ensures var r, target := Seeded(s, cats, bs, start), SeedTarget(s, cats);
      (if target in CategoryIds(cats) then Cell(r[target].cells, acc) - Cell(s[target].cells, acc) else 0)
      == SeedOf(cats, bs, start, acc)
  {
    SeedingTouchesOneRow(s, cats, bs, start);
    if FirstWithPrefix(cats, "1").Some? {
      assert FirstWithPrefix(cats, "1").value in cats;
    }
  }

  /**
   * The `forEach` of `generateExtractData` over the filtered transactions:
   * `AsStored` is the code as written, `Signed` the corrected rule.
   */
  method AccumulateTransactions(s0: map<string, Row>, ts: seq<Transaction>, rule: AmountRule) returns (s: map<string, Row>)
    ensures s == Accumulated(s0, ts, rule)
  {
    s := s0;
    for i := 0 to |ts|
      invariant s == Accumulated(s0, ts[..i], rule)
    {
      var t := ts[i];
      assert ts[..i + 1][..i] == ts[..i];
      if t.categoryId in s {
        var row := s[t.categoryId];
        var cells := row.cells[t.accountId := Cell(row.cells, t.accountId) + CellAmount(rule, row.index, t.amount)];
        s := s[t.categoryId := row.(cells := cells)];
      }
    }
    assert ts[..|ts|] == ts;
  }

  /**
   * The code adds each amount as stored. The transaction form stores every
   * amount unsigned and leaves the sign to the category, so an expense of
   * 5000 under index "3.1" shows as +5000 in the extract while the home
   * page's card and the running balance count it as -5000. The signed rule
   * gives the extract the home page's figure.
   */
  lemma AsStoredExpenseIsPositive()
    ensures var cats := [Category("e", "Listrik", "Listrik", "3.1", 2, Some("p"))];
      var accounts := [Account("0", "Kas Tunai", "", true, 0)];
      var t := Transaction("Bayar listrik", Date(2024, 3, 5, 0), 5000, "0", "", "e", 1, -5000);
      var zero := Structure(cats, accounts);
      && Cell(Accumulated(zero, [t], AsStored)["e"].cells, "0") == 5000
      && Home.AccountTotal([t], cats, "0") == -5000
      && Cell(Accumulated(zero, [t], Signed)["e"].cells, "0") == -5000
  {
    var cats := [Category("e", "Listrik", "Listrik", "3.1", 2, Some("p"))];
    var t := Transaction("Bayar listrik", Date(2024, 3, 5, 0), 5000, "0", "", "e", 1, -5000);
    assert StartsWith("3.1", "3") && !StartsWith("3.1", "2");
    assert FindById(cats, "e") == Some(cats[0]);
    assert [t][..0] == [];
  }

  // ---------------------------------------------------------------- generateExtractData

  /**
   * The rows `generateExtractData` leaves behind: the zero matrix, the opening
   * balances, the transactions of the range, then the rows in index order.
   * Category ids are document ids and so unique. Under `AsStored` these are
   * the rows of the code as written, under `Signed` the corrected ones.
   */
  function ExtractRows(start: YearMonth, end: YearMonth, all: seq<Transaction>, cats: seq<Category>,
                       accounts: seq<Account>, bs: map<string, MonthlyBalance>, rule: AmountRule): (rows: seq<Row>)
    requires ValidMonth(start) && ValidMonth(end) && UniqueIds(cats)
    ensures |rows| == |cats|
    ensures SortedRows(rows)
  {
    var s := Seeded(Structure(cats, accounts), cats, bs, start);
    var r := RowsOf(cats, Accumulated(s, FilterByRange(all, start, end), rule));
    assert |multiset(SortRows(r))| == |multiset(r)|;
    SortRows(r)
  }

  /** `generateExtractData(startMonth, endMonth)`, adding amounts by `rule`. */
  method GenerateExtractData(start: YearMonth, end: YearMonth, all: seq<Transaction>, cats: seq<Category>,
                             accounts: seq<Account>, bs: map<string, MonthlyBalance>, rule: AmountRule)
    returns (rows: seq<Row>)
    requires ValidMonth(start) && ValidMonth(end) && UniqueIds(cats)
    ensures rows == ExtractRows(start, end, all, cats, accounts, bs, rule)
  {
    var filtered := FilterByRange(all, start, end);
    var s := CreateCategoryStructure(cats, accounts);
    s := AddSaldoAwal(s, cats, bs, start);
    s := AccumulateTransactions(s, filtered, rule);
    rows := SortRows(RowsOf(cats, s));
  }

  /**
   * The extract has one row per category: each row carries the id, full name
   * and index of a category, and every category has its row.
   */
  lemma ExtractRowsAreCategories(start: YearMonth, end: YearMonth, all: seq<Transaction>, cats: seq<Category>,
                                 accounts: seq<Account>, bs: map<string, MonthlyBalance>, rule: AmountRule)
    requires ValidMonth(start) && ValidMonth(end) && UniqueIds(cats)
    ensures var rows := ExtractRows(start, end, all, cats, accounts, bs, rule);
      && (forall r | r in rows :: exists c | c in cats :: r.id == c.id && r.name == c.fullName && r.index == c.index)
      && (forall c | c in cats :: exists r | r in rows :: r.id == c.id)
  {
    var s0 := Structure(cats, accounts);
    StructureRows(cats, accounts);
    var s1 := Seeded(s0, cats, bs, start);
    SeededShaped(s0, cats, bs, start);
    var s2 := Accumulated(s1, FilterByRange(all, start, end), rule);
    AccumulatedShaped(s1, cats, FilterByRange(all, start, end), rule);
    assert ExtractRows(start, end, all, cats, accounts, bs, rule) == SortRows(RowsOf(cats, s2));
    PermutedRowsAreCategories(cats, s2, ExtractRows(start, end, all, cats, accounts, bs, rule));
  }

  /** Any reordering of the rows of a shaped matrix has one row per category, carrying its fields. */
  lemma PermutedRowsAreCategories(cats: seq<Category>, s: map<string, Row>, rows: seq<Row>)
    requires Shaped(s, cats)
    requires multiset(rows) == multiset(RowsOf(cats, s))
    ensures forall r | r in rows :: exists c | c in cats :: r.id == c.id && r.name == c.fullName && r.index == c.index
    ensures forall c | c in cats :: exists r | r in rows :: r.id == c.id
  {
    forall x | x in rows ensures exists c | c in cats :: x.id == c.id && x.name == c.fullName && x.index == c.index {
      RowOfSomeCategory(cats, s, rows, x);
    }
    forall c | c in cats ensures exists x | x in rows :: x.id == c.id {
      CategoryHasRow(cats, s, rows, c);
    }
  }

  lemma RowOfSomeCategory(cats: seq<Category>, s: map<string, Row>, rows: seq<Row>, x: Row)
    requires Shaped(s, cats)
    requires multiset(rows) == multiset(RowsOf(cats, s)) && x in rows
    ensures exists c | c in cats :: x.id == c.id && x.name == c.fullName && x.index == c.index
  {
    var r := RowsOf(cats, s);
    assert x in multiset(r);
    var i :| 0 <= i < |r| && r[i] == x;
    assert cats[i] in cats && r[i] == s[cats[i].id];
  }

  lemma CategoryHasRow(cats: seq<Category>, s: map<string, Row>, rows: seq<Row>, c: Category)
    requires Shaped(s, cats)
    requires multiset(rows) == multiset(RowsOf(cats, s)) && c in cats
    ensures exists x | x in rows :: x.id == c.id
  {
    var r := RowsOf(cats, s);
    var i :| 0 <= i < |cats| && cats[i] == c;
    assert r[i] == s[c.id] && r[i] in multiset(rows);
  }

  /**
   * Each account's column in the extract is its opening balance plus the home
   * page's total of that account over the transactions of the range.
   */
  lemma ExtractColumnsMatchHome(start: YearMonth, end: YearMonth, all: seq<Transaction>, cats: seq<Category>,
                                accounts: seq<Account>, bs: map<string, MonthlyBalance>, acc: string)
    requires ValidMonth(start) && ValidMonth(end) && UniqueIds(cats) && acc != ""
    ensures ColumnSum(ExtractRows(start, end, all, cats, accounts, bs, Signed), acc) ==
      SeedOf(cats, bs, start, acc) + Home.AccountTotal(FilterByRange(all, start, end), cats, acc)
  {
    var s0 := Structure(cats, accounts);
    StructureRows(cats, accounts);
    ZeroColumn(cats, s0, acc);
    var s1 := Seeded(s0, cats, bs, start);
    SeededShaped(s0, cats, bs, start);
    SeededColumn(cats, s0, bs, start, acc);
    AccumulatedColumn(cats, s1, FilterByRange(all, start, end), acc);
    ColumnSumSorted(RowsOf(cats, Accumulated(s1, FilterByRange(all, start, end), Signed)), acc);
  }

  /** On documents the transaction form wrote, the extract's columns are exactly the home page's account totals. */
  lemma ExtractOnLedgerDocs(start: YearMonth, end: YearMonth, all: seq<Transaction>, cats: seq<Category>,
                            accounts: seq<Account>, before: map<string, MonthlyBalance>,
                            bs: map<string, MonthlyBalance>, acc: string)
    requires ValidMonth(start) && ValidMonth(end) && UniqueIds(cats) && acc != ""
    requires NoAccountBalances(before) && KeepsAccountBalances(before, bs)
    ensures ColumnSum(ExtractRows(start, end, all, cats, accounts, bs, Signed), acc) ==
      Home.AccountTotal(FilterByRange(all, start, end), cats, acc)
  {
    ExtractColumnsMatchHome(start, end, all, cats, accounts, bs, acc);
    SeedingAddsNothingOnLedgerDocs(Structure(cats, accounts), cats, before, bs, start);
    assert SeedOf(cats, bs, start, acc) == 0;
  }

  /** What submitting the form shows: a rejection with its reason, or the generated rows. */
  datatype ExtractOutcome = Rejected(reason: RangeCheck) | Generated(rows: seq<Row>)

  /** `handleExtractSubmit`: check the two months, then generate the extract, adding amounts by `rule`. */
  method HandleExtractSubmit(start: Option<YearMonth>, end: Option<YearMonth>, all: seq<Transaction>,
                             cats: seq<Category>, accounts: seq<Account>, bs: map<string, MonthlyBalance>,
                             rule: AmountRule)
    returns (out: ExtractOutcome)
    requires start.Some? ==> ValidMonth(start.value)
    requires end.Some? ==> ValidMonth(end.value)
    requires UniqueIds(cats)
    ensures out.Rejected? <==> !CheckRange(start, end).RangeOk?
    ensures out.Rejected? ==> out.reason == CheckRange(start, end)
    ensures out.Generated? ==> out.rows == ExtractRows(start.value, end.value, all, cats, accounts, bs, rule)
  {
    var check := CheckRange(start, end);
    if !check.RangeOk? {
      return ExtractOutcome.Rejected(check);
    }
    var rows := GenerateExtractData(check.start, check.end, all, cats, accounts, bs, rule);
    out := Generated(rows);
  }

  // ---------------------------------------------------------------- row totals

  /** `name.toLowerCase().includes('bank')`. */
  predicate IsBank(name: string)
  {
    Includes(ToLower(name), "bank")
  }

  /** `name.toLowerCase().includes('tunai')`. */
  predicate IsTunai(name: string)
  {
    Includes(ToLower(name), "tunai")
  }

  /** The row's cells of the bank accounts. */
  function BankTotal(row: Row, accounts: seq<Account>): int
  {
    if accounts == [] then 0
    else
      var a := accounts[|accounts| - 1];
      BankTotal(row, accounts[..|accounts| - 1]) + (if IsBank(a.name) then Cell(row.cells, a.id) else 0)
  }

  /** The row's cells of the cash accounts: named "tunai" and not "bank". */
  function TunaiTotal(row: Row, accounts: seq<Account>): int
  {
    if accounts == [] then 0
    else
      var a := accounts[|accounts| - 1];
      TunaiTotal(row, accounts[..|accounts| - 1]) + (if !IsBank(a.name) && IsTunai(a.name) then Cell(row.cells, a.id) else 0)
  }

  /** The row's cells of the accounts neither total counts. */
  function OtherTotal(row: Row, accounts: seq<Account>): int
  {
    if accounts == [] then 0
    else
      var a := accounts[|accounts| - 1];
      OtherTotal(row, accounts[..|accounts| - 1]) + (if !IsBank(a.name) && !IsTunai(a.name) then Cell(row.cells, a.id) else 0)
  }

  /** The row's cells of all the accounts. */
  function RowSum(row: Row, accounts: seq<Account>): int
  {
    if accounts == [] then 0
    else RowSum(row, accounts[..|accounts| - 1]) + Cell(row.cells, accounts[|accounts| - 1].id)
  }

  /** Every account falls in exactly one of the three totals. */
  lemma {:induction false} RowSumSplits(row: Row, accounts: seq<Account>)
    ensures RowSum(row, accounts) == BankTotal(row, accounts) + TunaiTotal(row, accounts) + OtherTotal(row, accounts)
  {
    if accounts != [] {
      RowSumSplits(row, accounts[..|accounts| - 1]);
    }
  }

  lemma {:induction false} NoOtherAccounts(row: Row, accounts: seq<Account>)
    requires forall a | a in accounts :: IsBank(a.name) || IsTunai(a.name)
    ensures OtherTotal(row, accounts) == 0
  {
    if accounts != [] {
      assert forall a | a in accounts[..|accounts| - 1] :: a in accounts;
      NoOtherAccounts(row, accounts[..|accounts| - 1]);
    }
  }

  /** When every account is named a bank or a cash account, "Total Kas" is the whole row. */
  lemma TotalKasIsRowSum(row: Row, accounts: seq<Account>)
    requires forall a | a in accounts :: IsBank(a.name) || IsTunai(a.name)
    ensures BankTotal(row, accounts) + TunaiTotal(row, accounts) == RowSum(row, accounts)
  {
    RowSumSplits(row, accounts);
    NoOtherAccounts(row, accounts);
  }

  lemma BankAt(name: string, i: nat)
    requires i + 4 <= |name|
    requires LowerChar(name[i]) == 'b' && LowerChar(name[i + 1]) == 'a'
    requires LowerChar(name[i + 2]) == 'n' && LowerChar(name[i + 3]) == 'k'
    ensures IsBank(name)
  {
    var low := ToLower(name);
    assert low[i..i + 4] == "bank";
    assert OccursAt(low, "bank", i);
  }

  lemma NoLetterB(name: string)
    requires forall i | 0 <= i < |name| :: name[i] != 'b' && name[i] != 'B'
    ensures !IsBank(name)
  {
    var low := ToLower(name);
    forall i | 0 <= i <= |low| - 4 ensures !OccursAt(low, "bank", i) {
      assert low[i..i + 4][0] == low[i] != 'b';
    }
  }

  lemma TunaiAt(name: string, i: nat)
    requires i + 5 <= |name|
    requires LowerChar(name[i]) == 't' && LowerChar(name[i + 1]) == 'u' && LowerChar(name[i + 2]) == 'n'
    requires LowerChar(name[i + 3]) == 'a' && LowerChar(name[i + 4]) == 'i'
    ensures IsTunai(name)
  {
    var low := ToLower(name);
    assert low[i..i + 5] == "tunai";
    assert OccursAt(low, "tunai", i);
  }

  /** The first default account, "Kas Tunai", counts as cash and not as a bank. */
  lemma DefaultCashAccount()
    ensures IsTunai(Seeding.DefaultNames[0]) && !IsBank(Seeding.DefaultNames[0])
  {
    var cash := Seeding.DefaultNames[0];
    assert cash == "Kas Tunai";
    TunaiAt(cash, 4);
    NoLetterB(cash);
  }

  /** A name whose first eight characters are "Kas Bank" counts as a bank. */
  lemma KasBankPrefix(name: string)
    requires |name| >= 8 && name[..8] == "Kas Bank"
    ensures IsBank(name)
  {
    assert name[4] == 'B' && name[5] == 'a' && name[6] == 'n' && name[7] == 'k' by {
      assert name[..8][4] == 'B' && name[..8][5] == 'a' && name[..8][6] == 'n' && name[..8][7] == 'k';
    }
    BankAt(name, 4);
  }

  /** The other two default accounts count as banks. */
  lemma DefaultBankAccount(i: nat)
    requires 1 <= i < 3
    ensures IsBank(Seeding.DefaultNames[i])
  {
    var name := Seeding.DefaultNames[i];
    assert name[..8] == "Kas Bank";
    KasBankPrefix(name);
  }

  // ---------------------------------------------------------------- table and CSV lines

  /** One line of the table or of the CSV file: the row caption, one amount per account, "Total Kas Bank" and "Total Kas". */
  datatype Line = Line(caption: string, amounts: seq<int>, totalKasBank: int, totalKas: int)

  /** The line a row renders to: an absent cell reads as 0, and "Total Kas" adds the cash accounts to the banks. */
  function LineOf(row: Row, accounts: seq<Account>): Line
  {
    Line(row.name, seq(|accounts|, j requires 0 <= j < |accounts| => Cell(row.cells, accounts[j].id)),
         BankTotal(row, accounts), BankTotal(row, accounts) + TunaiTotal(row, accounts))
  }

  /** The loop over the accounts that renders one row and tracks its two totals. */
  method RowLine(row: Row, accounts: seq<Account>) returns (line: Line)
    ensures line == LineOf(row, accounts)
  {
    var amounts: seq<int> := [];
    var totalKasBank := 0;
    var totalKasTunai := 0;
    for j := 0 to |accounts|
      invariant |amounts| == j
      invariant forall k | 0 <= k < j :: amounts[k] == Cell(row.cells, accounts[k].id)
      invariant totalKasBank == BankTotal(row, accounts[..j])
      invariant totalKasTunai == TunaiTotal(row, accounts[..j])
    {
      var a := accounts[j];
      var amount := Cell(row.cells, a.id);
      amounts := amounts + [amount];
      assert accounts[..j + 1][..j] == accounts[..j];
      if IsBank(a.name) {
        totalKasBank := totalKasBank + amount;
      } else if IsTunai(a.name) {
        totalKasTunai := totalKasTunai + amount;
      }
    }
    assert accounts[..|accounts|] == accounts;
    line := Line(row.name, amounts, totalKasBank, totalKasBank + totalKasTunai);
  }

  /** `displayExtractTable`: one line per row, in the extract's order. */
  method ExtractTable(rows: seq<Row>, accounts: seq<Account>) returns (lines: seq<Line>)
    ensures |lines| == |rows|
    ensures forall i | 0 <= i < |rows| :: lines[i] == LineOf(rows[i], accounts)
  {
    lines := [];
    for i := 0 to |rows|
      invariant |lines| == i
      invariant forall k | 0 <= k < i :: lines[k] == LineOf(rows[k], accounts)
    {
      var line := RowLine(rows[i], accounts);
      lines := lines + [line];
    }
  }

  /** The CSV header: "Keterangan", "Sum of <name>" per account, then the two totals. */
  function CsvHeader(accounts: seq<Account>): (h: seq<string>)
    ensures |h| == |accounts| + 3
    ensures h[0] == "Keterangan" && h[|h| - 2] == "Total Kas Bank" && h[|h| - 1] == "Total Kas"
    ensures forall j | 0 <= j < |accounts| :: h[j + 1] == "Sum of " + accounts[j].name
  {
    ["Keterangan"] + seq(|accounts|, j requires 0 <= j < |accounts| => "Sum of " + accounts[j].name)
      + ["Total Kas Bank", "Total Kas"]
  }

  /** `exportToCSV`: nothing to export for an empty extract; otherwise the header and the table's lines. */
  method ExportToCsv(rows: seq<Row>, accounts: seq<Account>) returns (csv: Option<(seq<string>, seq<Line>)>)
    ensures csv.None? <==> rows == []
    ensures csv.Some? ==> csv.value.0 == CsvHeader(accounts)
    ensures csv.Some? ==> |csv.value.1| == |rows| && forall i | 0 <= i < |rows| :: csv.value.1[i] == LineOf(rows[i], accounts)
  {
    if rows == [] {
      return None;
    }
    var lines := ExtractTable(rows, accounts);
    csv := Some((CsvHeader(accounts), lines));
  }

  // ---------------------------------------------------------------- generateSummary

  /** The ids of the loaded accounts, in order. */
  function IdsOf(accounts: seq<Account>): (ids: seq<string>)
    ensures |ids| == |accounts|
    ensures forall j | 0 <= j < |accounts| :: ids[j] == accounts[j].id
  {
    seq(|accounts|, j requires 0 <= j < |accounts| => accounts[j].id)
  }

  /** "Total Keseluruhan": the account totals added up. */
  function GrandTotal(rows: seq<Row>, accounts: seq<Account>): int
  {
    if accounts == [] then 0
    else GrandTotal(rows, accounts[..|accounts| - 1]) + ColumnSum(rows, accounts[|accounts| - 1].id)
  }

  /** The inner `allAccounts.forEach` of the summary: one row's cells added to the running totals. */
  method AddRowToTotals(totals: map<string, int>, row: Row, accounts: seq<Account>) returns (r: map<string, int>)
    requires Home.DistinctIds(IdsOf(accounts))
    requires totals.Keys == Home.AccountIds(accounts)
    ensures r.Keys == totals.Keys
    ensures forall id | id in r :: r[id] == totals[id] + Cell(row.cells, id)
  {
    r := totals;
    for j := 0 to |accounts|
      invariant r.Keys == Home.AccountIds(accounts)
      invariant PartlyAdded(r, totals, row.cells, Home.AccountIds(accounts[..j]))
    {
      var id := accounts[j].id;
      NextAccountId(accounts, j);
      AddCellStep(r, totals, row.cells, Home.AccountIds(accounts[..j]), id);
      r := r[id := r[id] + Cell(row.cells, id)];
    }
    assert accounts[..|accounts|] == accounts;
  }

  /** The running totals after the cells of the accounts in `seen` were added. */
  ghost predicate PartlyAdded(r: map<string, int>, totals: map<string, int>, cells: map<string, int>, seen: set<string>)
  {
    r.Keys == totals.Keys && forall id | id in r :: r[id] == totals[id] + (if id in seen then Cell(cells, id) else 0)
  }

  lemma AddCellStep(r: map<string, int>, totals: map<string, int>, cells: map<string, int>, seen: set<string>, id: string)
    requires PartlyAdded(r, totals, cells, seen) && id in r && id !in seen
    ensures PartlyAdded(r[id := r[id] + Cell(cells, id)], totals, cells, seen + {id})
  {
  }

  /** With distinct ids, the next account of the loop is new, and the ids seen grow by its id. */
  lemma NextAccountId(accounts: seq<Account>, j: int)
    requires Home.DistinctIds(IdsOf(accounts)) && 0 <= j < |accounts|
    ensures accounts[j].id !in Home.AccountIds(accounts[..j])
    ensures Home.AccountIds(accounts[..j + 1]) == Home.AccountIds(accounts[..j]) + {accounts[j].id}
  {
    var id := accounts[j].id;
    forall a | a in accounts[..j] ensures a.id != id {
      var k :| 0 <= k < j && accounts[k] == a;
      assert IdsOf(accounts)[k] != IdsOf(accounts)[j];
    }
    assert forall a | a in accounts[..j + 1] :: a in accounts[..j] || a == accounts[j];
  }

  /** `generateSummary`: each account's total over the extract's rows, and the grand total. Account ids are document ids. */
  method GenerateSummary(rows: seq<Row>, accounts: seq<Account>) returns (totals: map<string, int>, grand: int)
    requires Home.DistinctIds(IdsOf(accounts))
    ensures totals.Keys == Home.AccountIds(accounts)
    ensures forall id | id in totals :: totals[id] == ColumnSum(rows, id)
    ensures grand == GrandTotal(rows, accounts)
  {
    totals := map[];
    for j := 0 to |accounts|
      invariant totals == Zeros(accounts[..j])
    {
      TakeOneMore(accounts, j);
      ZerosSnoc(accounts[..j], accounts[j]);
      totals := totals[accounts[j].id := 0];
    }
    assert accounts[..|accounts|] == accounts;
    for i := 0 to |rows|
      invariant totals.Keys == Home.AccountIds(accounts)
      invariant forall id | id in totals :: totals[id] == ColumnSum(rows[..i], id)
    {
      assert rows[..i + 1][..i] == rows[..i];
      totals := AddRowToTotals(totals, rows[i], accounts);
    }
    assert rows[..|rows|] == rows;
    grand := 0;
    for j := 0 to |accounts|
      invariant grand == GrandTotal(rows, accounts[..j])
    {
      assert accounts[..j + 1][..j] == accounts[..j];
      grand := grand + totals[accounts[j].id];
    }
    assert accounts[..|accounts|] == accounts;
  }

  /** The "Total Kas" column added up. */
  function KasColumn(rows: seq<Row>, accounts: seq<Account>): int
  {
    if rows == [] then 0
    else
      var r := rows[|rows| - 1];
      KasColumn(rows[..|rows| - 1], accounts) + BankTotal(r, accounts) + TunaiTotal(r, accounts)
  }

  lemma {:induction false} GrandTotalSnoc(rows: seq<Row>, r: Row, accounts: seq<Account>)
    ensures GrandTotal(rows + [r], accounts) == GrandTotal(rows, accounts) + RowSum(r, accounts)
  {
    if accounts != [] {
      GrandTotalSnoc(rows, r, accounts[..|accounts| - 1]);
      assert (rows + [r])[..|rows|] == rows;
    }
  }

  lemma {:induction false} GrandTotalOfNoRows(accounts: seq<Account>)
    ensures GrandTotal([], accounts) == 0
  {
    if accounts != [] {
      GrandTotalOfNoRows(accounts[..|accounts| - 1]);
    }
  }

  /**
   * When every account is named a bank or a cash account, "Total
   * Keseluruhan" is the sum of the table's "Total Kas" column.
   */
  lemma {:induction false} GrandTotalIsKasColumn(rows: seq<Row>, accounts: seq<Account>)
    requires forall a | a in accounts :: IsBank(a.name) || IsTunai(a.name)
    ensures GrandTotal(rows, accounts) == KasColumn(rows, accounts)
  {
    if rows == [] {
      GrandTotalOfNoRows(accounts);
    } else {
      var init := rows[..|rows| - 1];
      var r := rows[|rows| - 1];
      GrandTotalIsKasColumn(init, accounts);
      assert init + [r] == rows;
      GrandTotalSnoc(init, r, accounts);
      TotalKasIsRowSum(r, accounts);
    }
  }

  /** A grand total over columns that equal the home page's account totals is the home page's cards added up. */
  lemma {:induction false} GrandTotalOverCards(rows: seq<Row>, accounts: seq<Account>, ts: seq<Transaction>,
                                               cats: seq<Category>)
    requires forall a | a in accounts :: ColumnSum(rows, a.id) == Home.AccountTotal(ts, cats, a.id)
    ensures GrandTotal(rows, accounts) == Home.TotalOver(IdsOf(accounts), ts, cats)
  {
    if accounts != [] {
      var init := accounts[..|accounts| - 1];
      assert forall a | a in init :: a in accounts;
      GrandTotalOverCards(rows, init, ts, cats);
      assert IdsOf(accounts)[..|accounts| - 1] == IdsOf(init);
    }
  }

  /**
   * On documents the transaction form wrote, the extract's grand total is
   * what the home page's account cards add up to over the same range.
   */
  lemma ExtractGrandTotalOnLedgerDocs(start: YearMonth, end: YearMonth, all: seq<Transaction>, cats: seq<Category>,
                                      accounts: seq<Account>, before: map<string, MonthlyBalance>,
                                      bs: map<string, MonthlyBalance>)
    requires ValidMonth(start) && ValidMonth(end) && UniqueIds(cats)
    requires NoAccountBalances(before) && KeepsAccountBalances(before, bs)
    requires forall a | a in accounts :: a.id != ""
    ensures GrandTotal(ExtractRows(start, end, all, cats, accounts, bs, Signed), accounts) ==
      Home.TotalOver(IdsOf(accounts), FilterByRange(all, start, end), cats)
  {
    var rows := ExtractRows(start, end, all, cats, accounts, bs, Signed);
    forall a | a in accounts
      ensures ColumnSum(rows, a.id) == Home.AccountTotal(FilterByRange(all, start, end), cats, a.id)
    {
      ExtractOnLedgerDocs(start, end, all, cats, accounts, before, bs, a.id);
    }
    GrandTotalOverCards(rows, accounts, FilterByRange(all, start, end), cats);
  }
}
