/**
 * The category tree of the ledger. Every category document carries a dotted
 * index ("2", "2.1", "2.1.3") that doubles as its document id, a level from 1
 * to 5, and the id of its parent (absent for the roots). The loaded list is
 * kept in index order and grouped by (level, parent) for the cascading
 * selectors; new ids extend the parent's id with the next free numeric suffix.
 */
module Categories {
  import opened Wrappers
  import opened Strings

  datatype Category = Category(
    id: string,
    name: string,
    fullName: string,
    index: string,
    level: int,
    parentId: Option<string>)

  // ---------------------------------------------------------------- lookups

  /** `parentId || 'root'`: an absent or empty parent id files a category under "root". */
  function ParentKey(parentId: Option<string>): (key: string)
    ensures parentId.Some? && parentId.value != "" ==> key == parentId.value
    ensures parentId.None? || parentId.value == "" ==> key == "root"
  {
    match parentId
    case None => "root"
    case Some(p) => if p == "" then "root" else p
  }

  /** The categories of `cats` at `level` filed under parent key `key`, in the order of `cats`. */
  function Group(cats: seq<Category>, level: int, key: string): (g: seq<Category>)
    ensures |g| <= |cats|
    ensures forall c | c in g :: c in cats && c.level == level && ParentKey(c.parentId) == key
    ensures forall c | c in cats && c.level == level && ParentKey(c.parentId) == key :: c in g
  {
    if cats == [] then []
    else
      var last := cats[|cats| - 1];
      assert forall c | c in cats :: c in cats[..|cats| - 1] || c == last;
      Group(cats[..|cats| - 1], level, key)
      + (if last.level == level && ParentKey(last.parentId) == key then [last] else [])
  }

  /**
   * A group keeps the collection's order, so an index-ordered collection
   * with unique ids gives index-ordered groups in which each category
   * appears once.
   */
  lemma {:induction false} GroupKeepsOrder(cats: seq<Category>, level: int, key: string)
    ensures Subsequence(Group(cats, level, key), cats)
    ensures SortedByIndex(cats) ==> SortedByIndex(Group(cats, level, key))
    ensures UniqueIds(cats) ==> UniqueIds(Group(cats, level, key))
  {
    if cats != [] {
      var init, last := cats[..|cats| - 1], cats[|cats| - 1];
      GroupKeepsOrder(init, level, key);
      var g := Group(init, level, key);
      var keep := last.level == level && ParentKey(last.parentId) == key;
      assert Group(cats, level, key) == g + (if keep then [last] else []);
      SplitLast(cats);
      SubsequenceSnoc(g, init, last, keep);
      if SortedByIndex(cats) {
        SortedFront(cats);
      }
      if UniqueIds(cats) {
        UniqueFront(cats);
      }
      if keep {
        GroupAppendLast(cats, g);
      }
    }
  }

  /** A group holds every occurrence of a category that belongs to it, and nothing else. */
  lemma {:induction false} GroupCounts(cats: seq<Category>, level: int, key: string)
    ensures forall c :: multiset(Group(cats, level, key))[c] == if c.level == level && ParentKey(c.parentId) == key then multiset(cats)[c] else 0
  {
    if cats != [] {
      var init, last := cats[..|cats| - 1], cats[|cats| - 1];
      GroupCounts(init, level, key);
      var g := Group(init, level, key);
      var keep := last.level == level && ParentKey(last.parentId) == key;
      assert Group(cats, level, key) == g + (if keep then [last] else []);
      SplitLast(cats);
      forall c ensures multiset(Group(cats, level, key))[c] == if c.level == level && ParentKey(c.parentId) == key then multiset(cats)[c] else 0 {
        assert c !in init ==> c !in g;
        CountStep(init, last, g, keep, c, c.level == level && ParentKey(c.parentId) == key);
      }
    }
  }

  lemma SortedFront(s: seq<Category>)
    requires s != [] && SortedByIndex(s)
    ensures SortedByIndex(s[..|s| - 1])
  {
    var f := s[..|s| - 1];
    forall i, j | 0 <= i < j < |f| ensures !LexLess(f[j].index, f[i].index) {
      assert f[i] == s[i] && f[j] == s[j];
    }
  }

  lemma UniqueFront(s: seq<Category>)
    requires s != [] && UniqueIds(s)
    ensures UniqueIds(s[..|s| - 1])
  {
    var f := s[..|s| - 1];
    forall i, j | 0 <= i < j < |f| ensures f[i].id != f[j].id {
      assert f[i] == s[i] && f[j] == s[j];
    }
  }

  /** Putting the last category of `cats` after a group drawn from the others keeps index order and unique ids. */
  lemma GroupAppendLast(cats: seq<Category>, g: seq<Category>)
    requires cats != [] && forall c | c in g :: c in cats[..|cats| - 1]
    ensures SortedByIndex(cats) && SortedByIndex(g) ==> SortedByIndex(g + [cats[|cats| - 1]])
    ensures UniqueIds(cats) && UniqueIds(g) ==> UniqueIds(g + [cats[|cats| - 1]])
  {
    var n := |cats|;
    var init, r := cats[..n - 1], g + [cats[n - 1]];
    forall i, j | 0 <= i < j < |r|
      ensures SortedByIndex(cats) && SortedByIndex(g) ==> !LexLess(r[j].index, r[i].index)
      ensures UniqueIds(cats) && UniqueIds(g) ==> r[i].id != r[j].id
    {
      if j < |g| {
        assert r[i] == g[i] && r[j] == g[j];
      } else {
        assert r[i] == g[i] && r[j] == cats[n - 1] && g[i] in g;
        var k := IndexOf(init, g[i]);
        assert cats[k] == g[i];
      }
    }
  }

  /** `getCategoryById`: the first category with that id, or null. */
  function FindById(cats: seq<Category>, id: string): (r: Option<Category>)
    ensures r.Some? <==> exists i | 0 <= i < |cats| :: cats[i].id == id
    ensures r.Some? ==> r.value in cats && r.value.id == id
    ensures r.Some? ==> exists i | 0 <= i < |cats| :: cats[i] == r.value && forall j | 0 <= j < i :: cats[j].id != id
  {
    if cats == [] then None
    else if cats[0].id == id then Some(cats[0])
    else
      var r := FindById(cats[1..], id);
      if r.Some? then
        var i :| 0 <= i < |cats[1..]| && cats[1..][i] == r.value && forall j | 0 <= j < i :: cats[1..][j].id != id;
        assert cats[i + 1] == r.value && forall j | 0 <= j < i + 1 :: cats[j].id != id;
        r
      else
        r
  }

  /** `excludeIndexes.some(e => index.startsWith(e))`. */
  predicate StartsWithAny(index: string, prefixes: seq<string>)
  {
    exists i | 0 <= i < |prefixes| :: StartsWith(index, prefixes[i])
  }

  /** The option filter of `populateCategorySelect`: drop the categories whose index starts with an excluded prefix. */
  function ExcludeByIndex(cats: seq<Category>, excludes: seq<string>): (r: seq<Category>)
    ensures |r| <= |cats|
    ensures forall c | c in r :: c in cats && !StartsWithAny(c.index, excludes)
    ensures forall c | c in cats && !StartsWithAny(c.index, excludes) :: c in r
  {
    if cats == [] then []
    else
      (if StartsWithAny(cats[0].index, excludes) then [] else [cats[0]])
      + ExcludeByIndex(cats[1..], excludes)
  }

  // ---------------------------------------------------------------- well-formed dotted trees

  /** `id` is `parent`, a dot, and one more non-empty segment without dots. */
  predicate DottedChild(id: string, parent: string)
  {
    |parent| + 1 < |id| && id[..|parent| + 1] == parent + "." && '.' !in id[|parent| + 1..]
  }

  /** What the category code writes: id equal to index, roots without dots at level 1, children one segment below their parent. */
  predicate WellPlaced(c: Category)
  {
    && c.id == c.index
    && |Split(c.id, '.')| == c.level
    && match c.parentId
       case None => '.' !in c.id
       case Some(q) => DottedChild(c.id, q)
  }

  predicate WellFormed(cats: seq<Category>)
  {
    forall c | c in cats :: WellPlaced(c)
  }

  predicate UniqueIds(cats: seq<Category>)
  {
    forall i, j | 0 <= i < j < |cats| :: cats[i].id != cats[j].id
  }

  /** `cats.filter(cat => cat.parentId === p)`. */
  function Children(cats: seq<Category>, p: string): (r: seq<Category>)
    ensures |r| <= |cats|
    ensures forall c | c in r :: c in cats && c.parentId == Some(p)
    ensures forall c | c in cats && c.parentId == Some(p) :: c in r
  {
    if cats == [] then []
    else (if cats[0].parentId == Some(p) then [cats[0]] else []) + Children(cats[1..], p)
  }

  lemma {:induction false} ChildrenUnique(cats: seq<Category>, p: string)
    requires UniqueIds(cats)
    ensures UniqueIds(Children(cats, p))
  {
    if cats != [] {
      assert UniqueIds(cats[1..]) by {
        forall i, j | 0 <= i < j < |cats[1..]| ensures cats[1..][i].id != cats[1..][j].id {
          assert cats[1..][i] == cats[i + 1] && cats[1..][j] == cats[j + 1];
        }
      }
      ChildrenUnique(cats[1..], p);
      var rest := Children(cats[1..], p);
      forall c | c in rest ensures c.id != cats[0].id {
        var j :| 0 <= j < |cats[1..]| && cats[1..][j] == c;
        assert cats[j + 1] == c;
      }
    }
  }

  /** The length of the longest id, which bounds the depth of the recursion below. */
  function MaxIdLen(cats: seq<Category>): (n: nat)
    ensures forall c | c in cats :: |c.id| <= n
  {
    if cats == [] then 0
    else
      var m := MaxIdLen(cats[1..]);
      if |cats[0].id| > m then |cats[0].id| else m
  }

  /**
   * `getAllChildCategories(p)`: the direct children of `p`, followed by the
   * descendants of each child in turn. The recursion ends because every child id
   * is longer than its parent's.
   */
  function Descendants(cats: seq<Category>, p: string): (r: seq<Category>)
    requires WellFormed(cats)
    ensures forall x | x in r :: x in cats && |p| + 1 < |x.id| && x.id[..|p| + 1] == p + "."
    decreases MaxIdLen(cats) - |p|, |cats| + 1
  {
    var kids := Children(cats, p);
    kids + DescendantsOfAll(cats, p, kids)
  }

  /** The descendants of each of `kids`, one child after another. */
  function DescendantsOfAll(cats: seq<Category>, p: string, kids: seq<Category>): (r: seq<Category>)
    requires WellFormed(cats)
    requires |kids| <= |cats|
    requires forall k | k in kids :: k in cats && k.parentId == Some(p)
    ensures forall x | x in r :: x in cats && |p| + 1 < |x.id| && x.id[..|p| + 1] == p + "."
    decreases MaxIdLen(cats) - |p|, |kids|
  {
    if kids == [] then []
    else
      var k := kids[0];
      assert WellPlaced(k) && DottedChild(k.id, p);
      var d := Descendants(cats, k.id);
      assert forall x | x in d :: x.id[..|p| + 1] == p + "." by {
        forall x | x in d ensures x.id[..|p| + 1] == p + "." {
          assert x.id[..|p| + 1] == x.id[..|k.id| + 1][..|p| + 1];
        }
      }
      d + DescendantsOfAll(cats, p, kids[1..])
  }

  /** The id of the child of `p` under which the id `w` lies: `p`, a dot and the next segment of `w`. */
  function ChildIdUnder(w: string, p: string): string
    requires |p| + 1 <= |w|
  {
    p + "." + Split(w[|p| + 1..], '.')[0]
  }

  /** A direct child of `p` is its own child id under `p`. */
  lemma ChildIdOfChild(cats: seq<Category>, k: Category, p: string)
    requires WellFormed(cats) && k in cats && k.parentId == Some(p)
    ensures |p| + 1 <= |k.id| && ChildIdUnder(k.id, p) == k.id
  {
    assert WellPlaced(k);
    var s := k.id[|p| + 1..];
    SplitNoSeparator(s, '.');
    assert k.id == k.id[..|p| + 1] + s;
  }

  /** Everything below the child `k` of `p` has `k` as its child id under `p`, and is not `k` itself. */
  lemma ChildIdOfDescendant(cats: seq<Category>, k: Category, p: string, x: Category)
    requires WellFormed(cats) && k in cats && k.parentId == Some(p)
    requires x in Descendants(cats, k.id)
    ensures |p| + 1 <= |x.id| && ChildIdUnder(x.id, p) == k.id && x.id != k.id
  {
    assert WellPlaced(k);
    var s := k.id[|p| + 1..];
    assert k.id == p + "." + s by {
      assert k.id == k.id[..|p| + 1] + s;
    }
    var rest := x.id[|k.id| + 1..];
    assert x.id == k.id + "." + rest by {
      assert x.id == x.id[..|k.id| + 1] + rest;
    }
    assert x.id[|p| + 1..] == s + ['.'] + rest;
    SplitFirst(s, '.', rest);
  }

  /** Something among the descendants of a list of children lies below one of them. */
  lemma {:induction false} InDescendantsOfAll(cats: seq<Category>, p: string, kids: seq<Category>, x: Category)
    requires WellFormed(cats) && |kids| <= |cats|
    requires forall k | k in kids :: k in cats && k.parentId == Some(p)
    requires x in DescendantsOfAll(cats, p, kids)
    ensures exists j | 0 <= j < |kids| :: x in Descendants(cats, kids[j].id)
    decreases |kids|
  {
    if x !in Descendants(cats, kids[0].id) {
      InDescendantsOfAll(cats, p, kids[1..], x);
      var j :| 0 <= j < |kids[1..]| && x in Descendants(cats, kids[1..][j].id);
      assert kids[j + 1] == kids[1..][j];
    }
  }

  /** The descendants of each listed child are among the descendants of the list. */
  lemma {:induction false} DescendantsOfAllContains(cats: seq<Category>, p: string, kids: seq<Category>, j: int, x: Category)
    requires WellFormed(cats) && |kids| <= |cats|
    requires forall k | k in kids :: k in cats && k.parentId == Some(p)
    requires 0 <= j < |kids| && x in Descendants(cats, kids[j].id)
    ensures x in DescendantsOfAll(cats, p, kids)
    decreases |kids|
  {
    if j > 0 {
      DescendantsOfAllContains(cats, p, kids[1..], j - 1, x);
    }
  }

  predicate NoDuplicateIds(s: seq<Category>)
  {
    forall i, j | 0 <= i < j < |s| :: s[i].id != s[j].id
  }

  lemma NoDuplicateConcat(a: seq<Category>, b: seq<Category>)
    requires NoDuplicateIds(a) && NoDuplicateIds(b)
    requires forall x, y | x in a && y in b :: x.id != y.id
    ensures NoDuplicateIds(a + b)
  {
    forall i, j | 0 <= i < j < |a + b| ensures (a + b)[i].id != (a + b)[j].id {
      if j < |a| {
      } else if i >= |a| {
        assert (a + b)[i] == b[i - |a|] && (a + b)[j] == b[j - |a|];
      } else {
        assert (a + b)[i] in a && (a + b)[j] in b;
      }
    }
  }

  /** With unique ids, no category is collected twice. */
  lemma {:induction false} DescendantsNoDuplicates(cats: seq<Category>, p: string)
    requires WellFormed(cats) && UniqueIds(cats)
    ensures NoDuplicateIds(Descendants(cats, p))
    decreases MaxIdLen(cats) - |p|, |cats| + 1
  {
    var kids := Children(cats, p);
    ChildrenUnique(cats, p);
    DescendantsOfAllNoDuplicates(cats, p, kids);
    var rest := DescendantsOfAll(cats, p, kids);
    forall x, y | x in kids && y in rest ensures x.id != y.id {
      ChildIdOfChild(cats, x, p);
      InDescendantsOfAll(cats, p, kids, y);
      var j :| 0 <= j < |kids| && y in Descendants(cats, kids[j].id);
      ChildIdOfDescendant(cats, kids[j], p, y);
    }
    NoDuplicateConcat(kids, rest);
  }

  lemma {:induction false} DescendantsOfAllNoDuplicates(cats: seq<Category>, p: string, kids: seq<Category>)
    requires WellFormed(cats) && UniqueIds(cats) && |kids| <= |cats|
    requires forall k | k in kids :: k in cats && k.parentId == Some(p)
    requires UniqueIds(kids)
    ensures NoDuplicateIds(DescendantsOfAll(cats, p, kids))
    decreases MaxIdLen(cats) - |p|, |kids|
  {
    if kids != [] {
      var k := kids[0];
      assert WellPlaced(k) && DottedChild(k.id, p);
      DescendantsNoDuplicates(cats, k.id);
      assert UniqueIds(kids[1..]) by {
        forall i, j | 0 <= i < j < |kids[1..]| ensures kids[1..][i].id != kids[1..][j].id {
          assert kids[1..][i] == kids[i + 1] && kids[1..][j] == kids[j + 1];
        }
      }
      DescendantsOfAllNoDuplicates(cats, p, kids[1..]);
      var d := Descendants(cats, k.id);
      var rest := DescendantsOfAll(cats, p, kids[1..]);
      forall x, y | x in d && y in rest ensures x.id != y.id {
        BranchesDisjoint(cats, p, kids, x, y);
      }
      NoDuplicateConcat(d, rest);
    }
  }

  /** What hangs below the first child never shares an id with what hangs below a later one. */
  lemma BranchesDisjoint(cats: seq<Category>, p: string, kids: seq<Category>, x: Category, y: Category)
    requires WellFormed(cats) && |kids| <= |cats| && kids != []
    requires forall k | k in kids :: k in cats && k.parentId == Some(p)
    requires UniqueIds(kids)
    requires x in Descendants(cats, kids[0].id) && y in DescendantsOfAll(cats, p, kids[1..])
    ensures x.id != y.id
  {
    var rest := kids[1..];
    assert kids[0] in kids;
    ChildIdOfDescendant(cats, kids[0], p, x);
    InDescendantsOfAll(cats, p, rest, y);
    var j :| 0 <= j < |rest| && y in Descendants(cats, rest[j].id);
    assert rest[j] == kids[j + 1] && kids[j + 1] in kids;
    ChildIdOfDescendant(cats, kids[j + 1], p, y);
    assert kids[0].id != kids[j + 1].id;
  }

  /** `x` hangs below `p`: it is a child of `p`, or hangs below some child of `p`. */
  predicate IsDescendant(cats: seq<Category>, x: Category, p: string)
    requires WellFormed(cats)
    decreases MaxIdLen(cats) - |p|
  {
    || x.parentId == Some(p)
    || exists c | c in cats && c.parentId == Some(p) :: (assert WellPlaced(c); IsDescendant(cats, x, c.id))
  }

  /** Everything collected hangs below `p`, and everything that hangs below `p` is collected. */
  lemma DescendantsExact(cats: seq<Category>, p: string, x: Category)
    requires WellFormed(cats)
    ensures x in Descendants(cats, p) <==> x in cats && IsDescendant(cats, x, p)
  {
    if x in Descendants(cats, p) {
      DescendantsSound(cats, p, x);
    }
    if x in cats && IsDescendant(cats, x, p) {
      DescendantsComplete(cats, p, x);
    }
  }

  lemma {:induction false} DescendantsSound(cats: seq<Category>, p: string, x: Category)
    requires WellFormed(cats) && x in Descendants(cats, p)
    ensures x in cats && IsDescendant(cats, x, p)
    decreases MaxIdLen(cats) - |p|
  {
    var kids := Children(cats, p);
    if x !in kids {
      InDescendantsOfAll(cats, p, kids, x);
      var j :| 0 <= j < |kids| && x in Descendants(cats, kids[j].id);
      var k := kids[j];
      assert WellPlaced(k);
      DescendantsSound(cats, k.id, x);
      assert k in cats && k.parentId == Some(p) && IsDescendant(cats, x, k.id);
    }
  }

  lemma {:induction false} DescendantsComplete(cats: seq<Category>, p: string, x: Category)
    requires WellFormed(cats) && x in cats && IsDescendant(cats, x, p)
    ensures x in Descendants(cats, p)
    decreases MaxIdLen(cats) - |p|
  {
    var kids := Children(cats, p);
    if x.parentId == Some(p) {
      assert x in kids;
    } else {
      var c :| c in cats && c.parentId == Some(p) && IsDescendant(cats, x, c.id);
      assert WellPlaced(c);
      DescendantsComplete(cats, c.id, x);
      assert c in kids;
      var j := IndexOf(kids, c);
      DescendantsOfAllContains(cats, p, kids, j, x);
      assert x in kids + DescendantsOfAll(cats, p, kids);
    }
  }

  /**
   * `getAllChildCategories(p)`: exactly the categories that hang below `p`,
   * its direct children first, none of them `p` itself and, when ids are
   * unique, none twice.
   */
  function GetAllChildCategories(cats: seq<Category>, p: string): (r: seq<Category>)
    requires WellFormed(cats)
    ensures Children(cats, p) <= r
    ensures forall x :: x in r <==> x in cats && IsDescendant(cats, x, p)
    ensures forall x | x in r :: x.id != p && StartsWith(x.id, p + ".")
    ensures UniqueIds(cats) ==> NoDuplicateIds(r)
  {
    var r := Descendants(cats, p);
    DescendantsExactAll(cats, p);
    if UniqueIds(cats) then DescendantsNoDuplicates(cats, p); r else r
  }

  lemma DescendantsExactAll(cats: seq<Category>, p: string)
    requires WellFormed(cats)
    ensures forall x :: x in Descendants(cats, p) <==> x in cats && IsDescendant(cats, x, p)
  {
    forall x ensures x in Descendants(cats, p) <==> x in cats && IsDescendant(cats, x, p) {
      DescendantsExact(cats, p, x);
    }
  }

  // ---------------------------------------------------------------- new ids (addCategory)

  /** `parseInt(parts[parts.length - 1]) || 0` on `index.split('.')`. */
  function LastSegmentValue(index: string): nat
  {
    ParseIntOrZero(LastPart(index, '.'))
  }

  /** The largest numeric last segment among `sibs`, 0 when there are none (`Math.max(...indices)`). */
  function MaxSuffix(sibs: seq<Category>): (m: nat)
    ensures forall c | c in sibs :: LastSegmentValue(c.index) <= m
    ensures sibs == [] ==> m == 0
    ensures sibs != [] ==> exists c | c in sibs :: LastSegmentValue(c.index) == m
  {
    if sibs == [] then 0
    else
      var rest := MaxSuffix(sibs[1..]);
      var v := LastSegmentValue(sibs[0].index);
      if sibs[1..] == [] || v >= rest then v else rest
  }

  /** The largest `parseInt(cat.index) || 0` among the roots, 0 when there are none. */
  function MaxRootIndex(roots: seq<Category>): (m: nat)
    ensures forall c | c in roots :: ParseIntOrZero(c.index) <= m
    ensures roots == [] ==> m == 0
    ensures roots != [] ==> exists c | c in roots :: ParseIntOrZero(c.index) == m
  {
    if roots == [] then 0
    else
      var rest := MaxRootIndex(roots[1..]);
      var v := ParseIntOrZero(roots[0].index);
      if roots[1..] == [] || v >= rest then v else rest
  }

  /** `${parentId}.${maxIndex + 1}`. */
  function NextChildId(parentId: string, sibs: seq<Category>): string
  {
    parentId + "." + NatToString(MaxSuffix(sibs) + 1)
  }

  /** `(maxIndex + 1).toString()`. */
  function NextRootId(roots: seq<Category>): string
  {
    NatToString(MaxRootIndex(roots) + 1)
  }

  /** The id `p.n` has last segment `n` and one segment more than `p`. */
  lemma AppendedSegment(p: string, n: nat)
    ensures LastPart(p + "." + NatToString(n), '.') == NatToString(n)
    ensures LastSegmentValue(p + "." + NatToString(n)) == n
    ensures |Split(p + "." + NatToString(n), '.')| == |Split(p, '.')| + 1
    ensures DottedChild(p + "." + NatToString(n), p)
  {
    var d := NatToString(n);
    assert '.' !in d by {
      assert forall i | 0 <= i < |d| :: IsDigit(d[i]);
    }
    assert p + "." + d == p + ['.'] + d;
    SplitAppend(p, '.', d);
    ParseRendered(n);
    var id := p + "." + d;
    assert id[..|p| + 1] == p + "." && id[|p| + 1..] == d;
  }

  /** A child id is a dotted child of its parent, with a last segment above every sibling's. */
  lemma NextChildIdProperties(parentId: string, sibs: seq<Category>)
    ensures DottedChild(NextChildId(parentId, sibs), parentId)
    ensures LastSegmentValue(NextChildId(parentId, sibs)) == MaxSuffix(sibs) + 1
    ensures forall c | c in sibs :: c.index != NextChildId(parentId, sibs)
    ensures sibs == [] ==> NextChildId(parentId, sibs) == parentId + ".1"
  {
    AppendedSegment(parentId, MaxSuffix(sibs) + 1);
  }

  /** A root id is all digits, with a value above every root's index. */
  lemma NextRootIdProperties(roots: seq<Category>)
    ensures '.' !in NextRootId(roots) && Split(NextRootId(roots), '.') == [NextRootId(roots)]
    ensures ParseIntOrZero(NextRootId(roots)) == MaxRootIndex(roots) + 1
    ensures forall c | c in roots :: c.index != NextRootId(roots)
    ensures roots == [] ==> NextRootId(roots) == "1"
  {
    var d := NextRootId(roots);
    assert '.' !in d by {
      assert forall i | 0 <= i < |d| :: IsDigit(d[i]);
    }
    SplitNoSeparator(d, '.');
    ParseRendered(MaxRootIndex(roots) + 1);
  }

  /** What `addCategory` is handed: the fields settings computes (its own index and full name are overridden). */
  datatype CategoryData = CategoryData(name: string, level: int, parentId: Option<string>, index: string, fullName: string)

  /** `if (categoryData.parentId)`: a present, non-empty parent id selects the child branch. */
  predicate HasParent(data: CategoryData)
  {
    data.parentId.Some? && data.parentId.value != ""
  }

  /** The id `addCategory` gives a new category, from the loaded categories `all`. */
  function NewCategoryId(all: seq<Category>, data: CategoryData): string
  {
    if HasParent(data) then NextChildId(data.parentId.value, Group(all, data.level, data.parentId.value))
    else NextRootId(Group(all, 1, "root"))
  }

  /** The document `addCategory` writes: `{...categoryData, id, index: id, fullName: id + '. ' + name}`. */
  function NewCategory(all: seq<Category>, data: CategoryData): (c: Category)
    ensures c.id == c.index == NewCategoryId(all, data)
    ensures c.fullName == c.id + ". " + data.name
    ensures c.name == data.name && c.level == data.level && c.parentId == data.parentId
  {
    var id := NewCategoryId(all, data);
    Category(id, data.name, id + ". " + data.name, id, data.level, data.parentId)
  }

  /** The request settings makes: a root at level 1, or a child one level below an existing parent. */
  predicate ProperRequest(all: seq<Category>, data: CategoryData)
  {
    if data.parentId.None? then data.level == 1
    else
      data.parentId.value != ""
      && exists q | q in all :: q.id == data.parentId.value && data.level == q.level + 1
  }

  /** In a well-formed tree a new category takes an id no category has, and keeps the tree well-formed. */
  lemma NewCategoryFresh(all: seq<Category>, data: CategoryData)
    requires WellFormed(all) && ProperRequest(all, data)
    ensures forall c | c in all :: c.id != NewCategoryId(all, data)
    ensures WellPlaced(NewCategory(all, data))
  {
    if HasParent(data) {
      NewChildFresh(all, data);
    } else {
      NewRootFresh(all, data);
    }
  }

  lemma NewChildFresh(all: seq<Category>, data: CategoryData)
    requires WellFormed(all) && ProperRequest(all, data) && HasParent(data)
    ensures forall c | c in all :: c.id != NewCategoryId(all, data)
    ensures WellPlaced(NewCategory(all, data))
  {
    var p := data.parentId.value;
    var sibs := Group(all, data.level, p);
    var n := MaxSuffix(sibs) + 1;
    var id := p + "." + NatToString(n);
    assert NewCategoryId(all, data) == NextChildId(p, sibs) == id;
    AppendedSegment(p, n);
    var q :| q in all && q.id == p && data.level == q.level + 1;
    assert WellPlaced(q);
    forall c | c in all ensures c.id != id {
      NewChildDiffers(all, q, n, c);
    }
    var nc := NewCategory(all, data);
    assert nc.id == nc.index == id && nc.level == q.level + 1 && nc.parentId == Some(p);
    assert |Split(id, '.')| == nc.level && DottedChild(id, p);
  }

  /** No category already has the id one past the largest suffix among the children of `q`. */
  lemma NewChildDiffers(all: seq<Category>, q: Category, n: nat, c: Category)
    requires WellFormed(all) && q in all && c in all && q.id != ""
    requires n == MaxSuffix(Group(all, q.level + 1, q.id)) + 1
    ensures c.id != q.id + "." + NatToString(n)
  {
    assert WellPlaced(q) && WellPlaced(c);
    AppendedSegment(q.id, n);
    ChildByShape(c, q, n);
  }

  /** A category whose id is the id of `q`, a dot and the digits of `n` is a child of `q` one level below it. */
  lemma ChildByShape(c: Category, q: Category, n: nat)
    requires WellPlaced(c) && WellPlaced(q)
    ensures c.id == q.id + "." + NatToString(n) ==> c.parentId == Some(q.id) && c.level == q.level + 1
  {
    if c.id == q.id + "." + NatToString(n) {
      AppendedSegment(q.id, n);
      SameParent(c, q.id, n);
    }
  }

  lemma NewRootFresh(all: seq<Category>, data: CategoryData)
    requires WellFormed(all) && ProperRequest(all, data) && !HasParent(data)
    ensures forall c | c in all :: c.id != NewCategoryId(all, data)
    ensures WellPlaced(NewCategory(all, data))
  {
    var roots := Group(all, 1, "root");
    NextRootIdProperties(roots);
    forall c | c in all ensures c.id != NextRootId(roots) {
      if '.' !in c.id {
        assert WellPlaced(c);
        RootById(c);
        assert c in roots;
      }
    }
  }

  /** `id` has a dot right after the parent part. */
  lemma DottedHasDot(id: string, q: string)
    requires DottedChild(id, q)
    ensures '.' in id
  {
    assert id[..|q| + 1][|q|] == '.';
  }

  /** A well-placed category whose id has no dot is a root at level 1. */
  lemma RootById(c: Category)
    requires WellPlaced(c) && '.' !in c.id
    ensures c.parentId.None? && c.level == 1
  {
    SplitNoSeparator(c.id, '.');
    match c.parentId {
      case None =>
      case Some(q) => DottedHasDot(c.id, q);
    }
  }

  /** A well-placed category whose id is `p`, a dot and the digits of `n` is a child of `p`. */
  lemma SameParent(c: Category, p: string, n: nat)
    requires WellPlaced(c)
    requires c.id == p + "." + NatToString(n)
    ensures c.parentId == Some(p)
  {
    var d := NatToString(n);
    assert forall i | 0 <= i < |d| :: IsDigit(d[i]);
    assert c.id[|p|] == '.';
    match c.parentId {
      case None =>
        assert false;
      case Some(q) =>
        assert c.id[|q|] == '.';
        assert q == c.id[..|q|] == p;
    }
  }

  // ---------------------------------------------------------------- the categories collection

  /** The order `orderBy('index')` returns: ascending by index, code unit by code unit. */
  predicate SortedByIndex(s: seq<Category>)
  {
    forall i, j | 0 <= i < j < |s| :: !LexLess(s[j].index, s[i].index)
  }

  /** Placing a document in the index-ordered collection, after every document whose index is not greater. */
  function InsertByIndex(s: seq<Category>, c: Category): (r: seq<Category>)
    ensures multiset(r) == multiset(s) + multiset{c}
  {
    if s == [] || LexLess(c.index, s[0].index) then [c] + s
    else
      assert s == [s[0]] + s[1..];
      [s[0]] + InsertByIndex(s[1..], c)
  }

  /** Every document of a sorted collection has an index no smaller than the first one's. */
  lemma SortedTail(s: seq<Category>)
    requires s != [] && SortedByIndex(s)
    ensures SortedByIndex(s[1..])
    ensures forall x | x in s[1..] :: !LexLess(x.index, s[0].index)
  {
    forall x | x in s[1..] ensures !LexLess(x.index, s[0].index) {
      var k :| 0 <= k < |s[1..]| && s[1..][k] == x;
      assert s[k + 1] == x;
    }
  }

  /** A document placed before a sorted collection whose indexes are all at least its own keeps it sorted. */
  lemma SortedCons(x: Category, t: seq<Category>)
    requires SortedByIndex(t)
    requires forall y | y in t :: !LexLess(y.index, x.index)
    ensures SortedByIndex([x] + t)
  {
    var r := [x] + t;
    forall i, j | 0 <= i < j < |r| ensures !LexLess(r[j].index, r[i].index) {
      if i > 0 {
        assert r[i] == t[i - 1] && r[j] == t[j - 1];
      } else {
        assert r[j] in t;
      }
    }
  }

  /** A collection whose ids are unique stays so without its first document, whose id none of the rest shares. */
  lemma UniqueTail(s: seq<Category>)
    requires s != [] && UniqueIds(s)
    ensures UniqueIds(s[1..])
    ensures forall x | x in s[1..] :: x.id != s[0].id
  {
    forall x | x in s[1..] ensures x.id != s[0].id {
      var k :| 0 <= k < |s[1..]| && s[1..][k] == x;
      assert s[k + 1] == x;
    }
  }

  lemma UniqueCons(x: Category, t: seq<Category>)
    requires UniqueIds(t)
    requires forall y | y in t :: y.id != x.id
    ensures UniqueIds([x] + t)
  {
    var r := [x] + t;
    forall i, j | 0 <= i < j < |r| ensures r[i].id != r[j].id {
      if i > 0 {
        assert r[i] == t[i - 1] && r[j] == t[j - 1];
      } else {
        assert r[j] in t;
      }
    }
  }

  /** Inserting by index keeps the collection sorted. */
  lemma {:induction false} InsertSorted(s: seq<Category>, c: Category)
    requires SortedByIndex(s)
    ensures SortedByIndex(InsertByIndex(s, c))
  {
    if s == [] {
    } else if LexLess(c.index, s[0].index) {
      SortedTail(s);
      forall y | y in s ensures !LexLess(y.index, c.index) {
        if y != s[0] {
          assert y in s[1..];
          LexTotal(y.index, s[0].index);
          if y.index != s[0].index {
            LexTransitive(c.index, s[0].index, y.index);
          }
        }
        LexAsymmetric(c.index, y.index);
      }
      SortedCons(c, s);
    } else {
      SortedTail(s);
      InsertSorted(s[1..], c);
      var t := InsertByIndex(s[1..], c);
      forall y | y in t ensures !LexLess(y.index, s[0].index) {
        assert y in multiset(t);
      }
      SortedCons(s[0], t);
    }
  }

  /** Inserting a document whose id is new keeps ids unique. */
  lemma {:induction false} InsertUnique(s: seq<Category>, c: Category)
    requires UniqueIds(s) && forall x | x in s :: x.id != c.id
    ensures UniqueIds(InsertByIndex(s, c))
  {
    if s == [] {
    } else if LexLess(c.index, s[0].index) {
      UniqueCons(c, s);
    } else {
      UniqueTail(s);
      InsertUnique(s[1..], c);
      var t := InsertByIndex(s[1..], c);
      forall y | y in t ensures y.id != s[0].id {
        assert y in multiset(t);
      }
      UniqueCons(s[0], t);
    }
  }

  /** The collection without the document whose id is `id`. */
  function RemoveId(s: seq<Category>, id: string): (r: seq<Category>)
    ensures forall c | c in r :: c in s && c.id != id
    ensures forall c | c in s && c.id != id :: c in r
    ensures (forall c | c in s :: c.id != id) ==> r == s
  {
    if s == [] then []
    else
      assert s == [s[0]] + s[1..];
      if s[0].id == id then RemoveId(s[1..], id) else [s[0]] + RemoveId(s[1..], id)
  }

  /** Removing documents keeps the collection sorted and its ids unique. */
  lemma {:induction false} RemoveKeeps(s: seq<Category>, id: string)
    ensures SortedByIndex(s) ==> SortedByIndex(RemoveId(s, id))
    ensures UniqueIds(s) ==> UniqueIds(RemoveId(s, id))
  {
    if s != [] {
      RemoveKeeps(s[1..], id);
      var t := RemoveId(s[1..], id);
      if SortedByIndex(s) {
        SortedTail(s);
        SortedCons(s[0], t);
      }
      if UniqueIds(s) {
        UniqueTail(s);
        UniqueCons(s[0], t);
      }
    }
  }

  /** `doc(c.id).set(c)`: the document with that id is replaced or created. */
  function Upsert(s: seq<Category>, c: Category): (r: seq<Category>)
    ensures c in r && forall x | x in r :: x == c || (x in s && x.id != c.id)
    ensures forall x | x in s && x.id != c.id :: x in r
  {
    var t := RemoveId(s, c.id);
    var r := InsertByIndex(t, c);
    assert forall x | x in r :: x == c || x in t by {
      forall x | x in r ensures x == c || x in t {
        assert x in multiset(r);
      }
    }
    assert forall x | x in t :: x in r by {
      forall x | x in t ensures x in r {
        assert x in multiset(t);
        assert x in multiset(r);
      }
    }
    assert c in multiset(r);
    r
  }

  /** Writing a document keeps the collection index-ordered and its ids unique. */
  lemma UpsertKeeps(s: seq<Category>, c: Category)
    ensures SortedByIndex(s) ==> SortedByIndex(Upsert(s, c))
    ensures UniqueIds(s) ==> UniqueIds(Upsert(s, c))
  {
    RemoveKeeps(s, c.id);
    if SortedByIndex(s) {
      InsertSorted(RemoveId(s, c.id), c);
    }
    if UniqueIds(s) {
      InsertUnique(RemoveId(s, c.id), c);
    }
  }

  /** Adding a category to a well-formed tree adds exactly one new document and keeps the tree well-formed. */
  lemma AddKeepsTreeWellFormed(docs: seq<Category>, data: CategoryData)
    requires WellFormed(docs) && ProperRequest(docs, data)
    ensures var c := NewCategory(docs, data);
      && multiset(Upsert(docs, c)) == multiset(docs) + multiset{c}
      && WellFormed(Upsert(docs, c))
  {
    var c := NewCategory(docs, data);
    NewCategoryFresh(docs, data);
    assert RemoveId(docs, c.id) == docs;
  }

  /** The first category carrying `id` is the one found. */
  lemma FindFirst(cats: seq<Category>, id: string, i: int)
    requires 0 <= i < |cats| && cats[i].id == id && forall j | 0 <= j < i :: cats[j].id != id
    ensures FindById(cats, id) == Some(cats[i])
  {
    var r := FindById(cats, id);
    assert r.Some? && r.value.id == id;
    var k :| 0 <= k < |cats| && cats[k] == r.value && forall j | 0 <= j < k :: cats[j].id != id;
    assert k == i;
  }

  /** `doc(id).update({name, fullName})`: only the named fields of the document with that id change. */
  function UpdateNameFields(s: seq<Category>, id: string, name: string, fullName: Option<string>): (r: seq<Category>)
    ensures |r| == |s|
    ensures forall i | 0 <= i < |s| ::
      r[i].id == s[i].id && r[i].index == s[i].index && r[i].level == s[i].level && r[i].parentId == s[i].parentId
    ensures forall i | 0 <= i < |s| && s[i].id != id :: r[i] == s[i]
    ensures forall i | 0 <= i < |s| && s[i].id == id :: r[i].name == name && r[i].fullName == fullName.GetOr(s[i].fullName)
  {
    if s == [] then []
    else
      var d := s[0];
      var d' := if d.id == id then d.(name := name, fullName := fullName.GetOr(d.fullName)) else d;
      [d'] + UpdateNameFields(s[1..], id, name, fullName)
  }

  /** Renaming touches neither ids, indexes, levels nor parents, so the collection stays ordered, unique and well-formed. */
  lemma RenameKeepsTree(s: seq<Category>, id: string, name: string, fullName: Option<string>)
    ensures SortedByIndex(s) ==> SortedByIndex(UpdateNameFields(s, id, name, fullName))
    ensures UniqueIds(s) ==> UniqueIds(UpdateNameFields(s, id, name, fullName))
    ensures WellFormed(s) ==> WellFormed(UpdateNameFields(s, id, name, fullName))
  {
    if SortedByIndex(s) {
      RenameKeepsOrder(s, id, name, fullName);
    }
    if UniqueIds(s) {
      RenameKeepsUnique(s, id, name, fullName);
    }
    if WellFormed(s) {
      RenameKeepsPlaces(s, id, name, fullName);
    }
  }

  lemma RenameKeepsOrder(s: seq<Category>, id: string, name: string, fullName: Option<string>)
    requires SortedByIndex(s)
    ensures SortedByIndex(UpdateNameFields(s, id, name, fullName))
  {
    var r := UpdateNameFields(s, id, name, fullName);
    forall i, j | 0 <= i < j < |r| ensures !LexLess(r[j].index, r[i].index) {
      assert r[i].index == s[i].index && r[j].index == s[j].index;
    }
  }

  lemma RenameKeepsUnique(s: seq<Category>, id: string, name: string, fullName: Option<string>)
    requires UniqueIds(s)
    ensures UniqueIds(UpdateNameFields(s, id, name, fullName))
  {
    var r := UpdateNameFields(s, id, name, fullName);
    forall i, j | 0 <= i < j < |r| ensures r[i].id != r[j].id {
      assert r[i].id == s[i].id && r[j].id == s[j].id;
    }
  }

  lemma RenameKeepsPlaces(s: seq<Category>, id: string, name: string, fullName: Option<string>)
    requires WellFormed(s)
    ensures WellFormed(UpdateNameFields(s, id, name, fullName))
  {
    var r := UpdateNameFields(s, id, name, fullName);
    forall c | c in r ensures WellPlaced(c) {
      var i :| 0 <= i < |r| && r[i] == c;
      assert WellPlaced(s[i]);
    }
  }

  /** Nested lookup `h[level][key]`, empty when either key is absent. */
  function Lookup(h: map<int, map<string, seq<Category>>>, level: int, key: string): seq<Category>
  {
    if level in h && key in h[level] then h[level][key] else []
  }

  /** `categoryHierarchy[c.level][parentKey].push(c)`, creating the missing slots. */
  function FileCategory(h: map<int, map<string, seq<Category>>>, c: Category): map<int, map<string, seq<Category>>>
  {
    var key := ParentKey(c.parentId);
    var byParent := if c.level in h then h[c.level] else map[];
    h[c.level := byParent[key := Lookup(h, c.level, key) + [c]]]
  }

  /** Each slot of `h` holds exactly its group of `all`, in order. */
  ghost predicate Filed(h: map<int, map<string, seq<Category>>>, all: seq<Category>)
  {
    forall l: int, k: string :: Lookup(h, l, k) == Group(all, l, k)
  }

  /** Filing one more category keeps every slot equal to its group. */
  lemma FileCategoryGroups(h: map<int, map<string, seq<Category>>>, all: seq<Category>, c: Category)
    requires Filed(h, all)
    ensures Filed(FileCategory(h, c), all + [c])
  {
    forall l: int, k: string ensures Lookup(FileCategory(h, c), l, k) == Group(all + [c], l, k) {
      FileCategorySlot(h, c, l, k);
      GroupSnoc(all, c, l, k);
      assert Lookup(h, l, k) == Group(all, l, k);
    }
  }

  /** Filing `c` appends it to its own slot and leaves every other slot alone. */
  lemma FileCategorySlot(h: map<int, map<string, seq<Category>>>, c: Category, l: int, k: string)
    ensures Lookup(FileCategory(h, c), l, k) ==
      Lookup(h, l, k) + (if c.level == l && ParentKey(c.parentId) == k then [c] else [])
  {
  }

  lemma GroupSnoc(all: seq<Category>, c: Category, l: int, k: string)
    ensures Group(all + [c], l, k) == Group(all, l, k) + (if c.level == l && ParentKey(c.parentId) == k then [c] else [])
  {
    assert (all + [c])[..|all|] == all;
  }

  /** The loaded categories: the global `allCategories` and `categoryHierarchy` over the categories collection. */
  class Catalog {
    /** The categories collection, in the order `orderBy('index')` returns it. */
    var docs: seq<Category>
    /** `allCategories`, as last loaded. */
    var all: seq<Category>
    /** `categoryHierarchy[level][parentKey]`, as last loaded. */
    var hierarchy: map<int, map<string, seq<Category>>>

    /** The collection is index-ordered and a document id names one document. */
    ghost predicate Valid()
      reads this
    {
      SortedByIndex(docs) && UniqueIds(docs)
    }

    /** The loaded state mirrors the collection, and each hierarchy slot holds exactly its group, in order. */
    ghost predicate Loaded()
      reads this
    {
      all == docs && Filed(hierarchy, all)
    }

    constructor(stored: seq<Category>)
      requires SortedByIndex(stored) && UniqueIds(stored)
      ensures Valid() && docs == stored && all == [] && hierarchy == map[]
    {
      docs := stored;
      all := [];
      hierarchy := map[];
    }

    /** `loadCategories`: read the collection in index order and file each category under its level and parent key. */
    method LoadCategories()
      modifies this
      ensures docs == old(docs) && Loaded()
      ensures Valid() ==> forall l: int, k: string ::
        SortedByIndex(Lookup(hierarchy, l, k)) && UniqueIds(Lookup(hierarchy, l, k))
    {
      all := [];
      hierarchy := map[];
      var i := 0;
      while i < |docs|
        invariant docs == old(docs)
        invariant 0 <= i <= |docs|
        invariant all == docs[..i]
        invariant Filed(hierarchy, all)
      {
        var c := docs[i];
        FileCategoryGroups(hierarchy, all, c);
        hierarchy := FileCategory(hierarchy, c);
        all := all + [c];
        TakeOneMore(docs, i);
        i := i + 1;
      }
      assert docs[..|docs|] == docs;
      forall l: int, k: string ensures Valid() ==> SortedByIndex(Lookup(hierarchy, l, k)) && UniqueIds(Lookup(hierarchy, l, k)) {
        GroupKeepsOrder(all, l, k);
      }
    }

    /** `getCategoriesByParent(parentId, level)`. */
    function GetCategoriesByParent(parentId: Option<string>, level: int): (r: seq<Category>)
      reads this
      ensures Loaded() ==> r == Group(all, level, ParentKey(parentId))
      ensures !(level in hierarchy && ParentKey(parentId) in hierarchy[level]) ==> r == []
    {
      Lookup(hierarchy, level, ParentKey(parentId))
    }

    /** `getCategoryById(id)` on the loaded categories. */
    function GetCategoryById(id: string): (r: Option<Category>)
      reads this
      ensures r.Some? <==> exists c | c in all :: c.id == id
      ensures r.Some? ==> r.value in all && r.value.id == id
    {
      FindById(all, id)
    }

    /**
     * `addCategory(data)`: derive the id from the loaded siblings (or roots),
     * write the document under that id and reload.
     */
    method AddCategory(data: CategoryData) returns (c: Category)
      requires Valid() && Loaded()
      modifies this
      ensures c == NewCategory(old(docs), data)
      ensures docs == Upsert(old(docs), c)
      ensures Valid() && Loaded()
    {
      var id: string;
      if data.parentId.Some? && data.parentId.value != "" {
        var siblings := GetCategoriesByParent(data.parentId, data.level);
        id := NextChildId(data.parentId.value, siblings);
      } else {
        var roots := GetCategoriesByParent(None, 1);
        id := NextRootId(roots);
      }
      c := Category(id, data.name, id + ". " + data.name, id, data.level, data.parentId);
      UpsertKeeps(docs, c);
      docs := Upsert(docs, c);
      LoadCategories();
    }

    /** Write `name` (and `fullName` when given) into the document `id`, then reload. */
    method WriteNameFields(id: string, name: string, fullName: Option<string>)
      requires Valid()
      modifies this
      ensures docs == UpdateNameFields(old(docs), id, name, fullName)
      ensures Valid() && Loaded()
    {
      RenameKeepsTree(docs, id, name, fullName);
      docs := UpdateNameFields(docs, id, name, fullName);
      LoadCategories();
    }

    /**
     * `updateCategory(id, {name})`: an unknown id is an error and changes
     * nothing; otherwise the name is written, and a non-empty name also
     * regenerates `fullName` from the unchanged index.
     */
    method UpdateCategory(id: string, name: Option<string>) returns (ok: bool)
      requires Valid() && Loaded()
      modifies this
      ensures ok <==> exists c | c in old(all) :: c.id == id
      ensures !ok ==> docs == old(docs) && all == old(all) && hierarchy == old(hierarchy)
      ensures ok && name.Some? ==> docs == UpdateNameFields(old(docs), id, name.value,
        if name.value != "" then Some(FindById(old(docs), id).value.index + ". " + name.value) else None)
      ensures ok && name.None? ==> docs == old(docs)
      ensures Valid() && Loaded()
    {
      var found := GetCategoryById(id);
      if found.None? {
        return false;
      }
      ok := true;
      if name.Some? {
        var fullName := if name.value != "" then Some(found.value.index + ". " + name.value) else None;
        WriteNameFields(id, name.value, fullName);
      } else {
        LoadCategories();
      }
    }
  }
}
