/**
 * The administrator's settings page: adding, renaming and deactivating
 * accounts, and adding and renaming categories. Every action first checks
 * the role and does nothing for anyone but the administrator; the browser
 * prompts and confirmations become the replies passed in.
 */
module Settings {
  import opened Wrappers
  import opened Strings
  import opened Categories
  import opened Accounts
  import Extract

  /** `userRole === 'admin'`. */
  predicate IsAdmin(role: Option<string>)
  {
    role == Some("admin")
  }

  /** How an action of the page ended: refused, unknown record, too deep, cancelled at a prompt, or written. */
  datatype Outcome = Denied | NotFound | TooDeep | Cancelled | Done

  /** `reply && reply.trim()`: the trimmed reply of a prompt, when it was not cancelled and not blank. */
  function Entered(reply: Option<string>): (r: Option<string>)
    ensures r.Some? <==> reply.Some? && Trim(reply.value) != ""
    ensures r.Some? ==> r.value == Trim(reply.value) && r.value != ""
  {
    if reply.Some? && Trim(reply.value) != "" then Some(Trim(reply.value)) else None
  }

  /** `(reply || '').trim()`: an optional prompt; cancelling gives the empty string. */
  function Optional(reply: Option<string>): (r: string)
    ensures reply.None? ==> r == ""
    ensures reply.Some? ==> r == Trim(reply.value)
  {
    Trim(reply.GetOr(""))
  }

  // ---------------------------------------------------------------- accounts

  /** `showAddAccountModal` followed by `addAccount`: a new active account named by the first reply. */
  method ShowAddAccountModal(role: Option<string>, registry: AccountRegistry, nameReply: Option<string>,
                             bankReply: Option<string>) returns (o: Outcome, a: Option<Account>)
    requires registry.Valid()
    modifies registry
    ensures registry.Valid()
    ensures o == Done <==> IsAdmin(role) && Entered(nameReply).Some?
    ensures o != Done ==> a.None? && unchanged(registry)
    ensures !IsAdmin(role) ==> o == Denied
    ensures o == Done ==>
      && a == Some(Account(NatToString(|old(registry.docs)|), Entered(nameReply).value, Optional(bankReply), true,
                           old(registry.clock)))
      && registry.docs == old(registry.docs) + [a.value]
      && registry.allAccounts == old(ActiveAccounts(registry.docs)) + [a.value]
  {
    if !IsAdmin(role) {
      return Denied, None;
    }
    var name := Entered(nameReply);
    if name.None? {
      return Cancelled, None;
    }
    var added := registry.AddAccount(name.value, Optional(bankReply));
    o, a := Done, Some(added);
  }

  /**
   * `editAccount` followed by `updateAccount`: the account must be among the
   * loaded ones, and only a non-blank name different from the current one is written.
   */
  method EditAccount(role: Option<string>, registry: AccountRegistry, id: string, nameReply: Option<string>,
                     bankReply: Option<string>) returns (o: Outcome)
    requires registry.Valid() && registry.Loaded()
    modifies registry
    ensures registry.Valid() && registry.Loaded()
    ensures !IsAdmin(role) ==> o == Denied
    ensures IsAdmin(role) ==> (o == NotFound <==> FindAccount(old(registry.allAccounts), id).None?)
    ensures o == Done <==>
      && IsAdmin(role)
      && FindAccount(old(registry.allAccounts), id).Some?
      && Entered(nameReply).Some?
      && Entered(nameReply).value != FindAccount(old(registry.allAccounts), id).value.name
    ensures o == Done ==>
      registry.docs == RenameAccount(old(registry.docs), id, Entered(nameReply).value, Optional(bankReply))
    ensures o != Done ==> unchanged(registry)
  {
    if !IsAdmin(role) {
      return Denied;
    }
    var account := FindAccount(registry.allAccounts, id);
    if account.None? {
      return NotFound;
    }
    var name := Entered(nameReply);
    if name.None? || name.value == account.value.name {
      return Cancelled;
    }
    var ok := registry.UpdateAccount(id, name.value, Optional(bankReply));
    o := Done;
  }

  /** `deactivateAccount`: after confirmation the account is hidden from the loaded list, nothing else changes. */
  method DeactivateAccount(role: Option<string>, registry: AccountRegistry, id: string, confirmed: bool)
    returns (o: Outcome)
    requires registry.Valid() && registry.Loaded()
    modifies registry
    ensures registry.Valid() && registry.Loaded()
    ensures !IsAdmin(role) ==> o == Denied
    ensures IsAdmin(role) ==> (o == NotFound <==> FindAccount(old(registry.allAccounts), id).None?)
    ensures o == Done <==> IsAdmin(role) && FindAccount(old(registry.allAccounts), id).Some? && confirmed
    ensures o == Done ==>
      && registry.docs == DeactivateDoc(old(registry.docs), id)
      && registry.allAccounts == RemoveAccount(old(registry.allAccounts), id)
    ensures o != Done ==> unchanged(registry)
  {
    if !IsAdmin(role) {
      return Denied;
    }
    var account := FindAccount(registry.allAccounts, id);
    if account.None? {
      return NotFound;
    }
    if !confirmed {
      return Cancelled;
    }
    var ok := registry.Deactivate(id);
    o := Done;
  }

  // ---------------------------------------------------------------- root categories

  /** `allCategories.filter(cat => cat.level === level)`. */
  function AtLevel(cats: seq<Category>, level: int): (r: seq<Category>)
    ensures forall c | c in r :: c in cats && c.level == level
    ensures forall c | c in cats && c.level == level :: c in r
  {
    if cats == [] then []
    else (if cats[0].level == level then [cats[0]] else []) + AtLevel(cats[1..], level)
  }

  /**
   * `Math.max(...roots.map(cat => parseInt(cat.index)))`, 0 without roots;
   * `None` is NaN, which one index without a leading digit spreads to the maximum.
   * Without NaN every `parseInt` equals `parseInt(..) || 0`, whose maximum `addCategory` takes.
   */
  function MaxParsedIndex(roots: seq<Category>): (r: Option<nat>)
    ensures r.None? <==> exists c | c in roots :: ParseInt(c.index).None?
    ensures r.Some? ==> forall c | c in roots :: ParseInt(c.index) == Some(ParseIntOrZero(c.index)) && ParseIntOrZero(c.index) <= r.value
    ensures r.Some? && roots != [] ==> exists c | c in roots :: ParseInt(c.index) == Some(r.value)
    ensures roots == [] ==> r == Some(0)
  {
    if exists c | c in roots :: ParseInt(c.index).None? then None else Some(MaxRootIndex(roots))
  }

  /** `${n}` for a number that may be NaN. */
  function NumberText(n: Option<nat>): string
  {
    if n.Some? then NatToString(n.value) else "NaN"
  }

  /** The fields `addRootCategory` hands to `addCategory`; its index is recomputed there. */
  function RootRequest(all: seq<Category>, name: string): (data: CategoryData)
    ensures data.level == 1 && data.parentId.None? && data.name == name
  {
    var max := MaxParsedIndex(AtLevel(all, 1));
    var newIndex := if max.Some? then Some(max.value + 1) else None;
    var index := NumberText(newIndex);
    CategoryData(name, 1, None, index, index + ". " + name)
  }

  /** In a well-formed tree the level-1 categories are exactly the ones filed under "root" at level 1. */
  lemma LevelOneAreRoots(all: seq<Category>, c: Category)
    requires WellFormed(all)
    ensures c in AtLevel(all, 1) <==> c in Group(all, 1, "root")
  {
    if c in all && c.level == 1 {
      assert WellPlaced(c);
      match c.parentId {
        case None =>
        case Some(q) =>
          DottedHasDot(c.id, q);
          DotSplits(c.id);
      }
    }
  }

  /** A string with a dot splits into at least two parts. */
  lemma {:induction false} DotSplits(s: string)
    requires '.' in s
    ensures |Split(s, '.')| >= 2
  {
    if s[0] == '.' {
    } else {
      DotSplits(s[1..]);
    }
  }

  /** The maximum over two lists with the same members is the same. */
  lemma SameRootsSameMax(a: seq<Category>, g: seq<Category>)
    requires forall c :: c in a <==> c in g
    ensures MaxRootIndex(a) == MaxRootIndex(g)
  {
    var ma := MaxRootIndex(a);
    var mg := MaxRootIndex(g);
    if a != [] {
      var c :| c in a && ParseIntOrZero(c.index) == ma;
      assert c in g;
      assert g != [];
      var d :| d in g && ParseIntOrZero(d.index) == mg;
      assert d in a;
    }
  }

  /**
   * When every root index starts with a digit, the index `addRootCategory`
   * computes on its own is the id `addCategory` gives the new root.
   */
  lemma RootIndexAgrees(all: seq<Category>, name: string)
    requires WellFormed(all)
    requires forall c | c in all && c.level == 1 :: ParseInt(c.index).Some?
    ensures RootRequest(all, name).index == NextRootId(Group(all, 1, "root"))
    ensures RootRequest(all, name).index == NewCategoryId(all, RootRequest(all, name))
  {
    var a := AtLevel(all, 1);
    var g := Group(all, 1, "root");
    forall c ensures c in a <==> c in g {
      LevelOneAreRoots(all, c);
    }
    assert MaxParsedIndex(a) == Some(MaxRootIndex(a));
    SameRootsSameMax(a, g);
  }

  /** `showAddCategoryModal` followed by `addRootCategory`. */
  method ShowAddCategoryModal(role: Option<string>, catalog: Catalog, nameReply: Option<string>)
    returns (o: Outcome, c: Option<Category>)
    requires catalog.Valid() && catalog.Loaded()
    modifies catalog
    ensures catalog.Valid() && catalog.Loaded()
    ensures o == Done <==> IsAdmin(role) && Entered(nameReply).Some?
    ensures !IsAdmin(role) ==> o == Denied
    ensures o != Done ==> c.None? && unchanged(catalog)
    ensures o == Done ==>
      && c == Some(NewCategory(old(catalog.docs), RootRequest(old(catalog.docs), Entered(nameReply).value)))
      && catalog.docs == Upsert(old(catalog.docs), c.value)
  {
    if !IsAdmin(role) {
      return Denied, None;
    }
    var name := Entered(nameReply);
    if name.None? {
      return Cancelled, None;
    }
    var added := AddRootCategory(catalog, name.value);
    o, c := Done, Some(added);
  }

  /** `addRootCategory(name)`: a level-1 category without parent, numbered after the largest root. */
  method AddRootCategory(catalog: Catalog, name: string) returns (c: Category)
    requires catalog.Valid() && catalog.Loaded()
    modifies catalog
    ensures catalog.Valid() && catalog.Loaded()
    ensures c == NewCategory(old(catalog.docs), RootRequest(old(catalog.docs), name))
    ensures c.id == c.index == NextRootId(Group(old(catalog.docs), 1, "root"))
    ensures c.level == 1 && c.parentId.None? && c.fullName == c.id + ". " + name
    ensures catalog.docs == Upsert(old(catalog.docs), c)
  {
    c := catalog.AddCategory(RootRequest(catalog.all, name));
  }

  // ---------------------------------------------------------------- sub-categories

  /** The fields `addSubCategory` hands to `addCategory`: one level below the parent, numbered after its children. */
  function SubRequest(all: seq<Category>, parent: Category, name: string): (data: CategoryData)
    ensures data.level == parent.level + 1 && data.parentId == Some(parent.id) && data.name == name
    ensures data.index == parent.index + "." + NatToString(MaxSuffix(Children(all, parent.id)) + 1)
  {
    var index := parent.index + "." + NatToString(MaxSuffix(Children(all, parent.id)) + 1);
    CategoryData(name, parent.level + 1, Some(parent.id), index, index + ". " + name)
  }

  /** A well-placed child of a well-placed parent sits one level below it. */
  lemma ChildLevel(c: Category, parent: Category)
    requires WellPlaced(c) && WellPlaced(parent) && c.parentId == Some(parent.id)
    ensures c.level == parent.level + 1
  {
    var rest := c.id[|parent.id| + 1..];
    assert c.id == parent.id + ['.'] + rest;
    SplitAppend(parent.id, '.', rest);
  }

  /**
   * In a well-formed tree the children of a category are exactly its group one
   * level below it, unless its id is "" or "root", which the group key confuses
   * with having no parent.
   */
  lemma ChildrenAreGroup(all: seq<Category>, parent: Category, c: Category)
    requires WellFormed(all) && WellPlaced(parent) && parent.id != "" && parent.id != "root"
    ensures c in Children(all, parent.id) <==> c in Group(all, parent.level + 1, parent.id)
  {
    if c in all && c.parentId == Some(parent.id) {
      assert WellPlaced(c);
      ChildLevel(c, parent);
      assert ParentKey(c.parentId) == parent.id;
    }
    if c in Group(all, parent.level + 1, parent.id) {
      assert c.parentId == Some(parent.id);
    }
  }

  lemma ChildrenAreGroupAll(all: seq<Category>, parent: Category)
    requires WellFormed(all) && WellPlaced(parent) && parent.id != "" && parent.id != "root"
    ensures forall c :: c in Children(all, parent.id) <==> c in Group(all, parent.level + 1, parent.id)
  {
    forall c ensures c in Children(all, parent.id) <==> c in Group(all, parent.level + 1, parent.id) {
      ChildrenAreGroup(all, parent, c);
    }
  }

  /** The maximum suffix over two lists with the same members is the same. */
  lemma SameSiblingsSameMax(k: seq<Category>, g: seq<Category>)
    requires forall c :: c in k <==> c in g
    ensures MaxSuffix(k) == MaxSuffix(g)
  {
    var mk := MaxSuffix(k);
    var mg := MaxSuffix(g);
    if k != [] {
      var c :| c in k && LastSegmentValue(c.index) == mk;
      assert c in g;
      assert g != [];
      var d :| d in g && LastSegmentValue(d.index) == mg;
      assert d in k;
    }
  }

  /**
   * The index `addSubCategory` computes on its own is the id `addCategory` gives
   * the new child, for any parent whose id is not one of the hierarchy's own keys.
   */
  lemma SubIndexAgrees(all: seq<Category>, parent: Category, name: string)
    requires WellFormed(all) && WellPlaced(parent) && parent.id != "" && parent.id != "root"
    ensures SubRequest(all, parent, name).index == NextChildId(parent.id, Group(all, parent.level + 1, parent.id))
  {
    SiblingsMaxAgree(all, parent);
  }

  lemma SiblingsMaxAgree(all: seq<Category>, parent: Category)
    requires WellFormed(all) && WellPlaced(parent) && parent.id != "" && parent.id != "root"
    ensures MaxSuffix(Children(all, parent.id)) == MaxSuffix(Group(all, parent.level + 1, parent.id))
  {
    ChildrenAreGroupAll(all, parent);
    SameSiblingsSameMax(Children(all, parent.id), Group(all, parent.level + 1, parent.id));
  }

  /** `addCategory` numbers a request with a parent after that parent's group one level below it. */
  lemma SubRequestId(all: seq<Category>, parent: Category, name: string)
    requires parent.id != ""
    ensures NewCategoryId(all, SubRequest(all, parent, name)) == NextChildId(parent.id, Group(all, parent.level + 1, parent.id))
  {
  }

  /** So the index settings writes into the request is the id the new category gets. */
  lemma SubIndexIsNewId(all: seq<Category>, parent: Category, name: string)
    requires WellFormed(all) && WellPlaced(parent) && parent.id != "" && parent.id != "root"
    ensures SubRequest(all, parent, name).index == NewCategoryId(all, SubRequest(all, parent, name))
  {
    SubIndexAgrees(all, parent, name);
    SubRequestId(all, parent, name);
  }

  /**
   * `addSubCategory(parentId)`: an unknown parent and a parent at level 5 are
   * refused before the name is asked; the child sits one level below its parent.
   */
  method AddSubCategory(role: Option<string>, catalog: Catalog, parentId: string, nameReply: Option<string>)
    returns (o: Outcome, c: Option<Category>)
    requires catalog.Valid() && catalog.Loaded()
    modifies catalog
    ensures catalog.Valid() && catalog.Loaded()
    ensures !IsAdmin(role) ==> o == Denied
    ensures IsAdmin(role) ==> (o == NotFound <==> FindById(old(catalog.docs), parentId).None?)
    ensures IsAdmin(role) && FindById(old(catalog.docs), parentId).Some? ==>
      (o == TooDeep <==> FindById(old(catalog.docs), parentId).value.level >= 5)
    ensures o == Done <==>
      && IsAdmin(role)
      && FindById(old(catalog.docs), parentId).Some?
      && FindById(old(catalog.docs), parentId).value.level < 5
      && Entered(nameReply).Some?
    ensures o != Done ==> c.None? && unchanged(catalog)
    ensures o == Done ==>
      var parent := FindById(old(catalog.docs), parentId).value;
      && c == Some(NewCategory(old(catalog.docs), SubRequest(old(catalog.docs), parent, Entered(nameReply).value)))
      && c.value.level == parent.level + 1 <= 5
      && c.value.parentId == Some(parentId)
      && catalog.docs == Upsert(old(catalog.docs), c.value)
  {
    if !IsAdmin(role) {
      return Denied, None;
    }
    var parent := catalog.GetCategoryById(parentId);
    if parent.None? {
      return NotFound, None;
    }
    if parent.value.level >= 5 {
      return TooDeep, None;
    }
    var name := Entered(nameReply);
    if name.None? {
      return Cancelled, None;
    }
    var added := catalog.AddCategory(SubRequest(catalog.all, parent.value, name.value));
    o, c := Done, Some(added);
  }

  // ---------------------------------------------------------------- renaming categories

  /** `updateCategoryName(id, newName)`: the name, and a full name rebuilt from the unchanged index. */
  method UpdateCategoryName(catalog: Catalog, id: string, newName: string) returns (ok: bool)
    requires catalog.Valid() && catalog.Loaded()
    modifies catalog
    ensures catalog.Valid() && catalog.Loaded()
    ensures ok <==> FindById(old(catalog.docs), id).Some?
    ensures ok ==> catalog.docs == UpdateNameFields(old(catalog.docs), id, newName,
      Some(FindById(old(catalog.docs), id).value.index + ". " + newName))
    ensures !ok ==> unchanged(catalog)
  {
    var category := catalog.GetCategoryById(id);
    if category.None? {
      return false;
    }
    catalog.WriteNameFields(id, newName, Some(category.value.index + ". " + newName));
    ok := true;
  }

  /** After a rename the category keeps its index and its full name is that index, a dot and the new name. */
  lemma RenameRegeneratesFullName(s: seq<Category>, id: string, newName: string)
    requires FindById(s, id).Some?
    ensures var old_ := FindById(s, id).value;
      var r := FindById(UpdateNameFields(s, id, newName, Some(old_.index + ". " + newName)), id);
      && r.Some?
      && r.value.index == old_.index
      && r.value.name == newName
      && r.value.fullName == old_.index + ". " + newName
  {
    var c := FindById(s, id).value;
    var u := UpdateNameFields(s, id, newName, Some(c.index + ". " + newName));
    var i :| 0 <= i < |s| && s[i] == c && forall j | 0 <= j < i :: s[j].id != id;
    assert forall j | 0 <= j < i :: u[j].id == s[j].id;
    FindFirst(u, id, i);
  }

  /** `editCategory(id)`: only a non-blank new name different from the current one is written. */
  method EditCategory(role: Option<string>, catalog: Catalog, id: string, nameReply: Option<string>)
    returns (o: Outcome)
    requires catalog.Valid() && catalog.Loaded()
    modifies catalog
    ensures catalog.Valid() && catalog.Loaded()
    ensures !IsAdmin(role) ==> o == Denied
    ensures IsAdmin(role) ==> (o == NotFound <==> FindById(old(catalog.docs), id).None?)
    ensures o == Done <==>
      && IsAdmin(role)
      && FindById(old(catalog.docs), id).Some?
      && Entered(nameReply).Some?
      && Entered(nameReply).value != FindById(old(catalog.docs), id).value.name
    ensures o == Done ==> catalog.docs == UpdateNameFields(old(catalog.docs), id, Entered(nameReply).value,
      Some(FindById(old(catalog.docs), id).value.index + ". " + Entered(nameReply).value))
    ensures o != Done ==> unchanged(catalog)
  {
    if !IsAdmin(role) {
      return Denied;
    }
    var category := catalog.GetCategoryById(id);
    if category.None? {
      return NotFound;
    }
    var name := Entered(nameReply);
    if name.None? || name.value == category.value.name {
      return Cancelled;
    }
    var ok := UpdateCategoryName(catalog, id, name.value);
    o := Done;
  }

  // ---------------------------------------------------------------- the category table's order (loadCategoryTable)

  function Pow1000(e: nat): (p: nat)
    ensures p >= 1
  {
    if e == 0 then 1 else 1000 * Pow1000(e - 1)
  }

  /** Some segment has no leading digit, so `parseInt` gives NaN for it. */
  predicate HasNaNSegment(parts: seq<string>)
  {
    exists i | 0 <= i < |parts| :: ParseInt(parts[i]).None?
  }

  /** A list of segments has a NaN segment exactly when its first one or one of the rest is NaN. */
  lemma HasNaNCons(parts: seq<string>)
    requires parts != []
    ensures HasNaNSegment(parts) <==> ParseInt(parts[0]).None? || HasNaNSegment(parts[1..])
  {
    if HasNaNSegment(parts[1..]) {
      var i :| 0 <= i < |parts[1..]| && ParseInt(parts[1..][i]).None?;
      assert parts[i + 1] == parts[1..][i];
    }
    if HasNaNSegment(parts) && ParseInt(parts[0]).Some? {
      var i :| 0 <= i < |parts| && ParseInt(parts[i]).None?;
      assert parts[1..][i - 1] == parts[i];
    }
  }

  /** `parseInt` of every segment; `None` when one of them is NaN. */
  function SegmentValues(parts: seq<string>): (r: Option<seq<nat>>)
    ensures r.Some? ==> |r.value| == |parts| && forall i | 0 <= i < |parts| :: ParseInt(parts[i]) == Some(r.value[i])
    ensures r.None? <==> HasNaNSegment(parts)
  {
    if parts == [] then Some([])
    else
      HasNaNCons(parts);
      var head := ParseInt(parts[0]);
      var tail := SegmentValues(parts[1..]);
      if head.None? || tail.None? then None
      else
        ConsValues(parts, head.value, tail.value);
        Some([head.value] + tail.value)
  }

  lemma ConsValues(parts: seq<string>, h: nat, t: seq<nat>)
    requires parts != [] && ParseInt(parts[0]) == Some(h) && |t| == |parts| - 1
    requires forall i | 0 <= i < |t| :: ParseInt(parts[1..][i]) == Some(t[i])
    ensures forall i | 0 <= i < |parts| :: ParseInt(parts[i]) == Some(([h] + t)[i])
  {
    forall i | 0 < i < |parts| ensures ParseInt(parts[i]) == Some(([h] + t)[i]) {
      assert parts[i] == parts[1..][i - 1];
    }
  }

  /** `reduce((acc, n, i) => acc + n * 1000^(10 - i), 0)` from position `i` on. */
  function WeightedFrom(vals: seq<nat>, i: nat): nat
    requires |vals| <= 11
    decreases |vals| - i
  {
    if i >= |vals| then 0 else vals[i] * Pow1000(10 - i) + WeightedFrom(vals, i + 1)
  }

  /**
   * The table's sort key of an index: each segment weighted by a power of
   * 1000, the first segment by 1000^10. `None` stands for NaN (a segment
   * without a leading digit).
   */
  function SortKey(index: string): (k: Option<nat>)
    requires |Split(index, '.')| <= 11
    ensures k.None? <==> HasNaNSegment(Split(index, '.'))
  {
    var parts := Split(index, '.');
    var vals := SegmentValues(parts);
    if vals.None? then None else Some(WeightedFrom(vals.value, 0))
  }

  /** The table's comparator `aIndex - bIndex`; `sort` reads a NaN result as 0. */
  function TableOrder(a: string, b: string): int
    requires |Split(a, '.')| <= 11 && |Split(b, '.')| <= 11
  {
    var ka := SortKey(a);
    var kb := SortKey(b);
    if ka.Some? && kb.Some? then ka.value - kb.value else 0
  }

  /** An index of at most 11 segments, each a non-empty run of digits below 1000. */
  predicate SmallIndex(index: string)
  {
    var parts := Split(index, '.');
    && |parts| <= 11
    && forall i | 0 <= i < |parts| :: parts[i] != "" && AllDigits(parts[i]) && DigitsValue(parts[i]) < 1000
  }

  /** The weighted sum over the eleven positions, a missing segment weighing 0, as the extract reads segments. */
  function Padded(p: seq<string>, i: nat): nat
    requires i <= 11
    decreases 11 - i
  {
    if i == 11 then 0 else Extract.Seg(p, i) * Pow1000(10 - i) + Padded(p, i + 1)
  }

  lemma {:induction false} PaddedPastEnd(p: seq<string>, i: nat)
    requires |p| <= i <= 11
    ensures Padded(p, i) == 0
    decreases 11 - i
  {
    if i < 11 {
      PaddedPastEnd(p, i + 1);
    }
  }

  lemma {:induction false} WeightedIsPadded(p: seq<string>, vals: seq<nat>, i: nat)
    requires |vals| == |p| <= 11 && i <= 11
    requires forall j | 0 <= j < |p| :: vals[j] == Extract.Seg(p, j)
    ensures WeightedFrom(vals, i) == Padded(p, i)
    decreases 11 - i
  {
    if i >= |vals| {
      PaddedPastEnd(p, i);
    } else {
      WeightedIsPadded(p, vals, i + 1);
    }
  }

  lemma MulMonotone(a: nat, b: nat, w: nat)
    requires a <= b
    ensures a * w <= b * w
  {
  }

  /** One more unit at a position adds one weight: `(s + 1) * w == s * w + w`, with `s * w + r` below it when `r < w`. */
  lemma NextUnit(s: nat, w: nat, r: nat)
    requires r < w
    ensures s * w + r < (s + 1) * w
  {
  }

  /** A smaller digit at a position decides the comparison, whatever lighter positions follow. */
  lemma WeightedLess(sa: nat, sb: nat, w: nat, ra: nat, rb: nat)
    requires sa < sb && ra < w
    ensures sa * w + ra < sb * w + rb
  {
    NextUnit(sa, w, ra);
    MulMonotone(sa + 1, sb, w);
  }

  lemma PaddedStep(p: seq<string>, i: nat)
    requires i < 11
    ensures Padded(p, i) == Extract.Seg(p, i) * Pow1000(10 - i) + Padded(p, i + 1)
    ensures Pow1000(11 - i) == 1000 * Pow1000(10 - i)
  {
  }

  /** Segments below 1000 keep the positions apart: what follows position `i` weighs less than one unit there. */
  lemma {:induction false} PaddedBound(p: seq<string>, i: nat)
    requires i <= 11
    requires forall j | 0 <= j < |p| :: Extract.Seg(p, j) < 1000
    ensures Padded(p, i) < Pow1000(11 - i)
    decreases 11 - i
  {
    if i < 11 {
      PaddedBound(p, i + 1);
      PaddedStep(p, i);
      var s := Extract.Seg(p, i);
      var w := Pow1000(10 - i);
      var r := Padded(p, i + 1);
      assert s < 1000 by {
        if i < |p| {
          assert Extract.Seg(p, i) < 1000;
        }
      }
      NextUnit(s, w, r);
      MulMonotone(s + 1, 1000, w);
    }
  }

  /** The weighted sums compare as the segment-by-segment comparison does. */
  lemma {:induction false} PaddedCompare(pa: seq<string>, pb: seq<string>, i: nat)
    requires i <= 11
    requires forall j | 0 <= j < |pa| :: Extract.Seg(pa, j) < 1000
    requires forall j | 0 <= j < |pb| :: Extract.Seg(pb, j) < 1000
    ensures Padded(pa, i) < Padded(pb, i) <==> Extract.CompareFrom(pa, pb, i, 11) < 0
    ensures Padded(pa, i) == Padded(pb, i) <==> Extract.CompareFrom(pa, pb, i, 11) == 0
    decreases 11 - i
  {
    if i < 11 {
      PaddedCompare(pa, pb, i + 1);
      var sa, sb := Extract.Seg(pa, i), Extract.Seg(pb, i);
      PaddedStep(pa, i);
      PaddedStep(pb, i);
      if sa < sb {
        PaddedDecided(pa, pb, i);
      } else if sb < sa {
        PaddedDecided(pb, pa, i);
      }
    }
  }

  /** The first position where the segments differ decides the weighted comparison. */
  lemma PaddedDecided(pa: seq<string>, pb: seq<string>, i: nat)
    requires i < 11
    requires forall j | 0 <= j < |pa| :: Extract.Seg(pa, j) < 1000
    requires Extract.Seg(pa, i) < Extract.Seg(pb, i)
    ensures Padded(pa, i) < Padded(pb, i)
  {
    var sa, sb, w := Extract.Seg(pa, i), Extract.Seg(pb, i), Pow1000(10 - i);
    var ra, rb := Padded(pa, i + 1), Padded(pb, i + 1);
    PaddedStep(pa, i);
    PaddedStep(pb, i);
    PaddedBound(pa, i + 1);
    WeightedLess(sa, sb, w, ra, rb);
  }

  lemma SmallIndexKey(index: string)
    requires SmallIndex(index)
    ensures SortKey(index) == Some(Padded(Split(index, '.'), 0))
  {
    var p := Split(index, '.');
    forall j | 0 <= j < |p| ensures ParseInt(p[j]) == Some(Extract.Seg(p, j)) {
      LeadingDigitsOfDigits(p[j]);
    }
    var vals := SegmentValues(p);
    WeightedIsPadded(p, vals.value, 0);
  }

  lemma SmallSegments(index: string)
    requires SmallIndex(index)
    ensures forall j | 0 <= j < |Split(index, '.')| :: Extract.Seg(Split(index, '.'), j) < 1000
  {
  }

  lemma SmallTableOrder(a: string, b: string)
    requires SmallIndex(a) && SmallIndex(b)
    ensures TableOrder(a, b) == Padded(Split(a, '.'), 0) - Padded(Split(b, '.'), 0)
  {
    SmallIndexKey(a);
    SmallIndexKey(b);
  }

  lemma IndexOrderOverEleven(a: string, b: string)
    requires |Split(a, '.')| <= 11 && |Split(b, '.')| <= 11
    ensures Extract.IndexOrder(a, b) == Extract.CompareFrom(Split(a, '.'), Split(b, '.'), 0, 11)
  {
    Extract.CompareWider(Split(a, '.'), Split(b, '.'), 0, 11);
  }

  /**
   * For indexes of at most 11 segments below 1000 each, the table orders
   * categories exactly as the extract's `compareIndexes` does.
   */
  lemma TableOrderAgrees(a: string, b: string)
    requires SmallIndex(a) && SmallIndex(b)
    ensures TableOrder(a, b) < 0 <==> Extract.IndexOrder(a, b) < 0
    ensures TableOrder(a, b) == 0 <==> Extract.IndexOrder(a, b) == 0
    ensures TableOrder(a, b) > 0 <==> Extract.IndexOrder(a, b) > 0
  {
    var pa, pb := Split(a, '.'), Split(b, '.');
    SmallTableOrder(a, b);
    SmallSegments(a);
    SmallSegments(b);
    PaddedCompare(pa, pb, 0);
    IndexOrderOverEleven(a, b);
  }
}
