/**
 * The `accounts` collection and the loaded `allAccounts` list. Accounts are
 * never deleted: deactivation is a soft delete that clears `isActive`, and
 * every page loads only the active accounts in creation order.
 *
 * Document ids are handed out by the store; here the n-th document created
 * has the id `NatToString(n)`, which keeps ids unique.
 */
module Accounts {
  import opened Wrappers
  import opened Strings

  datatype Account = Account(id: string, name: string, bankNumber: string, isActive: bool, createdAt: nat)

  /** `where('isActive', '==', true)` over the collection, keeping its order. */
  function ActiveAccounts(docs: seq<Account>): (r: seq<Account>)
    ensures |r| <= |docs|
    ensures forall a | a in r :: a in docs && a.isActive
    ensures forall a | a in docs && a.isActive :: a in r
  {
    if docs == [] then []
    else
      var init := docs[..|docs| - 1];
      var last := docs[|docs| - 1];
      assert forall a | a in docs :: a in init || a == last;
      ActiveAccounts(init) + (if last.isActive then [last] else [])
  }

  /** Non-decreasing `createdAt` (ties keep insertion order). */
  predicate OrderedByCreation(s: seq<Account>)
  {
    forall i, j | 0 <= i < j < |s| :: s[i].createdAt <= s[j].createdAt
  }

  /** The active filter keeps creation order, so the loaded list is `orderBy('createdAt')`. */
  lemma {:induction false} ActiveKeepsOrder(docs: seq<Account>)
    requires OrderedByCreation(docs)
    ensures OrderedByCreation(ActiveAccounts(docs))
  {
    if docs != [] {
      var init := docs[..|docs| - 1];
      var last := docs[|docs| - 1];
      assert OrderedByCreation(init);
      ActiveKeepsOrder(init);
      var r := ActiveAccounts(docs);
      var a := ActiveAccounts(init);
      if last.isActive {
        forall i, j | 0 <= i < j < |r| ensures r[i].createdAt <= r[j].createdAt {
          if j == |r| - 1 {
            assert r[i] in a;
            var k :| 0 <= k < |init| && init[k] == r[i];
            assert docs[k] == r[i];
          } else {
            assert r[i] == a[i] && r[j] == a[j];
          }
        }
      }
    }
  }

  /** `allAccounts.find(acc => acc.id === id)`. */
  function FindAccount(s: seq<Account>, id: string): (r: Option<Account>)
    ensures r.Some? <==> exists a | a in s :: a.id == id
    ensures r.Some? ==> r.value in s && r.value.id == id
    ensures r.Some? ==> exists i | 0 <= i < |s| :: s[i] == r.value && forall j | 0 <= j < i :: s[j].id != id
  {
    if s == [] then None
    else if s[0].id == id then Some(s[0])
    else
      var r := FindAccount(s[1..], id);
      assert forall a | a in s :: a == s[0] || a in s[1..];
      assert r.Some? ==> exists i | 0 <= i < |s| :: s[i] == r.value && forall j | 0 <= j < i :: s[j].id != id by {
        if r.Some? {
          var i :| 0 <= i < |s[1..]| && s[1..][i] == r.value && forall j | 0 <= j < i :: s[1..][j].id != id;
          assert s[i + 1] == r.value;
          forall j | 0 <= j < i + 1 ensures s[j].id != id {
            if j > 0 {
              assert s[j] == s[1..][j - 1];
            }
          }
        }
      }
      r
  }

  /** `doc(id).update({name, bankNumber})`: those two fields of that document, nothing else. */
  function RenameAccount(s: seq<Account>, id: string, name: string, bankNumber: string): (r: seq<Account>)
    ensures |r| == |s|
    ensures forall i | 0 <= i < |s| ::
      r[i].id == s[i].id && r[i].isActive == s[i].isActive && r[i].createdAt == s[i].createdAt
    ensures forall i | 0 <= i < |s| && s[i].id != id :: r[i] == s[i]
    ensures forall i | 0 <= i < |s| && s[i].id == id :: r[i].name == name && r[i].bankNumber == bankNumber
  {
    if s == [] then []
    else
      [if s[0].id == id then s[0].(name := name, bankNumber := bankNumber) else s[0]]
      + RenameAccount(s[1..], id, name, bankNumber)
  }

  /** `doc(id).update({isActive: false})`: the soft delete. */
  function DeactivateDoc(s: seq<Account>, id: string): (r: seq<Account>)
    ensures |r| == |s|
    ensures forall i | 0 <= i < |s| ::
      r[i].id == s[i].id && r[i].name == s[i].name && r[i].bankNumber == s[i].bankNumber
      && r[i].createdAt == s[i].createdAt
    ensures forall i | 0 <= i < |s| && s[i].id != id :: r[i] == s[i]
    ensures forall i | 0 <= i < |s| && s[i].id == id :: !r[i].isActive
  {
    if s == [] then []
    else
      var rest := DeactivateDoc(s[1..], id);
      var r := [if s[0].id == id then s[0].(isActive := false) else s[0]] + rest;
      assert forall i | 0 < i < |s| :: r[i] == rest[i - 1] && s[i] == s[1..][i - 1];
      r
  }

  /** After deactivation the loaded list is the previous one without that account, in the same order. */
  lemma {:induction false} DeactivateHides(s: seq<Account>, id: string)
    ensures ActiveAccounts(DeactivateDoc(s, id)) == RemoveAccount(ActiveAccounts(s), id)
  {
    if s != [] {
      var init := s[..|s| - 1];
      var r := DeactivateDoc(s, id);
      DeactivateFront(s, id);
      DeactivateHides(init, id);
      RemoveAppend(ActiveAccounts(init), if s[|s| - 1].isActive then [s[|s| - 1]] else [], id);
    }
  }

  /** Deactivating a prefix is the prefix of deactivating the whole. */
  lemma DeactivateFront(s: seq<Account>, id: string)
    requires s != []
    ensures DeactivateDoc(s, id)[..|s| - 1] == DeactivateDoc(s[..|s| - 1], id)
    ensures DeactivateDoc(s, id)[|s| - 1] == if s[|s| - 1].id == id then s[|s| - 1].(isActive := false) else s[|s| - 1]
  {
    var n := |s|;
    var r, r0 := DeactivateDoc(s, id), DeactivateDoc(s[..n - 1], id);
    forall i | 0 <= i < n - 1 ensures r[i] == r0[i] {
      DeactivateAt(s, id, i);
      DeactivateAt(s[..n - 1], id, i);
    }
    assert r[..n - 1] == r0;
    DeactivateAt(s, id, n - 1);
  }

  lemma DeactivateAt(s: seq<Account>, id: string, i: int)
    requires 0 <= i < |s|
    ensures DeactivateDoc(s, id)[i] == if s[i].id == id then s[i].(isActive := false) else s[i]
  {
  }

  /** The list without the accounts whose id is `id`. */
  function RemoveAccount(s: seq<Account>, id: string): (r: seq<Account>)
    ensures forall a | a in r :: a in s && a.id != id
    ensures forall a | a in s && a.id != id :: a in r
  {
    if s == [] then []
    else
      assert forall a | a in s :: a == s[|s| - 1] || a in s[..|s| - 1];
      RemoveAccount(s[..|s| - 1], id) + (if s[|s| - 1].id == id then [] else [s[|s| - 1]])
  }

  lemma {:induction false} RemoveAppend(a: seq<Account>, b: seq<Account>, id: string)
    ensures RemoveAccount(a + b, id) == RemoveAccount(a, id) + RemoveAccount(b, id)
  {
    if b != [] {
      assert (a + b)[..|a + b| - 1] == a + b[..|b| - 1];
      RemoveAppend(a, b[..|b| - 1], id);
    } else {
      assert a + b == a;
    }
  }

  /** Ids are the creation positions, and no document is stamped later than the clock or before an older one. */
  ghost predicate RegistryInvariant(docs: seq<Account>, clock: nat)
  {
    && (forall i | 0 <= i < |docs| :: docs[i].id == NatToString(i) && docs[i].createdAt < clock)
    && OrderedByCreation(docs)
  }

  /** Renaming keeps ids, stamps and order, so it keeps the registry invariant. */
  lemma RenameKeepsInvariant(docs: seq<Account>, clock: nat, id: string, name: string, bankNumber: string)
    requires RegistryInvariant(docs, clock)
    ensures RegistryInvariant(RenameAccount(docs, id, name, bankNumber), clock)
  {
    var r := RenameAccount(docs, id, name, bankNumber);
    forall i | 0 <= i < |r| ensures r[i].id == NatToString(i) && r[i].createdAt < clock {
      assert r[i].id == docs[i].id && r[i].createdAt == docs[i].createdAt;
    }
    RenameKeepsOrder(docs, id, name, bankNumber);
  }

  lemma RenameKeepsOrder(docs: seq<Account>, id: string, name: string, bankNumber: string)
    requires OrderedByCreation(docs)
    ensures OrderedByCreation(RenameAccount(docs, id, name, bankNumber))
  {
    var r := RenameAccount(docs, id, name, bankNumber);
    forall i, j | 0 <= i < j < |r| ensures r[i].createdAt <= r[j].createdAt {
      assert r[i].createdAt == docs[i].createdAt && r[j].createdAt == docs[j].createdAt;
    }
  }

  /** The soft delete keeps ids, stamps and order, so it keeps the registry invariant. */
  lemma DeactivateKeepsInvariant(docs: seq<Account>, clock: nat, id: string)
    requires RegistryInvariant(docs, clock)
    ensures RegistryInvariant(DeactivateDoc(docs, id), clock)
  {
    DeactivateKeepsNumbers(docs, clock, id);
    DeactivateKeepsOrder(docs, id);
  }

  lemma DeactivateKeepsNumbers(docs: seq<Account>, clock: nat, id: string)
    requires forall i | 0 <= i < |docs| :: docs[i].id == NatToString(i) && docs[i].createdAt < clock
    ensures var d := DeactivateDoc(docs, id);
      forall i | 0 <= i < |d| :: d[i].id == NatToString(i) && d[i].createdAt < clock
  {
    var d := DeactivateDoc(docs, id);
    forall i | 0 <= i < |d| ensures d[i].id == NatToString(i) && d[i].createdAt < clock {
      DeactivateAt(docs, id, i);
    }
  }

  lemma DeactivateKeepsOrder(docs: seq<Account>, id: string)
    requires OrderedByCreation(docs)
    ensures OrderedByCreation(DeactivateDoc(docs, id))
  {
    var d := DeactivateDoc(docs, id);
    forall i, j | 0 <= i < j < |d| ensures d[i].createdAt <= d[j].createdAt {
      DeactivateAt(docs, id, i);
      DeactivateAt(docs, id, j);
    }
  }

  /** Documents numbered after the existing ones and stamped with the clock keep the registry invariant once the clock advances. */
  lemma CreateKeepsInvariant(docs: seq<Account>, clock: nat, added: seq<Account>)
    requires RegistryInvariant(docs, clock)
    requires forall k | 0 <= k < |added| :: added[k].id == NatToString(|docs| + k) && added[k].createdAt == clock
    ensures RegistryInvariant(docs + added, clock + 1)
  {
    CreateNumbers(docs, clock, added);
    CreateKeepsOrder(docs, clock, added);
  }

  lemma CreateNumbers(docs: seq<Account>, clock: nat, added: seq<Account>)
    requires RegistryInvariant(docs, clock)
    requires forall k | 0 <= k < |added| :: added[k].id == NatToString(|docs| + k) && added[k].createdAt == clock
    ensures forall i | 0 <= i < |docs + added| :: (docs + added)[i].id == NatToString(i) && (docs + added)[i].createdAt <= clock
  {
    var r := docs + added;
    forall i | 0 <= i < |r| ensures r[i].id == NatToString(i) && r[i].createdAt <= clock {
      if i < |docs| {
        assert r[i] == docs[i];
      } else {
        assert r[i] == added[i - |docs|];
      }
    }
  }

  lemma CreateKeepsOrder(docs: seq<Account>, clock: nat, added: seq<Account>)
    requires RegistryInvariant(docs, clock)
    requires forall k | 0 <= k < |added| :: added[k].createdAt == clock
    ensures OrderedByCreation(docs + added)
  {
    var r := docs + added;
    forall i, j | 0 <= i < j < |r| ensures r[i].createdAt <= r[j].createdAt {
      if j < |docs| {
        assert r[i] == docs[i] && r[j] == docs[j];
      } else {
        assert r[j] == added[j - |docs|];
        assert i < |docs| ==> r[i] == docs[i];
      }
    }
  }

  /** The accounts collection and the `allAccounts` list loaded from it. */
  class AccountRegistry {
    /** The `accounts` collection, in creation order. */
    var docs: seq<Account>
    /** `allAccounts`, as last loaded. */
    var allAccounts: seq<Account>
    /** The next server timestamp. */
    var clock: nat

    ghost predicate Valid()
      reads this
    {
      RegistryInvariant(docs, clock)
    }

    ghost predicate Loaded()
      reads this
    {
      allAccounts == ActiveAccounts(docs)
    }

    constructor()
      ensures Valid() && Loaded() && docs == [] && clock == 0
    {
      docs := [];
      allAccounts := [];
      clock := 0;
    }

    /** `loadAccounts`: the active accounts, in creation order. */
    method LoadAccounts()
      modifies this
      ensures Loaded() && docs == old(docs) && clock == old(clock)
      ensures Valid() ==> OrderedByCreation(allAccounts) && forall a | a in allAccounts :: a.isActive
    {
      allAccounts := [];
      var i := 0;
      while i < |docs|
        invariant docs == old(docs) && clock == old(clock)
        invariant 0 <= i <= |docs|
        invariant allAccounts == ActiveAccounts(docs[..i])
      {
        assert docs[..i + 1][..i] == docs[..i];
        if docs[i].isActive {
          allAccounts := allAccounts + [docs[i]];
        }
        i := i + 1;
      }
      assert docs[..|docs|] == docs;
      if Valid() {
        ActiveKeepsOrder(docs);
      }
    }

    /** Replace the documents by ones that keep the invariant, then reload. */
    method Store(d: seq<Account>)
      requires RegistryInvariant(d, clock)
      modifies this
      ensures docs == d && clock == old(clock)
      ensures Valid() && allAccounts == ActiveAccounts(d)
    {
      docs := d;
      LoadAccounts();
    }

    /** Create documents stamped with one server time (a single write or a batch), then reload. */
    method Create(entries: seq<(string, string)>) returns (added: seq<Account>)
      requires Valid()
      modifies this
      ensures Valid() && Loaded()
      ensures docs == old(docs) + added && clock == old(clock) + 1
      ensures |added| == |entries|
      ensures forall i | 0 <= i < |entries| ::
        added[i] == Account(NatToString(|old(docs)| + i), entries[i].0, entries[i].1, true, old(clock))
    {
      added := [];
      var i := 0;
      while i < |entries|
        invariant 0 <= i <= |entries| && |added| == i
        invariant docs == old(docs) && clock == old(clock)
        invariant forall k | 0 <= k < i ::
          added[k] == Account(NatToString(|old(docs)| + k), entries[k].0, entries[k].1, true, old(clock))
      {
        added := added + [Account(NatToString(|docs| + i), entries[i].0, entries[i].1, true, clock)];
        i := i + 1;
      }
      CreateKeepsInvariant(docs, clock, added);
      docs := docs + added;
      clock := clock + 1;
      LoadAccounts();
    }

    /** `addAccount(name, bankNumber)`: a new active account. */
    method AddAccount(name: string, bankNumber: string) returns (a: Account)
      requires Valid()
      modifies this
      ensures Valid() && Loaded()
      ensures a == Account(NatToString(|old(docs)|), name, bankNumber, true, old(clock))
      ensures docs == old(docs) + [a] && clock == old(clock) + 1
      ensures allAccounts == old(ActiveAccounts(docs)) + [a]
    {
      var added := Create([(name, bankNumber)]);
      a := added[0];
      assert added == [a];
    }

    /** `updateAccount(id, name, bankNumber)`; an unknown document is an error that changes nothing. */
    method UpdateAccount(id: string, name: string, bankNumber: string) returns (ok: bool)
      requires Valid()
      modifies this
      ensures ok <==> exists a | a in old(docs) :: a.id == id
      ensures docs == if ok then RenameAccount(old(docs), id, name, bankNumber) else old(docs)
      ensures Valid() && Loaded() && clock == old(clock)
    {
      ok := FindAccount(docs, id).Some?;
      if ok {
        RenameKeepsInvariant(docs, clock, id, name, bankNumber);
        Store(RenameAccount(docs, id, name, bankNumber));
      } else {
        LoadAccounts();
      }
    }

    /** The soft delete of `deactivateAccount`; an unknown document is an error that changes nothing. */
    method Deactivate(id: string) returns (ok: bool)
      requires Valid()
      modifies this
      ensures ok <==> exists a | a in old(docs) :: a.id == id
      ensures docs == if ok then DeactivateDoc(old(docs), id) else old(docs)
      ensures ok ==> allAccounts == RemoveAccount(old(ActiveAccounts(docs)), id)
      ensures Valid() && Loaded() && clock == old(clock)
    {
      ok := FindAccount(docs, id).Some?;
      if ok {
        DeactivateKeepsInvariant(docs, clock, id);
        DeactivateHides(docs, id);
        Store(DeactivateDoc(docs, id));
      } else {
        LoadAccounts();
      }
    }
  }
}
