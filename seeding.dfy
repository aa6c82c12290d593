/**
 * First-run seeding, run when the administrator signs in: the admin settings
 * document and the three default accounts, each created only when absent.
 */
module Seeding {
  import opened Wrappers
  import opened Strings
  import opened Accounts
  import Auth

  /** The names of the default accounts, in the order they are written. */
  const DefaultNames: seq<string> := ["Kas Tunai", "Kas Bank (Kas Lingkungan)", "Kas Bank (Dana Sosial)"]

  /** The (name, bank number) pairs of the default accounts: no bank number. */
  function DefaultEntries(): (e: seq<(string, string)>)
    ensures |e| == |DefaultNames| == 3
    ensures forall i | 0 <= i < 3 :: e[i] == (DefaultNames[i], "")
  {
    [(DefaultNames[0], ""), (DefaultNames[1], ""), (DefaultNames[2], "")]
  }

  /** The accounts collection after `initializeDefaultAccounts`, with `stamp` the batch's server time. */
  function SeededDocs(docs: seq<Account>, stamp: nat): (r: seq<Account>)
    ensures docs != [] ==> r == docs
    ensures docs == [] ==> |r| == 3 && forall i | 0 <= i < 3 :: r[i] == Account(NatToString(i), DefaultNames[i], "", true, stamp)
  {
    if docs != [] then docs
    else
      seq(3, i requires 0 <= i < 3 => Account(NatToString(i), DefaultNames[i], "", true, stamp))
  }

  /** Seeding a seeded collection changes nothing, whatever the second run's time. */
  lemma SeedingIdempotent(docs: seq<Account>, stamp: nat, later: nat)
    ensures SeededDocs(SeededDocs(docs, stamp), later) == SeededDocs(docs, stamp)
  {
  }

  /** A seeded collection of an empty store shows exactly the three default accounts to every page. */
  lemma {:induction false} SeededAllActive(stamp: nat)
    ensures ActiveAccounts(SeededDocs([], stamp)) == SeededDocs([], stamp)
  {
    var r := SeededDocs([], stamp);
    assert r[..2][..1] == [r[0]] && r[..2] == r[..1] + [r[1]] && r == r[..2] + [r[2]];
    assert ActiveAccounts(r[..1]) == ActiveAccounts([]) + [r[0]];
  }

  /** `initializeDefaultAccounts`: create the three accounts in one batch when the collection holds no document. */
  method InitializeDefaultAccounts(registry: AccountRegistry)
    requires registry.Valid()
    modifies registry
    ensures registry.docs == SeededDocs(old(registry.docs), old(registry.clock))
    ensures registry.Valid()
    ensures old(registry.docs) != [] ==>
      registry.allAccounts == old(registry.allAccounts) && registry.clock == old(registry.clock)
    ensures old(registry.docs) == [] ==> registry.Loaded() && registry.clock == old(registry.clock) + 1
  {
    if registry.docs == [] {
      var added := registry.Create(DefaultEntries());
      assert registry.docs == SeededDocs([], old(registry.clock));
    }
  }

  /** The `settings/admin` document. */
  datatype AdminSettings = AdminSettings(noRekening: string, createdAt: nat)

  /** The settings collection, reduced to its one document. */
  class SettingsStore {
    var admin: Option<AdminSettings>

    constructor(stored: Option<AdminSettings>)
      ensures admin == stored
    {
      admin := stored;
    }

    /** `initializeAdminSettings`: write an empty account number when the document is absent. */
    method InitializeAdminSettings(now: nat)
      modifies this
      ensures old(admin).None? ==> admin == Some(AdminSettings("", now))
      ensures old(admin).Some? ==> admin == old(admin)
    {
      if admin.None? {
        admin := Some(AdminSettings("", now));
      }
    }
  }

  /** The seeding listener: both initialisations run only for the administrator address. */
  method OnAuthStateChanged(user: Option<Auth.User>, store: SettingsStore, registry: AccountRegistry, now: nat)
    requires registry.Valid()
    modifies store, registry
    ensures registry.Valid()
    ensures user.Some? && user.value.email == Auth.AdminEmail ==>
      && store.admin == (if old(store.admin).None? then Some(AdminSettings("", now)) else old(store.admin))
      && registry.docs == SeededDocs(old(registry.docs), old(registry.clock))
    ensures !(user.Some? && user.value.email == Auth.AdminEmail) ==>
      store.admin == old(store.admin) && registry.docs == old(registry.docs)
      && registry.allAccounts == old(registry.allAccounts) && registry.clock == old(registry.clock)
  {
    if user.Some? && user.value.email == Auth.AdminEmail {
      store.InitializeAdminSettings(now);
      InitializeDefaultAccounts(registry);
    }
  }
}
