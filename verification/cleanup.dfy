/** Destination cleanup (pkg/api/client.go, lines 244-357): which databases
    and collections `CleanDestination` and `ThoroughCleanDestination` drop.
    The destination cluster is an abstract store from database names to
    collection names; the listings the driver returns and the drops that fail
    are inputs. */
module Cleanup {
  import opened Wrappers

  /** Database name to the names of its collections. */
  type Store = map<string, set<string>>

  const SystemDatabases: set<string> := {"admin", "local", "config"}
  const BookkeepingCollections: set<string> :=
    {"oplog.rs", "replset.minvalid", "replset.oplogTruncateAfterPoint"}
  const EssentialAdminCollections: set<string> :=
    {"system.users", "system.roles", "system.version"}
  const SystemPrefix := "system."

  /** A database the cleanup may drop: anything but admin, local and config,
      compared exactly (so "Admin" is a user database). */
  predicate IsUserDatabase(db: string)
    ensures IsUserDatabase(db) <==> db != "admin" && db != "local" && db != "config"
  {
    db !in SystemDatabases
  }

  /** A collection of `local` that `ThoroughCleanDestination` drops. */
  predicate IsBookkeeping(coll: string)
    ensures IsBookkeeping(coll) <==>
      coll == "oplog.rs" || coll == "replset.minvalid" || coll == "replset.oplogTruncateAfterPoint"
  {
    coll in BookkeepingCollections
  }

  predicate HasPrefix(s: string, prefix: string)
  {
    |prefix| <= |s| && s[..|prefix|] == prefix
  }

  /** A collection of `admin` that `ThoroughCleanDestination` drops: never
      one of the essential three, never a `system.` collection. */
  predicate IsAdminDroppable(coll: string)
    ensures IsAdminDroppable(coll) ==>
      coll != "system.users" && coll != "system.roles" && coll != "system.version"
    ensures IsAdminDroppable(coll) ==> !HasPrefix(coll, SystemPrefix)
  {
    coll !in EssentialAdminCollections && !HasPrefix(coll, SystemPrefix)
  }

  /** The names of `names` that `keep` selects, in their order. */
  function Keep(names: seq<string>, keep: string -> bool): (r: seq<string>)
    ensures |r| <= |names|
  {
    if names == [] then []
    else (if keep(names[0]) then [names[0]] else []) + Keep(names[1..], keep)
  }

  /** `Keep` selects exactly the names `keep` accepts. */
  lemma {:induction false} KeepMembers(names: seq<string>, keep: string -> bool)
    ensures forall x :: x in Keep(names, keep) <==> x in names && keep(x)
  {
    if names != [] {
      KeepMembers(names[1..], keep);
      assert names == [names[0]] + names[1..];
    }
  }

  lemma {:induction false} KeepAppend(a: seq<string>, b: seq<string>, keep: string -> bool)
    ensures Keep(a + b, keep) == Keep(a, keep) + Keep(b, keep)
  {
    if a == [] {
      assert a + b == b;
    } else {
      var head := if keep(a[0]) then [a[0]] else [];
      assert (a + b)[0] == a[0];
      assert (a + b)[1..] == a[1..] + b;
      assert Keep(a + b, keep) == head + Keep(a[1..] + b, keep);
      KeepAppend(a[1..], b, keep);
      assert Keep(a, keep) == head + Keep(a[1..], keep);
    }
  }

  /** One step of a loop over `names`: the selection of the first i+1 names. */
  lemma KeepStep(names: seq<string>, i: nat, keep: string -> bool)
    requires i < |names|
    ensures Keep(names[..i + 1], keep) == Keep(names[..i], keep) + (if keep(names[i]) then [names[i]] else [])
  {
    assert names[..i + 1] == names[..i] + [names[i]];
    KeepAppend(names[..i], [names[i]], keep);
    assert [names[i]][1..] == [];
  }

  /** A drop command sent to the destination. */
  datatype Drop = DropDatabase(db: string) | DropCollection(db: string, coll: string)

  /** One database drop per name, in order. */
  function DatabaseDrops(dbs: seq<string>): seq<Drop>
  {
    if dbs == [] then [] else [DropDatabase(dbs[0])] + DatabaseDrops(dbs[1..])
  }

  /** One drop of a collection of `db` per name, in order. */
  function CollectionDrops(db: string, colls: seq<string>): seq<Drop>
  {
    if colls == [] then [] else [DropCollection(db, colls[0])] + CollectionDrops(db, colls[1..])
  }

  lemma {:induction false} DatabaseDropsAppend(names: seq<string>, x: string)
    ensures DatabaseDrops(names + [x]) == DatabaseDrops(names) + [DropDatabase(x)]
  {
    if names == [] {
      assert names + [x] == [x];
    } else {
      assert (names + [x])[0] == names[0];
      assert (names + [x])[1..] == names[1..] + [x];
      DatabaseDropsAppend(names[1..], x);
    }
  }

  lemma {:induction false} CollectionDropsAppend(db: string, names: seq<string>, x: string)
    ensures CollectionDrops(db, names + [x]) == CollectionDrops(db, names) + [DropCollection(db, x)]
  {
    if names == [] {
      assert names + [x] == [x];
    } else {
      assert (names + [x])[0] == names[0];
      assert (names + [x])[1..] == names[1..] + [x];
      CollectionDropsAppend(db, names[1..], x);
    }
  }

  /** Extending a drop log in two steps is extending it once. */
  lemma LogAppend(log: seq<Drop>, a: seq<Drop>, b: seq<Drop>)
    ensures log + a + b == log + (a + b)
  {
  }

  lemma {:induction false} DatabaseDropsMembers(dbs: seq<string>)
    ensures forall d :: d in DatabaseDrops(dbs) <==> d.DropDatabase? && d.db in dbs
  {
    if dbs != [] {
      DatabaseDropsMembers(dbs[1..]);
      assert dbs == [dbs[0]] + dbs[1..];
    }
  }

  lemma {:induction false} CollectionDropsMembers(db: string, colls: seq<string>)
    ensures forall d :: d in CollectionDrops(db, colls) <==> d.DropCollection? && d.db == db && d.coll in colls
  {
    if colls != [] {
      CollectionDropsMembers(db, colls[1..]);
      assert colls == [colls[0]] + colls[1..];
    }
  }

  /** The set of names in a sequence. */
  function Names(s: seq<string>): set<string>
  {
    set x | x in s
  }

  lemma NamesAppend(names: seq<string>, x: string)
    ensures Names(names + [x]) == Names(names) + {x}
  {
  }

  /** `s` with the collections `colls` removed from database `db`. Dropping a
      collection of a database that does not exist changes nothing. */
  function RemoveCollections(s: Store, db: string, colls: set<string>): Store
  {
    if db in s then s[db := s[db] - colls] else s
  }

  lemma RemoveNothing(s: Store, db: string)
    ensures RemoveCollections(s, db, {}) == s
  {
    if db in s {
      assert s[db] - {} == s[db];
    }
  }

  lemma RemoveCollectionsTwice(s: Store, db: string, a: set<string>, b: set<string>)
    ensures RemoveCollections(RemoveCollections(s, db, a), db, b) == RemoveCollections(s, db, a + b)
  {
    if db in s {
      assert s[db] - a - b == s[db] - (a + b);
    }
  }

  lemma RemoveDatabasesTwice(s: Store, a: set<string>, b: set<string>)
    ensures s - a - b == s - (a + b)
  {
  }

  /** The effect of a drop the server acknowledged. */
  function Apply(s: Store, d: Drop): Store
  {
    match d
    case DropDatabase(db) => s - {db}
    case DropCollection(db, coll) => RemoveCollections(s, db, {coll})
  }

  /** The drops the safety rule permits: whole user databases, bookkeeping
      collections of `local`, non-system collections of `admin`. */
  predicate SafeDrop(d: Drop)
  {
    match d
    case DropDatabase(db) => IsUserDatabase(db)
    case DropCollection(db, coll) =>
      (db == "local" && IsBookkeeping(coll)) || (db == "admin" && IsAdminDroppable(coll))
  }

  /** The part of a store that cleanup must never touch: the system databases
      themselves, every collection of `config`, every collection of `local`
      but the bookkeeping ones, and every `system.*` collection of `admin`. */
  function Protected(s: Store): Store
  {
    map db | db in s && !IsUserDatabase(db) :: ProtectedCollections(db, s[db])
  }

  function ProtectedCollections(db: string, colls: set<string>): set<string>
  {
    if db == "local" then set c | c in colls && !IsBookkeeping(c)
    else if db == "admin" then set c | c in colls && !IsAdminDroppable(c)
    else colls
  }

  /** The position in `listed` of the first user database whose drop fails,
      or |listed| when none does: every drop before it succeeds. */
  function CompletedPrefix(listed: seq<string>, failing: set<string>): (n: nat)
    ensures n <= |listed|
    ensures n < |listed| ==> IsUserDatabase(listed[n]) && listed[n] in failing
  {
    if listed == [] then 0
    else if IsUserDatabase(listed[0]) && listed[0] in failing then 0
    else 1 + CompletedPrefix(listed[1..], failing)
  }

  /** Every drop before `CompletedPrefix` succeeds. */
  lemma {:induction false} CompletedPrefixBefore(listed: seq<string>, failing: set<string>, i: nat)
    requires i < CompletedPrefix(listed, failing)
    ensures !IsUserDatabase(listed[i]) || listed[i] !in failing
  {
    if i > 0 {
      CompletedPrefixBefore(listed[1..], failing, i - 1);
    }
  }

  /** The names of `names` whose drop the server acknowledges. */
  function Acknowledged(names: seq<string>, failing: set<string>): set<string>
  {
    set c | c in names && c !in failing
  }

  /** The collections of a listing that a best-effort pass drops; a failed
      listing drops nothing. */
  function Selected(listing: Option<seq<string>>, keep: string -> bool): seq<string>
  {
    if listing.None? then [] else Keep(listing.value, keep)
  }

  /** The drops the user-database phase sends: every listed user database
      up to and including the first one whose drop fails. */
  function UserPhaseDrops(listed: seq<string>, failing: set<string>): seq<Drop>
  {
    var n := CompletedPrefix(listed, failing);
    DatabaseDrops(Keep(listed[..n], IsUserDatabase))
      + (if n < |listed| then [DropDatabase(listed[n])] else [])
  }

  /** The store after the user-database phase: the databases whose drop
      was acknowledged are gone. */
  function UserPhaseStore(s: Store, listed: seq<string>, failing: set<string>): Store
  {
    s - Names(Keep(listed[..CompletedPrefix(listed, failing)], IsUserDatabase))
  }

  /** The drops of the best-effort phase: bookkeeping collections of
      `local`, then non-system collections of `admin`. */
  function SystemPhaseDrops(localListing: Option<seq<string>>, adminListing: Option<seq<string>>): seq<Drop>
  {
    CollectionDrops("local", Selected(localListing, IsBookkeeping))
      + CollectionDrops("admin", Selected(adminListing, IsAdminDroppable))
  }

  /** The store after the best-effort phase: the acknowledged collection drops are applied. */
  function SystemPhaseStore(s: Store, localListing: Option<seq<string>>, localFailing: set<string>,
                            adminListing: Option<seq<string>>, adminFailing: set<string>): Store
  {
    RemoveCollections(
      RemoveCollections(s, "local", Acknowledged(Selected(localListing, IsBookkeeping), localFailing)),
      "admin", Acknowledged(Selected(adminListing, IsAdminDroppable), adminFailing))
  }

  /** The drops `ThoroughCleanDestination` sends once listing succeeded: the
      best-effort phase runs only when every user-database drop succeeded. */
  function ThoroughDrops(listed: seq<string>, failing: set<string>,
                         localListing: Option<seq<string>>, adminListing: Option<seq<string>>): seq<Drop>
  {
    UserPhaseDrops(listed, failing)
      + if CompletedPrefix(listed, failing) < |listed| then [] else SystemPhaseDrops(localListing, adminListing)
  }

  /** The store after `ThoroughCleanDestination` once listing succeeded. */
  function ThoroughStore(s: Store, listed: seq<string>, failing: set<string>,
                         localListing: Option<seq<string>>, localFailing: set<string>,
                         adminListing: Option<seq<string>>, adminFailing: set<string>): Store
  {
    var t := UserPhaseStore(s, listed, failing);
    if CompletedPrefix(listed, failing) < |listed| then t
    else SystemPhaseStore(t, localListing, localFailing, adminListing, adminFailing)
  }

  datatype CleanError = ConnectFailed | ListFailed | DropFailed(db: string)

  /** A connected destination cluster. `issued` records every drop sent to
      it, acknowledged or not. */
  class Destination {
    var databases: Store
    ghost var issued: seq<Drop>

    constructor (databases: Store)
      ensures this.databases == databases && issued == []
    {
      this.databases := databases;
      issued := [];
    }

    /** Sends one drop; `fails` is the driver's answer. */
    method Send(d: Drop, fails: bool) returns (ok: bool)
      modifies this
      ensures ok == !fails
      ensures issued == old(issued) + [d]
      ensures databases == if ok then Apply(old(databases), d) else old(databases)
    {
      issued := issued + [d];
      ok := !fails;
      if ok {
        databases := Apply(databases, d);
      }
    }
  }

  /** The drop loop both cleanups share: drop every listed user database in
      order, stopping at the first drop that fails and naming that database. */
  method DropUserDatabases(dest: Destination, listed: seq<string>, failing: set<string>)
    returns (failed: Option<string>)
    modifies dest
    ensures var n := CompletedPrefix(listed, failing);
      failed == (if n < |listed| then Some(listed[n]) else None)
    ensures dest.issued == old(dest.issued) + UserPhaseDrops(listed, failing)
    ensures dest.databases == UserPhaseStore(old(dest.databases), listed, failing)
  {
    ghost var n := CompletedPrefix(listed, failing);
    ghost var done: seq<string> := [];
    ghost var removed: set<string> := {};
    var i := 0;
    assert listed[..0] == [];
    assert dest.databases == old(dest.databases) - removed;
    while i < |listed|
      invariant 0 <= i <= n
      invariant done == Keep(listed[..i], IsUserDatabase) && removed == Names(done)
      invariant dest.issued == old(dest.issued) + DatabaseDrops(done)
      invariant dest.databases == old(dest.databases) - removed
    {
      var db := listed[i];
      KeepStep(listed, i, IsUserDatabase);
      if i < n {
        CompletedPrefixBefore(listed, failing, i);
      }
      if IsUserDatabase(db) {
        var ok := dest.Send(DropDatabase(db), db in failing);
        if !ok {
          UserPhaseUpTo(old(dest.databases), listed, failing, i);
          return Some(db);
        }
        DatabaseDropsAppend(done, db);
        LogAppend(old(dest.issued), DatabaseDrops(done), [DropDatabase(db)]);
        RemoveDatabasesTwice(old(dest.databases), removed, {db});
        NamesAppend(done, db);
        done := done + [db];
        removed := removed + {db};
      }
      i := i + 1;
    }
    UserPhaseUpTo(old(dest.databases), listed, failing, i);
    failed := None;
  }

  /** The user-database phase in terms of the loop position `i` it stopped at. */
  lemma UserPhaseUpTo(s: Store, listed: seq<string>, failing: set<string>, i: nat)
    requires i == CompletedPrefix(listed, failing)
    ensures var done := Keep(listed[..i], IsUserDatabase);
      && UserPhaseDrops(listed, failing) == DatabaseDrops(done) + (if i < |listed| then [DropDatabase(listed[i])] else [])
      && UserPhaseStore(s, listed, failing) == s - Names(done)
      && (i == |listed| ==> listed[..i] == listed)
  {
  }

  /** A best-effort pass over the collections of `db`: when the listing
      succeeded, drop each listed collection `keep` selects, skipping the
      drops that fail; when it failed, do nothing. */
  method DropSelectedCollections(dest: Destination, db: string, listing: Option<seq<string>>,
                                 keep: string -> bool, failing: set<string>)
    modifies dest
    ensures dest.issued == old(dest.issued) + CollectionDrops(db, Selected(listing, keep))
    ensures dest.databases ==
      RemoveCollections(old(dest.databases), db, Acknowledged(Selected(listing, keep), failing))
  {
    AcknowledgedNothing(failing);
    RemoveNothing(dest.databases, db);
    if listing.None? {
      return;
    }
    var listed := listing.value;
    ghost var done: seq<string> := [];
    ghost var removed: set<string> := {};
    var i := 0;
    assert listed[..0] == [];
    while i < |listed|
      invariant 0 <= i <= |listed|
      invariant done == Keep(listed[..i], keep) && removed == Acknowledged(done, failing)
      invariant dest.issued == old(dest.issued) + CollectionDrops(db, done)
      invariant dest.databases == RemoveCollections(old(dest.databases), db, removed)
    {
      var coll := listed[i];
      KeepStep(listed, i, keep);
      if keep(coll) {
        var _ := dest.Send(DropCollection(db, coll), coll in failing);
        CollectionDropsAppend(db, done, coll);
        LogAppend(old(dest.issued), CollectionDrops(db, done), [DropCollection(db, coll)]);
        AcknowledgedAppend(done, coll, failing);
        if coll !in failing {
          RemoveCollectionsTwice(old(dest.databases), db, removed, {coll});
          removed := removed + {coll};
        }
        done := done + [coll];
      }
      i := i + 1;
    }
    assert listed[..i] == listed;
  }

  lemma AcknowledgedNothing(failing: set<string>)
    ensures Acknowledged([], failing) == {}
  {
  }

  lemma AcknowledgedAppend(names: seq<string>, x: string, failing: set<string>)
    ensures Acknowledged(names + [x], failing) ==
      Acknowledged(names, failing) + (if x in failing then {} else {x})
  {
  }

  /** `CleanDestination`: `connected` is whether connecting succeeded,
      `listing` what listing the databases returned (None: it failed),
      `failing` the databases whose drop the server refuses. */
  method CleanDestination(dest: Destination, connected: bool, listing: Option<seq<string>>,
                          failing: set<string>)
    returns (r: Outcome<CleanError>)
    modifies dest
    ensures !connected ==> r == Fail(ConnectFailed) && unchanged(dest)
    ensures connected && listing.None? ==> r == Fail(ListFailed) && unchanged(dest)
    ensures connected && listing.Some? ==>
      var listed := listing.value;
      var n := CompletedPrefix(listed, failing);
      && r == (if n < |listed| then Fail(DropFailed(listed[n])) else Pass)
      && dest.issued == old(dest.issued) + UserPhaseDrops(listed, failing)
      && dest.databases == UserPhaseStore(old(dest.databases), listed, failing)
  {
    if !connected {
      return Fail(ConnectFailed);
    }
    if listing.None? {
      return Fail(ListFailed);
    }
    var failed := DropUserDatabases(dest, listing.value, failing);
    if failed.Some? {
      return Fail(DropFailed(failed.value));
    }
    return Pass;
  }

  /** The second phase of the thorough cleanup: bookkeeping collections of
      `local`, then non-system collections of `admin`. A failed listing skips
      its pass. */
  method DropSystemCollections(dest: Destination,
                               localListing: Option<seq<string>>, localFailing: set<string>,
                               adminListing: Option<seq<string>>, adminFailing: set<string>)
    modifies dest
    ensures dest.issued == old(dest.issued) + SystemPhaseDrops(localListing, adminListing)
    ensures dest.databases ==
      SystemPhaseStore(old(dest.databases), localListing, localFailing, adminListing, adminFailing)
  {
    DropSelectedCollections(dest, "local", localListing, IsBookkeeping, localFailing);
    DropSelectedCollections(dest, "admin", adminListing, IsAdminDroppable, adminFailing);
    LogAppend(old(dest.issued), CollectionDrops("local", Selected(localListing, IsBookkeeping)),
              CollectionDrops("admin", Selected(adminListing, IsAdminDroppable)));
  }

  /** `ThoroughCleanDestination`: the user-database phase of
      `CleanDestination`, then a best-effort pass over `local` and one over
      `admin`, each with its own listing and failing drops. */
  method ThoroughCleanDestination(dest: Destination, connected: bool, listing: Option<seq<string>>,
                                  failing: set<string>,
                                  localListing: Option<seq<string>>, localFailing: set<string>,
                                  adminListing: Option<seq<string>>, adminFailing: set<string>)
    returns (r: Outcome<CleanError>)
    modifies dest
    ensures !connected ==> r == Fail(ConnectFailed) && unchanged(dest)
    ensures connected && listing.None? ==> r == Fail(ListFailed) && unchanged(dest)
    ensures connected && listing.Some? ==>
      var listed := listing.value;
      var n := CompletedPrefix(listed, failing);
      && r == (if n < |listed| then Fail(DropFailed(listed[n])) else Pass)
      && dest.issued == old(dest.issued) + ThoroughDrops(listed, failing, localListing, adminListing)
      && dest.databases == ThoroughStore(old(dest.databases), listed, failing,
                                         localListing, localFailing, adminListing, adminFailing)
  {
    if !connected {
      return Fail(ConnectFailed);
    }
    if listing.None? {
      return Fail(ListFailed);
    }
    ThoroughPhases(dest.databases, listing.value, failing, localListing, localFailing, adminListing, adminFailing);
    var failed := DropUserDatabases(dest, listing.value, failing);
    if failed.Some? {
      return Fail(DropFailed(failed.value));
    }
    DropSystemCollections(dest, localListing, localFailing, adminListing, adminFailing);
    LogAppend(old(dest.issued), UserPhaseDrops(listing.value, failing), SystemPhaseDrops(localListing, adminListing));
    return Pass;
  }

  /** The thorough cleanup is the user-database phase, followed by the
      system-collection phase only when no user-database drop failed. */
  lemma ThoroughPhases(s: Store, listed: seq<string>, failing: set<string>,
                       localListing: Option<seq<string>>, localFailing: set<string>,
                       adminListing: Option<seq<string>>, adminFailing: set<string>)
    ensures CompletedPrefix(listed, failing) < |listed| ==>
      && ThoroughDrops(listed, failing, localListing, adminListing) == UserPhaseDrops(listed, failing)
      && ThoroughStore(s, listed, failing, localListing, localFailing, adminListing, adminFailing)
         == UserPhaseStore(s, listed, failing)
    ensures CompletedPrefix(listed, failing) == |listed| ==>
      && ThoroughDrops(listed, failing, localListing, adminListing)
         == UserPhaseDrops(listed, failing) + SystemPhaseDrops(localListing, adminListing)
      && ThoroughStore(s, listed, failing, localListing, localFailing, adminListing, adminFailing)
         == SystemPhaseStore(UserPhaseStore(s, listed, failing), localListing, localFailing, adminListing, adminFailing)
  {
    if CompletedPrefix(listed, failing) < |listed| {
      assert UserPhaseDrops(listed, failing) + [] == UserPhaseDrops(listed, failing);
    }
  }

  /** Every drop the basic cleanup sends is a drop of a whole user database:
      admin, local and config are never dropped. */
  lemma UserPhaseDropsOnlyUserDatabases(listed: seq<string>, failing: set<string>)
    ensures forall d :: d in UserPhaseDrops(listed, failing) ==> d.DropDatabase? && IsUserDatabase(d.db)
  {
    var n := CompletedPrefix(listed, failing);
    KeepMembers(listed[..n], IsUserDatabase);
    DatabaseDropsMembers(Keep(listed[..n], IsUserDatabase));
  }

  /** Without a failing drop, every listed user database is dropped, in list
      order. After a failing drop, that database's drop is the last one sent,
      and no database listed after it (and not before it) is dropped. */
  lemma UserPhaseStopsAtFirstFailure(listed: seq<string>, failing: set<string>)
    ensures CompletedPrefix(listed, failing) == |listed| ==>
      UserPhaseDrops(listed, failing) == DatabaseDrops(Keep(listed, IsUserDatabase))
    ensures var n := CompletedPrefix(listed, failing);
      var ds := UserPhaseDrops(listed, failing);
      n < |listed| ==>
        && ds[|ds| - 1] == DropDatabase(listed[n])
        && forall j :: n < j < |listed| && listed[j] !in listed[..n + 1] ==> DropDatabase(listed[j]) !in ds
  {
    var n := CompletedPrefix(listed, failing);
    if n == |listed| {
      assert listed[..n] == listed;
    } else {
      KeepMembers(listed[..n], IsUserDatabase);
      DatabaseDropsMembers(Keep(listed[..n], IsUserDatabase));
      var ds := UserPhaseDrops(listed, failing);
      forall j | n < j < |listed| && listed[j] !in listed[..n + 1]
        ensures DropDatabase(listed[j]) !in ds
      {
        assert listed[j] !in listed[..n] by {
          assert listed[..n] <= listed[..n + 1];
        }
      }
    }
  }

  /** Every drop in `ds` is one the safety rule permits. */
  predicate AllSafe(ds: seq<Drop>)
  {
    forall d :: d in ds ==> SafeDrop(d)
  }

  /** A best-effort pass whose rule only selects collections the safety rule
      permits on `db` sends only safe drops. */
  lemma SelectedDropsSafe(db: string, listing: Option<seq<string>>, keep: string -> bool)
    requires forall c :: keep(c) ==> SafeDrop(DropCollection(db, c))
    ensures AllSafe(CollectionDrops(db, Selected(listing, keep)))
  {
    if listing.Some? {
      KeepMembers(listing.value, keep);
    }
    CollectionDropsMembers(db, Selected(listing, keep));
  }

  /** Every drop the thorough cleanup sends is one the safety rule permits. */
  lemma ThoroughDropsAreSafe(listed: seq<string>, failing: set<string>,
                             localListing: Option<seq<string>>, adminListing: Option<seq<string>>)
    ensures AllSafe(ThoroughDrops(listed, failing, localListing, adminListing))
  {
    UserPhaseDropsOnlyUserDatabases(listed, failing);
    var user := UserPhaseDrops(listed, failing);
    assert AllSafe(user);
    if CompletedPrefix(listed, failing) < |listed| {
      assert ThoroughDrops(listed, failing, localListing, adminListing) == user + [];
    } else {
      SelectedDropsSafe("local", localListing, IsBookkeeping);
      SelectedDropsSafe("admin", adminListing, IsAdminDroppable);
    }
  }

  /** Whatever the listings and the failing drops, the thorough cleanup
      leaves the protected part of the store as it was. */
  lemma ThoroughStoreKeepsProtected(s: Store, listed: seq<string>, failing: set<string>,
                                    localListing: Option<seq<string>>, localFailing: set<string>,
                                    adminListing: Option<seq<string>>, adminFailing: set<string>)
    ensures Protected(ThoroughStore(s, listed, failing, localListing, localFailing, adminListing, adminFailing))
         == Protected(s)
  {
    var n := CompletedPrefix(listed, failing);
    var users := Names(Keep(listed[..n], IsUserDatabase));
    KeepMembers(listed[..n], IsUserDatabase);
    if localListing.Some? {
      KeepMembers(localListing.value, IsBookkeeping);
    }
    if adminListing.Some? {
      KeepMembers(adminListing.value, IsAdminDroppable);
    }
    if n < |listed| {
      CleanupKeepsProtected(s, users, {}, {});
      RemoveNothing(s - users, "local");
      RemoveNothing(s - users, "admin");
    } else {
      CleanupKeepsProtected(s, users,
        Acknowledged(Selected(localListing, IsBookkeeping), localFailing),
        Acknowledged(Selected(adminListing, IsAdminDroppable), adminFailing));
    }
  }

  /** Removing user databases, then bookkeeping collections of `local`, then
      non-system collections of `admin`, leaves the protected part of the
      store exactly as it was. */
  lemma CleanupKeepsProtected(s: Store, users: set<string>, local: set<string>, admin: set<string>)
    requires forall db :: db in users ==> IsUserDatabase(db)
    requires forall c :: c in local ==> IsBookkeeping(c)
    requires forall c :: c in admin ==> IsAdminDroppable(c)
    ensures Protected(RemoveCollections(RemoveCollections(s - users, "local", local), "admin", admin))
         == Protected(s)
  {
    var t := RemoveCollections(RemoveCollections(s - users, "local", local), "admin", admin);
    assert t.Keys == s.Keys - users;
    forall db | db in s && !IsUserDatabase(db)
      ensures ProtectedCollections(db, t[db]) == ProtectedCollections(db, s[db])
    {
    }
  }

  /** A single acknowledged drop the safety rule permits leaves the
      protected part of the store as it was. */
  lemma SafeDropKeepsProtected(s: Store, d: Drop)
    requires SafeDrop(d)
    ensures Protected(Apply(s, d)) == Protected(s)
  {
    var t := Apply(s, d);
    forall db | db in s && !IsUserDatabase(db)
      ensures db in t && ProtectedCollections(db, t[db]) == ProtectedCollections(db, s[db])
    {
    }
  }

  /** With a listing that names every database and no failing drop, the
      basic cleanup leaves only system databases behind. */
  lemma CleanLeavesOnlySystemDatabases(s: Store, listed: seq<string>, failing: set<string>)
    requires s.Keys <= Names(listed)
    requires CompletedPrefix(listed, failing) == |listed|
    ensures UserPhaseStore(s, listed, failing).Keys <= SystemDatabases
  {
    assert listed[..|listed|] == listed;
    KeepMembers(listed, IsUserDatabase);
  }

  /** The `admin` rule's explicit allow-list is redundant: every essential
      collection starts with "system.", so a collection of `admin` is dropped
      exactly when its name does not start with "system.". */
  lemma AdminDroppableIffNotSystem(coll: string)
    ensures IsAdminDroppable(coll) <==> !HasPrefix(coll, SystemPrefix)
  {
    if coll in EssentialAdminCollections {
      assert coll[..|SystemPrefix|] == SystemPrefix;
    }
  }

  /** On databases [admin, local, config, shop] the cleanup drops only shop;
      matching is exact, so "Admin" and "LOCAL" are dropped. */
  lemma OnlyUserDatabasesSelected()
    ensures Keep(["admin", "local", "config", "shop"], IsUserDatabase) == ["shop"]
    ensures Keep(["Admin", "LOCAL", "config"], IsUserDatabase) == ["Admin", "LOCAL"]
  {
    KeepAppend(["admin", "local", "config"], ["shop"], IsUserDatabase);
    KeepAppend(["admin", "local"], ["config"], IsUserDatabase);
    KeepAppend(["admin"], ["local"], IsUserDatabase);
    KeepAppend(["Admin", "LOCAL"], ["config"], IsUserDatabase);
    KeepAppend(["Admin"], ["LOCAL"], IsUserDatabase);
  }
}
