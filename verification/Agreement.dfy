/** When a pool serves exactly the committed clients, and how the manager's steps and compensations keep it so. */
module Agreement {
  import opened Wrappers
  import opened PoolView
  import opened RestorePlan

  /** The entry's peer is on the interface of its profile, with its preshared key and at its explicit port. */
  ghost predicate Served(v: View, e: Entry) {
    && e.profile.validated
    && Tracks(v, e.profile.key, e.pk)
    && v.slots[e.profile.key].peers[e.pk] == e.psk
    && (e.profile.port != 0 ==> v.slots[e.profile.key].port == e.profile.port)
  }

  ghost predicate Owned(es: seq<Entry>, k: ProfileKey, pk: PublicKey) {
    exists i :: 0 <= i < |es| && es[i].pk == pk && es[i].profile.key == k
  }

  /** Every entry is served, every tracked peer is an entry's, and no interface is empty or quarantined. */
  ghost predicate Agrees(v: View, es: seq<Entry>) {
    && (forall i :: 0 <= i < |es| ==> Served(v, es[i]))
    && (forall k, pk :: Tracks(v, k, pk) ==> Owned(es, k, pk))
    && NoEmptySlot(v)
    && v.orphans == map[]
  }

  ghost predicate DistinctKeys(es: seq<Entry>) {
    forall i, j :: 0 <= i < j < |es| ==> es[i].pk != es[j].pk
  }

  ghost predicate Fresh(es: seq<Entry>, pk: PublicKey) {
    forall i :: 0 <= i < |es| ==> es[i].pk != pk
  }

  /** A peer is tracked under one profile only: its own. */
  lemma TrackedOnce(v: View, es: seq<Entry>, i: nat, k: ProfileKey)
    requires Agrees(v, es) && DistinctKeys(es) && i < |es|
    ensures Tracks(v, k, es[i].pk) <==> k == es[i].profile.key
  {
    assert Served(v, es[i]);
    if Tracks(v, k, es[i].pk) {
      assert Owned(es, k, es[i].pk);
    }
  }

  /** The pool and the entries determine each other's peers. */
  lemma PeersAreEntries(v: View, es: seq<Entry>, k: ProfileKey, pk: PublicKey)
    requires Agrees(v, es) && DistinctKeys(es)
    ensures Tracks(v, k, pk) <==> Owned(es, k, pk)
  {
    if Owned(es, k, pk) {
      var i :| 0 <= i < |es| && es[i].pk == pk && es[i].profile.key == k;
      assert Served(v, es[i]);
    }
  }

  // ---------------------------------------------------------------------------------------------
  // Adding
  // ---------------------------------------------------------------------------------------------

  lemma PlacedPort(v: View, c: Limits, k: ProfileKey, requested: int)
    requires PlaceDecision(v, c, k, requested).Ok?
    ensures requested != 0 ==> PlaceDecision(v, c, k, requested).value == requested
    ensures k in v.slots ==> PlaceDecision(v, c, k, requested).value == v.slots[k].port
  {
    hide UsedPorts, FirstFree;
  }

  lemma PlacedTracks(v: View, k: ProfileKey, port: int, pk: PublicKey, psk: Option<Psk>, k': ProfileKey, pk': PublicKey)
    ensures var w := Placed(v, k, port, pk, psk);
            && (Tracks(w, k', pk') <==> (k' == k && pk' == pk) || Tracks(v, k', pk'))
            && (k' in w.slots <==> k' == k || k' in v.slots)
            && (k' in v.slots ==> w.slots[k'].port == v.slots[k'].port)
            && (Tracks(v, k', pk') && !(k' == k && pk' == pk) ==> w.slots[k'].peers[pk'] == v.slots[k'].peers[pk'])
            && w.slots[k].peers[pk] == psk
            && (k !in v.slots ==> w.slots[k].port == port)
            && w.orphans == v.orphans
            && (NoEmptySlot(v) ==> NoEmptySlot(w))
  {
    var w := Placed(v, k, port, pk, psk);
    assert pk in w.slots[k].peers;
  }

  lemma AddedAgrees(v: View, es: seq<Entry>, c: Limits, e: Entry)
    requires Agrees(v, es) && Fresh(es, e.pk) && e.profile.validated
    requires PlaceDecision(v, c, e.profile.key, e.profile.port).Ok?
    ensures Agrees(Placed(v, e.profile.key, PlaceDecision(v, c, e.profile.key, e.profile.port).value, e.pk, e.psk), es + [e])
  {
    hide PlaceDecision, Placed, NoEmptySlot;
    var k := e.profile.key;
    var port := PlaceDecision(v, c, k, e.profile.port).value;
    var w := Placed(v, k, port, e.pk, e.psk);
    var es' := es + [e];
    PlacedPort(v, c, k, e.profile.port);
    PlacedTracks(v, k, port, e.pk, e.psk, k, e.pk);
    forall i | 0 <= i < |es'|
      ensures Served(w, es'[i])
    {
      if i < |es| {
        assert Served(v, es[i]);
        PlacedTracks(v, k, port, e.pk, e.psk, es[i].profile.key, es[i].pk);
      }
    }
    forall k', pk' | Tracks(w, k', pk')
      ensures Owned(es', k', pk')
    {
      PlacedTracks(v, k, port, e.pk, e.psk, k', pk');
      if Tracks(v, k', pk') {
        assert Owned(es, k', pk');
        var i :| 0 <= i < |es| && es[i].pk == pk' && es[i].profile.key == k';
        assert es'[i] == es[i];
      } else {
        assert es'[|es|] == e;
      }
    }
  }

  /** Nothing of a fresh key is in the pool. */
  lemma FreshUntracked(v: View, es: seq<Entry>, k: ProfileKey, pk: PublicKey)
    requires Agrees(v, es) && Fresh(es, pk)
    ensures k in v.slots ==> v.slots[k].peers != map[] && pk !in v.slots[k].peers
  {
    assert Tracks(v, k, pk) ==> Owned(es, k, pk);
  }

  /** A failed add that does not report a failed rollback changes nothing. */
  lemma AddRefused(v: View, v': View, es: seq<Entry>, c: Limits, e: Entry, r: Outcome, quiet: bool)
    requires Agrees(v, es) && Fresh(es, e.pk)
    requires AddEffect(v, v', c, e.profile, e.profile.port, e.pk, e.psk, r, quiet)
    requires r != Done && !r.rollbackFailed
    ensures v' == v
  {
    hide PlaceDecision, OthersKept;
    FreshUntracked(v, es, e.profile.key, e.pk);
  }

  lemma AddServes(v: View, v': View, es: seq<Entry>, c: Limits, e: Entry, quiet: bool)
    requires Agrees(v, es) && Fresh(es, e.pk)
    requires AddEffect(v, v', c, e.profile, e.profile.port, e.pk, e.psk, Done, quiet)
    ensures Agrees(v', es + [e])
  {
    hide PlaceDecision, OthersKept, Placed, Agrees;
    AddedAgrees(v, es, c, e);
  }

  /** Taking a peer back that was just added restores the pool exactly. */
  lemma AddUndone(v: View, v1: View, v2: View, es: seq<Entry>, c: Limits, e: Entry, quiet: bool, r: Outcome, quiet': bool)
    requires Agrees(v, es) && Fresh(es, e.pk)
    requires AddEffect(v, v1, c, e.profile, e.profile.port, e.pk, e.psk, Done, quiet)
    requires RemoveEffect(v1, v2, e.profile, e.pk, r, quiet')
    ensures r == Done ==> v2 == v
    ensures quiet' ==> r == Done
  {
    hide PlaceDecision, OthersKept, Placed, Removed, Agrees;
    var k := e.profile.key;
    var port := PlaceDecision(v, c, k, e.profile.port).value;
    FreshUntracked(v, es, k, e.pk);
    PlacedTracks(v, k, port, e.pk, e.psk, k, e.pk);
    AddThenRemove(v, k, port, e.pk, e.psk);
  }

  // ---------------------------------------------------------------------------------------------
  // Removing
  // ---------------------------------------------------------------------------------------------

  function Without<T>(s: seq<T>, i: nat): (r: seq<T>)
    requires i < |s|
    ensures |r| == |s| - 1
  {
    s[..i] + s[i + 1..]
  }

  ghost predicate EntryAt(es: seq<Entry>, i: nat, e: Entry) {
    i < |es| && es[i] == e
  }

  ghost predicate AgreesWithout(v: View, es: seq<Entry>, i: nat) {
    i < |es| && Agrees(v, Without(es, i))
  }

  ghost predicate PortIs(v: View, k: ProfileKey, port: int) {
    k in v.slots && v.slots[k].port == port
  }

  lemma RemovedTracks(v: View, k: ProfileKey, pk: PublicKey, k': ProfileKey, pk': PublicKey)
    requires Tracks(v, k, pk)
    ensures var w := Removed(v, k, pk);
            && (Tracks(w, k', pk') <==> Tracks(v, k', pk') && !(k' == k && pk' == pk))
            && (Tracks(w, k', pk') ==> w.slots[k'].port == v.slots[k'].port
                                       && w.slots[k'].peers[pk'] == v.slots[k'].peers[pk'])
            && w.orphans == v.orphans
            && (NoEmptySlot(v) ==> NoEmptySlot(w))
  {
    RemovedSlots(v, k, pk);
    if k' == k && pk' != pk && Tracks(v, k, pk') {
      assert pk' in v.slots[k].peers - {pk};
    }
  }

  lemma RemovedAgrees(v: View, es: seq<Entry>, i: nat)
    requires Agrees(v, es) && DistinctKeys(es) && i < |es|
    ensures Tracks(v, es[i].profile.key, es[i].pk)
    ensures Agrees(Removed(v, es[i].profile.key, es[i].pk), Without(es, i))
  {
    hide Removed, NoEmptySlot;
    var e := es[i];
    assert Served(v, e);
    var w := Removed(v, e.profile.key, e.pk);
    var es' := Without(es, i);
    RemovedTracks(v, e.profile.key, e.pk, e.profile.key, e.pk);
    forall j | 0 <= j < |es'|
      ensures Served(w, es'[j])
    {
      var o := if j < i then j else j + 1;
      assert es'[j] == es[o] && es[o].pk != e.pk;
      assert Served(v, es[o]);
      RemovedTracks(v, e.profile.key, e.pk, es[o].profile.key, es[o].pk);
    }
    forall k, pk | Tracks(w, k, pk)
      ensures Owned(es', k, pk)
    {
      RemovedTracks(v, e.profile.key, e.pk, k, pk);
      assert Owned(es, k, pk);
      var o :| 0 <= o < |es| && es[o].pk == pk && es[o].profile.key == k;
      assert es'[if o < i then o else o - 1] == es[o];
    }
  }

  lemma RemoveServes(v: View, v': View, es: seq<Entry>, i: nat, r: Outcome, quiet: bool)
    requires Agrees(v, es) && DistinctKeys(es) && i < |es|
    requires RemoveEffect(v, v', es[i].profile, es[i].pk, r, quiet)
    ensures r == Done ==> Agrees(v', Without(es, i))
    ensures r != Done ==> v' == v && !quiet
  {
    hide Removed, Agrees, Without;
    RemovedAgrees(v, es, i);
    EntryServed(v, es, i);
  }

  lemma EntryServed(v: View, es: seq<Entry>, i: nat)
    requires Agrees(v, es) && i < |es|
    ensures Served(v, es[i]) && v.slots[es[i].profile.key].peers != map[]
  {
  }

  /** Adding a removed peer back at the port it had restores the pool exactly, and only a host failure prevents it. */
  lemma RemoveUndone(v: View, v1: View, v2: View, es: seq<Entry>, i: nat, c: Limits, quiet: bool, r: Outcome, quiet': bool)
    requires Agrees(v, es) && i < |es| && Sound(v, c) && PortsLegal(v)
    requires RemoveEffect(v, v1, es[i].profile, es[i].pk, Done, quiet)
    requires es[i].profile.key in v.slots
    requires AddEffect(v1, v2, c, es[i].profile, v.slots[es[i].profile.key].port, es[i].pk, es[i].psk, r, quiet')
    ensures r == Done ==> v2 == v
    ensures quiet' ==> r == Done
  {
    hide PlaceDecision, OthersKept, Placed, Agrees, Sound, Removed;
    EntryServed(v, es, i);
    var k := es[i].profile.key;
    RemoveThenAdd(v, k, es[i].pk);
    RoomAgain(v, c, k, es[i].pk);
  }

  lemma RoomAgain(v: View, c: Limits, k: ProfileKey, pk: PublicKey)
    requires Sound(v, c) && PortsLegal(v) && Tracks(v, k, pk)
    ensures PlaceDecision(Removed(v, k, pk), c, k, v.slots[k].port) == Ok(v.slots[k].port)
  {
    hide Sound, UsedPorts, FirstFree;
    if v.slots[k].peers - {pk} == map[] {
      RoomToReturn(v, c, k);
    }
  }

  // ---------------------------------------------------------------------------------------------
  // Migrating
  // ---------------------------------------------------------------------------------------------

  /** The new profile differs in identity or in the port it asks for. */
  ghost predicate MoveNeeded(source: Profile, target: Profile) {
    source.key != target.key || source.port != target.port
  }

  ghost predicate AgreesMoved(v: View, es: seq<Entry>, i: nat, target: Profile) {
    i < |es| && Agrees(v, es[i := es[i].(profile := target)])
  }

  ghost predicate EntriesMoved(es: seq<Entry>, es': seq<Entry>, i: nat, target: Profile) {
    i < |es| && es' == es[i := es[i].(profile := target)]
  }

  lemma MovedAgree(v: View, es: seq<Entry>, es': seq<Entry>, i: nat, target: Profile)
    requires AgreesMoved(v, es, i, target) && EntriesMoved(es, es', i, target)
    ensures Agrees(v, es')
  {
    hide Agrees;
  }

  /** A profile that asks for nothing new leaves the entries as they are. */
  lemma NothingMoved(es: seq<Entry>, i: nat, target: Profile)
    requires i < |es| && !MoveNeeded(es[i].profile, target) && es[i].profile.validated == target.validated
    ensures EntriesMoved(es, es, i, target)
  {
  }

  lemma TargetClean(v: View, es: seq<Entry>, i: nat, target: ProfileKey)
    requires Agrees(v, es) && DistinctKeys(es) && i < |es|
    ensures CleanTarget(v, es[i].profile.key, target, es[i].pk)
  {
    hide DistinctKeys;
    if es[i].profile.key != target && target in v.slots {
      TrackedOnce(v, es, i, target);
      assert v.slots[target].peers != map[];
    }
  }

  lemma ChecksPassed(v: View, v': View, c: Limits, source: Profile, target: Profile, pk: PublicKey, psk: Option<Psk>, quiet: bool)
    requires MoveNeeded(source, target)
    requires MigrateEffect(v, v', c, source, target, target.port, pk, psk, Done, quiet)
    ensures MigrateChecks(v, source, target, target.port, pk) == Ok(false)
  {
    hide OthersKept, MigrateDecision;
  }

  lemma MoveServes(v: View, v': View, es: seq<Entry>, i: nat, c: Limits, target: Profile, quiet: bool)
    requires Agrees(v, es) && DistinctKeys(es) && i < |es| && target.validated && MoveNeeded(es[i].profile, target)
    requires MigrateEffect(v, v', c, es[i].profile, target, target.port, es[i].pk, es[i].psk, Done, quiet)
    ensures Agrees(v', es[i := es[i].(profile := target)])
  {
    hide MigrateEffect, MigrateChecks, NoEmptySlot;
    var e := es[i];
    var es' := es[i := e.(profile := target)];
    ChecksPassed(v, v', c, e.profile, target, e.pk, e.psk, quiet);
    MovedOne(v, v', c, e.profile, target, e.pk, e.psk, quiet);
    forall j | 0 <= j < |es'|
      ensures Served(v', es'[j])
    {
      if j != i {
        assert es[j].pk != e.pk && Served(v, es[j]);
        MigrationMovesOnePeer(v, v', c, e.profile, target, target.port, e.pk, e.psk, quiet, es[j].profile.key, es[j].pk);
      }
    }
    forall k, pk | Tracks(v', k, pk)
      ensures Owned(es', k, pk)
    {
      if pk == e.pk {
        TrackedOnce(v, es, i, k);
        MovedElsewhere(v, v', c, e.profile, target, e.pk, e.psk, quiet, k);
        assert es'[i].profile.key == k;
      } else {
        MigrationMovesOnePeer(v, v', c, e.profile, target, target.port, e.pk, e.psk, quiet, k, pk);
        assert Owned(es, k, pk);
        var j :| 0 <= j < |es| && es[j].pk == pk && es[j].profile.key == k;
        assert es'[j] == es[j];
      }
    }
  }

  lemma MovedOne(v: View, v': View, c: Limits, source: Profile, target: Profile, pk: PublicKey, psk: Option<Psk>, quiet: bool)
    requires MigrateEffect(v, v', c, source, target, target.port, pk, psk, Done, quiet)
    requires MigrateChecks(v, source, target, target.port, pk) == Ok(false) && target.validated
    ensures Served(v', Entry(target, pk, psk))
    ensures v'.orphans == v.orphans
    ensures NoEmptySlot(v) ==> NoEmptySlot(v')
  {
    hide MigrateChecks, OthersKept, PlaceDecision, Removed, Placed, NoEmptySlot, MigrateDecision;
    MovedResult(v, v', c, source, target, pk, psk, quiet);
    if target.port != 0 {
      MigrationHonoursPort(v, v', c, source, target, target.port, pk, psk, quiet);
    }
    var r := Removed(v, source.key, pk);
    RemovedTracks(v, source.key, pk, source.key, pk);
    PlacedTracks(r, target.key, MigrateDecision(v, c, source, target, target.port, pk).value, pk, psk, target.key, pk);
  }

  lemma MovedResult(v: View, v': View, c: Limits, source: Profile, target: Profile, pk: PublicKey, psk: Option<Psk>, quiet: bool)
    requires MigrateEffect(v, v', c, source, target, target.port, pk, psk, Done, quiet)
    requires MigrateChecks(v, source, target, target.port, pk) == Ok(false)
    ensures Tracks(v, source.key, pk)
    ensures MigrateDecision(v, c, source, target, target.port, pk).Ok?
    ensures v' == Placed(Removed(v, source.key, pk), target.key,
                         MigrateDecision(v, c, source, target, target.port, pk).value, pk, psk)
  {
    hide OthersKept, PlaceDecision, Removed, Placed, MigrateDecision;
  }

  /** The moved peer is tracked nowhere it was not tracked before, except on the target. */
  lemma MovedElsewhere(v: View, v': View, c: Limits, source: Profile, target: Profile, pk: PublicKey, psk: Option<Psk>,
                       quiet: bool, k: ProfileKey)
    requires MigrateEffect(v, v', c, source, target, target.port, pk, psk, Done, quiet)
    requires MigrateChecks(v, source, target, target.port, pk) == Ok(false)
    requires Tracks(v, k, pk) ==> k == source.key
    requires Tracks(v', k, pk)
    ensures k == target.key
  {
    hide MigrateChecks, OthersKept, PlaceDecision, Removed, Placed, MigrateDecision, MigrateEffect;
    MovedResult(v, v', c, source, target, pk, psk, quiet);
    var r := Removed(v, source.key, pk);
    RemovedTracks(v, source.key, pk, k, pk);
    PlacedTracks(r, target.key, MigrateDecision(v, c, source, target, target.port, pk).value, pk, psk, k, pk);
  }

  /** The pool's own reasons against a migration. */
  ghost predicate MoveDenied(v: View, c: Limits, source: Profile, target: Profile, pk: PublicKey, e: PoolError) {
    match MigrateChecks(v, source, target, target.port, pk)
    case Err(reason) => reason == e
    case Ok(done) => !done && MigrateDecision(v, c, source, target, target.port, pk) == Err(e)
  }

  /** Without host failures a migration fails only for such a reason, and an add only when no port or place can be had. */
  lemma RefusedForReason(v: View, v': View, c: Limits, source: Profile, target: Profile, pk: PublicKey, psk: Option<Psk>, r: Outcome)
    requires r != Done && target.validated
    ensures MigrateEffect(v, v', c, source, target, target.port, pk, psk, r, true) && PortsLegal(v) ==>
              MoveDenied(v, c, source, target, pk, r.error)
    ensures AddEffect(v, v', c, target, target.port, pk, psk, r, true) ==>
              PlaceDecision(v, c, target.key, target.port) == Err(r.error)
  {
    hide OthersKept, PlaceDecision, MigrateDecision;
  }

  /** A failed migration that does not report a failed rollback changes nothing. */
  lemma MoveRefused(v: View, v': View, es: seq<Entry>, i: nat, c: Limits, target: Profile, r: Outcome, quiet: bool)
    requires Agrees(v, es) && DistinctKeys(es) && i < |es| && PortsLegal(v)
    requires MigrateEffect(v, v', c, es[i].profile, target, target.port, es[i].pk, es[i].psk, r, quiet)
    requires r != Done && !r.rollbackFailed
    ensures v' == v
  {
    hide Agrees, DistinctKeys, OthersKept, MigrateDecision, MigrateChecks;
    TargetClean(v, es, i, target.key);
  }

  /** Moving a peer back at the port its old interface had restores the pool exactly, and only a host failure prevents it. */
  lemma MoveUndone(v: View, v1: View, v2: View, es: seq<Entry>, i: nat, c: Limits, target: Profile, quiet: bool,
                   r: Outcome, quiet': bool)
    requires Agrees(v, es) && DistinctKeys(es) && i < |es| && Sound(v, c) && PortsLegal(v) && PortsLegal(v1)
    requires target.validated && MoveNeeded(es[i].profile, target)
    requires MigrateEffect(v, v1, c, es[i].profile, target, target.port, es[i].pk, es[i].psk, Done, quiet)
    requires es[i].profile.key in v.slots
    requires MigrateEffect(v1, v2, c, target, es[i].profile, v.slots[es[i].profile.key].port, es[i].pk, es[i].psk, r, quiet')
    ensures r == Done ==> v2 == v
    ensures quiet' ==> r == Done
  {
    hide Agrees, DistinctKeys, MigrateEffect, MigrateChecks, MigrateDecision, Removed, Placed, CleanTarget, PortsLegal, Sound;
    var e := es[i];
    var k := e.profile.key;
    ChecksPassed(v, v1, c, e.profile, target, e.pk, e.psk, quiet);
    MovedResult(v, v1, c, e.profile, target, e.pk, e.psk, quiet);
    EntryServed(v, es, i);
    TargetClean(v, es, i, target.key);
    SoleWhenSame(v, e.profile, target, target.port, e.pk);
    var port := MigrateDecision(v, c, e.profile, target, target.port, e.pk).value;
    MigrateThenBack(v, k, target.key, port, e.pk, e.psk);
    LegalPort(v, k);
    if r == Done {
      MovedBack(v1, v2, c, target, e.profile, v.slots[k].port, e.pk, e.psk, quiet');
      if k == target.key && target.port == v.slots[k].port {
        MigrationHonoursPort(v, v1, c, e.profile, target, target.port, e.pk, e.psk, quiet);
        SamePlace(v, c, e.profile, target, e.pk, e.psk);
      }
    } else {
      MoveBackAllowed(v, c, e.profile, target, port, e.pk, e.psk);
      AllowedMoves(v1, v2, c, target, e.profile, v.slots[k].port, e.pk, e.psk, r, quiet');
    }
  }

  /** Without host failures an allowed migration succeeds. */
  lemma AllowedMoves(v: View, v': View, c: Limits, source: Profile, target: Profile, requested: int, pk: PublicKey,
                     psk: Option<Psk>, r: Outcome, quiet: bool)
    requires MigrateEffect(v, v', c, source, target, requested, pk, psk, r, quiet) && PortsLegal(v)
    requires MigrateChecks(v, source, target, requested, pk).Ok?
    requires MigrateChecks(v, source, target, requested, pk) == Ok(false) ==>
               MigrateDecision(v, c, source, target, requested, pk).Ok?
    ensures quiet ==> r == Done
  {
    hide OthersKept, MigrateDecision, PortsLegal;
  }

  lemma PlaceDecisionSame(v: View, w: View, c: Limits, k: ProfileKey, requested: int)
    requires PortMap(v) == PortMap(w) && UsedPorts(v) == UsedPorts(w) && v.orphans == w.orphans
    ensures PlaceDecision(v, c, k, requested) == PlaceDecision(w, c, k, requested)
  {
    hide UsedPorts, FirstFree;
    assert PortMap(v).Keys == v.slots.Keys && PortMap(w).Keys == w.slots.Keys;
    PortMapEntry(v, k);
    PortMapEntry(w, k);
  }

  /** The reverse of a migration passes every check that does not depend on the host. */
  lemma MoveBackAllowed(v: View, c: Limits, source: Profile, target: Profile, port: int, pk: PublicKey, psk: Option<Psk>)
    requires Sound(v, c) && PortsLegal(v) && source.validated && target.validated
    requires Tracks(v, source.key, pk) && CleanTarget(v, source.key, target.key, pk)
    requires source.key == target.key ==> v.slots[source.key].peers == map[pk := v.slots[source.key].peers[pk]]
    ensures var w := Placed(Removed(v, source.key, pk), target.key, port, pk, psk);
            var back := MigrateChecks(w, target, source, v.slots[source.key].port, pk);
            && back.Ok?
            && (back == Ok(false) ==>
                  MigrateDecision(w, c, target, source, v.slots[source.key].port, pk) == Ok(v.slots[source.key].port))
  {
    hide PlaceDecision, Sound, PortsLegal, CleanTarget;
    var k, k', old' := source.key, target.key, v.slots[source.key].port;
    var w := Placed(Removed(v, k, pk), k', port, pk, psk);
    BackChecks(v, source, target, port, pk, psk);
    RoomAgain(v, c, k, pk);
    if MigrateChecks(w, target, source, old', pk) == Ok(false) {
      BeforeBack(v, c, k, k', port, pk, psk);
    }
  }

  lemma BackChecks(v: View, source: Profile, target: Profile, port: int, pk: PublicKey, psk: Option<Psk>)
    requires source.validated && target.validated && Tracks(v, source.key, pk)
    requires source.key == target.key ==> v.slots[source.key].peers == map[pk := v.slots[source.key].peers[pk]]
    ensures var w := Placed(Removed(v, source.key, pk), target.key, port, pk, psk);
            MigrateChecks(w, target, source, v.slots[source.key].port, pk).Ok?
  {
    hide Removed;
    var r := Removed(v, source.key, pk);
    RemovedSlots(v, source.key, pk);
    RemovedPort(v, source.key, pk);
    assert pk in Placed(r, target.key, port, pk, psk).slots[target.key].peers;
    if source.key == target.key {
      assert v.slots[source.key].peers - {pk} == map[];
      assert |map[pk := psk]| == 1;
    }
  }

  lemma RemovedPort(v: View, k: ProfileKey, pk: PublicKey)
    requires k in v.slots
    ensures k in Removed(v, k, pk).slots ==> Removed(v, k, pk).slots[k].port == v.slots[k].port
  {
  }

  /** What the reverse migration decides on: a fresh target is left first, a shared one is not. */
  lemma BeforeBack(v: View, c: Limits, k: ProfileKey, k': ProfileKey, port: int, pk: PublicKey, psk: Option<Psk>)
    requires Tracks(v, k, pk) && CleanTarget(v, k, k', pk)
    requires k == k' ==> v.slots[k].peers == map[pk := v.slots[k].peers[pk]]
    requires PlaceDecision(Removed(v, k, pk), c, k, v.slots[k].port) == Ok(v.slots[k].port)
    ensures var w := Placed(Removed(v, k, pk), k', port, pk, psk);
            var before := if |w.slots[k'].peers| == 1 then Removed(w, k', pk) else w;
            PlaceDecision(before, c, k, v.slots[k].port) == Ok(v.slots[k].port)
  {
    hide PlaceDecision, UsedPorts, PortMap, Removed;
    var r := Removed(v, k, pk);
    RemovedSlots(v, k, pk);
    if k == k' {
      assert v.slots[k].peers - {pk} == map[];
    }
    if k' in r.slots {
      var peers := r.slots[k'].peers;
      assert peers != map[] && pk !in peers;
      assert peers[pk := psk].Keys == peers.Keys + {pk};
      assert |peers| > 0;
      PlacedPorts(r, k', port, pk, psk);
      PlaceDecisionSame(r, Placed(r, k', port, pk, psk), c, k, v.slots[k].port);
    } else {
      AddThenRemove(r, k', port, pk, psk);
      assert |map[pk := psk]| == 1;
    }
  }

  lemma LegalPort(v: View, k: ProfileKey)
    requires PortsLegal(v) && k in v.slots
    ensures v.slots[k].port != 0
  {
  }

  lemma SoleWhenSame(v: View, source: Profile, target: Profile, requested: int, pk: PublicKey)
    requires MigrateChecks(v, source, target, requested, pk) == Ok(false)
    ensures source.key == target.key ==> v.slots[source.key].peers == map[pk := v.slots[source.key].peers[pk]]
  {
    if source.key == target.key {
      assert |v.slots[source.key].peers| == 1;
      SolePeer(v, source.key, pk);
    }
  }

  /** Reopening an interface on the port it had. */
  lemma SamePlace(v: View, c: Limits, source: Profile, target: Profile, pk: PublicKey, psk: Option<Psk>)
    requires Tracks(v, source.key, pk) && v.slots[source.key].peers[pk] == psk
    requires source.key == target.key && target.port == v.slots[source.key].port && target.port != 0
    requires MigrateChecks(v, source, target, target.port, pk) == Ok(false)
    requires MigrateDecision(v, c, source, target, target.port, pk).Ok?
    ensures Placed(Removed(v, source.key, pk), target.key, MigrateDecision(v, c, source, target, target.port, pk).value, pk, psk) == v
  {
    hide PlaceDecision, Placed, Removed;
    SoleWhenSame(v, source, target, target.port, pk);
    SolePeer(v, source.key, pk);
    PlacedPort(Removed(v, source.key, pk), c, target.key, target.port);
    RemoveThenAdd(v, source.key, pk);
  }

  lemma MovedBack(v: View, v': View, c: Limits, source: Profile, target: Profile, port: int, pk: PublicKey,
                  psk: Option<Psk>, quiet: bool)
    requires MigrateEffect(v, v', c, source, target, port, pk, psk, Done, quiet) && port != 0
    ensures source.key in v.slots
    ensures v' == if source.key == target.key && source.port == port then v
                  else Placed(Removed(v, source.key, pk), target.key, port, pk, psk)
  {
    hide OthersKept, Placed, Removed, PlaceDecision;
    var checks := MigrateChecks(v, source, target, port, pk);
    if checks == Ok(false) {
      var before := if |v.slots[source.key].peers| == 1 then Removed(v, source.key, pk) else v;
      PlacedPort(before, c, target.key, port);
    }
  }

  // ---------------------------------------------------------------------------------------------
  // Restoring
  // ---------------------------------------------------------------------------------------------

  lemma {:induction false} RestoredAgrees(c: Limits, es: seq<Entry>, v: View)
    requires DistinctKeys(es) && (forall i :: 0 <= i < |es| ==> es[i].profile.validated)
    requires Replay(c, es) == Some(v)
    ensures Agrees(v, es)
  {
    hide PlaceDecision, Placed;
    if es != [] {
      var n := |es| - 1;
      var before := Replay(c, es[..n]);
      RestoredAgrees(c, es[..n], before.value);
      AddedAgrees(before.value, es[..n], c, es[n]);
      assert es[..n] + [es[n]] == es;
    }
  }
}
