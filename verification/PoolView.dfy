/**
 The interface pool as its callers see it: profile key -> (port, peers with their preshared keys), plus the quarantined
 interfaces. Interface names and counters are not part of the view.
 */
module PoolView {
  import opened Wrappers

  const MIN_PORT := 1024
  const MAX_PORT := 65535

  /** The pre-image of the profile hash; using it as the key makes the hash injective. */
  datatype ProfileKey = ProfileKey(preimage: seq<int>)

  /** 32-byte keys, as numbers. */
  type PublicKey = nat
  type Psk = nat

  /** What the pool reads of a profile: its identity, the port its parameters ask for, and whether it was validated. */
  datatype Profile = Profile(key: ProfileKey, port: int, validated: bool)

  datatype Slot = Slot(port: int, peers: map<PublicKey, Option<Psk>>)

  datatype View = View(slots: map<ProfileKey, Slot>, orphans: map<nat, int>)

  datatype Limits = Limits(listenPort: int, maxIfaces: int)

  datatype PoolError =
    | InvalidProfile
    | NoInterface
    | PeerAccounting
    | PeerNotTracked
    | PortShared
    | ProfilePortConflict
    | InvalidPort
    | PortInUse
    | MaxInterfacesReached
    | PortsExhausted
    | HostCallFailed

  /** rollbackFailed: the returned error wraps the rollback-failed sentinel. */
  datatype Outcome = Done | Failed(error: PoolError, rollbackFailed: bool)

  const EMPTY_VIEW := View(map[], map[])

  predicate ValidPort(port: int) {
    port == 0 || MIN_PORT <= port <= MAX_PORT
  }

  function UsedPorts(v: View): set<int> {
    (set k | k in v.slots :: v.slots[k].port) + (set n | n in v.orphans :: v.orphans[n])
  }

  /** Every port belongs to one interface or orphan only. */
  ghost predicate PortsDistinct(v: View) {
    && (forall k, k' :: k in v.slots && k' in v.slots && k != k' ==> v.slots[k].port != v.slots[k'].port)
    && (forall n, n' :: n in v.orphans && n' in v.orphans && n != n' ==> v.orphans[n] != v.orphans[n'])
    && (forall k, n :: k in v.slots && n in v.orphans ==> v.slots[k].port != v.orphans[n])
  }

  ghost predicate NoEmptySlot(v: View) {
    forall k :: k in v.slots ==> v.slots[k].peers != map[]
  }

  // ---------------------------------------------------------------------------------------------
  // Edits of the view
  // ---------------------------------------------------------------------------------------------

  /** Adds a peer, opening a slot on the given port when the profile has none. */
  function Placed(v: View, k: ProfileKey, port: int, pk: PublicKey, psk: Option<Psk>): View {
    v.(slots := v.slots[k := if k in v.slots then v.slots[k].(peers := v.slots[k].peers[pk := psk])
                             else Slot(port, map[pk := psk])])
  }

  /** Removes a peer, and its slot when no peer is left. */
  function Removed(v: View, k: ProfileKey, pk: PublicKey): View
    requires k in v.slots
  {
    var peers := v.slots[k].peers - {pk};
    if peers == map[] then Closed(v, k) else v.(slots := v.slots[k := v.slots[k].(peers := peers)])
  }

  function Closed(v: View, k: ProfileKey): View {
    v.(slots := v.slots - {k})
  }

  ghost predicate Tracks(v: View, k: ProfileKey, pk: PublicKey) {
    k in v.slots && pk in v.slots[k].peers
  }

  // ---------------------------------------------------------------------------------------------
  // Decisions that do not depend on the host
  // ---------------------------------------------------------------------------------------------

  /** The first free port from p up. */
  function FirstFree(used: set<int>, p: int): (r: Option<int>)
    ensures r.Some? ==> p <= r.value <= MAX_PORT && r.value !in used && forall q :: p <= q < r.value ==> q in used
    ensures r.None? ==> forall q :: p <= q <= MAX_PORT ==> q in used
    decreases MAX_PORT - p
  {
    if p > MAX_PORT then None else if p in used then FirstFree(used, p + 1) else Some(p)
  }

  /** The port a new interface would get, or why none may be created. */
  function CreateDecision(v: View, c: Limits, requested: int): (r: Result<int, PoolError>) {
    if requested != 0 && !ValidPort(requested) then Err(InvalidPort)
    else if requested != 0 && requested in UsedPorts(v) then Err(PortInUse)
    else if c.maxIfaces > 0 && |v.slots| + |v.orphans| >= c.maxIfaces then Err(MaxInterfacesReached)
    else if requested != 0 then Ok(requested)
    else
      var port := FirstFree(UsedPorts(v), c.listenPort);
      if port.None? then Err(PortsExhausted) else Ok(port.value)
  }

  /** Nobody uses the port. */
  ghost predicate PortFree(v: View, port: int) {
    (forall k :: k in v.slots ==> v.slots[k].port != port) && (forall n :: n in v.orphans ==> v.orphans[n] != port)
  }

  ghost predicate LeastFreePort(v: View, from: int, port: int) {
    from <= port <= MAX_PORT && PortFree(v, port) && forall q :: from <= q < port ==> !PortFree(v, q)
  }

  lemma UnusedIsFree(v: View, port: int)
    ensures port !in UsedPorts(v) <==> PortFree(v, port)
  {
  }

  /**
   An interface can be created exactly when the port asked for is legal and free, or some port from the base port up is
   free, and the cap leaves room; it gets the port asked for, or the least free one.
   */
  lemma CreateDecisionIff(v: View, c: Limits, requested: int)
    ensures var d := CreateDecision(v, c, requested);
            && (d.Ok? <==>
                  && !(c.maxIfaces > 0 && |v.slots| + |v.orphans| >= c.maxIfaces)
                  && (if requested != 0 then MIN_PORT <= requested <= MAX_PORT && PortFree(v, requested)
                      else exists port :: c.listenPort <= port <= MAX_PORT && PortFree(v, port)))
            && (d.Ok? ==> if requested != 0 then d.value == requested else LeastFreePort(v, c.listenPort, d.value))
  {
    hide PortFree, UsedPorts;
    forall port
      ensures port !in UsedPorts(v) <==> PortFree(v, port)
    {
      UnusedIsFree(v, port);
    }
  }

  /** The port at which a peer of profile k would be served. */
  function PlaceDecision(v: View, c: Limits, k: ProfileKey, requested: int): (r: Result<int, PoolError>) {
    if k in v.slots then
      if requested != 0 && requested != v.slots[k].port then Err(ProfilePortConflict) else Ok(v.slots[k].port)
    else CreateDecision(v, c, requested)
  }

  /** What is checked before a migration touches the host; Ok(true) means nothing has to be done. */
  function MigrateChecks(v: View, source: Profile, target: Profile, requested: int, pk: PublicKey)
      : (r: Result<bool, PoolError>)
  {
    if !source.validated || !target.validated then Err(InvalidProfile)
    else if source.key !in v.slots then Err(NoInterface)
    else if v.slots[source.key].peers == map[] then Err(PeerAccounting)
    else if pk !in v.slots[source.key].peers then Err(PeerNotTracked)
    else if source.key == target.key then
      if source.port == requested then Ok(true)
      else if |v.slots[source.key].peers| > 1 then Err(PortShared)
      else Ok(false)
    else if target.key in v.slots && requested != 0 && requested != v.slots[target.key].port then Err(ProfilePortConflict)
    else Ok(false)
  }

  /**
   A migration may start exactly when the peer is on the source, and either another profile's interface is not in the way of
   the port asked for, or its own interface is asked for the port it was asked for before, or it is alone on it.
   */
  lemma MigrateChecksIff(v: View, source: Profile, target: Profile, requested: int, pk: PublicKey)
    ensures var checks := MigrateChecks(v, source, target, requested, pk);
            && (checks.Ok? <==>
                  && source.validated && target.validated && Tracks(v, source.key, pk)
                  && (source.key != target.key ==>
                        requested == 0 || target.key !in v.slots || v.slots[target.key].port == requested)
                  && (source.key == target.key ==> source.port == requested || v.slots[source.key].peers.Keys == {pk}))
            && (checks == Ok(true) <==> checks.Ok? && source.key == target.key && source.port == requested)
  {
    if Tracks(v, source.key, pk) {
      var peers := v.slots[source.key].peers;
      assert peers != map[];
      if |peers| <= 1 {
        assert (peers - {pk}).Keys + {pk} == peers.Keys;
        assert |(peers - {pk}).Keys| == 0;
      }
      if peers.Keys == {pk} {
        assert |peers| == |peers.Keys| == 1;
      }
    }
  }

  /** A peer can be removed exactly when it is on the interface of its profile. */
  lemma RemoveChecksIff(v: View, profile: Profile, pk: PublicKey)
    ensures RemoveChecks(v, profile, pk).None? <==> profile.validated && Tracks(v, profile.key, pk)
  {
  }

  /** A sole peer leaves its old interface first, so that its port and its place under the cap are free again. */
  function MigrateDecision(v: View, c: Limits, source: Profile, target: Profile, requested: int, pk: PublicKey)
      : (r: Result<int, PoolError>)
    requires MigrateChecks(v, source, target, requested, pk) == Ok(false)
  {
    var before := if |v.slots[source.key].peers| == 1 then Removed(v, source.key, pk) else v;
    PlaceDecision(before, c, target.key, requested)
  }

  /** The target profile has no slot left empty, or holding this peer, by a rollback that failed earlier. */
  ghost predicate CleanTarget(v: View, oldKey: ProfileKey, newKey: ProfileKey, pk: PublicKey) {
    oldKey == newKey || (newKey in v.slots ==> v.slots[newKey].peers != map[] && pk !in v.slots[newKey].peers)
  }

  /** The target's interface is there without a peer, left over by a rollback that failed earlier. */
  ghost predicate LeftEmpty(v: View, oldKey: ProfileKey, newKey: ProfileKey) {
    oldKey != newKey && newKey in v.slots && v.slots[newKey].peers == map[]
  }

  /** A peer that shares its interface is on the target as well, left over by a rollback that failed earlier. */
  ghost predicate DoublyTracked(v: View, oldKey: ProfileKey, newKey: ProfileKey, pk: PublicKey) {
    oldKey != newKey && oldKey in v.slots && |v.slots[oldKey].peers| > 1 && Tracks(v, newKey, pk)
  }

  /** What a failed migration that reports no failed rollback leaves behind: the view, or the view without the leftover. */
  ghost predicate SilentlyFailed(v: View, v': View, oldKey: ProfileKey, newKey: ProfileKey, pk: PublicKey) {
    || v' == v
    || (LeftEmpty(v, oldKey, newKey) && v' == Closed(v, newKey))
    || (DoublyTracked(v, oldKey, newKey, pk) && v' == Removed(v, newKey, pk))
  }

  // ---------------------------------------------------------------------------------------------
  // What each operation may do to the view, for every pattern of host failures (quiet: no host call failed)
  // ---------------------------------------------------------------------------------------------

  /** The peer is tracked in both views or in neither, and keeps its port and preshared key. */
  ghost predicate PeerKept(v: View, v': View, k: ProfileKey, pk: PublicKey) {
    && (Tracks(v', k, pk) <==> Tracks(v, k, pk))
    && (Tracks(v, k, pk) ==> v'.slots[k].port == v.slots[k].port && v'.slots[k].peers[pk] == v.slots[k].peers[pk])
  }

  /** Every peer but this one keeps its interface, port and preshared key. */
  ghost predicate PeersKept(v: View, v': View, pk: PublicKey) {
    forall k, other :: other != pk ==> PeerKept(v, v', k, other)
  }

  ghost predicate SlotsKept(v: View, v': View, ks: set<ProfileKey>) {
    && (forall k :: k !in ks ==> (k in v'.slots <==> k in v.slots))
    && (forall k :: k !in ks && k in v.slots && k in v'.slots ==> v'.slots[k] == v.slots[k])
    && (forall n :: n in v.orphans ==> n in v'.orphans && v'.orphans[n] == v.orphans[n])
  }

  /**
   Slots of other profiles are untouched, no orphan is forgotten, and on the touched profiles every other peer keeps its
   place.
   */
  ghost predicate OthersKept(v: View, v': View, ks: set<ProfileKey>, pk: PublicKey) {
    SlotsKept(v, v', ks) && PeersKept(v, v', pk)
  }

  function Opened(v: View, k: ProfileKey, port: int): View {
    v.(slots := v.slots[k := Slot(port, map[])])
  }

  function Quarantined(v: View, name: nat, port: int): View {
    v.(orphans := v.orphans[name := port])
  }

  function WithPeers(v: View, k: ProfileKey, peers: map<PublicKey, Option<Psk>>): View
    requires k in v.slots
  {
    v.(slots := v.slots[k := v.slots[k].(peers := peers)])
  }

  /** Finding or creating the interface of a profile; a name is burnt whenever creation starts. */
  ghost predicate CreateEffect(v: View, v': View, c: Limits, profile: Profile, requested: int, r: Outcome, quiet: bool, name: nat) {
    if !profile.validated then r == Failed(InvalidProfile, false) && v' == v
    else
      var d := PlaceDecision(v, c, profile.key, requested);
      match d
      case Err(e) => r == Failed(e, false) && v' == v
      case Ok(port) =>
        if profile.key in v.slots then r == Done && v' == v
        else
          && (r == Done ==> v' == Opened(v, profile.key, port))
          && (r != Done ==> r.error == HostCallFailed && !quiet
                            && v' == if r.rollbackFailed then Quarantined(v, name, port) else v)
  }

  /** Adding a peer to an interface that exists; a failed add on an empty interface destroys it. */
  ghost predicate AddLockedEffect(v: View, v': View, k: ProfileKey, pk: PublicKey, psk: Option<Psk>, r: Outcome, quiet: bool)
    requires k in v.slots
  {
    match r
    case Done => v' == WithPeers(v, k, v.slots[k].peers[pk := psk])
    case Failed(e, rollbackFailed) =>
      && e == HostCallFailed && !quiet
      && (if rollbackFailed then v' == v || v' == WithPeers(v, k, v.slots[k].peers[pk := psk])
          else v' == if v.slots[k].peers == map[] then Closed(v, k) else v)
  }

  /**
   Adding a peer. An error that does not report a failed rollback leaves the view as it was, except that a slot left
   empty by an earlier failed rollback is cleared away.
   */
  ghost predicate AddEffect(v: View, v': View, c: Limits, profile: Profile, requested: int, pk: PublicKey,
                            psk: Option<Psk>, r: Outcome, quiet: bool)
  {
    && OthersKept(v, v', {profile.key}, pk)
    && if !profile.validated then r == Failed(InvalidProfile, false) && v' == v
       else
         match PlaceDecision(v, c, profile.key, requested)
         case Err(e) => r == Failed(e, false) && v' == v
         case Ok(port) =>
           && (r == Done ==> v' == Placed(v, profile.key, port, pk, psk))
           && (r != Done ==> r.error == HostCallFailed && !quiet)
           && (r != Done && !r.rollbackFailed ==>
                 v' == if profile.key in v.slots && v.slots[profile.key].peers == map[] then Closed(v, profile.key) else v)
  }

  function RemoveChecks(v: View, profile: Profile, pk: PublicKey): (e: Option<PoolError>) {
    if !profile.validated then Some(InvalidProfile)
    else if profile.key !in v.slots then Some(NoInterface)
    else if v.slots[profile.key].peers == map[] then Some(PeerAccounting)
    else if pk !in v.slots[profile.key].peers then Some(PeerNotTracked)
    else None
  }

  /** Removing a peer either succeeds or, whatever fails, leaves the view as it was. */
  ghost predicate RemoveEffect(v: View, v': View, profile: Profile, pk: PublicKey, r: Outcome, quiet: bool) {
    match RemoveChecks(v, profile, pk)
    case Some(e) => r == Failed(e, false) && v' == v
    case None =>
      if r == Done then v' == Removed(v, profile.key, pk)
      else r.error == HostCallFailed && !quiet && v' == v
  }

  /**
   Migrating a peer. Success moves exactly this peer; an error that does not report a failed rollback leaves the view
   as it was, or clears away what an earlier failed rollback left on the target. Without host failures the outcome is
   decided by the view alone.
   */
  ghost predicate MigrateEffect(v: View, v': View, c: Limits, source: Profile, target: Profile, requested: int,
                                pk: PublicKey, psk: Option<Psk>, r: Outcome, quiet: bool)
  {
    && OthersKept(v, v', {source.key, target.key}, pk)
    && match MigrateChecks(v, source, target, requested, pk)
       case Err(e) => r == Failed(e, false) && v' == v
       case Ok(true) => r == Done && v' == v
       case Ok(false) =>
         var d := MigrateDecision(v, c, source, target, requested, pk);
         && (r == Done ==> d.Ok? && v' == Placed(Removed(v, source.key, pk), target.key, d.value, pk, psk))
         && (r != Done && !r.rollbackFailed && PortsLegal(v) ==> SilentlyFailed(v, v', source.key, target.key, pk))
         && (quiet && PortsLegal(v) ==> if d.Ok? then r == Done else r == Failed(d.error, false))
  }

  ghost predicate PortsLegal(v: View) {
    forall k :: k in v.slots ==> MIN_PORT <= v.slots[k].port <= MAX_PORT
  }

  /** No port is shared and the cap holds. */
  ghost predicate Sound(v: View, c: Limits) {
    PortsDistinct(v) && (c.maxIfaces > 0 ==> |v.slots| + |v.orphans| <= c.maxIfaces)
  }

  /** Without host failures no failed rollback is reported. */
  lemma ReportsNeedFailures(v: View, v': View, c: Limits, source: Profile, target: Profile, requested: int, pk: PublicKey,
                            psk: Option<Psk>, r: Outcome)
    ensures AddEffect(v, v', c, target, requested, pk, psk, r, true) ==> r == Done || !r.rollbackFailed
    ensures RemoveEffect(v, v', source, pk, r, true) ==> r == Done || !r.rollbackFailed
    ensures MigrateEffect(v, v', c, source, target, requested, pk, psk, r, true) && PortsLegal(v) ==> r == Done || !r.rollbackFailed
  {
    hide PlaceDecision, MigrateDecision, OthersKept;
  }

  lemma OthersKeptSelf(v: View, ks: set<ProfileKey>, pk: PublicKey)
    ensures OthersKept(v, v, ks, pk)
  {
  }

  // ---------------------------------------------------------------------------------------------
  // Compensations are inverses
  // ---------------------------------------------------------------------------------------------

  lemma RemovedSlots(v: View, k: ProfileKey, pk: PublicKey)
    requires k in v.slots
    ensures forall k' :: k' != k ==> (k' in Removed(v, k, pk).slots <==> k' in v.slots)
    ensures forall k' :: k' != k && k' in v.slots ==> Removed(v, k, pk).slots[k'] == v.slots[k']
    ensures k in Removed(v, k, pk).slots <==> v.slots[k].peers - {pk} != map[]
    ensures Removed(v, k, pk).orphans == v.orphans
  {
  }

  lemma ReplacePeer(peers: map<PublicKey, Option<Psk>>, pk: PublicKey, psk: Option<Psk>)
    ensures pk in peers ==> (peers - {pk})[pk := peers[pk]] == peers
    ensures pk !in peers ==> peers[pk := psk] - {pk} == peers
  {
  }

  /** Untracking a peer, destroying its interface when empty, and tracking it again. */
  lemma TakenAndReturned(v: View, k: ProfileKey, pk: PublicKey)
    requires Tracks(v, k, pk)
    ensures var w := WithPeers(v, k, v.slots[k].peers - {pk});
            && OthersKept(v, w, {k}, pk) && (w.slots[k].peers == map[] ==> OthersKept(v, Closed(w, k), {k}, pk))
            && Removed(v, k, pk) == (if v.slots[k].peers - {pk} == map[] then Closed(w, k) else w)
            && WithPeers(w, k, w.slots[k].peers[pk := v.slots[k].peers[pk]]) == v
  {
    var w := WithPeers(v, k, v.slots[k].peers - {pk});
    ReplacePeer(v.slots[k].peers, pk, None);
    assert Closed(w, k).slots == Closed(v, k).slots;
    assert v.slots[k := v.slots[k]] == v.slots;
  }

  /** Adding a peer that was not there and removing it restores the view. */
  lemma AddThenRemove(v: View, k: ProfileKey, port: int, pk: PublicKey, psk: Option<Psk>)
    requires k in v.slots ==> v.slots[k].peers != map[] && pk !in v.slots[k].peers
    ensures Removed(Placed(v, k, port, pk, psk), k, pk) == v
  {
    var w := Placed(v, k, port, pk, psk);
    if k in v.slots {
      ReplacePeer(v.slots[k].peers, pk, psk);
      assert v.slots == w.slots[k := v.slots[k]];
    } else {
      assert w.slots[k].peers - {pk} == map[];
      assert w.slots - {k} == v.slots;
    }
  }

  /** Removing a peer and adding it back at its interface's port restores the view. */
  lemma RemoveThenAdd(v: View, k: ProfileKey, pk: PublicKey)
    requires Tracks(v, k, pk)
    ensures Placed(Removed(v, k, pk), k, v.slots[k].port, pk, v.slots[k].peers[pk]) == v
  {
    var r := Removed(v, k, pk);
    ReplacePeer(v.slots[k].peers, pk, None);
    if v.slots[k].peers - {pk} == map[] {
      assert map[pk := v.slots[k].peers[pk]] == v.slots[k].peers;
    }
    assert Placed(r, k, v.slots[k].port, pk, v.slots[k].peers[pk]).slots == v.slots;
  }

  /** Migrating a peer and migrating it back at the old port with the old preshared key restores the view. */
  lemma MigrateThenBack(v: View, oldKey: ProfileKey, newKey: ProfileKey, port: int, pk: PublicKey, psk: Option<Psk>)
    requires Tracks(v, oldKey, pk) && CleanTarget(v, oldKey, newKey, pk)
    requires oldKey == newKey ==> v.slots[oldKey].peers == map[pk := v.slots[oldKey].peers[pk]]
    ensures var w := Placed(Removed(v, oldKey, pk), newKey, port, pk, psk);
            && Tracks(w, newKey, pk)
            && Placed(Removed(w, newKey, pk), oldKey, v.slots[oldKey].port, pk, v.slots[oldKey].peers[pk]) == v
  {
    var r := Removed(v, oldKey, pk);
    if oldKey == newKey {
      assert v.slots[oldKey].peers - {pk} == map[];
    }
    AddThenRemove(r, newKey, port, pk, psk);
    RemoveThenAdd(v, oldKey, pk);
  }

  // ---------------------------------------------------------------------------------------------
  // Migration, step by step
  // ---------------------------------------------------------------------------------------------

  lemma OthersKeptThrough(a: View, b: View, c: View, ks: set<ProfileKey>, pk: PublicKey)
    requires OthersKept(a, b, ks, pk) && OthersKept(b, c, ks, pk)
    ensures OthersKept(a, c, ks, pk)
  {
    hide PeersKept;
    PeersKeptThrough(a, b, c, pk);
  }

  lemma PeersKeptThrough(a: View, b: View, c: View, pk: PublicKey)
    requires PeersKept(a, b, pk) && PeersKept(b, c, pk)
    ensures PeersKept(a, c, pk)
  {
    forall k, other | other != pk
      ensures PeerKept(a, c, k, other)
    {
      assert PeerKept(a, b, k, other) && PeerKept(b, c, k, other);
    }
  }

  lemma OthersKeptWider(a: View, b: View, ks: set<ProfileKey>, ks': set<ProfileKey>, pk: PublicKey)
    requires OthersKept(a, b, ks, pk) && ks <= ks'
    ensures OthersKept(a, b, ks', pk)
  {
    hide PeersKept;
  }

  lemma SolePeer(v: View, k: ProfileKey, pk: PublicKey)
    requires Tracks(v, k, pk) && |v.slots[k].peers| == 1
    ensures v.slots[k].peers == map[pk := v.slots[k].peers[pk]]
    ensures v.slots[k].peers - {pk} == map[]
    ensures Removed(v, k, pk) == Closed(v, k)
  {
    var peers := v.slots[k].peers;
    var rest := peers - {pk};
    assert rest.Keys + {pk} == peers.Keys && |rest.Keys| == 0;
    assert rest.Keys == {};
    assert rest == map[];
    assert peers.Keys == {pk};
  }

  /** After the sole peer's interface is gone, its port is free and there is room to put it back. */
  lemma RoomToReturn(v: View, c: Limits, k: ProfileKey)
    requires Sound(v, c) && PortsLegal(v) && k in v.slots
    ensures PlaceDecision(Closed(v, k), c, k, v.slots[k].port) == Ok(v.slots[k].port)
  {
    var w := Closed(v, k);
    assert w.slots.Keys == v.slots.Keys - {k};
    assert |w.slots| == |v.slots| - 1;
    assert v.slots[k].port !in UsedPorts(w);
  }

  /** Putting a sole peer back at its old port restores the view, and only a host failure prevents it. */
  lemma PutBack(v: View, v': View, c: Limits, source: Profile, pk: PublicKey, r: Outcome, quiet: bool)
    requires Sound(v, c) && PortsLegal(v) && source.validated
    requires Tracks(v, source.key, pk) && |v.slots[source.key].peers| == 1
    requires AddEffect(Closed(v, source.key), v', c, source, v.slots[source.key].port, pk,
                       v.slots[source.key].peers[pk], r, quiet)
    ensures r == Done ==> v' == v
    ensures quiet ==> r == Done
  {
    hide PlaceDecision, OthersKept, Sound;
    RoomToReturn(v, c, source.key);
    SolePeer(v, source.key, pk);
    RemoveThenAdd(v, source.key, pk);
  }

  /** A failed add to the target leaves no trace when the target was clean. */
  lemma FailedTarget(w: View, w1: View, w2: View, c: Limits, target: Profile, requested: int, pk: PublicKey,
                     psk: Option<Psk>, r: Outcome, quiet: bool, name: nat)
    requires target.key in w1.slots
    requires CreateEffect(w, w1, c, target, requested, Done, true, name)
    requires AddLockedEffect(w1, w2, target.key, pk, psk, r, quiet)
    requires r != Done && !r.rollbackFailed
    requires target.key in w.slots ==> w.slots[target.key].peers != map[]
    ensures w2 == w
  {
    hide PlaceDecision;
    if target.key !in w.slots {
      assert w1.slots - {target.key} == w.slots;
    }
  }

  lemma PlacedOnTarget(w: View, w1: View, w2: View, c: Limits, target: Profile, requested: int, pk: PublicKey,
                       psk: Option<Psk>, name: nat)
    requires target.key in w1.slots
    requires CreateEffect(w, w1, c, target, requested, Done, true, name)
    requires AddLockedEffect(w1, w2, target.key, pk, psk, Done, true)
    ensures PlaceDecision(w, c, target.key, requested).Ok?
    ensures w2 == Placed(w, target.key, PlaceDecision(w, c, target.key, requested).value, pk, psk)
  {
    hide CreateDecision;
  }

  /** The shared move: the peer is added to the target first and taken off the source afterwards. */
  lemma SharedMoved(v: View, k: ProfileKey, k': ProfileKey, port: int, pk: PublicKey, psk: Option<Psk>)
    requires Tracks(v, k, pk) && |v.slots[k].peers| > 1 && k != k'
    ensures var w := Placed(v, k', port, pk, psk);
            && k in w.slots
            && v.slots[k].peers - {pk} != map[]
            && WithPeers(w, k, w.slots[k].peers - {pk}) == Placed(Removed(v, k, pk), k', port, pk, psk)
  {
    var peers := v.slots[k].peers;
    assert (peers - {pk}).Keys + {pk} == peers.Keys;
    assert |(peers - {pk}).Keys| == |peers| - 1;
    assert Removed(v, k, pk) == WithPeers(v, k, peers - {pk});
    assert Placed(v, k', port, pk, psk).slots[k] == v.slots[k];
  }

  lemma MigrateFailedLoudly(v: View, v': View, c: Limits, source: Profile, target: Profile, requested: int,
                            pk: PublicKey, psk: Option<Psk>, rollbackFailed: bool)
    requires MigrateChecks(v, source, target, requested, pk) == Ok(false)
    requires OthersKept(v, v', {source.key, target.key}, pk)
    requires !rollbackFailed ==> SilentlyFailed(v, v', source.key, target.key, pk)
    ensures MigrateEffect(v, v', c, source, target, requested, pk, psk, Failed(HostCallFailed, rollbackFailed), false)
  {
    hide MigrateChecks, MigrateDecision, OthersKept, SilentlyFailed;
  }

  lemma MigrateUnchanged(v: View, c: Limits, source: Profile, target: Profile, requested: int, pk: PublicKey,
                         psk: Option<Psk>, rollbackFailed: bool)
    requires MigrateChecks(v, source, target, requested, pk) == Ok(false)
    ensures MigrateEffect(v, v, c, source, target, requested, pk, psk, Failed(HostCallFailed, rollbackFailed), false)
  {
    OthersKeptSelf(v, {source.key, target.key}, pk);
    MigrateFailedLoudly(v, v, c, source, target, requested, pk, psk, rollbackFailed);
  }

  /** The sole peer's move failed after its interface was destroyed, and the old interface was put back or not. */
  lemma SoleRolledBack(v: View, w: View, v': View, c: Limits, source: Profile, target: Profile, requested: int,
                       pk: PublicKey, psk: Option<Psk>, failure: Outcome, back: Outcome, quiet: bool)
    requires Sound(v, c) && failure != Done
    requires MigrateChecks(v, source, target, requested, pk) == Ok(false) && |v.slots[source.key].peers| == 1
    requires OthersKept(v, w, {source.key, target.key}, pk)
    requires AddEffect(w, v', c, source, v.slots[source.key].port, pk, v.slots[source.key].peers[pk], back, quiet)
    requires !failure.rollbackFailed ==> w == Closed(v, source.key) || ClearedToo(v, w, source.key, target.key)
    requires quiet ==> w == Closed(v, source.key) && failure == Failed(failure.error, false)
                       && MigrateDecision(v, c, source, target, requested, pk) == Err(failure.error)
    ensures MigrateEffect(v, v', c, source, target, requested, pk, psk,
                          Failed(failure.error, failure.rollbackFailed || back != Done), quiet)
  {
    hide MigrateDecision, OthersKept, Sound, PlaceDecision;
    assert OthersKept(w, v', {source.key}, pk);
    OthersKeptWider(w, v', {source.key}, {source.key, target.key}, pk);
    OthersKeptThrough(v, w, v', {source.key, target.key}, pk);
    if PortsLegal(v) && w == Closed(v, source.key) {
      PutBack(v, v', c, source, pk, back, quiet);
    } else if PortsLegal(v) && ClearedToo(v, w, source.key, target.key) {
      PutBackBeside(v, v', c, source, target.key, pk, back, quiet);
    }
  }

  /** The sole peer's interface is gone, and so is the empty one of the target. */
  ghost predicate ClearedToo(v: View, w: View, oldKey: ProfileKey, newKey: ProfileKey) {
    LeftEmpty(v, oldKey, newKey) && w == Closed(Closed(v, oldKey), newKey)
  }

  /** Putting a sole peer back after an empty target was cleared away. */
  lemma PutBackBeside(v: View, v': View, c: Limits, source: Profile, newKey: ProfileKey, pk: PublicKey, r: Outcome,
                      quiet: bool)
    requires Sound(v, c) && PortsLegal(v) && source.validated && LeftEmpty(v, source.key, newKey)
    requires Tracks(v, source.key, pk) && |v.slots[source.key].peers| == 1
    requires AddEffect(Closed(Closed(v, source.key), newKey), v', c, source, v.slots[source.key].port, pk,
                       v.slots[source.key].peers[pk], r, quiet)
    ensures r == Done ==> v' == Closed(v, newKey)
  {
    hide AddEffect, Sound, PortsLegal;
    ClosedSound(v, c, newKey);
    ClosedEitherWay(v, source.key, newKey);
    PutBack(Closed(v, newKey), v', c, source, pk, r, quiet);
  }

  lemma ClosedEitherWay(v: View, k: ProfileKey, k': ProfileKey)
    ensures Closed(Closed(v, k), k') == Closed(Closed(v, k'), k)
  {
    assert Closed(Closed(v, k), k').slots == Closed(Closed(v, k'), k).slots;
  }

  lemma ClosedSound(v: View, c: Limits, k: ProfileKey)
    requires Sound(v, c) && PortsLegal(v) && k in v.slots
    ensures Sound(Closed(v, k), c) && PortsLegal(Closed(v, k))
  {
    assert Closed(v, k).slots.Keys == v.slots.Keys - {k};
  }

  lemma SoleDecision(v: View, c: Limits, source: Profile, target: Profile, requested: int, pk: PublicKey)
    requires MigrateChecks(v, source, target, requested, pk) == Ok(false) && |v.slots[source.key].peers| == 1
    ensures MigrateDecision(v, c, source, target, requested, pk)
            == PlaceDecision(Closed(v, source.key), c, target.key, requested)
    ensures Removed(v, source.key, pk) == Closed(v, source.key)
    ensures v.slots[source.key].peers - {pk} == map[]
    ensures OthersKept(v, Closed(v, source.key), {source.key, target.key}, pk)
    ensures target.key in Closed(v, source.key).slots && Closed(v, source.key).slots[target.key].peers == map[] ==>
              LeftEmpty(v, source.key, target.key)
  {
    hide PlaceDecision, PeersKept;
    SolePeer(v, source.key, pk);
    RemovedKeepsPeers(v, source.key, pk);
  }

  lemma CreateKeepsOthers(v: View, v': View, c: Limits, profile: Profile, requested: int, r: Outcome, quiet: bool,
                          name: nat, pk: PublicKey)
    requires CreateEffect(v, v', c, profile, requested, r, quiet, name) && name !in v.orphans
    ensures OthersKept(v, v', {profile.key}, pk)
  {
    hide PlaceDecision;
  }

  lemma AddKeepsOthers(v: View, v': View, k: ProfileKey, pk: PublicKey, psk: Option<Psk>, r: Outcome, quiet: bool)
    requires k in v.slots && AddLockedEffect(v, v', k, pk, psk, r, quiet)
    ensures OthersKept(v, v', {k}, pk)
  {
  }

  lemma AddStopped(v: View, v': View, c: Limits, profile: Profile, requested: int, pk: PublicKey, psk: Option<Psk>,
                   r: Outcome, quiet: bool, name: nat)
    requires CreateEffect(v, v', c, profile, requested, r, quiet, name) && r != Done && name !in v.orphans
    ensures AddEffect(v, v', c, profile, requested, pk, psk, r, quiet)
  {
    hide PlaceDecision, OthersKept;
    CreateKeepsOthers(v, v', c, profile, requested, r, quiet, name, pk);
  }

  lemma AddComposes(v: View, v1: View, v': View, c: Limits, profile: Profile, requested: int, pk: PublicKey,
                    psk: Option<Psk>, r: Outcome, quiet: bool, name: nat)
    requires profile.key in v1.slots
    requires CreateEffect(v, v1, c, profile, requested, Done, true, name) && name !in v.orphans
    requires AddLockedEffect(v1, v', profile.key, pk, psk, r, quiet)
    ensures AddEffect(v, v', c, profile, requested, pk, psk, r, quiet)
  {
    hide PlaceDecision, OthersKept, WithPeers, Closed, Placed, Opened;
    CreateKeepsOthers(v, v1, c, profile, requested, Done, true, name, pk);
    AddKeepsOthers(v1, v', profile.key, pk, psk, r, quiet);
    OthersKeptThrough(v, v1, v', {profile.key}, pk);
    if r == Done {
      PlacedOnTarget(v, v1, v', c, profile, requested, pk, psk, name);
    } else if !r.rollbackFailed {
      AddAbandoned(v, v1, v', c, profile, requested, pk, psk, r, quiet, name);
    }
  }

  lemma AddAbandoned(v: View, v1: View, v': View, c: Limits, profile: Profile, requested: int, pk: PublicKey,
                     psk: Option<Psk>, r: Outcome, quiet: bool, name: nat)
    requires profile.key in v1.slots
    requires CreateEffect(v, v1, c, profile, requested, Done, true, name)
    requires AddLockedEffect(v1, v', profile.key, pk, psk, r, quiet) && r != Done && !r.rollbackFailed
    ensures v' == if profile.key in v.slots && v.slots[profile.key].peers == map[] then Closed(v, profile.key) else v
  {
    hide PlaceDecision;
    if profile.key !in v.slots || v.slots[profile.key].peers != map[] {
      FailedTarget(v, v1, v', c, profile, requested, pk, psk, r, quiet, name);
    }
  }

  /** v -> w -> w' with the target's slot the only one touched in the second step. */
  lemma StillKept(v: View, w: View, w': View, a: ProfileKey, b: ProfileKey, pk: PublicKey)
    requires OthersKept(v, w, {a, b}, pk) && OthersKept(w, w', {b}, pk)
    ensures OthersKept(v, w', {a, b}, pk)
  {
    OthersKeptWider(w, w', {b}, {a, b}, pk);
    OthersKeptThrough(v, w, w', {a, b}, pk);
  }

  lemma Moved(v: View, v': View, c: Limits, source: Profile, target: Profile, requested: int, pk: PublicKey,
                  psk: Option<Psk>, quiet: bool)
    requires MigrateChecks(v, source, target, requested, pk) == Ok(false)
    requires MigrateDecision(v, c, source, target, requested, pk).Ok?
    requires v' == Placed(Removed(v, source.key, pk), target.key,
                          MigrateDecision(v, c, source, target, requested, pk).value, pk, psk)
    ensures MigrateEffect(v, v', c, source, target, requested, pk, psk, Done, quiet)
  {
    hide MigrateDecision, PeersKept, Placed, Removed;
    var r := Removed(v, source.key, pk);
    RemovedSlots(v, source.key, pk);
    PlacedSlots(r, target.key, MigrateDecision(v, c, source, target, requested, pk).value, pk, psk);
    RemovedKeepsPeers(v, source.key, pk);
    PlacedKeepsPeers(r, target.key, MigrateDecision(v, c, source, target, requested, pk).value, pk, psk);
    PeersKeptThrough(v, r, v', pk);
  }

  lemma PlacedSlots(v: View, k: ProfileKey, port: int, pk: PublicKey, psk: Option<Psk>)
    ensures var w := Placed(v, k, port, pk, psk);
            && (forall k' :: k' != k ==> (k' in w.slots <==> k' in v.slots))
            && (forall k' :: k' != k && k' in v.slots ==> w.slots[k'] == v.slots[k'])
            && w.orphans == v.orphans
  {
  }

  lemma RemovedKeepsPeers(v: View, k: ProfileKey, pk: PublicKey)
    requires k in v.slots
    ensures PeersKept(v, Removed(v, k, pk), pk)
  {
    forall k', other | other != pk
      ensures PeerKept(v, Removed(v, k, pk), k', other)
    {
      assert k' == k && Tracks(v, k, other) ==> other in v.slots[k].peers - {pk};
    }
  }

  lemma PlacedKeepsPeers(v: View, k: ProfileKey, port: int, pk: PublicKey, psk: Option<Psk>)
    ensures PeersKept(v, Placed(v, k, port, pk, psk), pk)
  {
  }

  lemma AddEffectWeaken(v: View, v': View, c: Limits, profile: Profile, requested: int, pk: PublicKey,
                        psk: Option<Psk>, r: Outcome, quiet: bool, quiet': bool)
    requires AddEffect(v, v', c, profile, requested, pk, psk, r, quiet) && (quiet' ==> quiet)
    ensures AddEffect(v, v', c, profile, requested, pk, psk, r, quiet')
  {
    hide PlaceDecision, OthersKept;
  }

  lemma CreateFailed(v: View, v': View, c: Limits, profile: Profile, requested: int, r: Outcome, quiet: bool, name: nat)
    requires CreateEffect(v, v', c, profile, requested, r, quiet, name) && r != Done && profile.validated
    ensures !r.rollbackFailed ==> v' == v
    ensures quiet ==> v' == v && r == Failed(r.error, false) && PlaceDecision(v, c, profile.key, requested) == Err(r.error)
  {
    hide PlaceDecision;
  }

  lemma TargetTaken(w: View, w1: View, c: Limits, target: Profile, requested: int, r: Outcome, quiet: bool, name: nat)
    requires CreateEffect(w, w1, c, target, requested, r, quiet, name) && r == Done
    ensures CreateEffect(w, w1, c, target, requested, Done, true, name)
  {
    hide PlaceDecision;
  }

  lemma AddedLoudly(v: View, v': View, k: ProfileKey, pk: PublicKey, psk: Option<Psk>, r: Outcome, quiet: bool)
    requires k in v.slots && AddLockedEffect(v, v', k, pk, psk, r, quiet)
    ensures r != Done ==> !quiet && r.error == HostCallFailed
    ensures r == Done ==> AddLockedEffect(v, v', k, pk, psk, Done, true)
  {
  }

  lemma SharedDecision(v: View, c: Limits, source: Profile, target: Profile, requested: int, pk: PublicKey)
    requires MigrateChecks(v, source, target, requested, pk) == Ok(false) && |v.slots[source.key].peers| > 1
    ensures source.key != target.key && Tracks(v, source.key, pk)
    ensures MigrateDecision(v, c, source, target, requested, pk) == PlaceDecision(v, c, target.key, requested)
  {
    hide PlaceDecision;
  }

  lemma SharedNotCreated(v: View, v': View, c: Limits, source: Profile, target: Profile, requested: int, pk: PublicKey,
                         psk: Option<Psk>, r: Outcome, quiet: bool, name: nat)
    requires MigrateChecks(v, source, target, requested, pk) == Ok(false) && |v.slots[source.key].peers| > 1
    requires CreateEffect(v, v', c, target, requested, r, quiet, name) && r != Done && name !in v.orphans
    ensures MigrateEffect(v, v', c, source, target, requested, pk, psk, r, quiet)
  {
    hide MigrateDecision, PlaceDecision, OthersKept, CreateEffect;
    SharedDecision(v, c, source, target, requested, pk);
    CreateKeepsOthers(v, v', c, target, requested, r, quiet, name, pk);
    OthersKeptWider(v, v', {target.key}, {source.key, target.key}, pk);
    CreateFailed(v, v', c, target, requested, r, quiet, name);
  }

  lemma OtherSlotKept(v: View, v': View, k: ProfileKey, k': ProfileKey, pk: PublicKey)
    requires OthersKept(v, v', {k'}, pk) && k != k' && k in v.slots
    ensures k in v'.slots && v'.slots[k] == v.slots[k]
  {
  }

  lemma SharedUndone(v: View, k: ProfileKey, k': ProfileKey, port: int, pk: PublicKey, psk: Option<Psk>)
    requires k != k'
    ensures Tracks(Placed(v, k', port, pk, psk), k', pk)
    ensures k in v.slots && |v.slots[k].peers| > 1 ==>
              SilentlyFailed(v, Removed(Placed(v, k', port, pk, psk), k', pk), k, k', pk)
  {
    if CleanTarget(v, k, k', pk) {
      AddThenRemove(v, k', port, pk, psk);
    } else {
      PlacedOverLeftover(v, k', port, pk, psk);
    }
  }

  /** Adding a peer where something was left over, and removing it, takes the leftover away. */
  lemma PlacedOverLeftover(v: View, k: ProfileKey, port: int, pk: PublicKey, psk: Option<Psk>)
    requires k in v.slots && (v.slots[k].peers == map[] || pk in v.slots[k].peers)
    ensures Removed(Placed(v, k, port, pk, psk), k, pk) == Removed(v, k, pk)
    ensures v.slots[k].peers == map[] ==> Removed(v, k, pk) == Closed(v, k)
  {
    var w := Placed(v, k, port, pk, psk);
    assert w.slots[k].peers - {pk} == v.slots[k].peers - {pk};
    assert Closed(w, k).slots == Closed(v, k).slots;
    assert w.slots[k := v.slots[k]] == v.slots;
  }

  lemma MigrateEffectWeaken(v: View, v': View, c: Limits, source: Profile, target: Profile, requested: int,
                            pk: PublicKey, psk: Option<Psk>, r: Outcome, quiet: bool, quiet': bool)
    requires MigrateEffect(v, v', c, source, target, requested, pk, psk, r, quiet) && (quiet' ==> quiet)
    ensures MigrateEffect(v, v', c, source, target, requested, pk, psk, r, quiet')
  {
    hide MigrateDecision, MigrateChecks, OthersKept;
  }

  // ---------------------------------------------------------------------------------------------
  // What a successful migration means
  // ---------------------------------------------------------------------------------------------

  /** A migration that moves something honours an explicit port. */
  lemma MigrationHonoursPort(v: View, v': View, c: Limits, source: Profile, target: Profile, requested: int,
                             pk: PublicKey, psk: Option<Psk>, quiet: bool)
    requires MigrateEffect(v, v', c, source, target, requested, pk, psk, Done, quiet)
    requires MigrateChecks(v, source, target, requested, pk) == Ok(false) && requested != 0
    ensures Tracks(v', target.key, pk) && v'.slots[target.key].port == requested
  {
    hide OthersKept;
    RemovedSlots(v, source.key, pk);
  }

  /** Exactly one peer moves: it ends on the target alone, and every other peer keeps its interface, port and key. */
  lemma MigrationMovesOnePeer(v: View, v': View, c: Limits, source: Profile, target: Profile, requested: int,
                              pk: PublicKey, psk: Option<Psk>, quiet: bool, k: ProfileKey, other: PublicKey)
    requires MigrateEffect(v, v', c, source, target, requested, pk, psk, Done, quiet)
    requires MigrateChecks(v, source, target, requested, pk) == Ok(false)
    ensures Tracks(v', target.key, pk) && v'.slots[target.key].peers[pk] == psk
    ensures source.key != target.key ==> !Tracks(v', source.key, pk)
    ensures other != pk ==> (Tracks(v', k, other) <==> Tracks(v, k, other))
    ensures other != pk && Tracks(v, k, other) ==>
              v'.slots[k].port == v.slots[k].port && v'.slots[k].peers[other] == v.slots[k].peers[other]
  {
    hide SlotsKept, PlaceDecision, MigrateDecision;
    RemovedSlots(v, source.key, pk);
    assert other != pk ==> PeerKept(v, v', k, other);
  }

  /**
   A failed add that reports no failed rollback leaves the view as it was exactly when the profile's slot, if there is
   one, was not left empty by an earlier failed rollback.
   */
  lemma AddAtomicIff(v: View, v': View, c: Limits, profile: Profile, requested: int, pk: PublicKey, psk: Option<Psk>,
                     r: Outcome, quiet: bool)
    requires AddEffect(v, v', c, profile, requested, pk, psk, r, quiet)
    requires profile.validated && PlaceDecision(v, c, profile.key, requested).Ok? && r != Done && !r.rollbackFailed
    ensures v' == v <==> (profile.key in v.slots ==> v.slots[profile.key].peers != map[])
  {
    hide PlaceDecision, OthersKept;
    assert profile.key in v.slots ==> profile.key !in Closed(v, profile.key).slots;
  }

  /** An empty slot is such a case: the failed add clears it away. */
  lemma EmptySlotCleared(v': View, pk: PublicKey, quiet: bool)
    requires var k := ProfileKey([]);
             AddEffect(View(map[k := Slot(51820, map[])], map[]), v', Limits(51820, 0), Profile(k, 0, true), 0, pk, None,
                       Failed(HostCallFailed, false), quiet)
    ensures v' == EMPTY_VIEW
  {
    var k := ProfileKey([]);
    var v := View(map[k := Slot(51820, map[])], map[]);
    assert v.slots[k] == Slot(51820, map[]);
    assert Closed(v, k).slots == map[];
  }

  // ---------------------------------------------------------------------------------------------
  // Exactly when a migration is atomic
  // ---------------------------------------------------------------------------------------------

  /** The target's interface is found or created and the add to it fails; cleaning up succeeds. */
  ghost predicate AddFails(v: View, v': View, c: Limits, target: Profile, requested: int, pk: PublicKey, psk: Option<Psk>) {
    exists v1, name ::
      && CreateEffect(v, v1, c, target, requested, Done, true, name) && target.key in v1.slots
      && AddLockedEffect(v1, v', target.key, pk, psk, Failed(HostCallFailed, false), false)
  }

  /** The peer is added to the target, does not come off the source, and is taken off the target again. */
  ghost predicate LeaveFails(v: View, v': View, c: Limits, target: Profile, requested: int, pk: PublicKey, psk: Option<Psk>) {
    exists v1, v2, name ::
      && CreateEffect(v, v1, c, target, requested, Done, true, name) && target.key in v1.slots
      && AddLockedEffect(v1, v2, target.key, pk, psk, Done, true)
      && Tracks(v2, target.key, pk) && v' == Removed(v2, target.key, pk)
  }

  /** The sole peer's interface is gone, the add to the target fails, and the peer is put back at its old port. */
  ghost predicate FallsBack(v: View, v': View, c: Limits, source: Profile, target: Profile, requested: int, pk: PublicKey,
                            psk: Option<Psk>)
    requires Tracks(v, source.key, pk)
  {
    exists w :: AddFails(Closed(v, source.key), w, c, target, requested, pk, psk)
                && AddEffect(w, v', c, source, v.slots[source.key].port, pk, v.slots[source.key].peers[pk], Done, true)
  }

  /** A migration whose steps fail after the target's interface is there, with every rollback succeeding. */
  ghost predicate RolledBackRun(v: View, v': View, c: Limits, source: Profile, target: Profile, requested: int,
                                pk: PublicKey, psk: Option<Psk>)
    requires MigrateChecks(v, source, target, requested, pk) == Ok(false)
  {
    if |v.slots[source.key].peers| == 1 then FallsBack(v, v', c, source, target, requested, pk, psk)
    else AddFails(v, v', c, target, requested, pk, psk) || LeaveFails(v, v', c, target, requested, pk, psk)
  }

  lemma AddFailsEffect(v: View, v': View, c: Limits, target: Profile, requested: int, pk: PublicKey, psk: Option<Psk>)
    requires AddFails(v, v', c, target, requested, pk, psk)
    ensures v' == if target.key in v.slots && v.slots[target.key].peers == map[] then Closed(v, target.key) else v
  {
    hide CreateEffect, AddLockedEffect;
    var v1, name :|
      && CreateEffect(v, v1, c, target, requested, Done, true, name) && target.key in v1.slots
      && AddLockedEffect(v1, v', target.key, pk, psk, Failed(HostCallFailed, false), false);
    AddAbandoned(v, v1, v', c, target, requested, pk, psk, Failed(HostCallFailed, false), false, name);
  }

  lemma LeaveFailsEffect(v: View, v': View, c: Limits, source: ProfileKey, target: Profile, requested: int, pk: PublicKey,
                         psk: Option<Psk>)
    requires LeaveFails(v, v', c, target, requested, pk, psk)
    requires source != target.key && source in v.slots && |v.slots[source].peers| > 1
    ensures SilentlyFailed(v, v', source, target.key, pk)
  {
    hide CreateEffect, AddLockedEffect, Placed, Removed, SilentlyFailed;
    var v1, v2, name :|
      && CreateEffect(v, v1, c, target, requested, Done, true, name) && target.key in v1.slots
      && AddLockedEffect(v1, v2, target.key, pk, psk, Done, true)
      && Tracks(v2, target.key, pk) && v' == Removed(v2, target.key, pk);
    PlacedOnTarget(v, v1, v2, c, target, requested, pk, psk, name);
    SharedUndone(v, source, target.key, PlaceDecision(v, c, target.key, requested).value, pk, psk);
  }

  lemma FallsBackEffect(v: View, v': View, c: Limits, source: Profile, target: Profile, requested: int, pk: PublicKey,
                        psk: Option<Psk>)
    requires MigrateChecks(v, source, target, requested, pk) == Ok(false) && |v.slots[source.key].peers| == 1
    requires FallsBack(v, v', c, source, target, requested, pk, psk) && Sound(v, c) && PortsLegal(v)
    ensures SilentlyFailed(v, v', source.key, target.key, pk)
  {
    hide AddFails, AddEffect, Sound, PortsLegal;
    var w :| AddFails(Closed(v, source.key), w, c, target, requested, pk, psk)
             && AddEffect(w, v', c, source, v.slots[source.key].port, pk, v.slots[source.key].peers[pk], Done, true);
    AddFailsEffect(Closed(v, source.key), w, c, target, requested, pk, psk);
    if w == Closed(v, source.key) {
      PutBack(v, v', c, source, pk, Done, true);
    } else {
      PutBackBeside(v, v', c, source, target.key, pk, Done, true);
    }
  }

  /** Every rolled-back run leaves the view as it was, or without the leftover. */
  lemma RolledBackEffect(v: View, v': View, c: Limits, source: Profile, target: Profile, requested: int, pk: PublicKey,
                         psk: Option<Psk>)
    requires MigrateChecks(v, source, target, requested, pk) == Ok(false) && Sound(v, c) && PortsLegal(v)
    requires RolledBackRun(v, v', c, source, target, requested, pk, psk)
    ensures SilentlyFailed(v, v', source.key, target.key, pk)
  {
    hide AddFails, LeaveFails, FallsBack, Sound, PortsLegal;
    if |v.slots[source.key].peers| == 1 {
      FallsBackEffect(v, v', c, source, target, requested, pk, psk);
    } else if AddFails(v, v', c, target, requested, pk, psk) {
      AddFailsEffect(v, v', c, target, requested, pk, psk);
    } else {
      LeaveFailsEffect(v, v', c, source.key, target, requested, pk, psk);
    }
  }

  lemma TargetFound(v: View, c: Limits, target: Profile, requested: int, name: nat)
    requires target.validated && target.key in v.slots && (requested == 0 || requested == v.slots[target.key].port)
    ensures CreateEffect(v, v, c, target, requested, Done, true, name)
  {
  }

  lemma EmptyTargetCleared(v: View, c: Limits, target: Profile, requested: int, pk: PublicKey, psk: Option<Psk>)
    requires target.validated && target.key in v.slots && (requested == 0 || requested == v.slots[target.key].port)
    requires v.slots[target.key].peers == map[]
    ensures AddFails(v, Closed(v, target.key), c, target, requested, pk, psk)
  {
    hide CreateEffect;
    TargetFound(v, c, target, requested, 0);
    assert AddLockedEffect(v, Closed(v, target.key), target.key, pk, psk, Failed(HostCallFailed, false), false);
  }

  lemma LeftoverPeerLost(v: View, c: Limits, target: Profile, requested: int, pk: PublicKey, psk: Option<Psk>)
    requires target.validated && Tracks(v, target.key, pk) && (requested == 0 || requested == v.slots[target.key].port)
    ensures exists v' :: v' != v && LeaveFails(v, v', c, target, requested, pk, psk)
  {
    hide CreateEffect;
    TargetFound(v, c, target, requested, 0);
    var v2 := WithPeers(v, target.key, v.slots[target.key].peers[pk := psk]);
    var v' := Removed(v2, target.key, pk);
    assert AddLockedEffect(v, v2, target.key, pk, psk, Done, true);
    assert LeaveFails(v, v', c, target, requested, pk, psk);
    assert !Tracks(v', target.key, pk);
  }

  lemma SolePutBack(v: View, c: Limits, source: Profile, newKey: ProfileKey, pk: PublicKey)
    requires Sound(v, c) && PortsLegal(v) && source.validated && LeftEmpty(v, source.key, newKey)
    requires Tracks(v, source.key, pk) && |v.slots[source.key].peers| == 1
    ensures AddEffect(Closed(Closed(v, source.key), newKey), Closed(v, newKey), c, source, v.slots[source.key].port, pk,
                      v.slots[source.key].peers[pk], Done, true)
  {
    hide Sound, PortsLegal, PlaceDecision, Placed, AddEffect, Removed;
    var k, u := source.key, Closed(v, newKey);
    ClosedSound(v, c, newKey);
    ClosedEitherWay(v, k, newKey);
    RoomToReturn(u, c, k);
    SolePeer(u, k, pk);
    RemoveThenAdd(u, k, pk);
    AddSucceeds(Closed(u, k), c, source, u.slots[k].port, pk, u.slots[k].peers[pk]);
  }

  lemma AddSucceeds(v: View, c: Limits, profile: Profile, requested: int, pk: PublicKey, psk: Option<Psk>)
    requires profile.validated && PlaceDecision(v, c, profile.key, requested).Ok?
    ensures var port := PlaceDecision(v, c, profile.key, requested).value;
            AddEffect(v, Placed(v, profile.key, port, pk, psk), c, profile, requested, pk, psk, Done, true)
  {
    hide PlaceDecision, PeersKept, Placed;
    var port := PlaceDecision(v, c, profile.key, requested).value;
    PlacedSlots(v, profile.key, port, pk, psk);
    PlacedKeepsPeers(v, profile.key, port, pk, psk);
  }

  lemma LeftoverExposed(v: View, c: Limits, source: Profile, target: Profile, requested: int, pk: PublicKey,
                        psk: Option<Psk>)
    requires MigrateChecks(v, source, target, requested, pk) == Ok(false) && Sound(v, c) && PortsLegal(v)
    requires LeftEmpty(v, source.key, target.key) || DoublyTracked(v, source.key, target.key, pk)
    ensures exists v' :: v' != v && RolledBackRun(v, v', c, source, target, requested, pk, psk)
  {
    hide AddFails, LeaveFails, AddEffect, Sound, PortsLegal;
    if !LeftEmpty(v, source.key, target.key) {
      LeftoverPeerLost(v, c, target, requested, pk, psk);
      var v' :| v' != v && LeaveFails(v, v', c, target, requested, pk, psk);
      assert RolledBackRun(v, v', c, source, target, requested, pk, psk);
    } else {
      var v' := Closed(v, target.key);
      assert target.key !in v'.slots;
      if |v.slots[source.key].peers| == 1 {
        SolePutBack(v, c, source, target.key, pk);
        EmptyTargetCleared(Closed(v, source.key), c, target, requested, pk, psk);
        assert FallsBack(v, v', c, source, target, requested, pk, psk);
      } else {
        EmptyTargetCleared(v, c, target, requested, pk, psk);
      }
      assert RolledBackRun(v, v', c, source, target, requested, pk, psk);
    }
  }

  /**
   A migration whose rollbacks all succeed can change the view if and only if an earlier failed rollback left the target's
   interface empty, or left the peer of a shared interface on the target.
   */
  lemma MigrationAtomicIff(v: View, c: Limits, source: Profile, target: Profile, requested: int, pk: PublicKey,
                           psk: Option<Psk>)
    requires MigrateChecks(v, source, target, requested, pk) == Ok(false) && Sound(v, c) && PortsLegal(v)
    ensures (exists v' :: v' != v && RolledBackRun(v, v', c, source, target, requested, pk, psk)) <==>
            LeftEmpty(v, source.key, target.key) || DoublyTracked(v, source.key, target.key, pk)
  {
    hide RolledBackRun, Sound, PortsLegal, MigrateChecks;
    if v' :| v' != v && RolledBackRun(v, v', c, source, target, requested, pk, psk) {
      RolledBackEffect(v, v', c, source, target, requested, pk, psk);
    }
    if LeftEmpty(v, source.key, target.key) || DoublyTracked(v, source.key, target.key, pk) {
      LeftoverExposed(v, c, source, target, requested, pk, psk);
    }
  }

  /** With nothing left over on the target, no error without a failed rollback changes the view. */
  lemma MigrationAtomic(v: View, v': View, c: Limits, source: Profile, target: Profile, requested: int, pk: PublicKey,
                        psk: Option<Psk>, r: Outcome, quiet: bool)
    requires MigrateEffect(v, v', c, source, target, requested, pk, psk, r, quiet) && PortsLegal(v)
    requires !LeftEmpty(v, source.key, target.key) && !DoublyTracked(v, source.key, target.key, pk)
    requires r != Done && !r.rollbackFailed
    ensures v' == v
  {
    hide OthersKept, MigrateDecision;
  }

  const SHARED_KEY := ProfileKey([1])
  const EMPTY_KEY := ProfileKey([2])

  /** Two peers on one interface, and another interface left empty. */
  const LEFTOVER := View(map[SHARED_KEY := Slot(51820, map[7 := None, 8 := None]), EMPTY_KEY := Slot(51821, map[])], map[])

  /** Moving peer 7 there: finding the interface and failing to add to it clears the interface away, silently. */
  lemma LeftoverCleared(c: Limits)
    ensures LEFTOVER.slots[EMPTY_KEY].peers == map[]
    ensures CreateEffect(LEFTOVER, LEFTOVER, c, Profile(EMPTY_KEY, 0, true), 0, Done, true, 2)
    ensures AddLockedEffect(LEFTOVER, Closed(LEFTOVER, EMPTY_KEY), EMPTY_KEY, 7, None, Failed(HostCallFailed, false), false)
    ensures Closed(LEFTOVER, EMPTY_KEY) != LEFTOVER
  {
    assert SHARED_KEY.preimage[0] != EMPTY_KEY.preimage[0];
    assert EMPTY_KEY in LEFTOVER.slots && EMPTY_KEY !in Closed(LEFTOVER, EMPTY_KEY).slots;
  }
}
