/** The interface pool: hand-written rollback chains over host calls that may fail at any step. */
module Pool {
  import opened Wrappers
  import opened PoolView

  datatype HostCall =
    | CreateInterface(name: nat)
    | DestroyInterface(name: nat)
    | ConfigureDevice(name: nat, port: int, key: ProfileKey)
    | ConfigureNetwork(name: nat)
    | AddMasquerade
    | RemoveMasquerade
    | AddPeerTo(name: nat, pk: PublicKey, psk: Option<Psk>)
    | RemovePeerFrom(name: nat, pk: PublicKey, psk: Option<Psk>)
    | RemovePeerOnly(name: nat, pk: PublicKey)
    | CleanupPeer(name: nat, pk: PublicKey)
    | RestorePeerAndRoute(name: nat, pk: PublicKey, psk: Option<Psk>)
    | ReplaceRoute(name: nat)

  /** The host as an oracle: every call may fail. */
  class Host {
    ghost var failures: nat

    constructor ()
      ensures failures == 0
    {
      failures := 0;
    }

    method Attempt(call: HostCall) returns (ok: bool)
      modifies this
      ensures failures == old(failures) + (if ok then 0 else 1)
    {
      ok := *;
      if !ok {
        failures := failures + 1;
      }
    }

    /** Cleanup after a failed add reports whether the peer itself is gone; a peer left behind is always an error. */
    method CleanupPeerAfterFailedAdd(name: nat, pk: PublicKey) returns (peerRemoved: bool, ok: bool)
      modifies this
      ensures !peerRemoved ==> !ok
      ensures failures >= old(failures)
    {
      peerRemoved := Attempt(CleanupPeer(name, pk));
      ok := Attempt(CleanupPeer(name, pk));
      ok := ok && peerRemoved;
    }
  }

  /** One kernel interface; names awg0, awg1, ... are given by their index. */
  datatype Iface = Iface(name: nat, port: int, peerCount: int, peerPSKs: map<PublicKey, Option<Psk>>)

  function TrackedPeer(ifc: Iface, pk: PublicKey, psk: Option<Psk>): Iface {
    ifc.(peerCount := if pk in ifc.peerPSKs then ifc.peerCount else ifc.peerCount + 1,
         peerPSKs := ifc.peerPSKs[pk := psk])
  }

  function UntrackedPeer(ifc: Iface, pk: PublicKey): Iface {
    if pk !in ifc.peerPSKs then ifc
    else ifc.(peerCount := if ifc.peerCount > 0 then ifc.peerCount - 1 else ifc.peerCount,
              peerPSKs := ifc.peerPSKs - {pk})
  }

  lemma TrackingCounts(ifc: Iface, pk: PublicKey, psk: Option<Psk>)
    requires ifc.peerCount == |ifc.peerPSKs|
    ensures var t := TrackedPeer(ifc, pk, psk); t.peerCount == |t.peerPSKs|
    ensures var u := UntrackedPeer(ifc, pk); u.peerCount == |u.peerPSKs| && u.peerPSKs == ifc.peerPSKs - {pk}
  {
    if pk in ifc.peerPSKs {
      assert (ifc.peerPSKs - {pk}).Keys + {pk} == ifc.peerPSKs.Keys;
      assert ifc.peerPSKs[pk := psk].Keys == ifc.peerPSKs.Keys;
    } else {
      assert ifc.peerPSKs - {pk} == ifc.peerPSKs;
      assert ifc.peerPSKs[pk := psk].Keys == ifc.peerPSKs.Keys + {pk};
    }
  }

  function ViewOf(ifaces: map<ProfileKey, Iface>, orphans: map<nat, int>): View {
    View(map k | k in ifaces :: Slot(ifaces[k].port, ifaces[k].peerPSKs), orphans)
  }

  /** Who holds a port. */
  datatype Owner = Tracked(key: ProfileKey) | Quarantine(name: nat)

  ghost predicate HasOwner(owners: map<int, Owner>, p: int, o: Owner) {
    p in owners && owners[p] == o
  }

  ghost predicate Holds(ifaces: map<ProfileKey, Iface>, orphans: map<nat, int>, o: Owner, p: int) {
    match o
    case Tracked(k) => k in ifaces && ifaces[k].port == p
    case Quarantine(n) => n in orphans && orphans[n] == p
  }

  /** The port ledger: every interface and orphan owns its port, and every ledger entry is owned. */
  ghost predicate PortsOwned(ifaces: map<ProfileKey, Iface>, orphans: map<nat, int>, owners: map<int, Owner>) {
    && (forall k :: k in ifaces ==> HasOwner(owners, ifaces[k].port, Tracked(k)))
    && (forall n :: n in orphans ==> HasOwner(owners, orphans[n], Quarantine(n)))
    && (forall p :: p in owners ==> Holds(ifaces, orphans, owners[p], p))
  }

  /** Names are unique and below the next index. */
  ghost predicate NamesUnique(ifaces: map<ProfileKey, Iface>, orphans: map<nat, int>, nextIndex: nat) {
    && (forall k :: k in ifaces ==> ifaces[k].name < nextIndex && ifaces[k].name !in orphans)
    && (forall n :: n in orphans ==> n < nextIndex)
    && (forall k, k' :: k in ifaces && k' in ifaces && k != k' ==> ifaces[k].name != ifaces[k'].name)
  }

  ghost predicate UnderCap(ifaces: map<ProfileKey, Iface>, orphans: map<nat, int>, c: Limits) {
    c.maxIfaces > 0 ==> |ifaces| + |orphans| <= c.maxIfaces
  }

  /** With a legal base port every port in use is legal. */
  ghost predicate PortsInRange(owners: map<int, Owner>, c: Limits) {
    c.listenPort >= MIN_PORT ==> forall p :: p in owners ==> MIN_PORT <= p <= MAX_PORT
  }

  ghost predicate Counted(ifaces: map<ProfileKey, Iface>) {
    forall k :: k in ifaces ==> ifaces[k].peerCount == |ifaces[k].peerPSKs|
  }

  /** The pool invariant, kept by every operation whatever the host does, failed rollbacks included. */
  ghost predicate Invariant(ifaces: map<ProfileKey, Iface>, orphans: map<nat, int>, owners: map<int, Owner>,
                            nextIndex: nat, c: Limits)
  {
    && Counted(ifaces)
    && PortsOwned(ifaces, orphans, owners)
    && NamesUnique(ifaces, orphans, nextIndex)
    && UnderCap(ifaces, orphans, c)
    && PortsInRange(owners, c)
  }

  ghost predicate SameIdentity(a: Iface, b: Iface) {
    a.name == b.name && a.port == b.port
  }

  lemma ReplaceOwned(ifaces: map<ProfileKey, Iface>, orphans: map<nat, int>, owners: map<int, Owner>, key: ProfileKey, ifc: Iface)
    requires PortsOwned(ifaces, orphans, owners) && key in ifaces && SameIdentity(ifc, ifaces[key])
    ensures PortsOwned(ifaces[key := ifc], orphans, owners)
  {
    var ifaces' := ifaces[key := ifc];
    forall k | k in ifaces'
      ensures HasOwner(owners, ifaces'[k].port, Tracked(k))
    {
      assert HasOwner(owners, ifaces[k].port, Tracked(k));
    }
    forall p | p in owners
      ensures Holds(ifaces', orphans, owners[p], p)
    {
      assert Holds(ifaces, orphans, owners[p], p);
    }
  }

  lemma ReplaceNames(ifaces: map<ProfileKey, Iface>, orphans: map<nat, int>, nextIndex: nat, key: ProfileKey, ifc: Iface)
    requires NamesUnique(ifaces, orphans, nextIndex) && key in ifaces && SameIdentity(ifc, ifaces[key])
    ensures NamesUnique(ifaces[key := ifc], orphans, nextIndex)
  {
  }

  lemma ReplaceView(ifaces: map<ProfileKey, Iface>, orphans: map<nat, int>, key: ProfileKey, ifc: Iface)
    requires key in ifaces && SameIdentity(ifc, ifaces[key])
    ensures key in ViewOf(ifaces, orphans).slots
    ensures ViewOf(ifaces[key := ifc], orphans) == WithPeers(ViewOf(ifaces, orphans), key, ifc.peerPSKs)
  {
  }

  /** Replacing an interface record by one with other peers. */
  lemma PeersChanged(ifaces: map<ProfileKey, Iface>, orphans: map<nat, int>, owners: map<int, Owner>, nextIndex: nat,
                     c: Limits, key: ProfileKey, ifc: Iface)
    requires Invariant(ifaces, orphans, owners, nextIndex, c) && key in ifaces
    requires SameIdentity(ifc, ifaces[key]) && ifc.peerCount == |ifc.peerPSKs|
    ensures Invariant(ifaces[key := ifc], orphans, owners, nextIndex, c)
    ensures key in ViewOf(ifaces, orphans).slots
    ensures ViewOf(ifaces[key := ifc], orphans) == WithPeers(ViewOf(ifaces, orphans), key, ifc.peerPSKs)
  {
    hide PortsOwned, NamesUnique, ViewOf;
    ReplaceOwned(ifaces, orphans, owners, key, ifc);
    ReplaceNames(ifaces, orphans, nextIndex, key, ifc);
    ReplaceView(ifaces, orphans, key, ifc);
    assert ifaces[key := ifc].Keys == ifaces.Keys;
  }

  lemma TrackingKeeps(ifaces: map<ProfileKey, Iface>, orphans: map<nat, int>, owners: map<int, Owner>, nextIndex: nat,
                      c: Limits, key: ProfileKey, pk: PublicKey, psk: Option<Psk>)
    requires Invariant(ifaces, orphans, owners, nextIndex, c) && key in ifaces
    ensures Invariant(ifaces[key := TrackedPeer(ifaces[key], pk, psk)], orphans, owners, nextIndex, c)
    ensures Invariant(ifaces[key := UntrackedPeer(ifaces[key], pk)], orphans, owners, nextIndex, c)
    ensures key in ViewOf(ifaces, orphans).slots
    ensures ViewOf(ifaces[key := TrackedPeer(ifaces[key], pk, psk)], orphans)
            == WithPeers(ViewOf(ifaces, orphans), key, ifaces[key].peerPSKs[pk := psk])
    ensures ViewOf(ifaces[key := UntrackedPeer(ifaces[key], pk)], orphans)
            == WithPeers(ViewOf(ifaces, orphans), key, ifaces[key].peerPSKs - {pk})
  {
    hide PortsOwned, NamesUnique;
    TrackingCounts(ifaces[key], pk, psk);
    PeersChanged(ifaces, orphans, owners, nextIndex, c, key, TrackedPeer(ifaces[key], pk, psk));
    PeersChanged(ifaces, orphans, owners, nextIndex, c, key, UntrackedPeer(ifaces[key], pk));
  }

  lemma CloseEntry(ifaces: map<ProfileKey, Iface>, orphans: map<nat, int>, owners: map<int, Owner>, key: ProfileKey)
    requires PortsOwned(ifaces, orphans, owners) && key in ifaces
    ensures PortsOwned(ifaces - {key}, orphans, owners - {ifaces[key].port}) && ifaces[key].port in owners
  {
    var owners' := owners - {ifaces[key].port};
    assert HasOwner(owners, ifaces[key].port, Tracked(key));
    forall k | k in ifaces && k != key
      ensures HasOwner(owners', ifaces[k].port, Tracked(k))
    {
      assert HasOwner(owners, ifaces[k].port, Tracked(k));
    }
    forall n | n in orphans
      ensures HasOwner(owners', orphans[n], Quarantine(n))
    {
      assert HasOwner(owners, orphans[n], Quarantine(n));
    }
    forall p | p in owners'
      ensures Holds(ifaces - {key}, orphans, owners'[p], p)
    {
      assert Holds(ifaces, orphans, owners[p], p);
    }
  }

  lemma OpenEntry(ifaces: map<ProfileKey, Iface>, orphans: map<nat, int>, owners: map<int, Owner>, key: ProfileKey, ifc: Iface)
    requires PortsOwned(ifaces, orphans, owners) && key !in ifaces && ifc.port !in owners
    ensures PortsOwned(ifaces[key := ifc], orphans, owners[ifc.port := Tracked(key)])
  {
    var ifaces', owners' := ifaces[key := ifc], owners[ifc.port := Tracked(key)];
    forall k | k in ifaces'
      ensures HasOwner(owners', ifaces'[k].port, Tracked(k))
    {
      if k != key {
        assert HasOwner(owners, ifaces[k].port, Tracked(k));
      }
    }
    forall n | n in orphans
      ensures HasOwner(owners', orphans[n], Quarantine(n))
    {
      assert HasOwner(owners, orphans[n], Quarantine(n));
    }
    forall p | p in owners'
      ensures Holds(ifaces', orphans, owners'[p], p)
    {
      if p != ifc.port {
        assert Holds(ifaces, orphans, owners[p], p);
      }
    }
  }

  lemma OrphanEntry(ifaces: map<ProfileKey, Iface>, orphans: map<nat, int>, owners: map<int, Owner>, name: nat, port: int)
    requires PortsOwned(ifaces, orphans, owners) && name !in orphans && port !in owners
    ensures PortsOwned(ifaces, orphans[name := port], owners[port := Quarantine(name)])
  {
    var orphans', owners' := orphans[name := port], owners[port := Quarantine(name)];
    forall k | k in ifaces
      ensures HasOwner(owners', ifaces[k].port, Tracked(k))
    {
      assert HasOwner(owners, ifaces[k].port, Tracked(k));
    }
    forall n | n in orphans'
      ensures HasOwner(owners', orphans'[n], Quarantine(n))
    {
      if n != name {
        assert HasOwner(owners, orphans[n], Quarantine(n));
      }
    }
    forall p | p in owners'
      ensures Holds(ifaces, orphans', owners'[p], p)
    {
      if p != port {
        assert Holds(ifaces, orphans, owners[p], p);
      }
    }
  }


  lemma InterfaceClosed(ifaces: map<ProfileKey, Iface>, orphans: map<nat, int>, owners: map<int, Owner>, nextIndex: nat,
                        c: Limits, key: ProfileKey)
    requires Invariant(ifaces, orphans, owners, nextIndex, c) && key in ifaces
    ensures Invariant(ifaces - {key}, orphans, owners - {ifaces[key].port}, nextIndex, c)
    ensures ViewOf(ifaces - {key}, orphans) == Closed(ViewOf(ifaces, orphans), key)
    ensures (owners - {ifaces[key].port}).Keys == owners.Keys - {ifaces[key].port}
  {
    hide PortsOwned, ViewOf, NamesUnique, PortsInRange, Counted;
    CloseEntry(ifaces, orphans, owners, key);
    CloseView(ifaces, orphans, key);
    CloseRest(ifaces, orphans, owners, nextIndex, c, key);
    MapRemove(ifaces, key);
    MapRemove(owners, ifaces[key].port);
  }

  /** An interface that was created and configured. */
  lemma InterfaceOpened(ifaces: map<ProfileKey, Iface>, orphans: map<nat, int>, owners: map<int, Owner>, nextIndex: nat,
                        c: Limits, key: ProfileKey, ifc: Iface)
    requires Invariant(ifaces, orphans, owners, nextIndex, c) && key !in ifaces
    requires FreshName(ifaces, orphans, nextIndex, ifc.name) && ifc.peerCount == 0 && ifc.peerPSKs == map[]
    requires FreshPort(owners, c, ifc.port) && Room(ifaces, orphans, c)
    ensures Invariant(ifaces[key := ifc], orphans, owners[ifc.port := Tracked(key)], nextIndex, c)
    ensures ViewOf(ifaces[key := ifc], orphans) == Opened(ViewOf(ifaces, orphans), key, ifc.port)
    ensures owners[ifc.port := Tracked(key)].Keys == owners.Keys + {ifc.port}
  {
    hide PortsOwned, ViewOf, NamesUnique, Counted;
    OpenEntry(ifaces, orphans, owners, key, ifc);
    OpenView(ifaces, orphans, key, ifc);
    OpenRest(ifaces, orphans, nextIndex, key, ifc);
    MapAdd(ifaces, key, ifc);
    MapAdd(owners, ifc.port, Tracked(key));
  }

  lemma OpenView(ifaces: map<ProfileKey, Iface>, orphans: map<nat, int>, key: ProfileKey, ifc: Iface)
    requires ifc.peerPSKs == map[]
    ensures ViewOf(ifaces[key := ifc], orphans) == Opened(ViewOf(ifaces, orphans), key, ifc.port)
  {
  }

  lemma OpenRest(ifaces: map<ProfileKey, Iface>, orphans: map<nat, int>, nextIndex: nat, key: ProfileKey, ifc: Iface)
    requires FreshName(ifaces, orphans, nextIndex, ifc.name) && ifc.peerCount == |ifc.peerPSKs|
    requires Counted(ifaces) && NamesUnique(ifaces, orphans, nextIndex)
    ensures Counted(ifaces[key := ifc]) && NamesUnique(ifaces[key := ifc], orphans, nextIndex)
  {
  }

  /** An interface that was created and could be neither configured nor destroyed. */
  lemma InterfaceOrphaned(ifaces: map<ProfileKey, Iface>, orphans: map<nat, int>, owners: map<int, Owner>, nextIndex: nat,
                          c: Limits, name: nat, port: int)
    requires Invariant(ifaces, orphans, owners, nextIndex, c)
    requires FreshName(ifaces, orphans, nextIndex, name)
    requires FreshPort(owners, c, port) && Room(ifaces, orphans, c)
    ensures Invariant(ifaces, orphans[name := port], owners[port := Quarantine(name)], nextIndex, c)
    ensures ViewOf(ifaces, orphans[name := port]) == Quarantined(ViewOf(ifaces, orphans), name, port)
    ensures owners[port := Quarantine(name)].Keys == owners.Keys + {port}
  {
    hide PortsOwned, NamesUnique, Counted, PortsInRange;
    OrphanNames(ifaces, orphans, nextIndex, name, port);
    OrphanEntry(ifaces, orphans, owners, name, port);
    OrphanPort(owners, c, name, port);
    MapAdd(orphans, name, port);
    MapAdd(owners, port, Quarantine(name));
  }

  lemma OrphanPort(owners: map<int, Owner>, c: Limits, name: nat, port: int)
    requires PortsInRange(owners, c) && FreshPort(owners, c, port)
    ensures PortsInRange(owners[port := Quarantine(name)], c)
  {
  }

  lemma OrphanNames(ifaces: map<ProfileKey, Iface>, orphans: map<nat, int>, nextIndex: nat, name: nat, port: int)
    requires NamesUnique(ifaces, orphans, nextIndex) && FreshName(ifaces, orphans, nextIndex, name)
    ensures NamesUnique(ifaces, orphans[name := port], nextIndex)
  {
  }

  lemma IndexTaken(ifaces: map<ProfileKey, Iface>, orphans: map<nat, int>, owners: map<int, Owner>, nextIndex: nat,
                   c: Limits)
    requires Invariant(ifaces, orphans, owners, nextIndex, c)
    ensures Invariant(ifaces, orphans, owners, nextIndex + 1, c)
    ensures FreshName(ifaces, orphans, nextIndex + 1, nextIndex)
  {
    hide PortsOwned, Counted;
  }

  ghost predicate FreshName(ifaces: map<ProfileKey, Iface>, orphans: map<nat, int>, nextIndex: nat, name: nat) {
    name < nextIndex && name !in orphans && forall k :: k in ifaces ==> ifaces[k].name != name
  }

  ghost predicate FreshPort(owners: map<int, Owner>, c: Limits, port: int) {
    port !in owners && (c.listenPort >= MIN_PORT ==> MIN_PORT <= port <= MAX_PORT)
  }

  ghost predicate Room(ifaces: map<ProfileKey, Iface>, orphans: map<nat, int>, c: Limits) {
    c.maxIfaces > 0 ==> |ifaces| + |orphans| < c.maxIfaces
  }

  /** The ledger and the view count the same ports and interfaces. */
  lemma LedgerMatchesView(ifaces: map<ProfileKey, Iface>, orphans: map<nat, int>, owners: map<int, Owner>)
    requires PortsOwned(ifaces, orphans, owners)
    ensures UsedPorts(ViewOf(ifaces, orphans)) == owners.Keys
    ensures |ViewOf(ifaces, orphans).slots| == |ifaces| && ViewOf(ifaces, orphans).slots.Keys == ifaces.Keys
    ensures PortsDistinct(ViewOf(ifaces, orphans))
  {
    var v := ViewOf(ifaces, orphans);
    assert v.slots.Keys == ifaces.Keys;
    forall p | p in owners
      ensures p in UsedPorts(v)
    {
      assert Holds(ifaces, orphans, owners[p], p);
      if owners[p].Tracked? {
        assert v.slots[owners[p].key].port == p;
      }
    }
    forall p | p in UsedPorts(v)
      ensures p in owners
    {
      if k :| k in v.slots && v.slots[k].port == p {
        assert HasOwner(owners, ifaces[k].port, Tracked(k));
      } else {
        var n :| n in orphans && orphans[n] == p;
        assert HasOwner(owners, orphans[n], Quarantine(n));
      }
    }
    OwnersDistinct(ifaces, orphans, owners);
  }

  /** The port ledger decides what the view decides. */
  lemma DecidedByLedger(ifaces: map<ProfileKey, Iface>, orphans: map<nat, int>, owners: map<int, Owner>, nextIndex: nat,
                        c: Limits, requested: int)
    requires Invariant(ifaces, orphans, owners, nextIndex, c)
    ensures CreateDecision(ViewOf(ifaces, orphans), c, requested) ==
            if requested != 0 && !ValidPort(requested) then Err(InvalidPort)
            else if requested != 0 && requested in owners.Keys then Err(PortInUse)
            else if c.maxIfaces > 0 && |ifaces| + |orphans| >= c.maxIfaces then Err(MaxInterfacesReached)
            else if requested != 0 then Ok(requested)
            else if FirstFree(owners.Keys, c.listenPort).None? then Err(PortsExhausted)
            else Ok(FirstFree(owners.Keys, c.listenPort).value)
    ensures CreateDecision(ViewOf(ifaces, orphans), c, requested).Ok? ==>
              && FreshPort(owners, c, CreateDecision(ViewOf(ifaces, orphans), c, requested).value)
              && Room(ifaces, orphans, c)
  {
    hide PortsOwned, UsedPorts, PortsDistinct, NamesUnique, Counted;
    LedgerMatchesView(ifaces, orphans, owners);
  }

  lemma NextNameFree(ifaces: map<ProfileKey, Iface>, orphans: map<nat, int>, owners: map<int, Owner>, nextIndex: nat,
                     c: Limits)
    requires Invariant(ifaces, orphans, owners, nextIndex, c)
    ensures nextIndex !in ViewOf(ifaces, orphans).orphans
  {
    hide PortsOwned, Counted;
  }

  lemma OwnersDistinct(ifaces: map<ProfileKey, Iface>, orphans: map<nat, int>, owners: map<int, Owner>)
    requires PortsOwned(ifaces, orphans, owners)
    ensures PortsDistinct(ViewOf(ifaces, orphans))
  {
    forall k | k in ifaces
      ensures HasOwner(owners, ifaces[k].port, Tracked(k))
    {
    }
    forall n | n in orphans
      ensures HasOwner(owners, orphans[n], Quarantine(n))
    {
    }
  }

  /** An orphan that could be destroyed after all. */
  lemma OrphanClosed(ifaces: map<ProfileKey, Iface>, orphans: map<nat, int>, owners: map<int, Owner>, nextIndex: nat,
                     c: Limits, name: nat)
    requires Invariant(ifaces, orphans, owners, nextIndex, c) && name in orphans
    ensures Invariant(ifaces, orphans - {name}, owners - {orphans[name]}, nextIndex, c)
    ensures (owners - {orphans[name]}).Keys == owners.Keys - {orphans[name]}
    ensures (orphans - {name}).Keys == orphans.Keys - {name}
  {
    hide PortsOwned, NamesUnique, Counted;
    OrphanReleased(ifaces, orphans, owners, name);
    OrphanForgotten(ifaces, orphans, nextIndex, name);
    MapRemove(orphans, name);
    MapRemove(owners, orphans[name]);
  }

  lemma EmptyLedger(ifaces: map<ProfileKey, Iface>, orphans: map<nat, int>, owners: map<int, Owner>, nextIndex: nat,
                    c: Limits)
    requires Invariant(ifaces, orphans, owners, nextIndex, c)
    ensures ifaces.Keys == {} && orphans.Keys == {} ==> owners.Keys == {}
  {
    hide NamesUnique, Counted;
    assert forall p :: p in owners ==> Holds(ifaces, orphans, owners[p], p);
  }

  lemma OrphanForgotten(ifaces: map<ProfileKey, Iface>, orphans: map<nat, int>, nextIndex: nat, name: nat)
    requires NamesUnique(ifaces, orphans, nextIndex)
    ensures NamesUnique(ifaces, orphans - {name}, nextIndex)
  {
  }

  lemma OrphanReleased(ifaces: map<ProfileKey, Iface>, orphans: map<nat, int>, owners: map<int, Owner>, name: nat)
    requires PortsOwned(ifaces, orphans, owners) && name in orphans
    ensures PortsOwned(ifaces, orphans - {name}, owners - {orphans[name]}) && orphans[name] in owners
  {
    var orphans', owners' := orphans - {name}, owners - {orphans[name]};
    assert HasOwner(owners, orphans[name], Quarantine(name));
    forall k | k in ifaces
      ensures HasOwner(owners', ifaces[k].port, Tracked(k))
    {
      assert HasOwner(owners, ifaces[k].port, Tracked(k));
    }
    forall n | n in orphans'
      ensures HasOwner(owners', orphans'[n], Quarantine(n))
    {
      assert HasOwner(owners, orphans[n], Quarantine(n));
    }
    forall p | p in owners'
      ensures Holds(ifaces, orphans', owners'[p], p)
    {
      assert Holds(ifaces, orphans, owners[p], p);
    }
  }

  lemma CloseRest(ifaces: map<ProfileKey, Iface>, orphans: map<nat, int>, owners: map<int, Owner>, nextIndex: nat,
                  c: Limits, key: ProfileKey)
    requires key in ifaces
    ensures Counted(ifaces) ==> Counted(ifaces - {key})
    ensures NamesUnique(ifaces, orphans, nextIndex) ==> NamesUnique(ifaces - {key}, orphans, nextIndex)
    ensures PortsInRange(owners, c) ==> PortsInRange(owners - {ifaces[key].port}, c)
  {
  }

  lemma MapRemove<K, V>(m: map<K, V>, k: K)
    requires k in m
    ensures |m - {k}| == |m| - 1 && (m - {k}).Keys == m.Keys - {k}
  {
    assert (m - {k}).Keys == m.Keys - {k};
  }

  lemma MapAdd<K, V>(m: map<K, V>, k: K, v: V)
    requires k !in m
    ensures |m[k := v]| == |m| + 1 && m[k := v].Keys == m.Keys + {k}
  {
    assert m[k := v].Keys == m.Keys + {k};
  }

  lemma ViewSlot(ifaces: map<ProfileKey, Iface>, orphans: map<nat, int>, key: ProfileKey)
    ensures key in ViewOf(ifaces, orphans).slots <==> key in ifaces
    ensures key in ifaces ==> ViewOf(ifaces, orphans).slots[key] == Slot(ifaces[key].port, ifaces[key].peerPSKs)
  {
  }

  lemma CountsPeers(ifaces: map<ProfileKey, Iface>, orphans: map<nat, int>, owners: map<int, Owner>, nextIndex: nat,
                    c: Limits, key: ProfileKey)
    requires Invariant(ifaces, orphans, owners, nextIndex, c) && key in ifaces
    ensures ifaces[key].peerCount == |ifaces[key].peerPSKs|
    ensures ifaces[key].peerCount <= 0 <==> ifaces[key].peerPSKs == map[]
    ensures ifaces[key].peerCount >= 0
  {
    hide PortsOwned, NamesUnique;
  }

  lemma SoundView(ifaces: map<ProfileKey, Iface>, orphans: map<nat, int>, owners: map<int, Owner>, nextIndex: nat,
                  c: Limits)
    requires Invariant(ifaces, orphans, owners, nextIndex, c)
    ensures Sound(ViewOf(ifaces, orphans), c)
    ensures c.listenPort >= MIN_PORT ==> PortsLegal(ViewOf(ifaces, orphans))
  {
    hide PortsDistinct, NamesUnique, Counted, UsedPorts;
    LedgerMatchesView(ifaces, orphans, owners);
    forall k | k in ifaces
      ensures ifaces[k].port in owners
    {
      assert HasOwner(owners, ifaces[k].port, Tracked(k));
    }
  }

  lemma CloseView(ifaces: map<ProfileKey, Iface>, orphans: map<nat, int>, key: ProfileKey)
    ensures ViewOf(ifaces - {key}, orphans) == Closed(ViewOf(ifaces, orphans), key)
  {
  }

  class Pool {
    const limits: Limits
    const host: Host
    var ifaces: map<ProfileKey, Iface>
    var orphans: map<nat, int>
    var usedPorts: set<int>
    var nextIndex: nat
    var masqAdded: bool
    ghost var owners: map<int, Owner>

    ghost predicate Valid()
      reads this
    {
      && Invariant(ifaces, orphans, owners, nextIndex, limits)
      && usedPorts == owners.Keys
      && (ifaces != map[] ==> masqAdded)
    }

    /** What the pool shows its callers. */
    ghost function Contents(): View
      reads this
    {
      ViewOf(ifaces, orphans)
    }

    constructor (limits: Limits, host: Host)
      ensures Valid() && Contents() == EMPTY_VIEW
      ensures this.limits == limits && this.host == host
    {
      this.limits := limits;
      this.host := host;
      ifaces := map[];
      orphans := map[];
      usedPorts := {};
      nextIndex := 0;
      masqAdded := false;
      owners := map[];
    }

    method TrackPeer(key: ProfileKey, pk: PublicKey, psk: Option<Psk>)
      requires Valid() && key in ifaces
      modifies this`ifaces
      ensures Valid() && key in ifaces
      ensures Contents() == WithPeers(old(Contents()), key, old(ifaces)[key].peerPSKs[pk := psk])
    {
      hide Invariant, ViewOf;
      TrackingKeeps(ifaces, orphans, owners, nextIndex, limits, key, pk, psk);
      ifaces := ifaces[key := TrackedPeer(ifaces[key], pk, psk)];
    }

    method UntrackPeer(key: ProfileKey, pk: PublicKey)
      requires Valid() && key in ifaces
      modifies this`ifaces
      ensures Valid() && key in ifaces
      ensures Contents() == WithPeers(old(Contents()), key, old(ifaces)[key].peerPSKs - {pk})
    {
      hide Invariant, ViewOf;
      TrackingKeeps(ifaces, orphans, owners, nextIndex, limits, key, pk, None);
      ifaces := ifaces[key := UntrackedPeer(ifaces[key], pk)];
    }

    method DestroyTrackedInterface(key: ProfileKey) returns (ok: bool)
      requires Valid() && key in ifaces
      modifies this, host
      ensures Valid()
      ensures ifaces == if ok then old(ifaces) - {key} else old(ifaces)
      ensures Contents() == if ok then Closed(old(Contents()), key) else old(Contents())
      ensures masqAdded == old(masqAdded) && orphans == old(orphans)
      ensures host.failures == old(host.failures) + (if ok then 0 else 1)
    {
      hide Invariant, ViewOf;
      ok := host.Attempt(DestroyInterface(ifaces[key].name));
      if ok {
        InterfaceClosed(ifaces, orphans, owners, nextIndex, limits, key);
        usedPorts := usedPorts - {ifaces[key].port};
        owners := owners - {ifaces[key].port};
        ifaces := ifaces - {key};
      }
    }

    /** The port for a new interface: the requested one, or the first free one from the base port. */
    method ResolvePort(requested: int) returns (r: Result<int, PoolError>)
      ensures r == if !ValidPort(requested) then Err(InvalidPort)
                   else if requested > 0 then if requested in usedPorts then Err(PortInUse) else Ok(requested)
                   else var p := FirstFree(usedPorts, limits.listenPort);
                        if p.None? then Err(PortsExhausted) else Ok(p.value)
    {
      if !ValidPort(requested) {
        return Err(InvalidPort);
      }
      if requested > 0 {
        if requested in usedPorts {
          return Err(PortInUse);
        }
        return Ok(requested);
      }
      var port := limits.listenPort;
      while port in usedPorts && port <= MAX_PORT
        invariant FirstFree(usedPorts, port) == FirstFree(usedPorts, limits.listenPort)
        decreases MAX_PORT + 1 - port
      {
        port := port + 1;
      }
      if port > MAX_PORT {
        return Err(PortsExhausted);
      }
      return Ok(port);
    }

    /** Destroys an interface that could not be configured, or quarantines it. */
    method AbandonInterface(name: nat, port: int) returns (rollbackFailed: bool)
      requires Valid() && FreshName(ifaces, orphans, nextIndex, name)
      requires FreshPort(owners, limits, port) && Room(ifaces, orphans, limits)
      modifies this, host
      ensures Valid() && ifaces == old(ifaces) && host.failures >= old(host.failures)
      ensures !rollbackFailed ==> Contents() == old(Contents())
      ensures rollbackFailed ==> Contents() == Quarantined(old(Contents()), name, port)
    {
      hide Invariant, ViewOf, FreshName, FreshPort, Room, Quarantined;
      var destroyed := host.Attempt(DestroyInterface(name));
      if !destroyed {
        InterfaceOrphaned(ifaces, orphans, owners, nextIndex, limits, name, port);
        orphans := orphans[name := port];
        usedPorts := usedPorts + {port};
        owners := owners[port := Quarantine(name)];
      }
      return !destroyed;
    }

    method GetOrCreateInterface(profile: Profile, requested: int) returns (r: Outcome)
      requires Valid()
      modifies this, host
      ensures Valid() && host.failures >= old(host.failures)
      ensures r == Done ==> profile.key in ifaces
      ensures CreateEffect(old(Contents()), Contents(), limits, profile, requested, r,
                           host.failures == old(host.failures), old(nextIndex))
    {
      hide Invariant, ViewOf, CreateDecision, FirstFree, FreshPort, Room;
      if !profile.validated {
        return Failed(InvalidProfile, false);
      }
      var key := profile.key;
      ViewSlot(ifaces, orphans, key);
      if key in ifaces {
        if requested != 0 && requested != ifaces[key].port {
          return Failed(ProfilePortConflict, false);
        }
        return Done;
      }
      DecidedByLedger(ifaces, orphans, owners, nextIndex, limits, requested);
      var port := requested;
      if port != 0 {
        var resolved := ResolvePort(port);
        if resolved.Err? {
          return Failed(resolved.error, false);
        }
        port := resolved.value;
      }
      if limits.maxIfaces > 0 && |ifaces| + |orphans| >= limits.maxIfaces {
        return Failed(MaxInterfacesReached, false);
      }
      if port == 0 {
        var resolved := ResolvePort(0);
        if resolved.Err? {
          return Failed(resolved.error, false);
        }
        port := resolved.value;
      }
      r := CreateInterface(key, port);
    }

    /** Brings up a new interface step by step. */
    method CreateInterface(key: ProfileKey, port: int) returns (r: Outcome)
      requires Valid() && key !in ifaces
      requires FreshPort(owners, limits, port) && Room(ifaces, orphans, limits)
      modifies this, host
      ensures Valid() && host.failures >= old(host.failures)
      ensures r == Done ==> key in ifaces && Contents() == Opened(old(Contents()), key, port)
      ensures r != Done ==> r.error == HostCallFailed && host.failures > old(host.failures)
      ensures r != Done && !r.rollbackFailed ==> Contents() == old(Contents())
      ensures r != Done && r.rollbackFailed ==> Contents() == Quarantined(old(Contents()), old(nextIndex), port)
    {
      hide Invariant, ViewOf, FreshName, FreshPort, Room;
      IndexTaken(ifaces, orphans, owners, nextIndex, limits);
      var name := nextIndex;
      nextIndex := nextIndex + 1;
      var ok := host.Attempt(HostCall.CreateInterface(name));
      if !ok {
        return Failed(HostCallFailed, false);
      }
      ok := host.Attempt(ConfigureDevice(name, port, key));
      if !ok {
        var stuck := AbandonInterface(name, port);
        return Failed(HostCallFailed, stuck);
      }
      ok := host.Attempt(ConfigureNetwork(name));
      if !ok {
        var stuck := AbandonInterface(name, port);
        return Failed(HostCallFailed, stuck);
      }
      if !masqAdded {
        ok := host.Attempt(AddMasquerade);
        if !ok {
          var stuck := AbandonInterface(name, port);
          return Failed(HostCallFailed, stuck);
        }
        masqAdded := true;
      }
      var ifc := Iface(name, port, 0, map[]);
      InterfaceOpened(ifaces, orphans, owners, nextIndex, limits, key, ifc);
      ifaces := ifaces[key := ifc];
      usedPorts := usedPorts + {port};
      owners := owners[port := Tracked(key)];
      return Done;
    }

    method AddPeerLocked(key: ProfileKey, pk: PublicKey, psk: Option<Psk>) returns (r: Outcome)
      requires Valid() && key in ifaces && key in Contents().slots
      modifies this, host
      ensures Valid() && host.failures >= old(host.failures)
      ensures AddLockedEffect(old(Contents()), Contents(), key, pk, psk, r, host.failures == old(host.failures))
    {
      hide Invariant, ViewOf, WithPeers, Closed;
      ViewSlot(ifaces, orphans, key);
      CountsPeers(ifaces, orphans, owners, nextIndex, limits, key);
      var name := ifaces[key].name;
      var ok := host.Attempt(AddPeerTo(name, pk, psk));
      if !ok {
        var wasEmpty := ifaces[key].peerCount == 0;
        var peerRemoved, cleaned := host.CleanupPeerAfterFailedAdd(name, pk);
        if wasEmpty {
          var destroyed := DestroyTrackedInterface(key);
          if destroyed {
            return Failed(HostCallFailed, false);
          }
          if !peerRemoved {
            TrackPeer(key, pk, psk);
          }
          return Failed(HostCallFailed, true);
        }
        if !peerRemoved {
          TrackPeer(key, pk, psk);
        }
        return Failed(HostCallFailed, !cleaned);
      }
      TrackPeer(key, pk, psk);
      return Done;
    }

    method AddPeer(profile: Profile, requested: int, pk: PublicKey, psk: Option<Psk>) returns (r: Outcome)
      requires Valid()
      modifies this, host
      ensures Valid() && host.failures >= old(host.failures)
      ensures AddEffect(old(Contents()), Contents(), limits, profile, requested, pk, psk, r,
                        host.failures == old(host.failures))
    {
      hide Invariant, ViewOf;
      if !profile.validated {
        OthersKeptSelf(Contents(), {profile.key}, pk);
        return Failed(InvalidProfile, false);
      }
      ghost var v := Contents();
      ghost var name := nextIndex;
      NextNameFree(ifaces, orphans, owners, nextIndex, limits);
      r := GetOrCreateInterface(profile, requested);
      ghost var v1 := Contents();
      if r == Done {
        ViewSlot(ifaces, orphans, profile.key);
        r := AddPeerLocked(profile.key, pk, psk);
        AddComposes(v, v1, Contents(), limits, profile, requested, pk, psk, r, host.failures == old(host.failures), name);
      } else {
        AddStopped(v, v1, limits, profile, requested, pk, psk, r, host.failures == old(host.failures), name);
      }
    }

    method RemovePeer(profile: Profile, pk: PublicKey) returns (r: Outcome)
      requires Valid()
      modifies this, host
      ensures Valid() && host.failures >= old(host.failures)
      ensures RemoveEffect(old(Contents()), Contents(), profile, pk, r, host.failures == old(host.failures))
    {
      hide Invariant, ViewOf;
      if !profile.validated {
        return Failed(InvalidProfile, false);
      }
      var key := profile.key;
      ghost var v := Contents();
      ViewSlot(ifaces, orphans, key);
      if key !in ifaces {
        return Failed(NoInterface, false);
      }
      CountsPeers(ifaces, orphans, owners, nextIndex, limits, key);
      if ifaces[key].peerCount <= 0 {
        return Failed(PeerAccounting, false);
      }
      if pk !in ifaces[key].peerPSKs {
        return Failed(PeerNotTracked, false);
      }
      var psk := ifaces[key].peerPSKs[pk];
      var ok := host.Attempt(RemovePeerFrom(ifaces[key].name, pk, psk));
      if !ok {
        return Failed(HostCallFailed, false);
      }
      TakenAndReturned(v, key, pk);
      UntrackPeer(key, pk);
      ViewSlot(ifaces, orphans, key);
      CountsPeers(ifaces, orphans, owners, nextIndex, limits, key);
      if ifaces[key].peerCount == 0 {
        var name := ifaces[key].name;
        var destroyed := DestroyTrackedInterface(key);
        if !destroyed {
          var restored := host.Attempt(RestorePeerAndRoute(name, pk, psk));
          TrackPeer(key, pk, psk);
          return Failed(HostCallFailed, !restored);
        }
      }
      return Done;
    }

    /** Recreates the old interface at its old port and puts the peer back. */
    method RollbackPeer(profile: Profile, requested: int, pk: PublicKey, psk: Option<Psk>) returns (r: Outcome)
      requires Valid()
      modifies this, host
      ensures Valid() && host.failures >= old(host.failures)
      ensures AddEffect(old(Contents()), Contents(), limits, profile, requested, pk, psk, r,
                        host.failures == old(host.failures))
    {
      r := AddPeer(profile, requested, pk, psk);
    }

    /** Takes the migrated peer off its new interface again. */
    method RollbackNewPeerLocked(key: ProfileKey, pk: PublicKey) returns (ok: bool)
      requires Valid() && Tracks(Contents(), key, pk)
      modifies this, host
      ensures Valid() && host.failures >= old(host.failures)
      ensures ok ==> Contents() == Removed(old(Contents()), key, pk)
      ensures OthersKept(old(Contents()), Contents(), {key}, pk)
    {
      hide Invariant, ViewOf;
      ghost var v := Contents();
      ViewSlot(ifaces, orphans, key);
      var psk := ifaces[key].peerPSKs[pk];
      ok := host.Attempt(RemovePeerFrom(ifaces[key].name, pk, psk));
      if !ok {
        return;
      }
      TakenAndReturned(v, key, pk);
      UntrackPeer(key, pk);
      ViewSlot(ifaces, orphans, key);
      CountsPeers(ifaces, orphans, owners, nextIndex, limits, key);
      if ifaces[key].peerCount == 0 {
        ok := DestroyTrackedInterface(key);
      }
    }

    /** The only peer of its interface: remove first, so that its port and its place under the cap are free again. */
    method MigrateSolePeer(source: Profile, target: Profile, requested: int, pk: PublicKey, psk: Option<Psk>)
        returns (r: Outcome)
      requires Valid()
      requires MigrateChecks(Contents(), source, target, requested, pk) == Ok(false)
      requires |Contents().slots[source.key].peers| == 1
      modifies this, host
      ensures Valid() && host.failures >= old(host.failures)
      ensures MigrateEffect(old(Contents()), Contents(), limits, source, target, requested, pk, psk, r,
                            host.failures == old(host.failures))
    {
      hide Invariant, ViewOf, MigrateDecision, MigrateEffect, PlaceDecision, OthersKept, Sound;
      ghost var v := Contents();
      SoundView(ifaces, orphans, owners, nextIndex, limits);
      SoleDecision(v, limits, source, target, requested, pk);
      ViewSlot(ifaces, orphans, source.key);
      var oldPort := ifaces[source.key].port;
      var oldName := ifaces[source.key].name;
      var oldPsk := ifaces[source.key].peerPSKs[pk];
      var ok := host.Attempt(RemovePeerFrom(oldName, pk, oldPsk));
      if !ok {
        MigrateUnchanged(v, limits, source, target, requested, pk, psk, false);
        return Failed(HostCallFailed, false);
      }
      TakenAndReturned(v, source.key, pk);
      UntrackPeer(source.key, pk);
      ViewSlot(ifaces, orphans, source.key);
      var destroyed := DestroyTrackedInterface(source.key);
      if !destroyed {
        var restored := host.Attempt(RestorePeerAndRoute(oldName, pk, oldPsk));
        TrackPeer(source.key, pk, oldPsk);
        MigrateUnchanged(v, limits, source, target, requested, pk, psk, !restored);
        return Failed(HostCallFailed, !restored);
      }
      ghost var w := Contents();
      assert w == Closed(v, source.key);
      r := MoveToTarget(v, source, target, requested, pk, psk, oldPort, oldPsk);
    }

    /** The second half of the sole peer's move, with the old interface as the fallback. */
    method MoveToTarget(ghost v: View, source: Profile, target: Profile, requested: int, pk: PublicKey,
                        psk: Option<Psk>, oldPort: int, oldPsk: Option<Psk>) returns (r: Outcome)
      requires Valid()
      requires MigrateChecks(v, source, target, requested, pk) == Ok(false)
      requires |v.slots[source.key].peers| == 1 && Sound(v, limits)
      requires oldPort == v.slots[source.key].port && oldPsk == v.slots[source.key].peers[pk]
      requires Contents() == Closed(v, source.key)
      modifies this, host
      ensures Valid() && host.failures >= old(host.failures)
      ensures MigrateEffect(v, Contents(), limits, source, target, requested, pk, psk, r,
                            host.failures == old(host.failures))
    {
      hide Invariant, ViewOf, MigrateDecision, MigrateEffect, PlaceDecision, OthersKept, Sound, AddEffect,
           AddLockedEffect, CreateEffect;
      ghost var w := Contents();
      ghost var name := nextIndex;
      SoleDecision(v, limits, source, target, requested, pk);
      NextNameFree(ifaces, orphans, owners, nextIndex, limits);
      var created := GetOrCreateInterface(target, requested);
      ghost var w1, quiet1 := Contents(), host.failures == old(host.failures);
      CreateKeepsOthers(w, w1, limits, target, requested, created, quiet1, name, pk);
      StillKept(v, w, w1, source.key, target.key, pk);
      if created != Done {
        CreateFailed(w, w1, limits, target, requested, created, quiet1, name);
        r := FallBack(v, source, target, requested, pk, psk, oldPort, oldPsk, created, quiet1);
        return;
      }
      TargetTaken(w, w1, limits, target, requested, created, quiet1, name);
      ViewSlot(ifaces, orphans, target.key);
      ghost var before := host.failures;
      var added := AddPeerLocked(target.key, pk, psk);
      ghost var w2 := Contents();
      AddKeepsOthers(w1, w2, target.key, pk, psk, added, host.failures == before);
      StillKept(v, w1, w2, source.key, target.key, pk);
      AddedLoudly(w1, w2, target.key, pk, psk, added, host.failures == before);
      if added != Done {
        if !added.rollbackFailed {
          AddAbandoned(w, w1, w2, limits, target, requested, pk, psk, added, host.failures == before, name);
        }
        r := FallBack(v, source, target, requested, pk, psk, oldPort, oldPsk, added, false);
        return;
      }
      PlacedOnTarget(w, w1, w2, limits, target, requested, pk, psk, name);
      Moved(v, w2, limits, source, target, requested, pk, psk, host.failures == old(host.failures));
      return Done;
    }

    /** Puts the sole peer back after its move failed. */
    method FallBack(ghost v: View, source: Profile, ghost target: Profile, ghost requested: int, pk: PublicKey,
                    ghost psk: Option<Psk>, oldPort: int, oldPsk: Option<Psk>, failure: Outcome, ghost quiet: bool)
        returns (r: Outcome)
      requires Valid() && failure != Done
      requires MigrateChecks(v, source, target, requested, pk) == Ok(false)
      requires |v.slots[source.key].peers| == 1 && Sound(v, limits)
      requires oldPort == v.slots[source.key].port && oldPsk == v.slots[source.key].peers[pk]
      requires OthersKept(v, Contents(), {source.key, target.key}, pk)
      requires !failure.rollbackFailed ==>
                 Contents() == Closed(v, source.key) || ClearedToo(v, Contents(), source.key, target.key)
      requires quiet ==> && Contents() == Closed(v, source.key) && failure == Failed(failure.error, false)
                         && MigrateDecision(v, limits, source, target, requested, pk) == Err(failure.error)
      modifies this, host
      ensures Valid() && host.failures >= old(host.failures)
      ensures MigrateEffect(v, Contents(), limits, source, target, requested, pk, psk, r,
                            quiet && host.failures == old(host.failures))
    {
      hide Invariant, ViewOf, MigrateDecision, MigrateEffect, PlaceDecision, OthersKept, Sound, AddEffect, ClearedToo;
      ghost var w := Contents();
      var back := RollbackPeer(source, oldPort, pk, oldPsk);
      ghost var calm := host.failures == old(host.failures);
      AddEffectWeaken(w, Contents(), limits, source, oldPort, pk, oldPsk, back, calm, quiet && calm);
      SoleRolledBack(v, w, Contents(), limits, source, target, requested, pk, psk, failure, back, quiet && calm);
      return Failed(failure.error, failure.rollbackFailed || back != Done);
    }

    /** One peer of several: add it to the target first, then take it off the source. */
    method MigrateSharedPeer(source: Profile, target: Profile, requested: int, pk: PublicKey, psk: Option<Psk>)
        returns (r: Outcome)
      requires Valid()
      requires MigrateChecks(Contents(), source, target, requested, pk) == Ok(false)
      requires |Contents().slots[source.key].peers| > 1
      modifies this, host
      ensures Valid() && host.failures >= old(host.failures)
      ensures MigrateEffect(old(Contents()), Contents(), limits, source, target, requested, pk, psk, r,
                            host.failures == old(host.failures))
    {
      hide Invariant, ViewOf, MigrateDecision, MigrateEffect, PlaceDecision, OthersKept, AddLockedEffect, CreateEffect;
      ghost var v, name := Contents(), nextIndex;
      SharedDecision(v, limits, source, target, requested, pk);
      NextNameFree(ifaces, orphans, owners, nextIndex, limits);
      var created := GetOrCreateInterface(target, requested);
      ghost var v1, quiet1 := Contents(), host.failures == old(host.failures);
      if created != Done {
        SharedNotCreated(v, v1, limits, source, target, requested, pk, psk, created, quiet1, name);
        return created;
      }
      CreateKeepsOthers(v, v1, limits, target, requested, created, quiet1, name, pk);
      TargetTaken(v, v1, limits, target, requested, created, quiet1, name);
      ViewSlot(ifaces, orphans, target.key);
      ghost var before := host.failures;
      var added := AddPeerLocked(target.key, pk, psk);
      ghost var v2, quiet2 := Contents(), host.failures == before;
      AddKeepsOthers(v1, v2, target.key, pk, psk, added, quiet2);
      OthersKeptThrough(v, v1, v2, {target.key}, pk);
      OthersKeptWider(v, v2, {target.key}, {source.key, target.key}, pk);
      AddedLoudly(v1, v2, target.key, pk, psk, added, quiet2);
      OtherSlotKept(v, v2, source.key, target.key, pk);
      ViewSlot(ifaces, orphans, source.key);
      var oldName, oldPsk := ifaces[source.key].name, ifaces[source.key].peerPSKs[pk];
      if added != Done {
        var rerouted := host.Attempt(ReplaceRoute(oldName));
        if !added.rollbackFailed {
          AddAbandoned(v, v1, v2, limits, target, requested, pk, psk, added, quiet2, name);
        }
        MigrateFailedLoudly(v, v2, limits, source, target, requested, pk, psk, added.rollbackFailed || !rerouted);
        return Failed(HostCallFailed, added.rollbackFailed || !rerouted);
      }
      PlacedOnTarget(v, v1, v2, limits, target, requested, pk, psk, name);
      before := host.failures;
      r := LeaveSource(v, source, target, requested, pk, psk, oldName, oldPsk);
      MigrateEffectWeaken(v, Contents(), limits, source, target, requested, pk, psk, r,
                          host.failures == before, host.failures == old(host.failures));
    }

    /** The last step of a shared move: off the source, or back off the target. */
    method LeaveSource(ghost v: View, source: Profile, target: Profile, ghost requested: int, pk: PublicKey,
                       ghost psk: Option<Psk>, oldName: nat, oldPsk: Option<Psk>) returns (r: Outcome)
      requires Valid()
      requires MigrateChecks(v, source, target, requested, pk) == Ok(false)
      requires |v.slots[source.key].peers| > 1
      requires OthersKept(v, Contents(), {source.key, target.key}, pk)
      requires PlaceDecision(v, limits, target.key, requested).Ok?
      requires Contents() == Placed(v, target.key, PlaceDecision(v, limits, target.key, requested).value, pk, psk)
      modifies this, host
      ensures Valid() && host.failures >= old(host.failures)
      ensures MigrateEffect(v, Contents(), limits, source, target, requested, pk, psk, r,
                            host.failures == old(host.failures))
      ensures r != Done ==> r.error == HostCallFailed && host.failures > old(host.failures)
    {
      hide Invariant, ViewOf, MigrateDecision, MigrateEffect, PlaceDecision, OthersKept, MigrateChecks, SilentlyFailed;
      SharedDecision(v, limits, source, target, requested, pk);
      ghost var port := PlaceDecision(v, limits, target.key, requested).value;
      SharedMoved(v, source.key, target.key, port, pk, psk);
      var detached := host.Attempt(RemovePeerOnly(oldName, pk));
      if !detached {
        ghost var v2 := Contents();
        var rolledBack := RollbackSharedMigration(target.key, pk, oldName, oldPsk);
        StillKept(v, v2, Contents(), source.key, target.key, pk);
        SharedUndone(v, source.key, target.key, port, pk, psk);
        MigrateFailedLoudly(v, Contents(), limits, source, target, requested, pk, psk, !rolledBack);
        return Failed(HostCallFailed, !rolledBack);
      }
      ViewSlot(ifaces, orphans, source.key);
      UntrackPeer(source.key, pk);
      ViewSlot(ifaces, orphans, source.key);
      CountsPeers(ifaces, orphans, owners, nextIndex, limits, source.key);
      if ifaces[source.key].peerCount == 0 {
        // The program destroys the emptied source interface here; a shared interface is never emptied by one move.
        assert false;
      }
      Moved(v, Contents(), limits, source, target, requested, pk, psk, host.failures == old(host.failures));
      return Done;
    }

    /** Undoes a shared move whose last step failed: off the target, and back on the source's device. */
    method RollbackSharedMigration(key: ProfileKey, pk: PublicKey, oldName: nat, oldPsk: Option<Psk>) returns (ok: bool)
      requires Valid() && Tracks(Contents(), key, pk)
      modifies this, host
      ensures Valid() && host.failures >= old(host.failures)
      ensures ok ==> Contents() == Removed(old(Contents()), key, pk)
      ensures OthersKept(old(Contents()), Contents(), {key}, pk)
    {
      hide Invariant, ViewOf, OthersKept;
      var removed := RollbackNewPeerLocked(key, pk);
      var restored := host.Attempt(RestorePeerAndRoute(oldName, pk, oldPsk));
      return removed && restored;
    }

    method MigratePeer(source: Profile, target: Profile, requested: int, pk: PublicKey, psk: Option<Psk>)
        returns (r: Outcome)
      requires Valid()
      modifies this, host
      ensures Valid() && host.failures >= old(host.failures)
      ensures MigrateEffect(old(Contents()), Contents(), limits, source, target, requested, pk, psk, r,
                            host.failures == old(host.failures))
    {
      hide Invariant, ViewOf, MigrateDecision, OthersKept;
      OthersKeptSelf(Contents(), {source.key, target.key}, pk);
      if !source.validated || !target.validated {
        return Failed(InvalidProfile, false);
      }
      ViewSlot(ifaces, orphans, source.key);
      ViewSlot(ifaces, orphans, target.key);
      if source.key !in ifaces {
        return Failed(NoInterface, false);
      }
      CountsPeers(ifaces, orphans, owners, nextIndex, limits, source.key);
      if ifaces[source.key].peerCount <= 0 {
        return Failed(PeerAccounting, false);
      }
      if pk !in ifaces[source.key].peerPSKs {
        return Failed(PeerNotTracked, false);
      }
      if source.key == target.key {
        if source.port == requested {
          return Done;
        }
        if ifaces[source.key].peerCount > 1 {
          return Failed(PortShared, false);
        }
      } else if target.key in ifaces {
        if requested != 0 && requested != ifaces[target.key].port {
          return Failed(ProfilePortConflict, false);
        }
      }
      if ifaces[source.key].peerCount == 1 {
        r := MigrateSolePeer(source, target, requested, pk, psk);
      } else {
        r := MigrateSharedPeer(source, target, requested, pk, psk);
      }
    }

    method PortForProfile(profile: Profile) returns (r: Result<int, PoolError>)
      requires Valid()
      ensures r == if !profile.validated then Err(InvalidProfile)
                   else if profile.key in Contents().slots then Ok(Contents().slots[profile.key].port)
                   else Err(NoInterface)
    {
      hide Invariant, ViewOf;
      if !profile.validated {
        return Err(InvalidProfile);
      }
      ViewSlot(ifaces, orphans, profile.key);
      if profile.key !in ifaces {
        return Err(NoInterface);
      }
      return Ok(ifaces[profile.key].port);
    }

    /** Destroys what it can; the masquerade rule goes only after every interface and every orphan is gone. */
    method Close()
      requires Valid()
      modifies this, host
      ensures Valid() && host.failures >= old(host.failures)
      ensures host.failures == old(host.failures) ==> Contents() == EMPTY_VIEW && !masqAdded && usedPorts == {}
      ensures masqAdded != old(masqAdded) ==> !masqAdded && Contents() == EMPTY_VIEW
    {
      hide Invariant;
      var keys := ifaces.Keys;
      while keys != {}
        invariant Valid() && keys <= ifaces.Keys && host.failures >= old(host.failures)
        invariant host.failures == old(host.failures) ==> ifaces.Keys == keys
        invariant masqAdded == old(masqAdded)
        decreases keys
      {
        var key :| key in keys;
        keys := keys - {key};
        var destroyed := DestroyTrackedInterface(key);
      }
      var names := orphans.Keys;
      while names != {}
        invariant Valid() && names <= orphans.Keys && host.failures >= old(host.failures)
        invariant host.failures == old(host.failures) ==> ifaces.Keys == {} && orphans.Keys == names
        invariant masqAdded == old(masqAdded)
        decreases names
      {
        var name :| name in names;
        names := names - {name};
        var destroyed := host.Attempt(DestroyInterface(name));
        if destroyed {
          OrphanClosed(ifaces, orphans, owners, nextIndex, limits, name);
          usedPorts := usedPorts - {orphans[name]};
          owners := owners - {orphans[name]};
          orphans := orphans - {name};
        }
      }
      EmptyLedger(ifaces, orphans, owners, nextIndex, limits);
      if masqAdded && |ifaces| == 0 && |orphans| == 0 {
        var removed := host.Attempt(RemoveMasquerade);
        if removed {
          masqAdded := false;
        }
      }
    }
  }
}
