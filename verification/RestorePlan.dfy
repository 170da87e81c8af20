/** Restoring persisted clients: the planner predicts, without touching the host, what replaying AddPeer would do. */
module RestorePlan {
  import opened Wrappers
  import opened PoolView
  import opened Pool

  /** One persisted client as the pool sees it; its requested port is the port of its profile's parameters. */
  datatype Entry = Entry(profile: Profile, pk: PublicKey, psk: Option<Psk>)

  /** One AddPeer with succeeding host calls. */
  function Admitted(v: View, c: Limits, e: Entry): (w: Option<View>) {
    match PlaceDecision(v, c, e.profile.key, e.profile.port)
    case Err(_) => None
    case Ok(port) => Some(Placed(v, e.profile.key, port, e.pk, e.psk))
  }

  /** Replaying AddPeer for every entry, in order, on an empty pool with succeeding host calls. */
  function Replay(c: Limits, es: seq<Entry>): (w: Option<View>) {
    if es == [] then Some(EMPTY_VIEW)
    else
      var before := Replay(c, es[..|es| - 1]);
      if before.None? then None else Admitted(before.value, c, es[|es| - 1])
  }

  function PortMap(v: View): map<ProfileKey, int> {
    map k | k in v.slots :: v.slots[k].port
  }

  lemma {:induction false} ReplayStops(c: Limits, es: seq<Entry>, i: nat)
    requires i <= |es| && Replay(c, es[..i]).None?
    ensures Replay(c, es).None?
    decreases |es|
  {
    if i == |es| {
      assert es[..i] == es;
    } else {
      assert es[..|es| - 1][..i] == es[..i];
      ReplayStops(c, es[..|es| - 1], i);
    }
  }

  lemma {:induction false} ReplayKeepsOrphans(c: Limits, es: seq<Entry>)
    requires Replay(c, es).Some?
    ensures Replay(c, es).value.orphans == map[]
  {
    hide PlaceDecision;
    if es != [] {
      ReplayKeepsOrphans(c, es[..|es| - 1]);
    }
  }

  lemma ReplayNext(c: Limits, es: seq<Entry>, i: nat)
    requires i < |es| && Replay(c, es[..i]).Some?
    ensures Replay(c, es[..i + 1]) == Admitted(Replay(c, es[..i]).value, c, es[i])
  {
    assert es[..i + 1][..i] == es[..i];
  }

  ghost predicate SlotOn(v: View, p: int) {
    exists k :: k in v.slots && v.slots[k].port == p
  }

  lemma UsedPort(v: View, p: int)
    ensures p in UsedPorts(v) <==> SlotOn(v, p) || exists n :: n in v.orphans && v.orphans[n] == p
  {
  }

  lemma PlacedOn(v: View, k: ProfileKey, port: int, pk: PublicKey, psk: Option<Psk>, p: int)
    ensures SlotOn(Placed(v, k, port, pk, psk), p) <==> SlotOn(v, p) || (k !in v.slots && p == port)
  {
    var w := Placed(v, k, port, pk, psk);
    assert w.slots[k].port == if k in v.slots then v.slots[k].port else port;
    if SlotOn(v, p) {
      var j :| j in v.slots && v.slots[j].port == p;
      assert w.slots[j].port == p;
    }
  }

  lemma PlacedPorts(v: View, k: ProfileKey, port: int, pk: PublicKey, psk: Option<Psk>)
    ensures var w := Placed(v, k, port, pk, psk);
            && (k in v.slots ==> PortMap(w) == PortMap(v) && UsedPorts(w) == UsedPorts(v))
            && (k !in v.slots ==> PortMap(w) == PortMap(v)[k := port] && UsedPorts(w) == UsedPorts(v) + {port})
  {
    hide UsedPorts, SlotOn;
    var w := Placed(v, k, port, pk, psk);
    forall p
      ensures p in UsedPorts(w) <==> p in UsedPorts(v) || (k !in v.slots && p == port)
    {
      UsedPort(v, p);
      UsedPort(w, p);
      PlacedOn(v, k, port, pk, psk, p);
    }
  }

  lemma {:induction false} FirstFreeSkips(used: set<int>, p: int, q: int)
    requires p <= q && forall r :: p <= r < q ==> r in used
    requires q <= MAX_PORT + 1
    ensures FirstFree(used, p) == FirstFree(used, q)
    decreases q - p
  {
    if p < q {
      FirstFreeSkips(used, p + 1, q);
    }
  }

  /** The planner's own port search, starting from the moving cursor. */
  method ResolveRestorePort(requested: int, nextPort: int, used: set<int>) returns (r: Result<int, PoolError>)
    requires nextPort <= MAX_PORT + 1
    ensures r == if !ValidPort(requested) then Err(InvalidPort)
                 else if requested != 0 then if requested in used then Err(PortInUse) else Ok(requested)
                 else if FirstFree(used, nextPort).None? then Err(PortsExhausted)
                 else Ok(FirstFree(used, nextPort).value)
  {
    if !ValidPort(requested) {
      return Err(InvalidPort);
    }
    if requested != 0 {
      if requested in used {
        return Err(PortInUse);
      }
      return Ok(requested);
    }
    var port := nextPort;
    while port <= MAX_PORT
      invariant port <= MAX_PORT + 1 && FirstFree(used, port) == FirstFree(used, nextPort)
    {
      if port !in used {
        return Ok(port);
      }
      port := port + 1;
    }
    return Err(PortsExhausted);
  }

  ghost predicate AllUsed(used: set<int>, lo: int, hi: int) {
    forall p :: lo <= p < hi ==> p in used
  }

  /** Moves the cursor past the ports in use. */
  method AdvanceCursor(nextPort: int, used: set<int>, ghost base: int) returns (next: int)
    requires nextPort <= MAX_PORT + 1 && base <= nextPort && AllUsed(used, base, nextPort)
    ensures nextPort <= next <= MAX_PORT + 1 && AllUsed(used, base, next)
  {
    next := nextPort;
    while next <= MAX_PORT && next in used
      invariant nextPort <= next <= MAX_PORT + 1 && AllUsed(used, base, next)
    {
      next := next + 1;
    }
  }

  /** The planner's bookkeeping shows what the replayed pool shows. */
  ghost predicate Predicts(ports: map<ProfileKey, int>, used: set<int>, v: View) {
    ports == PortMap(v) && used == UsedPorts(v) && v.orphans == map[]
  }

  /** The planner's checks for a profile it has not seen decide what the pool decides, in another order. */
  lemma PlannerDecides(ports: map<ProfileKey, int>, used: set<int>, v: View, c: Limits, requested: int, nextPort: int)
    requires Predicts(ports, used, v)
    requires c.listenPort <= nextPort <= MAX_PORT + 1 && AllUsed(used, c.listenPort, nextPort)
    ensures |ports| == |v.slots|
    ensures CreateDecision(v, c, requested).Ok? <==>
            && !(c.maxIfaces > 0 && |ports| >= c.maxIfaces)
            && ValidPort(requested)
            && (if requested != 0 then requested !in used else FirstFree(used, nextPort).Some?)
    ensures CreateDecision(v, c, requested).Ok? ==>
              CreateDecision(v, c, requested).value
              == if requested != 0 then requested else FirstFree(used, nextPort).value
  {
    hide UsedPorts, FirstFree;
    assert ports.Keys == v.slots.Keys;
    FirstFreeSkips(used, c.listenPort, nextPort);
  }

  /**
   Accepts exactly the entry lists that replaying AddPeer accepts, and plans exactly the ports the pool would use,
   although it searches from a moving cursor and the pool searches from the base port every time.
   */
  method ValidateRestoreInterfaces(c: Limits, entries: seq<Entry>) returns (r: Result<map<ProfileKey, int>, PoolError>)
    ensures r.Ok? <==> ValidPort(c.listenPort) && Replay(c, entries).Some?
    ensures r.Ok? ==> r.value == PortMap(Replay(c, entries).value)
  {
    hide Replay, PlaceDecision, Admitted, PortMap, UsedPorts, FirstFree, AllUsed, CreateDecision;
    if !ValidPort(c.listenPort) {
      return Err(InvalidPort);
    }
    var ports: map<ProfileKey, int> := map[];
    var used: set<int> := {};
    var nextPort := c.listenPort;
    EmptyPlan(c, entries);
    var i := 0;
    while i < |entries|
      invariant 0 <= i <= |entries|
      invariant Replay(c, entries[..i]).Some? && Predicts(ports, used, Replay(c, entries[..i]).value)
      invariant c.listenPort <= nextPort <= MAX_PORT + 1 && AllUsed(used, c.listenPort, nextPort)
    {
      ghost var v := Replay(c, entries[..i]).value;
      var e := entries[i];
      var key := e.profile.key;
      ReplayNext(c, entries, i);
      PlanStep(ports, used, v, c, e, nextPort);
      if key in ports {
        if e.profile.port != 0 && e.profile.port != ports[key] {
          ReplayStops(c, entries, i + 1);
          return Err(ProfilePortConflict);
        }
        i := i + 1;
        continue;
      }
      if c.maxIfaces > 0 && |ports| >= c.maxIfaces {
        ReplayStops(c, entries, i + 1);
        return Err(MaxInterfacesReached);
      }
      var port := ResolveRestorePort(e.profile.port, nextPort, used);
      if port.Err? {
        ReplayStops(c, entries, i + 1);
        return Err(port.error);
      }
      ports := ports[key := port.value];
      AllUsedGrows(used, c.listenPort, nextPort, port.value);
      used := used + {port.value};
      nextPort := AdvanceCursor(nextPort, used, c.listenPort);
      i := i + 1;
    }
    assert entries[..i] == entries;
    return Ok(ports);
  }

  lemma EmptyPlan(c: Limits, entries: seq<Entry>)
    ensures Replay(c, entries[..0]) == Some(EMPTY_VIEW) && Predicts(map[], {}, EMPTY_VIEW)
    ensures AllUsed({}, c.listenPort, c.listenPort)
  {
    assert PortMap(EMPTY_VIEW) == map[];
  }

  lemma AllUsedGrows(used: set<int>, lo: int, hi: int, port: int)
    requires AllUsed(used, lo, hi)
    ensures AllUsed(used + {port}, lo, hi)
  {
  }

  lemma PortMapEntry(v: View, k: ProfileKey)
    ensures k in PortMap(v) <==> k in v.slots
    ensures k in v.slots ==> PortMap(v)[k] == v.slots[k].port
  {
  }

  /** One planning step mirrors one admission. */
  lemma PlanStep(ports: map<ProfileKey, int>, used: set<int>, v: View, c: Limits, e: Entry, nextPort: int)
    requires Predicts(ports, used, v)
    requires c.listenPort <= nextPort <= MAX_PORT + 1 && AllUsed(used, c.listenPort, nextPort)
    ensures e.profile.key in ports ==>
              var same := e.profile.port == 0 || e.profile.port == ports[e.profile.key];
              && (Admitted(v, c, e).Some? <==> same)
              && (same ==> Predicts(ports, used, Admitted(v, c, e).value))
    ensures e.profile.key !in ports ==>
              var requested := e.profile.port;
              var free := !(c.maxIfaces > 0 && |ports| >= c.maxIfaces) && ValidPort(requested)
                          && (if requested != 0 then requested !in used else FirstFree(used, nextPort).Some?);
              && (Admitted(v, c, e).Some? <==> free)
              && (free ==>
                    var port := if requested != 0 then requested else FirstFree(used, nextPort).value;
                    Predicts(ports[e.profile.key := port], used + {port}, Admitted(v, c, e).value))
  {
    hide PortMap, UsedPorts, FirstFree, AllUsed, CreateDecision;
    var k := e.profile.key;
    PortMapEntry(v, k);
    PlannerDecides(ports, used, v, c, e.profile.port, nextPort);
    if Admitted(v, c, e).Some? {
      PlacedPorts(v, k, PlaceDecision(v, c, k, e.profile.port).value, e.pk, e.psk);
    }
  }

  /** The restore loop of the manager: AddPeer for every entry, stopping at the first error. */
  method RestorePeers(pool: Pool, entries: seq<Entry>) returns (r: Outcome)
    requires pool.Valid() && pool.Contents() == EMPTY_VIEW
    requires forall i :: 0 <= i < |entries| ==> entries[i].profile.validated
    modifies pool, pool.host
    ensures pool.Valid() && pool.host.failures >= old(pool.host.failures)
    ensures r == Done ==> Replay(pool.limits, entries) == Some(pool.Contents())
    ensures pool.host.failures == old(pool.host.failures) ==> (r == Done <==> Replay(pool.limits, entries).Some?)
  {
    hide Replay, PlaceDecision, ViewOf, Invariant, OthersKept;
    EmptyPlan(pool.limits, entries);
    var i := 0;
    while i < |entries|
      invariant 0 <= i <= |entries| && pool.Valid() && pool.host.failures >= old(pool.host.failures)
      invariant Replay(pool.limits, entries[..i]) == Some(pool.Contents())
    {
      var e := entries[i];
      ReplayNext(pool.limits, entries, i);
      r := pool.AddPeer(e.profile, e.profile.port, e.pk, e.psk);
      if r != Done {
        if pool.host.failures == old(pool.host.failures) {
          ReplayStops(pool.limits, entries, i + 1);
        }
        return;
      }
      i := i + 1;
    }
    assert entries[..i] == entries;
    return Done;
  }
}
