/** The client manager: transactions over the pool, the disk and the firewall, with compensations. */
module Manager {
  import opened Wrappers
  import opened PoolView
  import opened Params
  import opened Addresses
  import opened RestorePlan
  import opened Agreement
  import opened Clients
  import opened Transactions
  import opened Pool
  import opened Firewall
  import ProfileIdentity
  import Routing

  /** rollbackFailed: the error reports that a rollback or a compensation failed. */
  datatype Reply<+T> = Success(value: T) | Failure(error: ManagerError, rollbackFailed: bool)

  const MAX_REGENERATION_ATTEMPTS := 8

  /** What guards a migration: a usage snapshot that must succeed before anything moves. */
  datatype Guard = NoGuard | SnapshotFails | SnapshotTaken

  /** The store on disk; saving takes full effect or none. */
  class Storage {
    var disk: Data
    ghost var failures: nat

    constructor (disk: Data)
      ensures this.disk == disk && failures == 0
    {
      this.disk := disk;
      failures := 0;
    }

    method Save(data: Data) returns (ok: bool)
      modifies this
      ensures disk == if ok then data else old(disk)
      ensures failures == old(failures) + (if ok then 0 else 1)
    {
      ok := *;
      if ok {
        disk := data;
      } else {
        failures := failures + 1;
      }
    }
  }

  /** A failed rollback is first reported only by a step in which a host call failed. */
  ghost predicate HostBlamed(before: nat, after: nat, wasDegraded: bool, degraded: bool) {
    before <= after && (degraded && !wasDegraded ==> before < after)
  }

  ghost predicate Reported<T>(r: Reply<T>) {
    r.Failure? && r.rollbackFailed
  }

  /** A transaction that reports success, or only fails to reopen inter-client traffic, has committed; any other has not. */
  ghost predicate Committing<T>(r: Reply<T>) {
    r.Success? || r.error == RebuildFailed
  }

  ghost predicate Settled<T>(before: Data, after: Data, planned: Data, r: Reply<T>) {
    after == if Committing(r) then planned else before
  }

  /** Failures after inter-client traffic was blocked leave it blocked; earlier ones leave the chain as it was. */
  ghost predicate FailsClosed<T>(r: Reply<T>, chain: seq<Rule>, before: seq<Rule>) {
    r.Failure? ==> chain == if LateFailure(r.error) then Chain([]) else before
  }

  /** A failed firewall call stands behind every firewall error, and a failed save behind every save error. */
  ghost predicate Blamed<T>(r: Reply<T>, tableBefore: nat, tableAfter: nat, storageBefore: nat, storageAfter: nat) {
    r.Failure? ==>
      && (r.error == BlockFailed || r.error == RebuildFailed ==> tableBefore < tableAfter)
      && (r.error == SaveFailed ==> storageBefore < storageAfter)
  }

  ghost predicate DeniedAt(v: View, c: Limits, source: Profile, target: Profile, cs: seq<Client>, i: nat, e: PoolError) {
    i < |cs| && MoveDenied(v, c, source, target, cs[i].pk, e)
  }

  /** The pool's own reason against the move that an update of this client asks for. */
  ghost predicate UpdateDenied(d: Defaults, before: Data, v: View, c: Limits, i: nat, t: Target, replacement: Option<NewKey>,
                               e: PoolError)
  {
    && PlannedMove(d, before, i, t, replacement)
    && var next := NextClient(d, before.clients[i], t, replacement);
       DeniedAt(v, c, ProfileOf(d, before.headerKeys, before.clients[i]).value,
                ProfileOf(d, Updated(before, i, next, replacement).headerKeys, next).value, before.clients, i, e)
  }

  /** The update of this client leaves its peer where it is. */
  ghost predicate Stays(d: Defaults, before: Data, c: Client, t: Target, replacement: Option<NewKey>) {
    exists i: nat :: i < |before.clients| && before.clients[i] == c && !PlannedMove(d, before, i, t, replacement)
  }

  ghost predicate Denied(d: Defaults, before: Data, v: View, c: Limits, client: Client, t: Target, replacement: Option<NewKey>,
                         e: PoolError)
  {
    exists i: nat :: UpdateDenied(d, before, v, c, i, t, replacement, e) && before.clients[i] == client
  }

  /** What an update of client i may do to the data; a move needs the guard's consent, and nothing else needs a guard. */
  ghost predicate UpdateOutcome(d: Defaults, before: Data, after: Data, i: nat, t: Target, replacement: Option<NewKey>,
                                guard: Guard, r: Reply<Client>)
  {
    && i < |before.clients|
    && var next := NextClient(d, before.clients[i], t, replacement);
       var planned := Updated(before, i, next, replacement);
       var profile := ProfileOf(d, planned.headerKeys, next);
       if profile.Err? then r == Failure(InvalidParams, false) && after == before
       else
         && after == (if r.Success? then planned else before)
         && (r.Failure? ==> r.error != InvalidParams)
         && (if !PlannedMove(d, before, i, t, replacement) then r.Success? || r == Failure(SaveFailed, false)
             else if guard == NoGuard then r == Failure(GuardMissing, false)
             else if guard == SnapshotFails then r == Failure(GuardRefused, false)
             else r.Failure? ==> r.error != GuardMissing && r.error != GuardRefused)
         && (r.Success? ==>
               && r.value == next
               && KeysExact(after)
               && EntriesMoved(EntriesOf(d, before.headerKeys, before.clients),
                               EntriesOf(d, after.headerKeys, after.clients), i, profile.value))
  }

  /** The same for a client given by its record. */
  ghost predicate UpdatesClient(d: Defaults, before: Data, after: Data, c: Client, t: Target, replacement: Option<NewKey>,
                                guard: Guard, r: Reply<Client>)
  {
    exists i: nat :: UpdateOutcome(d, before, after, i, t, replacement, guard, r) && before.clients[i] == c
  }

  /** Resolving the request first, and updating the client it resolves to. */
  ghost predicate UpdateRequested(d: Defaults, before: Data, after: Data, c: Client, u: Update, guard: Guard, degraded: bool,
                                  r: Reply<Client>)
  {
    match ResolvedUpdate(c, u)
    case Err(e) => r == Failure(e, false) && after == before
    case Ok(t) => UpdatesClient(d, before, after, c, t, None, guard, r) && (r.Failure? ==> UpdateFailure(r.error, degraded))
  }

  /** The failures an update can have once its target is settled; the missing port needs an earlier failed rollback. */
  ghost predicate UpdateFailure(e: ManagerError, degraded: bool) {
    || e == InvalidParams || e == SaveFailed || e == GuardMissing || e == GuardRefused || e.PoolRefused?
    || (e == PortUnknown && degraded)
  }

  ghost predicate RegenerationFailure(e: ManagerError, degraded: bool) {
    e == KeyGenerationFailed || e == ParamsUnchanged || (e != InvalidParams && UpdateFailure(e, degraded))
  }

  /** Regeneration replaces parameters, and the key of a 3.1 client, by fresh valid ones that change the identity. */
  ghost predicate RegeneratesClient(d: Defaults, before: Data, after: Data, c: Client, guard: Guard, r: Reply<Client>) {
    exists g: Generated, replacement: Option<NewKey> ::
      && FitsVersion(c.version, g)
      && KeyForVersion(c.version, before.headerKeys, replacement)
      && UpdatesClient(d, before, after, c, RegeneratedTarget(c, g), replacement, guard, r)
      && (r.Success? ==> RegeneratedAsAsked(before.headerKeys, c, g, r.value))
      && (c.version == V2 ==> LegacyKey(d, Regenerated(c, g)) != LegacyKey(d, c.params))
  }

  lemma NoGuardFailure(degraded: bool)
    ensures RegenerationFailure(GuardMissing, degraded)
  {
  }

  /** A regeneration never fails for its parameters. */
  lemma RegenerationSettled(config: Config, d: Defaults, before: Data, after: Data, c: Client, g: Generated,
                            replacement: Option<NewKey>, guard: Guard, degraded: bool, r: Reply<Client>)
    requires ClientSound(config, d, before.headerKeys, c)
    requires FitsVersion(c.version, g) && |g.headers| == 4 && (|g.padding| == 2 || |g.padding| == 4)
    requires KeyForVersion(c.version, before.headerKeys, replacement)
    requires UpdatesClient(d, before, after, c, RegeneratedTarget(c, g), replacement, guard, r)
    requires Settable(d, c.version, Regenerated(c, g))
    requires c.version == V2 ==> LegacyKey(d, Regenerated(c, g)) != LegacyKey(d, c.params)
    requires r.Failure? ==> UpdateFailure(r.error, degraded)
    ensures r.Failure? ==> after == before && RegenerationFailure(r.error, degraded)
    ensures r.Success? ==> RegeneratesClient(d, before, after, c, guard, r)
  {
    hide FitsVersion, KeyForVersion, Settable, Regenerated, LegacyKey, EntriesMoved, KeysExact, ProfileOf, Updated, NextClient,
         ClientSound, RegeneratedAsAsked, PlannedMove;
    var t := RegeneratedTarget(c, g);
    var i: nat :| UpdateOutcome(d, before, after, i, t, replacement, guard, r) && before.clients[i] == c;
    RegeneratedProfile(d, before, i, t, replacement);
    RegeneratesAsAsked(config, d, before.headerKeys, c, g, replacement);
  }

  /** A successful update leaves the client as asked, whatever the header key of the old one was. */
  lemma UpdateAsAsked(config: Config, d: Defaults, before: Data, after: Data, c: Client, u: Update, guard: Guard, degraded: bool,
                      r: Reply<Client>)
    requires Committed(config, d, before) && ClientSound(config, d, before.headerKeys, c)
    requires UpdateRequested(d, before, after, c, u, guard, degraded, r) && r.Success?
    ensures UpdatedAsAsked(d, c, u, r.value)
  {
    hide ClientSound, AllSound, Distinct, EntriesMoved, KeysExact, ProfileOf, Updated, NextClient, PlannedMove, UpdatedAsAsked,
         ResolvedUpdate, ProfileIdentity.ValidHeaderKey;
    var t := ResolvedUpdate(c, u).value;
    var i: nat :| UpdateOutcome(d, before, after, i, t, None, guard, r) && before.clients[i] == c;
    ResolvedAsAsked(config, d, before.headerKeys, c, u);
  }

  /** An update of neither version nor parameters moves nothing and can only fail to be saved. */
  lemma ClientOnlyOutcome(config: Config, d: Defaults, before: Data, after: Data, c: Client, u: Update, guard: Guard,
                          degraded: bool, r: Reply<Client>)
    requires Committed(config, d, before) && u.version.None? && u.params.None?
    requires UpdateRequested(d, before, after, c, u, guard, degraded, r) && ResolvedUpdate(c, u).Ok?
    ensures Stays(d, before, c, ResolvedUpdate(c, u).value, None)
    ensures EntriesOf(d, after.headerKeys, after.clients) == EntriesOf(d, before.headerKeys, before.clients)
    ensures r.Failure? ==> r == Failure(SaveFailed, false)
  {
    hide EntriesOf, ProfileOf, Updated, NextClient, PlannedMove, ResolvedUpdate, KeysExact, Distinct, AllSound, EntryOf;
    var t := ResolvedUpdate(c, u).value;
    var i: nat :| UpdateOutcome(d, before, after, i, t, None, guard, r) && before.clients[i] == c;
    ClientOnlyStays(config, d, before, i, u);
    StoredEntry(config, d, before, i);
    SameProfileSameEntries(EntriesOf(d, before.headerKeys, before.clients), EntriesOf(d, after.headerKeys, after.clients), i,
                           ProfileOf(d, before.headerKeys, c).value);
  }

  lemma InvalidTarget(d: Defaults, before: Data, i: nat, t: Target, replacement: Option<NewKey>, guard: Guard, degraded: bool)
    requires i < |before.clients|
    requires var next := NextClient(d, before.clients[i], t, replacement);
             ProfileOf(d, Updated(before, i, next, replacement).headerKeys, next).Err?
    ensures UpdateOutcome(d, before, before, i, t, replacement, guard, Failure(InvalidParams, false))
    ensures !PlannedMove(d, before, i, t, replacement) && UpdateFailure(InvalidParams, degraded)
  {
    hide ProfileOf, Updated, NextClient;
  }

  /** The outcome of an update, from the outcome of saving or moving. */
  lemma TargetReached(d: Defaults, before: Data, after: Data, i: nat, t: Target, replacement: Option<NewKey>, guard: Guard,
                      source: Profile, target: Profile, r: Reply<Client>)
    requires i < |before.clients| && ProfileOf(d, before.headerKeys, before.clients[i]) == Ok(source)
    requires var next := NextClient(d, before.clients[i], t, replacement);
             var planned := Updated(before, i, next, replacement);
             && ProfileOf(d, planned.headerKeys, next) == Ok(target)
             && after == (if r.Success? then planned else before)
             && (r.Success? ==>
                   && r.value == next && KeysExact(after)
                   && EntriesMoved(EntriesOf(d, before.headerKeys, before.clients),
                                   EntriesOf(d, after.headerKeys, after.clients), i, target))
    requires r.Failure? ==> r.error != InvalidParams
    requires !MoveNeeded(source, target) ==> r.Success? || r == Failure(SaveFailed, false)
    requires MoveNeeded(source, target) && guard == NoGuard ==> r == Failure(GuardMissing, false)
    requires MoveNeeded(source, target) && guard == SnapshotFails ==> r == Failure(GuardRefused, false)
    requires MoveNeeded(source, target) && guard == SnapshotTaken && r.Failure? ==> r.error != GuardMissing && r.error != GuardRefused
    ensures UpdateOutcome(d, before, after, i, t, replacement, guard, r)
    ensures PlannedMove(d, before, i, t, replacement) <==> MoveNeeded(source, target)
    ensures forall v, c, e :: MoveNeeded(source, target) && DeniedAt(v, c, source, target, before.clients, i, e) ==>
              UpdateDenied(d, before, v, c, i, t, replacement, e)
  {
    hide ProfileOf, Updated, NextClient, KeysExact, EntriesMoved, EntriesOf, DeniedAt, MoveNeeded;
  }

  lemma UnresolvedUpdate(d: Defaults, data: Data, c: Client, u: Update, guard: Guard, degraded: bool)
    requires ResolvedUpdate(c, u).Err?
    ensures UpdateRequested(d, data, data, c, u, guard, degraded, Failure(ResolvedUpdate(c, u).error, false))
    ensures ResolvedUpdate(c, u).error != SaveFailed && !ResolvedUpdate(c, u).error.PoolRefused?
  {
    hide Params.Normalized, Routing.Normalized;
  }

  lemma ResolvedRequest(d: Defaults, before: Data, after: Data, c: Client, u: Update, guard: Guard, degraded: bool,
                        r: Reply<Client>)
    requires ResolvedUpdate(c, u).Ok? && UpdatesClient(d, before, after, c, ResolvedUpdate(c, u).value, None, guard, r)
    requires r.Failure? ==> UpdateFailure(r.error, degraded)
    ensures UpdateRequested(d, before, after, c, u, guard, degraded, r)
  {
    hide ResolvedUpdate, UpdatesClient;
  }

  /** Entries that a move leaves as they are were not moved. */
  lemma UnchangedStays(es: seq<Entry>, es': seq<Entry>, i: nat, source: Profile, target: Profile)
    requires i < |es| && es[i].profile == source
    ensures EntriesMoved(es, es', i, target) && es' == es ==> !MoveNeeded(source, target)
  {
    assert es[i := es[i].(profile := target)][i].profile == target;
  }

  lemma SameProfileSameEntries(es: seq<Entry>, es': seq<Entry>, i: nat, target: Profile)
    requires i < |es| && es[i].profile == target
    ensures EntriesMoved(es, es', i, target) ==> es' == es
  {
  }

  /** No port or no place for the client's interface can be had. */
  ghost predicate PlacementDenied(d: Defaults, keys: KeyStore, c: Client, v: View, limits: Limits, e: PoolError) {
    var p := ProfileOf(d, keys, c);
    p.Ok? && PlaceDecision(v, limits, p.value.key, p.value.port) == Err(e)
  }

  /** The planned client is as asked, and talks to nobody outside its group when its chain is installed. */
  lemma NewcomerGroup(config: Config, d: Defaults, data: Data, clients: map<ClientId, Client>, usedIPs: set<int>, q: Request,
                      drawn: Option<(PublicKey, Psk)>, c: Client)
    requires PlannedClient(config, d, data.headerKeys, clients, usedIPs, q, drawn) == Ok(c)
    requires Committed(config, d, data) && Unused(data.clients, c)
    ensures CreatedAsAsked(config, d, usedIPs, q, drawn, c)
    ensures q.group == "" ==> Isolated(Chain(LanPeers(data.clients + [c])), data.clients, c, "peer:" + q.name.text)
  {
    hide PlannedClient, Isolated, Chain, LanPeers, AllSound, StoredParams, LeastFree, Params.Normalized, Routing.Normalized,
         ProfileOf;
    PlannedParts(config, d, data.headerKeys, clients, usedIPs, q, drawn);
    NewcomerIsolated(data.clients, c);
  }

  class Manager {
    const config: Config
    const defaults: Defaults
    const pool: Pool
    const storage: Storage
    const table: Table
    var clients: map<ClientId, Client>
    var usedIPs: set<int>
    var data: Data
    /** Some reply reported a failed rollback. */
    ghost var degraded: bool

    ghost predicate Wired()
      reads pool
    {
      && pool.Valid() && pool.limits.listenPort >= MIN_PORT
      && table.network == config.network && NoWrap(config)
    }

    ghost function Entries(): seq<Entry>
      reads this
    {
      EntriesOf(defaults, data.headerKeys, data.clients)
    }

    ghost predicate EntriesWithout(es: seq<Entry>, prospective: Data, i: nat) {
      i < |es| && EntriesOf(defaults, prospective.headerKeys, prospective.clients) == Without(es, i)
    }

    constructor (config: Config, defaults: Defaults, pool: Pool, storage: Storage, table: Table, data: Data,
                 clients: map<ClientId, Client>, usedIPs: set<int>)
      ensures this.config == config && this.defaults == defaults && this.pool == pool && this.storage == storage
      ensures this.table == table && this.data == data && this.clients == clients && this.usedIPs == usedIPs && !degraded
    {
      this.config := config;
      this.defaults := defaults;
      this.pool := pool;
      this.storage := storage;
      this.table := table;
      this.data := data;
      this.clients := clients;
      this.usedIPs := usedIPs;
      degraded := false;
    }

    /** Memory, disk, index, firewall and, unless a failed rollback was reported, the pool agree. */
    ghost predicate Valid()
      reads this, pool, storage, table
    {
      && Wired()
      && Committed(config, defaults, data)
      && Indexed(clients, usedIPs, data.clients)
      && storage.disk == data
      && Fenced(table.chain, data)
      && (!degraded ==> Agrees(pool.Contents(), Entries()))
    }

    method BlockLAN() returns (ok: bool)
      requires Valid()
      modifies table
      ensures Valid()
      ensures table.chain == if ok then Chain([]) else old(table.chain)
      ensures table.failures >= old(table.failures) + (if ok then 0 else 1)
    {
      hide Committed, Indexed, Agrees, ViewOf, Invariant, Chain, EntriesOf, EntryOf, Renderable;
      NoPeersRender(config);
      var r := table.ApplyLANIsolation([]);
      return r.Ok?;
    }

    method RebuildLAN() returns (ok: bool)
      requires Valid()
      modifies table
      ensures Valid()
      ensures table.chain == if ok then Chain(LanPeers(data.clients)) else old(table.chain)
      ensures table.failures >= old(table.failures) + (if ok then 0 else 1)
    {
      hide Committed, Indexed, Agrees, ViewOf, Invariant, Chain, EntriesOf, EntryOf, Renderable, LanPeers;
      CommittedRenders(config, defaults, data);
      var r := table.ApplyLANIsolation(LanPeers(data.clients));
      return r.Ok?;
    }

    /** Everything that is decided before the first change. */
    method PlanClient(q: Request, drawn: Option<(PublicKey, Psk)>) returns (r: Result<Client, ManagerError>)
      ensures r == PlannedClient(config, defaults, data.headerKeys, clients, usedIPs, q, drawn)
    {
      hide Params.Normalized, Routing.Normalized, ProfileFor, Allocated;
      if !ValidClientId(q.name) {
        return Err(InvalidClientId);
      }
      if q.version.None? {
        return Err(InvalidVersion);
      }
      if q.name in clients {
        return Err(ClientExists);
      }
      var version := q.version.value;
      var params := Params.Normalized(version, q.params);
      if params.Err? {
        return Err(InvalidParams);
      }
      var routing := Routing.NormalizeRouting(q.routing);
      if routing.Err? {
        return Err(InvalidRouting(routing.error));
      }
      var group := if q.group == "" then DefaultGroup(q.name) else q.group;
      var keyId := if version == V31 then defaults.keyId else NO_KEY;
      var profile := ProfileFor(defaults, data.headerKeys, version, params.value, keyId);
      if profile.Err? {
        return Err(InvalidParams);
      }
      if drawn.None? {
        return Err(KeyGenerationFailed);
      }
      var address := AllocateIP(config, usedIPs);
      if address.None? {
        return Err(NoAddress);
      }
      return Ok(Client(q.name, version, drawn.value.0, Some(drawn.value.1), address.value, group, params.value,
                       routing.value, keyId));
    }

    method CreateClient(q: Request, drawn: Option<(PublicKey, Psk)>) returns (r: Reply<Client>)
      requires Valid() && FreshDraw(data, drawn)
      modifies this, pool, pool.host, storage, table
      ensures Valid()
      ensures degraded == (old(degraded) || Reported(r))
      ensures data == old(data) && !degraded ==> pool.Contents() == old(pool.Contents())
      ensures HostBlamed(old(pool.host.failures), pool.host.failures, old(degraded), degraded)
      ensures FailsClosed(r, table.chain, old(table.chain))
      ensures Blamed(r, old(table.failures), table.failures, old(storage.failures), storage.failures)
      ensures match PlannedClient(config, defaults, old(data).headerKeys, old(clients), old(usedIPs), q, drawn)
              case Err(e) => r == Failure(e, false) && data == old(data) && table.chain == old(table.chain)
              case Ok(c) =>
                && Settled(old(data), data, Created(old(data), c), r)
                && (r.Success? ==> r.value == c && table.chain == Chain(LanPeers(data.clients)))
                && (r.Failure? ==> ExecutionFailure(r.error))
                && (r.Failure? && r.error.PoolRefused? ==>
                      || pool.host.failures > old(pool.host.failures)
                      || PlacementDenied(defaults, old(data).headerKeys, c, old(pool.Contents()), pool.limits, r.error.reason))
                && (Committing(r) ==> KeysExact(data)
                                      && Entries() == old(Entries()) + [EntryOf(defaults, old(data).headerKeys, c)])
      ensures r.Success? ==> CreatedAsAsked(config, defaults, old(usedIPs), q, drawn, r.value)
      ensures r.Success? && q.group == "" ==> Isolated(table.chain, old(data).clients, r.value, "peer:" + q.name.text)
    {
      hide PlannedClient, CreatedAsAsked, Isolated, PlaceDecision, Committed, Indexed, Agrees, ViewOf, Invariant, Chain, EntriesOf, EntryOf, LanPeers, FreshDraw,
           ClientSound, Unused, KeysExact, Fresh, ProfileOf, SweptKeys;
      var plan := PlanClient(q, drawn);
      if plan.Err? {
        RefusedEarly(config, defaults, data.headerKeys, clients, usedIPs, q, drawn);
        return Failure(plan.error, false);
      }
      var c := plan.value;
      PlannedSound(config, defaults, data, clients, usedIPs, q, drawn);
      NewcomerGroup(config, defaults, data, clients, usedIPs, q, drawn, c);
      CreatedCommitted(config, defaults, data, c);
      SoundProfile(config, defaults, data.headerKeys, c);
      var profile := ProfileOf(defaults, data.headerKeys, c).value;
      var prospective := MarkAndSweepHeaderKeys(data.(clients := data.clients + [c]));
      var blocked := BlockLAN();
      if !blocked {
        return Failure(BlockFailed, false);
      }
      var added := AddAndSave(c, profile, prospective);
      if added.Failure? {
        return Failure(added.error, added.rollbackFailed);
      }
      AppendIndexed(clients, usedIPs, data.clients, c);
      var rebuilt := CommitAndRebuild(clients[c.id := c], usedIPs + {c.address}, prospective);
      if !rebuilt {
        return Failure(RebuildFailed, false);
      }
      return Success(c);
    }

    /** Adds the peer and saves, taking the peer off again when saving fails. */
    method AddAndSave(c: Client, profile: Profile, prospective: Data) returns (r: Reply<()>)
      requires Valid() && Fresh(Entries(), c.pk) && profile.validated
      modifies pool, pool.host, storage, this`degraded
      ensures Wired() && degraded == (old(degraded) || Reported(r))
      ensures r.Success? ==> storage.disk == prospective
                             && (!degraded ==> Agrees(pool.Contents(), Entries() + [Entry(profile, c.pk, c.psk)]))
      ensures r.Failure? ==> Valid() && (r.error == SaveFailed || r.error.PoolRefused?)
      ensures r.Failure? && !degraded ==> pool.Contents() == old(pool.Contents())
      ensures HostBlamed(old(pool.host.failures), pool.host.failures, old(degraded), degraded)
      ensures r.Failure? && r.error == SaveFailed ==> storage.failures > old(storage.failures)
      ensures r.Failure? && r.error.PoolRefused? ==>
                || pool.host.failures > old(pool.host.failures)
                || PlaceDecision(old(pool.Contents()), pool.limits, profile.key, profile.port) == Err(r.error.reason)
    {
      hide Committed, Indexed, Agrees, ViewOf, Invariant, Chain, EntriesOf, EntryOf, LanPeers, Fenced, AddEffect, RemoveEffect,
           MigrateEffect, PortsLegal, Fresh, PlaceDecision, MoveDenied;
      ghost var v, es, e, failures := pool.Contents(), Entries(), Entry(profile, c.pk, c.psk), pool.host.failures;
      var added := pool.AddPeer(profile, profile.port, c.pk, c.psk);
      ghost var v1, quiet := pool.Contents(), pool.host.failures == failures;
      ReportsNeedFailures(v, v1, pool.limits, profile, profile, profile.port, c.pk, c.psk, added);
      if added != Done {
        RefusedForReason(v, v1, pool.limits, profile, profile, c.pk, c.psk, added);
        if !degraded && !added.rollbackFailed {
          AddRefused(v, v1, es, pool.limits, e, added, quiet);
        }
        degraded := degraded || added.rollbackFailed;
        return Failure(PoolRefused(added.error), added.rollbackFailed);
      }
      ghost var failures1 := pool.host.failures;
      var saved := storage.Save(prospective);
      if !saved {
        var undone := pool.RemovePeer(profile, c.pk);
        if !degraded {
          AddUndone(v, v1, pool.Contents(), es, pool.limits, e, quiet, undone, pool.host.failures == failures1);
        }
        degraded := degraded || undone != Done;
        return Failure(SaveFailed, undone != Done);
      }
      if !degraded {
        AddServes(v, v1, es, pool.limits, e, quiet);
      }
      return Success(());
    }

    /** The saved state becomes the committed one, and inter-client traffic is reopened for it. */
    method CommitAndRebuild(index: map<ClientId, Client>, addresses: set<int>, prospective: Data) returns (rebuilt: bool)
      requires Wired() && storage.disk == prospective && table.chain == Chain([])
      requires Committed(config, defaults, prospective) && Indexed(index, addresses, prospective.clients)
      requires !degraded ==> Agrees(pool.Contents(), EntriesOf(defaults, prospective.headerKeys, prospective.clients))
      modifies this`clients, this`usedIPs, this`data, table
      ensures Valid() && data == prospective && clients == index && usedIPs == addresses
      ensures table.chain == if rebuilt then Chain(LanPeers(data.clients)) else Chain([])
      ensures table.failures >= old(table.failures) + (if rebuilt then 0 else 1)
    {
      hide Committed, Indexed, Agrees, ViewOf, Invariant, Chain, EntriesOf, EntryOf, LanPeers;
      clients := index;
      usedIPs := addresses;
      data := prospective;
      rebuilt := RebuildLAN();
    }

    method FindStored(id: ClientId) returns (index: Option<nat>)
      ensures index.Some? ==> index.value < |data.clients| && data.clients[index.value].id == id
      ensures index.None? ==> !HasId(data.clients, id)
    {
      var i := 0;
      while i < |data.clients|
        invariant 0 <= i <= |data.clients|
        invariant forall j :: 0 <= j < i ==> data.clients[j].id != id
      {
        if data.clients[i].id == id {
          return Some(i);
        }
        i := i + 1;
      }
      return None;
    }

    method DeleteClient(id: ClientId) returns (r: Reply<()>)
      requires Valid()
      modifies this, pool, pool.host, storage, table
      ensures Valid()
      ensures degraded == (old(degraded) || Reported(r))
      ensures data == old(data) && !degraded ==> pool.Contents() == old(pool.Contents())
      ensures HostBlamed(old(pool.host.failures), pool.host.failures, old(degraded), degraded)
      ensures id !in old(clients) ==> r == Failure(ClientNotFound, false) && data == old(data)
      ensures r.Failure? && id in old(clients) ==> ExecutionFailure(r.error) || (r.error == PortUnknown && old(degraded))
      ensures r.Failure? && r.error.PoolRefused? ==> pool.host.failures > old(pool.host.failures) || old(degraded)
      ensures forall i :: 0 <= i < |old(data).clients| && old(data).clients[i].id == id ==>
                && Settled(old(data), data, Deleted(old(data), i), r)
                && (Committing(r) ==> KeysExact(data) && Entries() == Without(old(Entries()), i))
      ensures r.Success? ==> table.chain == Chain(LanPeers(data.clients))
      ensures FailsClosed(r, table.chain, old(table.chain))
      ensures Blamed(r, old(table.failures), table.failures, old(storage.failures), storage.failures)
    {
      hide Committed, Indexed, Agrees, ViewOf, Invariant, Chain, EntriesOf, EntryOf, LanPeers, ClientSound, KeysExact,
           ProfileOf, Deleted, Without, HasId, Distinct, DistinctKeys;
      var stored := FindStored(id);
      StoredIffIndexed(clients, usedIPs, data.clients, id);
      if id !in clients {
        return Failure(ClientNotFound, false);
      }
      var client := clients[id];
      CommittedDistinct(config, defaults, data);
      OnlyIndex(data.clients, stored.value);
      StoredIsIndexed(clients, usedIPs, data.clients, stored.value);
      StoredEntry(config, defaults, data, stored.value);
      var profile := ProfileOf(defaults, data.headerKeys, client).value;
      if !degraded {
        EntryServed(pool.Contents(), Entries(), stored.value);
      }
      var port := pool.PortForProfile(profile);
      if port.Err? {
        return Failure(PortUnknown, false);
      }
      r := RemoveStored(stored.value, profile, port.value);
    }

    method RemoveStored(i: nat, profile: Profile, port: int) returns (r: Reply<()>)
      requires Valid() && i < |data.clients|
      requires EntryAt(Entries(), i, Entry(profile, data.clients[i].pk, data.clients[i].psk))
      requires PortIs(pool.Contents(), profile.key, port)
      modifies this, pool, pool.host, storage, table
      ensures Valid()
      ensures degraded == (old(degraded) || Reported(r))
      ensures data == old(data) && !degraded ==> pool.Contents() == old(pool.Contents())
      ensures HostBlamed(old(pool.host.failures), pool.host.failures, old(degraded), degraded)
      ensures r.Failure? ==> ExecutionFailure(r.error)
      ensures r.Failure? && r.error.PoolRefused? ==> pool.host.failures > old(pool.host.failures) || old(degraded)
      ensures Settled(old(data), data, Deleted(old(data), i), r)
      ensures Committing(r) ==> KeysExact(data) && Entries() == Without(old(Entries()), i)
      ensures r.Success? ==> table.chain == Chain(LanPeers(data.clients))
      ensures FailsClosed(r, table.chain, old(table.chain))
      ensures Blamed(r, old(table.failures), table.failures, old(storage.failures), storage.failures)
    {
      hide Committed, Indexed, Agrees, ViewOf, Invariant, Chain, EntriesOf, EntryOf, LanPeers, KeysExact,
           SweptKeys, Without, Distinct, DistinctKeys;
      CommittedDistinct(config, defaults, data);
      var prospective := MarkAndSweepHeaderKeys(data.(clients := Without(data.clients, i)));
      DeletedCommitted(config, defaults, data, i);
      var blocked := BlockLAN();
      if !blocked {
        return Failure(BlockFailed, false);
      }
      DropIndexed(clients, usedIPs, data.clients, i);
      r := RemoveBlocked(i, profile, port, prospective);
    }

    /** The second half of a deletion, with inter-client traffic blocked. */
    method RemoveBlocked(i: nat, profile: Profile, port: int, prospective: Data) returns (r: Reply<()>)
      requires Valid() && table.chain == Chain([]) && i < |data.clients|
      requires EntryAt(Entries(), i, Entry(profile, data.clients[i].pk, data.clients[i].psk))
      requires PortIs(pool.Contents(), profile.key, port)
      requires Committed(config, defaults, prospective) && EntriesWithout(Entries(), prospective, i)
      requires Indexed(clients - {data.clients[i].id}, usedIPs - {data.clients[i].address}, prospective.clients)
      modifies this, pool, pool.host, storage, table
      ensures Valid()
      ensures degraded == (old(degraded) || Reported(r))
      ensures data == old(data) && !degraded ==> pool.Contents() == old(pool.Contents())
      ensures HostBlamed(old(pool.host.failures), pool.host.failures, old(degraded), degraded)
      ensures Settled(old(data), data, prospective, r)
      ensures r.Failure? ==> LateFailure(r.error) && table.chain == Chain([])
      ensures r.Failure? && r.error.PoolRefused? ==> pool.host.failures > old(pool.host.failures) || old(degraded)
      ensures r.Success? ==> table.chain == Chain(LanPeers(data.clients))
      ensures Blamed(r, old(table.failures), table.failures, old(storage.failures), storage.failures)
    {
      hide Committed, Indexed, Agrees, ViewOf, Invariant, Chain, EntriesOf, EntryOf, LanPeers, Without;
      var removed := RemoveAndSave(i, profile, port, prospective);
      if removed.Failure? {
        return Failure(removed.error, removed.rollbackFailed);
      }
      var rebuilt := CommitAndRebuild(clients - {data.clients[i].id}, usedIPs - {data.clients[i].address}, prospective);
      if !rebuilt {
        return Failure(RebuildFailed, false);
      }
      return Success(());
    }

    /** Takes the peer off the pool and saves, adding the peer back at the port it had when saving fails. */
    method RemoveAndSave(i: nat, profile: Profile, port: int, prospective: Data) returns (r: Reply<()>)
      requires Valid() && i < |data.clients|
      requires EntryAt(Entries(), i, Entry(profile, data.clients[i].pk, data.clients[i].psk))
      requires PortIs(pool.Contents(), profile.key, port)
      modifies pool, pool.host, storage, this`degraded
      ensures Wired() && degraded == (old(degraded) || Reported(r))
      ensures r.Success? ==> storage.disk == prospective && (!degraded ==> AgreesWithout(pool.Contents(), Entries(), i))
      ensures r.Failure? ==> Valid() && (r.error == SaveFailed || r.error.PoolRefused?)
      ensures r.Failure? && !degraded ==> pool.Contents() == old(pool.Contents())
      ensures HostBlamed(old(pool.host.failures), pool.host.failures, old(degraded), degraded)
      ensures r.Failure? && r.error == SaveFailed ==> storage.failures > old(storage.failures)
      ensures r.Failure? && r.error.PoolRefused? ==> pool.host.failures > old(pool.host.failures) || old(degraded)
    {
      hide Committed, Indexed, Agrees, ViewOf, Invariant, Chain, EntriesOf, EntryOf, LanPeers, DistinctKeys, Distinct,
           AddEffect, RemoveEffect, MigrateEffect, Without, Sound, PortsLegal, Fenced;
      var client := data.clients[i];
      CommittedDistinct(config, defaults, data);
      ghost var v, es, failures := pool.Contents(), Entries(), pool.host.failures;
      SoundView(pool.ifaces, pool.orphans, pool.owners, pool.nextIndex, pool.limits);
      var removed := pool.RemovePeer(profile, client.pk);
      ghost var v1, quiet := pool.Contents(), pool.host.failures == failures;
      if !degraded {
        RemoveServes(v, v1, es, i, removed, quiet);
      }
      ReportsNeedFailures(v, v1, pool.limits, profile, profile, 0, client.pk, client.psk, removed);
      if removed != Done {
        degraded := degraded || removed.rollbackFailed;
        return Failure(PoolRefused(removed.error), removed.rollbackFailed);
      }
      ghost var failures1 := pool.host.failures;
      var saved := storage.Save(prospective);
      if !saved {
        var undone := pool.AddPeer(profile, port, client.pk, client.psk);
        if !degraded {
          RemoveUndone(v, v1, pool.Contents(), es, i, pool.limits, quiet, undone, pool.host.failures == failures1);
        }
        degraded := degraded || undone != Done;
        return Failure(SaveFailed, undone != Done);
      }
      return Success(());
    }

    /** Moves the peer and saves, moving the peer back to the port its old interface had when saving fails. */
    method MoveAndSave(i: nat, source: Profile, target: Profile, prospective: Data) returns (r: Reply<()>)
      requires Valid() && i < |data.clients| && target.validated && MoveNeeded(source, target)
      requires EntryAt(Entries(), i, Entry(source, data.clients[i].pk, data.clients[i].psk))
      modifies pool, pool.host, storage, this`degraded
      ensures Wired() && degraded == (old(degraded) || Reported(r))
      ensures r.Success? ==> storage.disk == prospective && (!degraded ==> AgreesMoved(pool.Contents(), Entries(), i, target))
      ensures r.Failure? ==> Valid() && (r.error == SaveFailed || r.error.PoolRefused? || (r.error == PortUnknown && degraded))
      ensures r.Failure? && !degraded ==> pool.Contents() == old(pool.Contents())
      ensures HostBlamed(old(pool.host.failures), pool.host.failures, old(degraded), degraded)
      ensures r.Failure? && r.error == SaveFailed ==> storage.failures > old(storage.failures)
      ensures r.Failure? && r.error.PoolRefused? ==>
                || pool.host.failures > old(pool.host.failures)
                || DeniedAt(old(pool.Contents()), pool.limits, source, target, data.clients, i, r.error.reason)
    {
      hide Committed, Indexed, Agrees, ViewOf, Invariant, Chain, EntriesOf, EntryOf, LanPeers, DistinctKeys, Distinct,
           MigrateEffect, AddEffect, RemoveEffect, Sound, PortsLegal, Fenced, MoveNeeded, MoveDenied, PlaceDecision;
      var client := data.clients[i];
      CommittedDistinct(config, defaults, data);
      ghost var v, es, failures := pool.Contents(), Entries(), pool.host.failures;
      SoundView(pool.ifaces, pool.orphans, pool.owners, pool.nextIndex, pool.limits);
      if !degraded {
        EntryServed(v, es, i);
      }
      var oldPort := pool.PortForProfile(source);
      if oldPort.Err? {
        return Failure(PortUnknown, false);
      }
      var moved := pool.MigratePeer(source, target, target.port, client.pk, client.psk);
      ghost var v1, quiet := pool.Contents(), pool.host.failures == failures;
      ReportsNeedFailures(v, v1, pool.limits, source, target, target.port, client.pk, client.psk, moved);
      if moved != Done {
        RefusedForReason(v, v1, pool.limits, source, target, client.pk, client.psk, moved);
        if !degraded && !moved.rollbackFailed {
          MoveRefused(v, v1, es, i, pool.limits, target, moved, quiet);
        }
        degraded := degraded || moved.rollbackFailed;
        return Failure(PoolRefused(moved.error), moved.rollbackFailed);
      }
      ghost var failures1 := pool.host.failures;
      var saved := storage.Save(prospective);
      if !saved {
        SoundView(pool.ifaces, pool.orphans, pool.owners, pool.nextIndex, pool.limits);
        var undone := pool.MigratePeer(target, source, oldPort.value, client.pk, client.psk);
        if !degraded {
          MoveUndone(v, v1, pool.Contents(), es, i, pool.limits, target, quiet, undone, pool.host.failures == failures1);
        }
        degraded := degraded || undone != Done;
        return Failure(SaveFailed, undone != Done);
      }
      if !degraded {
        MoveServes(v, v1, es, i, pool.limits, target, quiet);
      }
      return Success(());
    }

    method ApplyUpdate(client: Client, t: Target, replacement: Option<NewKey>, guard: Guard) returns (r: Reply<Client>)
      requires Valid() && client.id in clients && clients[client.id] == client
      requires TargetNormal(t) && FreshKey(data.headerKeys, t, replacement)
      modifies this, pool, pool.host, storage
      ensures Valid()
      ensures degraded == (old(degraded) || Reported(r))
      ensures data == old(data) && !degraded ==> pool.Contents() == old(pool.Contents())
      ensures HostBlamed(old(pool.host.failures), pool.host.failures, old(degraded), degraded)
      ensures UpdatesClient(defaults, old(data), data, client, t, replacement, guard, r)
      ensures r.Failure? ==> UpdateFailure(r.error, degraded)
      ensures Stays(defaults, old(data), client, t, replacement) ==> pool.Contents() == old(pool.Contents())
      ensures r.Failure? && r.error == SaveFailed ==> storage.failures > old(storage.failures)
      ensures r.Failure? && r.error.PoolRefused? ==>
                || pool.host.failures > old(pool.host.failures)
                || Denied(defaults, old(data), old(pool.Contents()), pool.limits, client, t, replacement, r.error.reason)
    {
      hide Committed, Indexed, Agrees, ViewOf, Invariant, Chain, EntriesOf, EntryOf, LanPeers, Distinct, DistinctKeys,
           Fenced, MoveNeeded, HasId, UpdateOutcome, UpdateFailure, TargetNormal, FreshKey, PlannedMove, UpdateDenied;
      CommittedDistinct(config, defaults, data);
      var stored := FindStored(client.id);
      StoredIffIndexed(clients, usedIPs, data.clients, client.id);
      StoredIsIndexed(clients, usedIPs, data.clients, stored.value);
      OnlyIndex(data.clients, stored.value);
      r := UpdateStored(stored.value, t, replacement, guard);
      assert UpdateOutcome(defaults, old(data), data, stored.value, t, replacement, guard, r);
    }

    method UpdateStored(i: nat, t: Target, replacement: Option<NewKey>, guard: Guard) returns (r: Reply<Client>)
      requires Valid() && i < |data.clients|
      requires TargetNormal(t) && FreshKey(data.headerKeys, t, replacement)
      modifies this, pool, pool.host, storage
      ensures Valid()
      ensures degraded == (old(degraded) || Reported(r))
      ensures data == old(data) && !degraded ==> pool.Contents() == old(pool.Contents())
      ensures HostBlamed(old(pool.host.failures), pool.host.failures, old(degraded), degraded)
      ensures UpdateOutcome(defaults, old(data), data, i, t, replacement, guard, r)
      ensures r.Failure? ==> UpdateFailure(r.error, degraded)
      ensures !PlannedMove(defaults, old(data), i, t, replacement) ==> pool.Contents() == old(pool.Contents())
      ensures r.Failure? && r.error == SaveFailed ==> storage.failures > old(storage.failures)
      ensures r.Failure? && r.error.PoolRefused? ==>
                || pool.host.failures > old(pool.host.failures)
                || UpdateDenied(defaults, old(data), old(pool.Contents()), pool.limits, i, t, replacement, r.error.reason)
    {
      hide Committed, Indexed, Agrees, ViewOf, Invariant, Chain, EntriesOf, EntryOf, LanPeers, Distinct, DistinctKeys,
           ProfileOf, TargetNormal, FreshKey, SamePerson, KeysExact, SweptKeys, NextClient, WithKey, EntriesMoved, AgreesMoved,
           DeniedAt, UpdateOutcome, PlannedMove, UpdateDenied, UpdateFailure, MoveNeeded;
      var client := data.clients[i];
      CommittedDistinct(config, defaults, data);
      StoredEntry(config, defaults, data, i);
      var source := ProfileOf(defaults, data.headerKeys, client).value;
      var next := NextClient(defaults, client, t, replacement);
      var prospective := MarkAndSweepHeaderKeys(
        data.(clients := data.clients[i := next], headerKeys := WithKey(data.headerKeys, replacement)));
      var profile := ProfileOf(defaults, prospective.headerKeys, next);
      if profile.Err? {
        InvalidTarget(defaults, data, i, t, replacement, guard, degraded);
        return Failure(InvalidParams, false);
      }
      var target := profile.value;
      UpdatedCommitted(config, defaults, data, i, t, replacement);
      ReplaceIndexed(clients, usedIPs, data.clients, i, next);
      SameLan(data.clients, i, next);
      r := SettleUpdate(i, next, source, target, prospective, guard);
      TargetReached(defaults, old(data), data, i, t, replacement, guard, source, target, r);
      UnchangedStays(old(Entries()), Entries(), i, source, target);
    }

    /** Saves where the peer is, or moves it when the guard consents. */
    method SettleUpdate(i: nat, next: Client, source: Profile, target: Profile, prospective: Data, guard: Guard)
        returns (r: Reply<Client>)
      requires Valid() && i < |data.clients| && source.validated && target.validated
      requires EntryAt(Entries(), i, Entry(source, data.clients[i].pk, data.clients[i].psk))
      requires Committed(config, defaults, prospective)
      requires Indexed(clients[next.id := next], usedIPs + {next.address}, prospective.clients)
      requires LanPeers(prospective.clients) == LanPeers(data.clients)
      requires EntriesMoved(Entries(), EntriesOf(defaults, prospective.headerKeys, prospective.clients), i, target)
      modifies this, pool, pool.host, storage
      ensures Valid()
      ensures degraded == (old(degraded) || Reported(r))
      ensures data == if r.Success? then prospective else old(data)
      ensures r.Failure? && !degraded ==> pool.Contents() == old(pool.Contents())
      ensures HostBlamed(old(pool.host.failures), pool.host.failures, old(degraded), degraded)
      ensures r.Success? ==> r.value == next
      ensures r.Failure? ==> UpdateFailure(r.error, degraded) && r.error != InvalidParams
      ensures !MoveNeeded(source, target) ==> pool.Contents() == old(pool.Contents())
      ensures !MoveNeeded(source, target) ==> r.Success? || r == Failure(SaveFailed, false)
      ensures MoveNeeded(source, target) && guard == NoGuard ==> r == Failure(GuardMissing, false)
      ensures MoveNeeded(source, target) && guard == SnapshotFails ==> r == Failure(GuardRefused, false)
      ensures MoveNeeded(source, target) && guard == SnapshotTaken && r.Failure? ==>
                r.error != GuardMissing && r.error != GuardRefused
      ensures r.Failure? && r.error == SaveFailed ==> storage.failures > old(storage.failures)
      ensures r.Failure? && r.error.PoolRefused? ==>
                || pool.host.failures > old(pool.host.failures)
                || (MoveNeeded(source, target)
                    && DeniedAt(old(pool.Contents()), pool.limits, source, target, old(data).clients, i, r.error.reason))
    {
      hide Committed, Indexed, Agrees, ViewOf, Invariant, Chain, EntriesOf, EntryOf, LanPeers, Distinct, DistinctKeys,
           ProfileOf, EntriesMoved, AgreesMoved, DeniedAt;
      var settled: Reply<()>;
      if source.key == target.key && source.port == target.port {
        settled := SaveUnmoved(i, source, target, prospective);
      } else if guard == NoGuard {
        settled := Failure(GuardMissing, false);
      } else if guard == SnapshotFails {
        settled := Failure(GuardRefused, false);
      } else {
        settled := MoveAndSave(i, source, target, prospective);
      }
      if settled.Failure? {
        return Failure(settled.error, settled.rollbackFailed);
      }
      if !degraded {
        MovedAgree(pool.Contents(), Entries(), EntriesOf(defaults, prospective.headerKeys, prospective.clients), i, target);
      }
      Commit(next, prospective);
      return Success(next);
    }

    /** A client-only change: the peer stays where it is. */
    method SaveUnmoved(i: nat, source: Profile, target: Profile, prospective: Data) returns (r: Reply<()>)
      requires Valid() && i < |data.clients| && source == target
      requires EntryAt(Entries(), i, Entry(source, data.clients[i].pk, data.clients[i].psk))
      modifies storage
      ensures Wired() && storage.disk == if r.Success? then prospective else old(storage.disk)
      ensures r.Success? && !degraded ==> AgreesMoved(pool.Contents(), Entries(), i, target)
      ensures r.Failure? ==> Valid() && r == Failure(SaveFailed, false) && storage.failures > old(storage.failures)
    {
      hide Committed, Indexed, Agrees, ViewOf, Invariant, Chain, EntriesOf, EntryOf, LanPeers, Fenced;
      NothingMoved(Entries(), i, target);
      var saved := storage.Save(prospective);
      return if saved then Success(()) else Failure(SaveFailed, false);
    }

    method Commit(c: Client, prospective: Data)
      modifies this`clients, this`usedIPs, this`data
      ensures clients == old(clients)[c.id := c] && usedIPs == old(usedIPs) + {c.address} && data == prospective
    {
      clients := clients[c.id := c];
      usedIPs := usedIPs + {c.address};
      data := prospective;
    }

    method UpdateClient(id: ClientId, u: Update, guard: Guard) returns (r: Reply<Client>)
      requires Valid()
      modifies this, pool, pool.host, storage
      ensures Valid()
      ensures degraded == (old(degraded) || Reported(r))
      ensures data == old(data) && !degraded ==> pool.Contents() == old(pool.Contents())
      ensures HostBlamed(old(pool.host.failures), pool.host.failures, old(degraded), degraded)
      ensures id !in old(clients) ==> r == Failure(ClientNotFound, false) && data == old(data)
      ensures id in old(clients) ==> UpdateRequested(defaults, old(data), data, old(clients)[id], u, guard, degraded, r)
      ensures id in old(clients) && r.Success? ==> UpdatedAsAsked(defaults, old(clients)[id], u, r.value)
      ensures u.version.None? && u.params.None? ==>
                && Entries() == old(Entries()) && pool.Contents() == old(pool.Contents())
                && (r.Failure? && id in old(clients) && ResolvedUpdate(old(clients)[id], u).Ok? ==> r == Failure(SaveFailed, false))
      ensures r.Failure? && r.error == SaveFailed ==> storage.failures > old(storage.failures)
      ensures r.Failure? && r.error.PoolRefused? && id in old(clients) && ResolvedUpdate(old(clients)[id], u).Ok? ==>
                || pool.host.failures > old(pool.host.failures)
                || Denied(defaults, old(data), old(pool.Contents()), pool.limits, old(clients)[id],
                          ResolvedUpdate(old(clients)[id], u).value, None, r.error.reason)
    {
      hide Committed, Indexed, Agrees, ViewOf, Invariant, Chain, EntriesOf, EntryOf, LanPeers, Distinct, DistinctKeys,
           Fenced, HasId, UpdateRequested, UpdatedAsAsked, ClientSound, TargetNormal, ResolvedUpdate, Stays, Denied;
      if id !in clients {
        return Failure(ClientNotFound, false);
      }
      var client := clients[id];
      IndexedSound(config, defaults, data, clients, usedIPs, id);
      var t := ResolvedUpdate(client, u);
      if t.Err? {
        UnresolvedUpdate(defaults, data, client, u, guard, degraded);
        return Failure(t.error, false);
      }
      ResolvedNormal(client, u);
      r := ApplyUpdate(client, t.value, None, guard);
      ResolvedRequest(defaults, old(data), data, client, u, guard, degraded, r);
      if r.Success? {
        UpdateAsAsked(config, defaults, old(data), data, client, u, guard, degraded, r);
      }
      if u.version.None? && u.params.None? {
        ClientOnlyOutcome(config, defaults, old(data), data, client, u, guard, degraded, r);
      }
    }

    /** A header key under an identifier that is not in use; None when the random source fails. */
    method NewHeaderKey() returns (r: Option<NewKey>)
      ensures r.Some? ==> KeyForVersion(V31, data.headerKeys, r)
    {
      var key: seq<int> := *;
      if !ProfileIdentity.ValidHeaderKey(key) {
        return None;
      }
      var attempt := 0;
      while attempt < MAX_REGENERATION_ATTEMPTS {
        var text: string := *;
        if text == "" {
          return None;
        }
        if KeyId(text) !in data.headerKeys {
          return Some(NewKey(KeyId(text), key));
        }
        attempt := attempt + 1;
      }
      return None;
    }

    method RegenerateAWGParams(id: ClientId, guard: Guard) returns (r: Reply<Client>)
      requires Valid()
      modifies this, pool, pool.host, storage
      ensures Valid()
      ensures degraded == (old(degraded) || Reported(r))
      ensures data == old(data) && !degraded ==> pool.Contents() == old(pool.Contents())
      ensures HostBlamed(old(pool.host.failures), pool.host.failures, old(degraded), degraded)
      ensures r.Failure? ==> data == old(data)
      ensures id !in old(clients) ==> r == Failure(ClientNotFound, false)
      ensures id in old(clients) && r.Failure? ==> RegenerationFailure(r.error, degraded)
      ensures id in old(clients) && r.Success? ==> RegeneratesClient(defaults, old(data), data, old(clients)[id], guard, r)
    {
      hide Committed, Indexed, Agrees, ViewOf, Invariant, Chain, EntriesOf, EntryOf, LanPeers, Fenced, UpdatesClient,
           RegeneratesClient, ClientSound, UpdateFailure, FitsVersion;
      if id !in clients {
        return Failure(ClientNotFound, false);
      }
      var client := clients[id];
      IndexedSound(config, defaults, data, clients, usedIPs, id);
      if guard == NoGuard {
        NoGuardFailure(degraded);
        return Failure(GuardMissing, false);
      }
      if client.version == V2 {
        r := RegenerateLegacy(client, guard);
      } else {
        r := RegenerateAWG31(client, guard);
      }
    }

    /** Draws until the profile's identity changes. */
    method DrawLegacy(client: Client) returns (r: Result<Generated, ManagerError>)
      requires ClientSound(config, defaults, data.headerKeys, client) && client.version == V2
      ensures r.Err? ==> r.error == KeyGenerationFailed || r.error == ParamsUnchanged
      ensures r.Ok? ==> FitsVersion(V2, r.value) && |r.value.headers| == 4 && |r.value.padding| == 2
      ensures r.Ok? ==> LegacyKey(defaults, Regenerated(client, r.value)) != LegacyKey(defaults, client.params)
    {
      hide ClientSound, TargetNormal, ProfileFor, Params.Normalized, Settable, ApplyGenerated, Canonicalized, LegacyKey, Tiered;
      SoundSettable(config, defaults, data.headerKeys, client);
      LegacyProfile(defaults, data.headerKeys, client.params, client.keyId);
      var oldProfile := ProfileFor(defaults, data.headerKeys, V2, client.params, client.keyId).value;
      var attempt := 0;
      while attempt < MAX_REGENERATION_ATTEMPTS
      {
        var words: seq<nat> := *;
        var generated := GenerateParams(words);
        if generated.None? {
          return Err(KeyGenerationFailed);
        }
        RegeneratedNormal(config, defaults, data.headerKeys, client, generated.value);
        var params := Params.Normalized(V2, Some(ApplyGenerated(client.params, generated.value))).value;
        LegacyProfile(defaults, data.headerKeys, params, NO_KEY);
        var profile := ProfileFor(defaults, data.headerKeys, V2, params, NO_KEY).value;
        if profile.key != oldProfile.key {
          return Ok(generated.value);
        }
        attempt := attempt + 1;
      }
      return Err(ParamsUnchanged);
    }

    method RegenerateLegacy(client: Client, guard: Guard) returns (r: Reply<Client>)
      requires Valid() && client.id in clients && clients[client.id] == client && client.version == V2
      requires ClientSound(config, defaults, data.headerKeys, client)
      modifies this, pool, pool.host, storage
      ensures Valid()
      ensures degraded == (old(degraded) || Reported(r))
      ensures data == old(data) && !degraded ==> pool.Contents() == old(pool.Contents())
      ensures HostBlamed(old(pool.host.failures), pool.host.failures, old(degraded), degraded)
      ensures r.Failure? ==> data == old(data) && RegenerationFailure(r.error, degraded)
      ensures r.Success? ==> RegeneratesClient(defaults, old(data), data, client, guard, r)
    {
      hide Committed, Indexed, Agrees, ViewOf, Invariant, Chain, EntriesOf, EntryOf, LanPeers, Fenced, UpdatesClient,
           RegeneratesClient, ClientSound, UpdateFailure, FitsVersion, TargetNormal, Params.Normalized, Settable,
           ApplyGenerated, Canonicalized, LegacyKey;
      var drawn := DrawLegacy(client);
      if drawn.Err? {
        return Failure(drawn.error, false);
      }
      var g := drawn.value;
      RegeneratedNormal(config, defaults, data.headerKeys, client, g);
      var params := Params.Normalized(V2, Some(ApplyGenerated(client.params, g))).value;
      r := ApplyUpdate(client, Target(V2, params, client.routing, false), None, guard);
      RegenerationSettled(config, defaults, old(data), data, client, g, None, guard, degraded, r);
    }

    method RegenerateAWG31(client: Client, guard: Guard) returns (r: Reply<Client>)
      requires Valid() && client.id in clients && clients[client.id] == client && client.version == V31
      requires ClientSound(config, defaults, data.headerKeys, client)
      modifies this, pool, pool.host, storage
      ensures Valid()
      ensures degraded == (old(degraded) || Reported(r))
      ensures data == old(data) && !degraded ==> pool.Contents() == old(pool.Contents())
      ensures HostBlamed(old(pool.host.failures), pool.host.failures, old(degraded), degraded)
      ensures r.Failure? ==> data == old(data) && RegenerationFailure(r.error, degraded)
      ensures r.Success? ==> RegeneratesClient(defaults, old(data), data, client, guard, r)
    {
      hide Committed, Indexed, Agrees, ViewOf, Invariant, Chain, EntriesOf, EntryOf, LanPeers, Fenced, UpdatesClient,
           RegeneratesClient, ClientSound, UpdateFailure, FitsVersion, TargetNormal, ProfileFor, Params.Normalized, Settable,
           ApplyGenerated, Canonicalized, LegacyKey;
      var words: seq<nat> := *;
      var generated := GenerateParamsV31(words);
      if generated.None? {
        return Failure(KeyGenerationFailed, false);
      }
      var g := generated.value;
      GeneratedShape(V31, g);
      RegeneratedNormal(config, defaults, data.headerKeys, client, g);
      var params := Params.Normalized(V31, Some(ApplyGenerated(client.params, g))).value;
      var key := NewHeaderKey();
      if key.None? {
        return Failure(KeyGenerationFailed, false);
      }
      r := ApplyUpdate(client, Target(V31, params, client.routing, false), key, guard);
      RegenerationSettled(config, defaults, old(data), data, client, g, key, guard, degraded, r);
    }

    /** Regroups clients; inter-client traffic is blocked first and reopened only for the saved groups. */
    method UpdateLANGroup(ids: seq<ClientId>, group: string) returns (r: Reply<()>)
      requires Valid()
      modifies this, storage, table
      ensures Valid() && degraded == old(degraded) && !Reported(r)
      ensures FailsClosed(r, table.chain, old(table.chain))
      ensures Blamed(r, old(table.failures), table.failures, old(storage.failures), storage.failures)
      ensures match GroupRefusal(old(clients), ids, group)
              case Some(e) => r == Failure(e, false) && data == old(data) && table.chain == old(table.chain)
              case None =>
                && Settled(old(data), data, old(data).(clients := Regrouped(old(data).clients, IdSet(ids), group)), r)
                && (r.Success? ==> table.chain == Chain(LanPeers(data.clients)))
                && (r.Failure? ==> ExecutionFailure(r.error) && !r.error.PoolRefused?)
                && Entries() == old(Entries())
                && (Committing(r) ==> GroupsSet(old(data).clients, data.clients, ids, group))
    {
      hide Committed, Indexed, Agrees, ViewOf, Invariant, Chain, EntriesOf, EntryOf, LanPeers, Distinct, DistinctKeys,
           HasId, Regrouped, RegroupedIndex, Repeats, GroupsSet;
      var refusal := CheckGroupRequest(clients, ids, group);
      if refusal.Some? {
        return Failure(refusal.value, false);
      }
      CommittedDistinct(config, defaults, data);
      IndexedIds(clients, usedIPs, data.clients);
      RegroupedCommitted(config, defaults, data, IdSet(ids), group);
      RegroupedSet(data.clients, ids, group);
      RegroupIndexed(clients, usedIPs, data.clients, IdSet(ids), group);
      var regrouped := RegroupStored(data.clients, ids, group);
      var prospective := data.(clients := regrouped);
      var blocked := BlockLAN();
      if !blocked {
        return Failure(BlockFailed, false);
      }
      var saved := storage.Save(prospective);
      if !saved {
        return Failure(SaveFailed, false);
      }
      var index := RegroupIndex(clients, ids, group);
      var rebuilt := CommitAndRebuild(index, usedIPs, prospective);
      if !rebuilt {
        return Failure(RebuildFailed, false);
      }
      return Success(());
    }

    method SetServerPrivateKey(key: string) returns (r: Reply<()>)
      requires Valid()
      modifies this, storage
      ensures Valid() && degraded == old(degraded)
      ensures data == if r.Success? then old(data).(serverKey := key) else old(data)
      ensures r.Failure? ==> r == Failure(SaveFailed, false) && storage.failures > old(storage.failures)
    {
      hide AllSound, Indexed, Agrees, ViewOf, Invariant, Chain, EntriesOf, EntryOf, LanPeers, Distinct;
      var prospective := data.(serverKey := key);
      var saved := storage.Save(prospective);
      if !saved {
        return Failure(SaveFailed, false);
      }
      data := prospective;
      return Success(());
    }
  }
}
