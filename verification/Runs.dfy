/** Whole runs of the manager: any sequence of requests, with any pattern of host, disk and firewall failures. */
module Runs {
  import opened Wrappers
  import opened PoolView
  import opened Params
  import opened Agreement
  import Addresses
  import opened Clients
  import opened Transactions
  import opened Manager
  import Pool
  import Startup
  import Firewall

  datatype Command =
    | Create(request: Request, drawn: Option<(PublicKey, Psk)>)
    | Change(id: ClientId, update: Update, guard: Guard)
    | Regenerate(id: ClientId, guard: Guard)
    | Delete(id: ClientId)
    | Regroup(ids: seq<ClientId>, group: string)
    | SetKey(key: string)

  /** The client key a command brings in. */
  function DrawnKey(c: Command): Option<PublicKey> {
    if c.Create? && c.drawn.Some? then Some(c.drawn.value.0) else None
  }

  function PublicKeys(cs: seq<Client>): set<PublicKey> {
    set i | 0 <= i < |cs| :: cs[i].pk
  }

  function WithDrawn(keys: set<PublicKey>, c: Command): set<PublicKey> {
    if DrawnKey(c).Some? then keys + {DrawnKey(c).value} else keys
  }

  /** Every drawn client key is new. */
  ghost predicate FreshDraws(keys: set<PublicKey>, cs: seq<Command>) {
    && (forall i :: 0 <= i < |cs| && DrawnKey(cs[i]).Some? ==> DrawnKey(cs[i]).value !in keys)
    && (forall i, j :: 0 <= i < j < |cs| && DrawnKey(cs[i]).Some? ==> DrawnKey(cs[i]) != DrawnKey(cs[j]))
  }

  lemma FreshNext(keys: set<PublicKey>, keys': set<PublicKey>, cs: seq<Command>)
    requires cs != [] && FreshDraws(keys, cs) && keys' <= WithDrawn(keys, cs[0])
    ensures FreshDraws(keys', cs[1..])
  {
    forall i | 0 <= i < |cs[1..]| && DrawnKey(cs[1..][i]).Some?
      ensures DrawnKey(cs[1..][i]).value !in keys'
    {
      assert cs[1..][i] == cs[i + 1];
      assert DrawnKey(cs[0]).Some? ==> DrawnKey(cs[0]) != DrawnKey(cs[i + 1]);
    }
    forall i, j | 0 <= i < j < |cs[1..]| && DrawnKey(cs[1..][i]).Some?
      ensures DrawnKey(cs[1..][i]) != DrawnKey(cs[1..][j])
    {
      assert cs[1..][i] == cs[i + 1] && cs[1..][j] == cs[j + 1];
    }
  }

  lemma DrawIsFresh(data: Data, c: Command)
    requires c.Create? && FreshDraws(PublicKeys(data.clients), [c])
    ensures FreshDraw(data, c.drawn)
  {
    assert [c][0] == c;
    if c.drawn.Some? {
      forall i | 0 <= i < |data.clients|
        ensures data.clients[i].pk != c.drawn.value.0
      {
        assert data.clients[i].pk in PublicKeys(data.clients);
      }
    }
  }

  lemma FirstFresh(keys: set<PublicKey>, cs: seq<Command>)
    requires cs != [] && FreshDraws(keys, cs)
    ensures FreshDraws(keys, [cs[0]])
  {
  }

  lemma CreatedKeys(data: Data, c: Client)
    ensures PublicKeys(Created(data, c).clients) == PublicKeys(data.clients) + {c.pk}
  {
    var cs, cs' := data.clients, data.clients + [c];
    assert cs'[|cs|] == c;
    forall pk | pk in PublicKeys(cs)
      ensures pk in PublicKeys(cs')
    {
      var i :| 0 <= i < |cs| && cs[i].pk == pk;
      assert cs'[i] == cs[i];
    }
  }

  lemma DeletedKeys(data: Data, i: nat)
    requires i < |data.clients|
    ensures PublicKeys(Deleted(data, i).clients) <= PublicKeys(data.clients)
  {
    var cs, cs' := data.clients, Without(data.clients, i);
    forall pk | pk in PublicKeys(cs')
      ensures pk in PublicKeys(cs)
    {
      var j :| 0 <= j < |cs'| && cs'[j].pk == pk;
      assert cs'[j] == cs[if j < i then j else j + 1];
    }
  }

  lemma RegroupedKeys(cs: seq<Client>, ids: set<ClientId>, group: string)
    ensures PublicKeys(Regrouped(cs, ids, group)) == PublicKeys(cs)
  {
    assert forall i :: 0 <= i < |cs| ==> Regrouped(cs, ids, group)[i].pk == cs[i].pk;
  }

  lemma UpdatedKeys(d: Defaults, before: Data, after: Data, c: Client, t: Target, replacement: Option<NewKey>, guard: Guard,
                    r: Reply<Client>)
    requires UpdatesClient(d, before, after, c, t, replacement, guard, r)
    ensures PublicKeys(after.clients) == PublicKeys(before.clients)
  {
    hide KeysExact, EntriesMoved, EntriesOf, ProfileOf, SweptKeys, NextKeyId;
    var i: nat :| UpdateOutcome(d, before, after, i, t, replacement, guard, r) && before.clients[i] == c;
    var next := NextClient(d, c, t, replacement);
    ReplacedKeys(before.clients, i, next);
  }

  lemma ReplacedKeys(cs: seq<Client>, i: nat, c: Client)
    requires i < |cs| && c.pk == cs[i].pk
    ensures PublicKeys(cs[i := c]) == PublicKeys(cs)
  {
    assert forall j :: 0 <= j < |cs| ==> cs[i := c][j].pk == cs[j].pk;
  }

  lemma PlannedKeys(config: Addresses.Config, d: Defaults, before: Data, after: Data, clients: map<ClientId, Client>,
                    usedIPs: set<int>, q: Request, drawn: Option<(PublicKey, Psk)>, r: Reply<Client>)
    requires match PlannedClient(config, d, before.headerKeys, clients, usedIPs, q, drawn)
             case Err(_) => after == before
             case Ok(c) => Settled(before, after, Created(before, c), r)
    ensures PublicKeys(after.clients) <= WithDrawn(PublicKeys(before.clients), Create(q, drawn))
  {
    hide PlannedClient, Created, PublicKeys;
    var planned := PlannedClient(config, d, before.headerKeys, clients, usedIPs, q, drawn);
    if planned.Ok? {
      PlannedParts(config, d, before.headerKeys, clients, usedIPs, q, drawn);
      CreatedKeys(before, planned.value);
    }
  }

  lemma RequestedKeys(d: Defaults, before: Data, after: Data, c: Client, u: Update, guard: Guard, degraded: bool,
                      r: Reply<Client>)
    requires UpdateRequested(d, before, after, c, u, guard, degraded, r)
    ensures PublicKeys(after.clients) == PublicKeys(before.clients)
  {
    hide UpdatesClient, UpdateFailure, PublicKeys, ResolvedUpdate;
    var t := ResolvedUpdate(c, u);
    if t.Ok? {
      UpdatedKeys(d, before, after, c, t.value, None, guard, r);
    }
  }

  lemma RegeneratedKeys(d: Defaults, before: Data, after: Data, c: Client, guard: Guard, r: Reply<Client>)
    requires RegeneratesClient(d, before, after, c, guard, r)
    ensures PublicKeys(after.clients) == PublicKeys(before.clients)
  {
    hide UpdatesClient, Tiered, PaddingDrawn, KeyForVersion, LegacyKey, PublicKeys, Regenerated;
    var g: Generated, replacement: Option<NewKey> :|
      && FitsVersion(c.version, g)
      && KeyForVersion(c.version, before.headerKeys, replacement)
      && UpdatesClient(d, before, after, c, RegeneratedTarget(c, g), replacement, guard, r)
      && (r.Success? ==> RegeneratedAsAsked(before.headerKeys, c, g, r.value))
      && (c.version == V2 ==> LegacyKey(d, Regenerated(c, g)) != LegacyKey(d, c.params));
    UpdatedKeys(d, before, after, c, RegeneratedTarget(c, g), replacement, guard, r);
  }

  lemma NotStored(clients: map<ClientId, Client>, usedIPs: set<int>, cs: seq<Client>, id: ClientId)
    requires Indexed(clients, usedIPs, cs) && forall i :: 0 <= i < |cs| ==> cs[i].id != id
    ensures id !in clients
  {
    StoredIffIndexed(clients, usedIPs, cs, id);
  }

  /** One request; reported says that the reply told of a failed rollback. */
  method Step(m: Manager, c: Command) returns (reported: bool)
    requires m.Valid() && FreshDraws(PublicKeys(m.data.clients), [c])
    modifies m, m.pool, m.pool.host, m.storage, m.table
    ensures m.Valid() && m.degraded == (old(m.degraded) || reported)
    ensures HostBlamed(old(m.pool.host.failures), m.pool.host.failures, old(m.degraded), m.degraded)
    ensures PublicKeys(m.data.clients) <= WithDrawn(old(PublicKeys(m.data.clients)), c)
  {
    hide *;
    match c {
      case Create(_, _) => reported := StepCreate(m, c);
      case Delete(_) => reported := StepDelete(m, c);
      case Regroup(_, _) => reported := StepRegroup(m, c);
      case _ => reported := StepChange(m, c);
    }
  }

  method StepCreate(m: Manager, c: Command) returns (reported: bool)
    requires m.Valid() && c.Create? && FreshDraws(PublicKeys(m.data.clients), [c])
    modifies m, m.pool, m.pool.host, m.storage, m.table
    ensures m.Valid() && m.degraded == (old(m.degraded) || reported)
    ensures HostBlamed(old(m.pool.host.failures), m.pool.host.failures, old(m.degraded), m.degraded)
    ensures PublicKeys(m.data.clients) <= WithDrawn(old(PublicKeys(m.data.clients)), c)
  {
    hide PublicKeys, Committed, Indexed, Agrees, Fenced, EntriesOf, EntryOf, Pool.ViewOf, Pool.Invariant, Without, Deleted,
         Regrouped, GroupRefusal, KeysExact, Firewall.Chain, LanPeers, UpdateRequested, RegeneratesClient, RegenerationFailure,
         PlannedClient, Created, FreshDraws;
    DrawIsFresh(m.data, c);
    var r := m.CreateClient(c.request, c.drawn);
    PlannedKeys(m.config, m.defaults, old(m.data), m.data, old(m.clients), old(m.usedIPs), c.request, c.drawn, r);
    return r.Failure? && r.rollbackFailed;
  }

  method StepDelete(m: Manager, c: Command) returns (reported: bool)
    requires m.Valid() && c.Delete?
    modifies m, m.pool, m.pool.host, m.storage, m.table
    ensures m.Valid() && m.degraded == (old(m.degraded) || reported)
    ensures HostBlamed(old(m.pool.host.failures), m.pool.host.failures, old(m.degraded), m.degraded)
    ensures PublicKeys(m.data.clients) <= WithDrawn(old(PublicKeys(m.data.clients)), c)
  {
    hide PublicKeys, Committed, Indexed, Agrees, Fenced, EntriesOf, EntryOf, Pool.ViewOf, Pool.Invariant, Without, Deleted,
         Regrouped, GroupRefusal, KeysExact, Firewall.Chain, LanPeers, UpdateRequested, RegeneratesClient, RegenerationFailure,
         PlannedClient, Created, FreshDraws;
    if i: nat :| i < |m.data.clients| && m.data.clients[i].id == c.id {
      DeletedKeys(m.data, i);
    } else {
      NotStored(m.clients, m.usedIPs, m.data.clients, c.id);
    }
    var r := m.DeleteClient(c.id);
    return r.Failure? && r.rollbackFailed;
  }

  method StepRegroup(m: Manager, c: Command) returns (reported: bool)
    requires m.Valid() && c.Regroup?
    modifies m, m.pool, m.pool.host, m.storage, m.table
    ensures m.Valid() && m.degraded == (old(m.degraded) || reported)
    ensures HostBlamed(old(m.pool.host.failures), m.pool.host.failures, old(m.degraded), m.degraded)
    ensures PublicKeys(m.data.clients) <= WithDrawn(old(PublicKeys(m.data.clients)), c)
  {
    hide PublicKeys, Committed, Indexed, Agrees, Fenced, EntriesOf, EntryOf, Pool.ViewOf, Pool.Invariant, Without, Deleted,
         Regrouped, GroupRefusal, KeysExact, Firewall.Chain, LanPeers, UpdateRequested, RegeneratesClient, RegenerationFailure,
         PlannedClient, Created, FreshDraws;
    RegroupedKeys(m.data.clients, IdSet(c.ids), c.group);
    var r := m.UpdateLANGroup(c.ids, c.group);
    return r.Failure? && r.rollbackFailed;
  }

  method StepChange(m: Manager, c: Command) returns (reported: bool)
    requires m.Valid() && (c.Change? || c.Regenerate? || c.SetKey?)
    modifies m, m.pool, m.pool.host, m.storage, m.table
    ensures m.Valid() && m.degraded == (old(m.degraded) || reported)
    ensures HostBlamed(old(m.pool.host.failures), m.pool.host.failures, old(m.degraded), m.degraded)
    ensures PublicKeys(m.data.clients) <= WithDrawn(old(PublicKeys(m.data.clients)), c)
  {
    hide PublicKeys, Committed, Indexed, Agrees, Fenced, EntriesOf, EntryOf, Pool.ViewOf, Pool.Invariant, Without, Deleted,
         Regrouped, GroupRefusal, KeysExact, Firewall.Chain, LanPeers, UpdateRequested, RegeneratesClient, RegenerationFailure,
         PlannedClient, Created, FreshDraws;
    match c {
      case SetKey(key) =>
        var r := m.SetServerPrivateKey(key);
        return r.Failure? && r.rollbackFailed;
      case Change(id, update, guard) =>
        var r := m.UpdateClient(id, update, guard);
        if id in old(m.clients) {
          RequestedKeys(m.defaults, old(m.data), m.data, old(m.clients)[id], update, guard, m.degraded, r);
        }
        return r.Failure? && r.rollbackFailed;
      case Regenerate(id, guard) =>
        var r := m.RegenerateAWGParams(id, guard);
        if id in old(m.clients) && r.Success? {
          RegeneratedKeys(m.defaults, old(m.data), m.data, old(m.clients)[id], guard, r);
        }
        return r.Failure? && r.rollbackFailed;
    }
  }

  /**
   Every run keeps the manager valid: memory, disk, index and firewall agree throughout, and while no reply reports a
   failed rollback the pool serves exactly the committed clients.
   */
  method Run(m: Manager, commands: seq<Command>) returns (reports: seq<bool>)
    requires m.Valid() && FreshDraws(PublicKeys(m.data.clients), commands)
    modifies m, m.pool, m.pool.host, m.storage, m.table
    ensures m.Valid() && |reports| == |commands|
    ensures m.degraded == (old(m.degraded) || true in reports)
    ensures !old(m.degraded) && true !in reports ==> Agrees(m.pool.Contents(), m.Entries())
    ensures HostBlamed(old(m.pool.host.failures), m.pool.host.failures, old(m.degraded), m.degraded)
  {
    hide PublicKeys, FreshDraws, WithDrawn, Committed, Indexed, Agrees, Fenced, EntriesOf, EntryOf, Pool.ViewOf, Pool.Invariant;
    reports := [];
    assert commands[0..] == commands;
    var i := 0;
    while i < |commands|
      invariant 0 <= i <= |commands| && |reports| == i && m.Valid()
      invariant FreshDraws(PublicKeys(m.data.clients), commands[i..])
      invariant m.degraded == (old(m.degraded) || true in reports)
      invariant HostBlamed(old(m.pool.host.failures), m.pool.host.failures, old(m.degraded), m.degraded)
    {
      FirstFresh(PublicKeys(m.data.clients), commands[i..]);
      ghost var keys := PublicKeys(m.data.clients);
      var reported := Step(m, commands[i]);
      FreshNext(keys, PublicKeys(m.data.clients), commands[i..]);
      assert commands[i..][1..] == commands[i + 1..];
      reports := reports + [reported];
      i := i + 1;
    }
  }

  lemma NormalKeys(config: Addresses.Config, d: Defaults, keys: KeyStore, cs: seq<Client>, ns: seq<Client>)
    requires Startup.AllNormal(config, d, keys, cs, ns)
    ensures PublicKeys(ns) == PublicKeys(cs)
  {
    hide Startup.NormalClient, ClientSound;
    forall i | 0 <= i < |cs|
      ensures ns[i].pk == cs[i].pk
    {
      Startup.NormalIsSound(config, d, keys, cs[i]);
    }
  }

  /**
   From a restart on: whatever the store holds, whatever is requested and whatever fails, a manager that started is valid;
   and as long as no host call fails the pool serves exactly the committed clients.
   */
  method Serve(pool: Pool.Pool, storage: Storage, table: Firewall.Table, config: Addresses.Config, defaults: Defaults,
               commands: seq<Command>) returns (r: Option<Manager>, reports: seq<bool>)
    requires pool.Valid() && pool.Contents() == EMPTY_VIEW && pool.limits.listenPort >= MIN_PORT
    requires table.network == config.network && Addresses.NoWrap(config)
    requires FreshDraws(PublicKeys(storage.disk.clients), commands)
    modifies pool, pool.host, storage, table
    ensures r.Some? ==> r.value.pool == pool && r.value.Valid() && |reports| == |commands|
    ensures r.Some? && true !in reports ==> Agrees(pool.Contents(), r.value.Entries())
    ensures r.Some? && pool.host.failures == old(pool.host.failures) ==> Agrees(pool.Contents(), r.value.Entries())
  {
    hide PublicKeys, FreshDraws, Committed, Indexed, Agrees, Fenced, EntriesOf, EntryOf, Pool.ViewOf, Pool.Invariant,
         Startup.AllNormal, Startup.Restorable, Addresses.NoWrap;
    r := Startup.Start(pool, storage, table, config, defaults);
    reports := [];
    if r.Some? {
      NormalKeys(config, r.value.defaults, old(storage.disk).headerKeys, old(storage.disk).clients, r.value.data.clients);
      reports := Run(r.value, commands);
    }
  }
}
