/** Starting from the persisted store: normalizing it, planning the interfaces, and restoring every client. */
module Startup {
  import opened Wrappers
  import opened PoolView
  import opened Params
  import opened Addresses
  import opened RestorePlan
  import opened Agreement
  import opened Clients
  import opened Transactions
  import opened Pool
  import opened Firewall
  import opened Manager
  import Routing
  import ProfileIdentity

  /** The store in normal form, and whether that differs from what was read. */
  datatype Plan = Plan(data: Data, defaults: Defaults, changed: bool)

  /**
   The stored default key, the configured 2.0 parameters and default version, and the configured 3.1 parameters with the
   stored generated headers and padding in place of their own.
   */
  ghost predicate InForce(configured: Defaults, data: Data, d: Defaults) {
    && d.keyId == data.defaultKey && d.legacy == configured.legacy && d.version == configured.version
    && (data.generated.Some? ==>
          && d.awg31.headers == data.generated.value.headers
          && d.awg31.padding == data.generated.value.padding
          && d.awg31.port == configured.awg31.port && d.awg31.clientListenPort == configured.awg31.clientListenPort
          && d.awg31.mtu == configured.awg31.mtu && d.awg31.keepalive == configured.awg31.keepalive
          && d.awg31.junk == configured.awg31.junk && d.awg31.packets == configured.awg31.packets
          && d.awg31.ranges == configured.awg31.ranges && d.awg31.toggles == configured.awg31.toggles)
  }

  function Resolved(defaults: Defaults, data: Data): (d: Defaults)
    ensures InForce(defaults, data, d)
  {
    var awg31 := if data.generated.Some? then ApplyGenerated(Some(defaults.awg31), data.generated.value) else defaults.awg31;
    defaults.(keyId := data.defaultKey, awg31 := awg31)
  }

  /** What the configuration has to get right; the 3.1 headers and padding need not be configured at all. */
  predicate Configured(defaults: Defaults) {
    && ValidProfile(V2, defaults.legacy)
    && ValidOverrides(V31, defaults.awg31) && ValidJunk(defaults.awg31.junk)
  }

  /** With stored values that fit 3.1 the defaults in force are valid, so they are never the reason to refuse a store. */
  lemma DefaultsAccepted(defaults: Defaults, data: Data)
    requires Configured(defaults) && data.generated.Some? && FitsVersion(V31, data.generated.value)
    ensures ValidProfile(V2, Resolved(defaults, data).legacy) && ValidProfile(V31, Resolved(defaults, data).awg31)
  {
    hide ValidOverrides, ValidHeaders, Tiered;
    var g := data.generated.value;
    OverlayValid(V31, Some(defaults.awg31), g);
    TieredHeadersValid(g.headers);
  }

  /** With such defaults a store is restored exactly when its keys, its clients and their ports are in order. */
  lemma RestorableIff(config: Config, limits: Limits, defaults: Defaults, data: Data)
    requires Configured(defaults) && data.generated.Some? && FitsVersion(V31, data.generated.value)
    ensures var d := Resolved(defaults, data);
            Restorable(config, limits, d, data) <==>
            && data.defaultKey in data.headerKeys && KeysUsable(data.headerKeys)
            && Distinct(data.clients)
            && (forall i :: 0 <= i < |data.clients| ==> NormalClient(config, d, data.headerKeys, data.clients[i]).Some?)
            && ValidPort(limits.listenPort)
            && exists ns :: AllNormal(config, d, data.headerKeys, data.clients, ns)
                            && Replay(limits, EntriesOf(d, data.headerKeys, ns)).Some?
  {
    hide Resolved, Configured, FitsVersion, ValidProfile, KeysUsable, Distinct, NormalClient, AllNormal, Replay, EntriesOf, EntryOf;
    DefaultsAccepted(defaults, data);
  }

  /** One stored client in normal form; None when it cannot be restored. */
  function NormalClient(config: Config, d: Defaults, keys: KeyStore, c: Client): (r: Option<Client>) {
    if !ValidClientId(c.id) || !Acceptable(config, c.address) then None
    else
      var params, routing := Params.Normalized(c.version, c.params), Routing.Normalized(c.routing);
      if params.Err? || routing.Err? || (c.version == V2 && c.keyId != NO_KEY) then None
      else
        var n := c.(group := if c.group == "" then DefaultGroup(c.id) else c.group,
                    params := params.value, routing := routing.value);
        if ProfileOf(d, keys, n).Err? then None else Some(n)
  }

  lemma NormalIsSound(config: Config, d: Defaults, keys: KeyStore, c: Client)
    requires NormalClient(config, d, keys, c).Some?
    ensures var n := NormalClient(config, d, keys, c).value;
            && ClientSound(config, d, keys, n) && n.id == c.id && n.address == c.address && n.pk == c.pk && n.psk == c.psk
            && n.version == c.version && n.keyId == c.keyId
            && n.group == (if c.group != "" then c.group else "peer:" + c.id.text)
            && StoredParams(c.params, n.params)
            && Routing.Normalized(c.routing) == Ok(n.routing)
  {
    hide Params.Normalized, Routing.Normalized, ProfileOf, Settable, ProfileIdentity.ValidHeaderKey, Acceptable, DefaultGroup,
         StoredForm;
    var n := NormalClient(config, d, keys, c).value;
    DefaultGroupsDiffer(c.id, c.id);
    NormalizedStores(c.version, c.params, n.params);
    ParamsNormalStays(c.version, c.params, n.params);
    Routing.NormalizeIdempotent(c.routing, n.routing);
    ProfileParts(d, keys, n);
  }

  /** A stored client can be restored exactly when each of its parts is in order. */
  lemma NormalClientIff(config: Config, d: Defaults, keys: KeyStore, c: Client)
    ensures NormalClient(config, d, keys, c).Some? <==>
            && 1 <= |c.id.text| <= 256 && Acceptable(config, c.address)
            && Settable(d, c.version, c.params)
            && (c.routing.None? || Routing.PolicyAcceptable(c.routing.value))
            && RefersSafely(keys, c)
  {
    hide Params.Normalized, Routing.Normalized, Routing.PolicyAcceptable, Settable, ProfileIdentity.ValidHeaderKey, Acceptable,
         ProfileIdentity.Preimage, Canonicalized, EffectiveFor;
    SettableAsGiven(d, c.version, c.params);
    Routing.NormalizeAccepts(c.routing);
  }

  /** A committed client is in normal form already. */
  lemma SoundIsNormal(config: Config, d: Defaults, keys: KeyStore, c: Client)
    requires ClientSound(config, d, keys, c)
    ensures NormalClient(config, d, keys, c) == Some(c)
  {
    hide Params.Normalized, Routing.Normalized, ProfileOf, Settable, ProfileIdentity.ValidHeaderKey, Acceptable;
    SoundProfile(config, d, keys, c);
  }

  ghost predicate AllNormal(config: Config, d: Defaults, keys: KeyStore, cs: seq<Client>, ns: seq<Client>) {
    |ns| == |cs| && forall i :: 0 <= i < |cs| ==> NormalClient(config, d, keys, cs[i]) == Some(ns[i])
  }

  /** What a restart demands of the store, apart from the ports. */
  ghost predicate Readable(config: Config, d: Defaults, data: Data) {
    && data.defaultKey in data.headerKeys && KeysUsable(data.headerKeys) && data.generated.Some?
    && ValidProfile(V2, d.legacy) && ValidProfile(V31, d.awg31)
    && Distinct(data.clients)
    && forall i :: 0 <= i < |data.clients| ==> NormalClient(config, d, data.headerKeys, data.clients[i]).Some?
  }

  lemma NormalCommitted(config: Config, d: Defaults, data: Data, ns: seq<Client>)
    requires data.defaultKey in data.headerKeys && KeysUsable(data.headerKeys) && d.keyId == data.defaultKey
    requires Distinct(data.clients) && AllNormal(config, d, data.headerKeys, data.clients, ns)
    ensures Committed(config, d, data.(clients := ns))
  {
    hide NormalClient, ClientSound, KeysUsable;
    forall i | 0 <= i < |ns|
      ensures ClientSound(config, d, data.headerKeys, ns[i])
      ensures ns[i].id == data.clients[i].id && ns[i].address == data.clients[i].address && ns[i].pk == data.clients[i].pk
    {
      NormalIsSound(config, d, data.headerKeys, data.clients[i]);
    }
  }

  /** The sets hold exactly the identifiers, addresses and keys of the clients read so far. */
  ghost predicate SeenAre(cs: seq<Client>, ids: set<ClientId>, addresses: set<int>, keys: set<PublicKey>) {
    && (forall id :: id in ids <==> HasId(cs, id))
    && (forall a :: a in addresses <==> HasAddress(cs, a))
    && (forall pk :: pk in keys <==> HasPublicKey(cs, pk))
  }

  ghost predicate HasPublicKey(cs: seq<Client>, pk: PublicKey) {
    exists i :: 0 <= i < |cs| && cs[i].pk == pk
  }

  ghost predicate Repeated(cs: seq<Client>, c: Client) {
    HasId(cs, c.id) || HasAddress(cs, c.address) || HasPublicKey(cs, c.pk)
  }

  lemma HasNext(cs: seq<Client>, c: Client, id: ClientId, a: int, pk: PublicKey)
    ensures HasId(cs + [c], id) <==> HasId(cs, id) || id == c.id
    ensures HasAddress(cs + [c], a) <==> HasAddress(cs, a) || a == c.address
    ensures HasPublicKey(cs + [c], pk) <==> HasPublicKey(cs, pk) || pk == c.pk
  {
    var after := cs + [c];
    assert after[|cs|] == c;
    assert forall i :: 0 <= i < |cs| ==> after[i] == cs[i];
  }

  lemma RepeatsOne(cs: seq<Client>, n: nat)
    requires n < |cs| && Repeated(cs[..n], cs[n])
    ensures !Distinct(cs)
  {
    var i :| 0 <= i < n && (cs[..n][i].id == cs[n].id || cs[..n][i].address == cs[n].address || cs[..n][i].pk == cs[n].pk);
    assert cs[..n][i] == cs[i];
  }

  lemma RepeatsNone(cs: seq<Client>, c: Client)
    requires Distinct(cs) && !Repeated(cs, c)
    ensures Distinct(cs + [c])
  {
  }

  lemma SeenGrows(cs: seq<Client>, c: Client, ids: set<ClientId>, addresses: set<int>, keys: set<PublicKey>)
    requires SeenAre(cs, ids, addresses, keys)
    ensures SeenAre(cs + [c], ids + {c.id}, addresses + {c.address}, keys + {c.pk})
  {
    hide HasId, HasAddress, HasPublicKey;
    forall id
      ensures HasId(cs + [c], id) <==> HasId(cs, id) || id == c.id
    {
      HasNext(cs, c, id, 0, 0);
    }
    forall a
      ensures HasAddress(cs + [c], a) <==> HasAddress(cs, a) || a == c.address
    {
      HasNext(cs, c, c.id, a, 0);
    }
    forall pk
      ensures HasPublicKey(cs + [c], pk) <==> HasPublicKey(cs, pk) || pk == c.pk
    {
      HasNext(cs, c, c.id, 0, pk);
    }
  }

  lemma SeenNext(cs: seq<Client>, n: nat, ids: set<ClientId>, addresses: set<int>, keys: set<PublicKey>)
    requires n < |cs| && SeenAre(cs[..n], ids, addresses, keys) && Distinct(cs[..n])
    ensures cs[n].id in ids || cs[n].address in addresses || cs[n].pk in keys ==> !Distinct(cs)
    ensures !(cs[n].id in ids || cs[n].address in addresses || cs[n].pk in keys) ==> Distinct(cs[..n + 1])
    ensures SeenAre(cs[..n + 1], ids + {cs[n].id}, addresses + {cs[n].address}, keys + {cs[n].pk})
  {
    hide HasId, HasAddress, HasPublicKey, Distinct;
    assert cs[..n + 1] == cs[..n] + [cs[n]];
    if Repeated(cs[..n], cs[n]) {
      RepeatsOne(cs, n);
    } else {
      RepeatsNone(cs[..n], cs[n]);
    }
    SeenGrows(cs[..n], cs[n], ids, addresses, keys);
  }

  /** Reads every stored client; None as soon as one cannot be restored or repeats an identifier, address or key. */
  method NormalizeClients(config: Config, d: Defaults, data: Data) returns (r: Option<seq<Client>>)
    ensures r.Some? <==> Distinct(data.clients)
                         && forall i :: 0 <= i < |data.clients| ==> NormalClient(config, d, data.headerKeys, data.clients[i]).Some?
    ensures r.Some? ==> AllNormal(config, d, data.headerKeys, data.clients, r.value)
  {
    hide NormalClient, SeenAre, Distinct;
    var ids: set<ClientId>, addresses: set<int>, keys: set<PublicKey> := {}, {}, {};
    var ns: seq<Client> := [];
    var cs := data.clients;
    NothingSeen(cs);
    var i := 0;
    while i < |cs|
      invariant 0 <= i <= |cs| && |ns| == i
      invariant SeenAre(cs[..i], ids, addresses, keys) && Distinct(cs[..i])
      invariant forall j :: 0 <= j < i ==> NormalClient(config, d, data.headerKeys, cs[j]) == Some(ns[j])
    {
      var c := cs[i];
      SeenNext(cs, i, ids, addresses, keys);
      if c.id in ids || c.address in addresses || c.pk in keys {
        return None;
      }
      var n := NormalClient(config, d, data.headerKeys, c);
      if n.None? {
        return None;
      }
      ids, addresses, keys := ids + {c.id}, addresses + {c.address}, keys + {c.pk};
      ns := ns + [n.value];
      i := i + 1;
    }
    assert cs[..i] == cs;
    return Some(ns);
  }

  lemma NothingSeen(cs: seq<Client>)
    ensures SeenAre(cs[..0], {}, {}, {}) && Distinct(cs[..0])
  {
  }

  /** What a restart accepts: a readable store whose interfaces can all be opened. */
  ghost predicate Restorable(config: Config, limits: Limits, d: Defaults, data: Data) {
    && Readable(config, d, data)
    && ValidPort(limits.listenPort)
    && exists ns :: AllNormal(config, d, data.headerKeys, data.clients, ns)
                    && Replay(limits, EntriesOf(d, data.headerKeys, ns)).Some?
  }

  method PrepareRestorePlan(config: Config, limits: Limits, defaults: Defaults, data: Data) returns (r: Option<Plan>)
    ensures r.Some? <==> Restorable(config, limits, Resolved(defaults, data), data)
    ensures r.Some? ==>
              var plan := r.value;
              && plan.defaults == Resolved(defaults, data) && InForce(defaults, data, plan.defaults)
              && Committed(config, plan.defaults, plan.data)
              && AllNormal(config, plan.defaults, data.headerKeys, data.clients, plan.data.clients)
              && plan.data == data.(clients := plan.data.clients)
              && (plan.changed <==> plan.data != data)
              && Replay(limits, EntriesOf(plan.defaults, plan.data.headerKeys, plan.data.clients)).Some?
  {
    hide NormalClient, Distinct, ValidProfile, KeysUsable, EntriesOf, EntryOf, Replay, Committed, AllNormal, Resolved;
    var d := Resolved(defaults, data);
    if data.generated.None? || data.defaultKey !in data.headerKeys || !KeysUsable(data.headerKeys) {
      return None;
    }
    if !ValidProfile(V2, d.legacy) || !ValidProfile(V31, d.awg31) {
      return None;
    }
    var clients := NormalizeClients(config, d, data);
    if clients.None? {
      return None;
    }
    var ns := clients.value;
    NormalUnique(config, d, data.headerKeys, data.clients, ns);
    var ports := ValidateRestoreInterfaces(limits, EntriesOf(d, data.headerKeys, ns));
    if ports.Err? {
      return None;
    }
    NormalCommitted(config, d, data, ns);
    return Some(Plan(data.(clients := ns), d, ns != data.clients));
  }

  lemma NormalUnique(config: Config, d: Defaults, keys: KeyStore, cs: seq<Client>, ns: seq<Client>)
    requires AllNormal(config, d, keys, cs, ns)
    ensures forall ms :: AllNormal(config, d, keys, cs, ms) ==> ms == ns
  {
    hide NormalClient;
    forall ms | AllNormal(config, d, keys, cs, ms)
      ensures ms == ns
    {
      assert forall i :: 0 <= i < |cs| ==> Some(ms[i]) == Some(ns[i]);
    }
  }

  /** A committed store needs no normalization, so after a restart only the ports can be in the way. */
  lemma CommittedReadable(config: Config, d: Defaults, data: Data)
    requires Committed(config, d, data) && data.generated.Some? && ValidProfile(V2, d.legacy) && ValidProfile(V31, d.awg31)
    ensures Readable(config, d, data) && AllNormal(config, d, data.headerKeys, data.clients, data.clients)
  {
    hide NormalClient, ClientSound, ValidProfile, KeysUsable, Distinct;
    forall i | 0 <= i < |data.clients|
      ensures NormalClient(config, d, data.headerKeys, data.clients[i]) == Some(data.clients[i])
    {
      assert ClientSound(config, d, data.headerKeys, data.clients[i]);
      SoundIsNormal(config, d, data.headerKeys, data.clients[i]);
    }
  }

  method BuildIndex(cs: seq<Client>) returns (clients: map<ClientId, Client>, usedIPs: set<int>)
    requires Distinct(cs)
    ensures Indexed(clients, usedIPs, cs)
  {
    hide Indexed;
    clients, usedIPs := map[], {};
    var i := 0;
    NothingIndexed(cs);
    while i < |cs|
      invariant 0 <= i <= |cs| && Indexed(clients, usedIPs, cs[..i])
    {
      assert cs[..i + 1] == cs[..i] + [cs[i]];
      AppendIndexed(clients, usedIPs, cs[..i], cs[i]);
      clients := clients[cs[i].id := cs[i]];
      usedIPs := usedIPs + {cs[i].address};
      i := i + 1;
    }
    assert cs[..i] == cs;
  }

  lemma NothingIndexed(cs: seq<Client>)
    ensures Indexed(map[], {}, cs[..0])
  {
  }

  /** The manager starts in a valid state with every stored client served, or does not start. */
  method NewManagerFromRestorePlan(pool: Pool, storage: Storage, table: Table, config: Config, plan: Plan)
      returns (r: Option<Manager>)
    requires pool.Valid() && pool.Contents() == EMPTY_VIEW && pool.limits.listenPort >= MIN_PORT
    requires table.network == config.network && NoWrap(config)
    requires Committed(config, plan.defaults, plan.data) && (!plan.changed ==> storage.disk == plan.data)
    modifies pool, pool.host, storage, table
    ensures r.Some? ==>
              && fresh(r.value) && r.value.Valid() && !r.value.degraded
              && r.value.data == plan.data && r.value.pool == pool && r.value.storage == storage && r.value.table == table
              && table.chain == Chain(LanPeers(plan.data.clients))
              && r.value.config == config && r.value.defaults == plan.defaults
    ensures pool.host.failures >= old(pool.host.failures)
    ensures (&& Replay(pool.limits, EntriesOf(plan.defaults, plan.data.headerKeys, plan.data.clients)).Some?
             && pool.host.failures == old(pool.host.failures) && storage.failures == old(storage.failures)
             && table.failures == old(table.failures)) ==> r.Some?
  {
    hide Committed, Indexed, Agrees, ViewOf, Invariant, Chain, EntriesOf, EntryOf, LanPeers, Replay, Distinct, DistinctKeys,
         Renderable, ProfileOf, PlaceDecision;
    var data := plan.data;
    var entries := EntriesOf(plan.defaults, data.headerKeys, data.clients);
    CommittedDistinct(config, plan.defaults, data);
    forall i | 0 <= i < |entries|
      ensures entries[i].profile.validated
    {
      StoredEntry(config, plan.defaults, data, i);
    }
    var restored := RestorePeers(pool, entries);
    if restored != Done {
      return None;
    }
    RestoredAgrees(pool.limits, entries, pool.Contents());
    CommittedRenders(config, plan.defaults, data);
    var fenced := table.ApplyLANIsolation(LanPeers(data.clients));
    if fenced.Err? {
      return None;
    }
    if plan.changed {
      var saved := storage.Save(data);
      if !saved {
        return None;
      }
    }
    var clients, usedIPs := BuildIndex(data.clients);
    var manager := new Manager(config, plan.defaults, pool, storage, table, data, clients, usedIPs);
    return Some(manager);
  }

  /**
   A restart: a store that cannot be restored is refused, and one that can be restored is served unless the host, the disk
   or the firewall fails.
   */
  method Start(pool: Pool, storage: Storage, table: Table, config: Config, defaults: Defaults) returns (r: Option<Manager>)
    requires pool.Valid() && pool.Contents() == EMPTY_VIEW && pool.limits.listenPort >= MIN_PORT
    requires table.network == config.network && NoWrap(config)
    modifies pool, pool.host, storage, table
    ensures r.Some? ==>
              && fresh(r.value) && r.value.Valid() && !r.value.degraded
              && r.value.pool == pool && r.value.storage == storage && r.value.table == table
              && AllNormal(config, r.value.defaults, old(storage.disk).headerKeys, old(storage.disk).clients, r.value.data.clients)
              && Restorable(config, pool.limits, Resolved(defaults, old(storage.disk)), old(storage.disk))
    ensures pool.host.failures >= old(pool.host.failures)
    ensures (&& Restorable(config, pool.limits, Resolved(defaults, old(storage.disk)), old(storage.disk))
             && pool.host.failures == old(pool.host.failures) && storage.failures == old(storage.failures)
             && table.failures == old(table.failures)) ==> r.Some?
  {
    hide Committed, Indexed, Agrees, ViewOf, Invariant, Chain, EntriesOf, EntryOf, LanPeers, Replay, Restorable, AllNormal, Fenced,
         Resolved;
    var plan := PrepareRestorePlan(config, pool.limits, defaults, storage.disk);
    if plan.None? {
      return None;
    }
    r := NewManagerFromRestorePlan(pool, storage, table, config, plan.value);
  }
}
