/** The prospective states the manager builds before it touches the pool, the disk or the firewall. */
module Transactions {
  import opened Wrappers
  import opened PoolView
  import opened Params
  import opened Addresses
  import opened RestorePlan
  import opened Agreement
  import opened ProfileIdentity
  import opened Clients
  import Routing

  datatype ManagerError =
    | InvalidClientId
    | InvalidVersion
    | InvalidParams
    | InvalidRouting(error: Routing.RoutingError)
    | ClientExists
    | ClientNotFound
    | EmptyUpdate
    | EmptyClientIds
    | EmptyGroup
    | DuplicateClientId
    | KeyGenerationFailed
    | ParamsUnchanged
    | NoAddress
    | GuardMissing
    | GuardRefused
    | PortUnknown
    | PoolRefused(reason: PoolError)
    | SaveFailed
    | BlockFailed
    | RebuildFailed
    | Inconsistent

  // ---------------------------------------------------------------------------------------------
  // Creating
  // ---------------------------------------------------------------------------------------------

  /** A version that is neither 2.0 nor 3.1 is None. */
  datatype Request = Request(
    name: ClientId,
    version: Option<Version>,
    params: Option<AWGParams>,
    routing: Option<Routing.Policy>,
    group: string)

  function DefaultGroup(id: ClientId): string {
    "peer:" + id.text
  }

  /** The client a request stands for, or why it is refused before anything is changed. */
  function PlannedClient(config: Config, d: Defaults, keys: KeyStore, clients: map<ClientId, Client>, usedIPs: set<int>,
                         q: Request, drawn: Option<(PublicKey, Psk)>): (r: Result<Client, ManagerError>)
  {
    if !ValidClientId(q.name) then Err(InvalidClientId)
    else if q.version.None? then Err(InvalidVersion)
    else if q.name in clients then Err(ClientExists)
    else
      var version := q.version.value;
      var params := Params.Normalized(version, q.params);
      if params.Err? then Err(InvalidParams)
      else
        var routing := Routing.Normalized(q.routing);
        if routing.Err? then Err(InvalidRouting(routing.error))
        else
          var keyId := if version == V31 then d.keyId else NO_KEY;
          if ProfileFor(d, keys, version, params.value, keyId).Err? then Err(InvalidParams)
          else if drawn.None? then Err(KeyGenerationFailed)
          else
            var address := Allocated(config, usedIPs);
            if address.None? then Err(NoAddress)
            else Ok(Client(q.name, version, drawn.value.0, Some(drawn.value.1), address.value,
                           if q.group == "" then DefaultGroup(q.name) else q.group,
                           params.value, routing.value, keyId))
  }

  /** Failures that can only come after the first change. */
  predicate LateFailure(e: ManagerError) {
    e.PoolRefused? || e == SaveFailed || e == RebuildFailed
  }

  /** The errors of a transaction once its plan is accepted. */
  predicate ExecutionFailure(e: ManagerError) {
    e == BlockFailed || LateFailure(e)
  }

  lemma RefusedEarly(config: Config, d: Defaults, keys: KeyStore, clients: map<ClientId, Client>, usedIPs: set<int>,
                     q: Request, drawn: Option<(PublicKey, Psk)>)
    ensures var r := PlannedClient(config, d, keys, clients, usedIPs, q, drawn); r.Err? ==> !ExecutionFailure(r.error)
  {
    hide Params.Normalized, Routing.Normalized, ProfileFor, Allocated;
  }

  /** The group of a client that names none: its own. */
  lemma DefaultGroupsDiffer(a: ClientId, b: ClientId)
    ensures DefaultGroup(a) == "peer:" + a.text
    ensures a != b ==> DefaultGroup(a) != DefaultGroup(b)
  {
    assert DefaultGroup(a)[5..] == a.text && DefaultGroup(b)[5..] == b.text;
  }

  /** What is stored for given parameters: nothing for nothing, and otherwise every field, ranges written canonically. */
  ghost predicate StoredParams(given: Option<AWGParams>, stored: Option<AWGParams>) {
    if given.None? then stored.None? else StoredForm(given.value, stored)
  }

  lemma NormalizedStores(version: Version, given: Option<AWGParams>, stored: Option<AWGParams>)
    requires Params.Normalized(version, given) == Ok(stored)
    ensures StoredParams(given, stored)
  {
    hide StoredForm, ValidOverrides;
    if given.Some? {
      NormalizedKeeps(version, given.value);
    }
  }

  /** The given parameters are usable exactly when their stored form is. */
  lemma SettableAsGiven(d: Defaults, version: Version, given: Option<AWGParams>)
    ensures Params.Normalized(version, given).Ok? && Settable(d, version, Params.Normalized(version, given).value) <==>
            Settable(d, version, given)
  {
    hide Params.Normalized, ValidOverrides, ValidProfile, StoredForm, Effective;
    NormalizedAccepts(version, given);
    if Params.Normalized(version, given).Ok? {
      var n := Params.Normalized(version, given).value;
      ParamsNormalStays(version, given, n);
      if given.Some? {
        NormalizedKeeps(version, given.value);
        StoredFormValid(version, if version == V2 then d.legacy else d.awg31, given.value, n);
      } else {
        NoneStoresNone(version);
      }
    }
  }

  lemma NoneStoresNone(version: Version)
    ensures Params.Normalized(version, None) == Ok(None)
  {
    hide ValidOverrides, NO_PARAMS;
  }

  function Created(data: Data, c: Client): (r: Data) {
    Swept(data.(clients := data.clients + [c]))
  }

  /** Storing a normal form and normalizing it again changes nothing. */
  lemma ParamsNormalStays(version: Version, over: Option<AWGParams>, n: Option<AWGParams>)
    requires Params.Normalized(version, over) == Ok(n)
    ensures Params.Normalized(version, n) == Ok(n)
    ensures n.Some? ==> ValidOverrides(version, n.value)
  {
    hide ValidOverrides, NO_PARAMS, Canonicalized;
    if n.Some? {
      CanonicalizedValid(version, over.value);
      CanonicalizedTwice(over.value);
    }
  }

  lemma CanonicalizedTwice(p: AWGParams)
    ensures Canonicalized(Canonicalized(p)) == Canonicalized(p)
  {
    assert Canonicalized(Canonicalized(p)).ranges == Canonicalized(p).ranges;
  }

  ghost predicate FreshDraw(data: Data, drawn: Option<(PublicKey, Psk)>) {
    drawn.Some? ==> forall i :: 0 <= i < |data.clients| ==> data.clients[i].pk != drawn.value.0
  }

  /** The client holds what was asked for: name, version, group or its own one, parameters, routing, drawn keys, least free address. */
  ghost predicate CreatedAsAsked(config: Config, d: Defaults, usedIPs: set<int>, q: Request, drawn: Option<(PublicKey, Psk)>,
                                 c: Client)
  {
    && c.id == q.name && Some(c.version) == q.version
    && c.group == (if q.group != "" then q.group else "peer:" + q.name.text)
    && c.psk.Some? && drawn == Some((c.pk, c.psk.value))
    && LeastFree(config, usedIPs, FirstCandidate(config), Broadcast(config), c.address)
    && StoredParams(q.params, c.params)
    && Params.Normalized(c.version, q.params) == Ok(c.params)
    && Routing.Normalized(q.routing) == Ok(c.routing)
    && c.keyId == (if c.version == V31 then d.keyId else NO_KEY)
  }

  lemma PlannedParts(config: Config, d: Defaults, keys: KeyStore, clients: map<ClientId, Client>, usedIPs: set<int>,
                     q: Request, drawn: Option<(PublicKey, Psk)>)
    requires PlannedClient(config, d, keys, clients, usedIPs, q, drawn).Ok?
    ensures var c := PlannedClient(config, d, keys, clients, usedIPs, q, drawn).value;
            && CreatedAsAsked(config, d, usedIPs, q, drawn, c)
            && ValidClientId(c.id) && c.id !in clients && c.group != ""
            && Allocated(config, usedIPs) == Some(c.address)
            && ProfileOf(d, keys, c).Ok?
  {
    hide Params.Normalized, Routing.Normalized, ProfileFor, NextFree, DefaultGroup, StoredForm, LeastFree;
    var c := PlannedClient(config, d, keys, clients, usedIPs, q, drawn).value;
    DefaultGroupsDiffer(q.name, q.name);
    NormalizedStores(c.version, q.params, c.params);
  }

  /** Nothing else stands in the way of a request: its name, version, parameters, routing, the default key and an address. */
  lemma PlannedIff(config: Config, d: Defaults, keys: KeyStore, clients: map<ClientId, Client>, usedIPs: set<int>,
                   q: Request, drawn: Option<(PublicKey, Psk)>)
    ensures PlannedClient(config, d, keys, clients, usedIPs, q, drawn).Ok? <==>
            && 1 <= |q.name.text| <= 256 && q.name !in clients
            && q.version.Some? && Settable(d, q.version.value, q.params)
            && (q.version == Some(V31) ==> d.keyId != NO_KEY && d.keyId in keys && ValidHeaderKey(keys[d.keyId]))
            && (q.routing.None? || Routing.PolicyAcceptable(q.routing.value))
            && drawn.Some?
            && exists a :: FirstCandidate(config) <= a < Broadcast(config) && Free(config, usedIPs, a)
  {
    hide Params.Normalized, Routing.Normalized, Routing.PolicyAcceptable, Settable, ValidHeaderKey, FirstCandidate, Broadcast, Free,
         Preimage, Canonicalized, EffectiveFor;
    Routing.NormalizeAccepts(q.routing);
    if q.version.Some? {
      SettableAsGiven(d, q.version.value, q.params);
    }
    AllocatedIff(config, usedIPs);
  }

  lemma AllocatedIff(config: Config, usedIPs: set<int>)
    ensures Allocated(config, usedIPs).Some? <==>
            exists a :: FirstCandidate(config) <= a < Broadcast(config) && Free(config, usedIPs, a)
  {
    hide FirstCandidate, Broadcast, Free;
  }

  lemma ProfileParts(d: Defaults, keys: KeyStore, c: Client)
    requires ProfileOf(d, keys, c).Ok?
    ensures Settable(d, c.version, c.params)
    ensures c.version == V31 ==> c.keyId != NO_KEY && c.keyId in keys && ValidHeaderKey(keys[c.keyId])
  {
    hide Settable, ValidHeaderKey, EffectiveFor, Preimage, Canonicalized;
  }

  /** The planned client keeps the committed state's rules and collides with nobody. */
  lemma PlannedSound(config: Config, d: Defaults, data: Data, clients: map<ClientId, Client>, usedIPs: set<int>,
                     q: Request, drawn: Option<(PublicKey, Psk)>)
    requires Indexed(clients, usedIPs, data.clients) && NoWrap(config) && FreshDraw(data, drawn)
    requires PlannedClient(config, d, data.headerKeys, clients, usedIPs, q, drawn).Ok?
    ensures var c := PlannedClient(config, d, data.headerKeys, clients, usedIPs, q, drawn).value;
            ClientSound(config, d, data.headerKeys, c) && Unused(data.clients, c)
  {
    hide PlannedClient, Params.Normalized, Routing.Normalized, ProfileOf, Settable, ValidHeaderKey, Acceptable, Allocated,
         StoredParams, LeastFree;
    var c := PlannedClient(config, d, data.headerKeys, clients, usedIPs, q, drawn).value;
    PlannedParts(config, d, data.headerKeys, clients, usedIPs, q, drawn);
    ProfileParts(d, data.headerKeys, c);
    ParamsNormalStays(c.version, q.params, c.params);
    Routing.NormalizeIdempotent(q.routing, c.routing);
    AllocatedAcceptable(config, usedIPs);
    AllocatedFree(config, usedIPs);
    forall i | 0 <= i < |data.clients|
      ensures data.clients[i].id != c.id && data.clients[i].address != c.address && data.clients[i].pk != c.pk
    {
      assert HasAddress(data.clients, data.clients[i].address);
    }
  }

  lemma AllocatedFree(config: Config, usedIPs: set<int>)
    requires Allocated(config, usedIPs).Some?
    ensures Allocated(config, usedIPs).value !in usedIPs
  {
  }

  lemma CreatedCommitted(config: Config, d: Defaults, data: Data, c: Client)
    requires Committed(config, d, data) && ClientSound(config, d, data.headerKeys, c) && Unused(data.clients, c)
    ensures Committed(config, d, Created(data, c)) && KeysExact(Created(data, c))
    ensures Fresh(EntriesOf(d, data.headerKeys, data.clients), c.pk)
    ensures EntriesOf(d, Created(data, c).headerKeys, Created(data, c).clients)
            == EntriesOf(d, data.headerKeys, data.clients) + [EntryOf(d, data.headerKeys, c)]
  {
    hide ClientSound, EntriesOf, EntryOf, SweptKeys, KeysExact, Distinct, Unused, Fresh, AllSound, ValidHeaderKey;
    Appended(config, d, data.headerKeys, data.clients, c);
    SweepSafe(config, d, data.(clients := data.clients + [c]));
  }

  /** Everything but the clients and the set of header keys stays; the keys kept keep their bytes. */
  ghost predicate StoreKept(before: Data, after: Data) {
    && after.serverKey == before.serverKey && after.defaultKey == before.defaultKey && after.generated == before.generated
    && forall k :: k in after.headerKeys && k in before.headerKeys ==> after.headerKeys[k] == before.headerKeys[k]
  }

  lemma CreatedParts(data: Data, c: Client)
    ensures Created(data, c).clients == data.clients + [c] && StoreKept(data, Created(data, c))
  {
    hide Referenced;
  }

  // ---------------------------------------------------------------------------------------------
  // Updating
  // ---------------------------------------------------------------------------------------------

  /** Fields that are not set are None; a set version that is neither 2.0 nor 3.1 is Some(None). */
  datatype Update = Update(
    version: Option<Option<Version>>,
    params: Option<Option<AWGParams>>,
    routing: Option<Option<Routing.Policy>>)

  datatype Target = Target(version: Version, params: Option<AWGParams>, routing: Option<Routing.Policy>, reset: bool)

  function ResolvedUpdate(c: Client, u: Update): (r: Result<Target, ManagerError>) {
    if u.version.None? && u.params.None? && u.routing.None? then Err(EmptyUpdate)
    else
      var version := if u.version.Some? then u.version.value else Some(c.version);
      if version.None? then Err(InvalidVersion)
      else
        var params := Params.Normalized(version.value, if u.params.Some? then u.params.value else c.params);
        if params.Err? then Err(InvalidParams)
        else
          var routing := Routing.Normalized(if u.routing.Some? then u.routing.value else c.routing);
          if routing.Err? then Err(InvalidRouting(routing.error))
          else Ok(Target(version.value, params.value, routing.value, u.params == Some(None)))
  }

  datatype NewKey = NewKey(id: KeyId, key: seq<int>)

  function NextKeyId(d: Defaults, c: Client, t: Target, replacement: Option<NewKey>): KeyId {
    if replacement.Some? then replacement.value.id
    else if t.version == V2 then NO_KEY
    else if t.version != c.version || t.reset then d.keyId
    else c.keyId
  }

  function NextClient(d: Defaults, c: Client, t: Target, replacement: Option<NewKey>): Client {
    c.(version := t.version, params := t.params, routing := t.routing, keyId := NextKeyId(d, c, t, replacement))
  }

  function WithKey(keys: KeyStore, replacement: Option<NewKey>): KeyStore {
    if replacement.Some? then keys[replacement.value.id := replacement.value.key] else keys
  }

  function Updated(data: Data, i: nat, c: Client, replacement: Option<NewKey>): (r: Data)
    requires i < |data.clients|
  {
    Swept(data.(clients := data.clients[i := c], headerKeys := WithKey(data.headerKeys, replacement)))
  }

  lemma UpdatedParts(data: Data, i: nat, c: Client, replacement: Option<NewKey>)
    requires i < |data.clients| && (replacement.Some? ==> replacement.value.id !in data.headerKeys)
    ensures var n := Updated(data, i, c, replacement);
            && n.clients == data.clients[i := c] && StoreKept(data, n)
            && (replacement.Some? && replacement.value.id in n.headerKeys ==>
                  n.headerKeys[replacement.value.id] == replacement.value.key)
  {
    hide Referenced;
  }

  /** A replacement key has an unused identifier and goes to a 3.1 client. */
  ghost predicate FreshKey(keys: KeyStore, t: Target, replacement: Option<NewKey>) {
    replacement.Some? ==>
      && replacement.value.id !in keys && replacement.value.id != NO_KEY
      && ValidHeaderKey(replacement.value.key) && t.version == V31
  }

  ghost predicate TargetNormal(t: Target) {
    Params.Normalized(t.version, t.params) == Ok(t.params) && Routing.Normalized(t.routing) == Ok(t.routing)
  }

  lemma ResolvedNormal(c: Client, u: Update)
    requires ResolvedUpdate(c, u).Ok?
    ensures TargetNormal(ResolvedUpdate(c, u).value)
  {
    hide Params.Normalized, Routing.Normalized;
    var t := ResolvedUpdate(c, u).value;
    ParamsNormalStays(t.version, if u.params.Some? then u.params.value else c.params, t.params);
    Routing.NormalizeIdempotent(if u.routing.Some? then u.routing.value else c.routing, t.routing);
  }

  /**
   What an update leaves, said of the request and the old client: what is set is stored, what is not set stays, and the
   header key stays unless the version changes to 3.1 or the parameters are reset.
   */
  ghost predicate UpdatedAsAsked(d: Defaults, c: Client, u: Update, n: Client) {
    && n.id == c.id && n.pk == c.pk && n.psk == c.psk && n.address == c.address && n.group == c.group
    && Some(n.version) == (if u.version.Some? then u.version.value else Some(c.version))
    && StoredParams(if u.params.Some? then u.params.value else c.params, n.params)
    && (u.params.None? && n.version == c.version ==> n.params == c.params)
    && (if u.routing.Some? then Routing.Normalized(u.routing.value) == Ok(n.routing) else n.routing == c.routing)
    && (n.keyId == NO_KEY <==> n.version == V2)
    && (c.version == V31 && n.version == V31 && u.params != Some(None) ==> n.keyId == c.keyId)
    && (n.version == V31 && (c.version == V2 || u.params == Some(None)) ==> n.keyId == d.keyId)
  }

  lemma ResolvedAsAsked(config: Config, d: Defaults, keys: KeyStore, c: Client, u: Update)
    requires ClientSound(config, d, keys, c) && d.keyId != NO_KEY && ResolvedUpdate(c, u).Ok?
    ensures UpdatedAsAsked(d, c, u, NextClient(d, c, ResolvedUpdate(c, u).value, None))
  {
    hide Params.Normalized, Routing.Normalized, Settable, ValidHeaderKey, Acceptable, StoredForm;
    var t := ResolvedUpdate(c, u).value;
    NormalizedStores(t.version, if u.params.Some? then u.params.value else c.params, t.params);
  }

  /** The header key of an updated client is stored after the sweep, so only its parameters decide whether it has a profile. */
  lemma NextProfileIff(config: Config, d: Defaults, data: Data, i: nat, t: Target)
    requires Committed(config, d, data) && i < |data.clients|
    ensures var next := NextClient(d, data.clients[i], t, None);
            ProfileOf(d, Updated(data, i, next, None).headerKeys, next).Ok? <==> Settable(d, t.version, t.params)
  {
    hide Settable, ValidHeaderKey, EffectiveFor, ProfileIdentity.Preimage, Canonicalized, StoredNormal, Acceptable, Distinct;
    var c := data.clients[i];
    assert ClientSound(config, d, data.headerKeys, c);
    var next := NextClient(d, c, t, None);
    var cs := data.clients[i := next];
    if t.version == V31 {
      assert cs[i] == next;
      assert Referenced(cs, next.keyId);
    }
  }

  /** Nothing else stands in the way of an update: it sets something, and what results is a version, parameters and routing. */
  lemma UpdateIff(config: Config, d: Defaults, data: Data, i: nat, u: Update)
    requires Committed(config, d, data) && i < |data.clients|
    ensures var c := data.clients[i];
            var version := if u.version.Some? then u.version.value else Some(c.version);
            (&& ResolvedUpdate(c, u).Ok?
             && var t := ResolvedUpdate(c, u).value;
                var next := NextClient(d, c, t, None);
                ProfileOf(d, Updated(data, i, next, None).headerKeys, next).Ok?) <==>
            && (u.version.Some? || u.params.Some? || u.routing.Some?)
            && version.Some?
            && Settable(d, version.value, if u.params.Some? then u.params.value else c.params)
            && (u.routing.None? || u.routing.value.None? || Routing.PolicyAcceptable(u.routing.value.value))
  {
    hide Params.Normalized, Routing.Normalized, Routing.PolicyAcceptable, Settable, ValidHeaderKey, Acceptable, ProfileOf, Distinct,
         Updated, NextClient;
    var c := data.clients[i];
    assert ClientSound(config, d, data.headerKeys, c);
    var version := if u.version.Some? then u.version.value else Some(c.version);
    var routing := if u.routing.Some? then u.routing.value else c.routing;
    Routing.NormalizeAccepts(routing);
    if version.Some? {
      SettableAsGiven(d, version.value, if u.params.Some? then u.params.value else c.params);
    }
    if ResolvedUpdate(c, u).Ok? {
      NextProfileIff(config, d, data, i, ResolvedUpdate(c, u).value);
    }
  }

  /** The update asks for another identity or another port. */
  ghost predicate PlannedMove(d: Defaults, data: Data, i: nat, t: Target, replacement: Option<NewKey>) {
    && i < |data.clients|
    && var next := NextClient(d, data.clients[i], t, replacement);
       var source := ProfileOf(d, data.headerKeys, data.clients[i]);
       var target := ProfileOf(d, Updated(data, i, next, replacement).headerKeys, next);
       source.Ok? && target.Ok? && MoveNeeded(source.value, target.value)
  }

  /** An update of neither version nor parameters moves nothing. */
  lemma ClientOnlyStays(config: Config, d: Defaults, data: Data, i: nat, u: Update)
    requires Committed(config, d, data) && i < |data.clients|
    requires u.version.None? && u.params.None? && ResolvedUpdate(data.clients[i], u).Ok?
    ensures var c := data.clients[i];
            var t := ResolvedUpdate(c, u).value;
            var next := NextClient(d, c, t, None);
            && ProfileOf(d, Updated(data, i, next, None).headerKeys, next) == ProfileOf(d, data.headerKeys, c)
            && ProfileOf(d, data.headerKeys, c).Ok?
            && !PlannedMove(d, data, i, t, None)
  {
    hide Settable, ValidHeaderKey, EffectiveFor, ProfileIdentity.Preimage, Canonicalized, Acceptable, Distinct,
         Params.Normalized, Routing.Normalized;
    var c := data.clients[i];
    assert ClientSound(config, d, data.headerKeys, c);
    var next := NextClient(d, c, ResolvedUpdate(c, u).value, None);
    var cs := data.clients[i := next];
    if c.version == V31 {
      assert cs[i] == next;
      assert Referenced(cs, next.keyId);
    }
  }

  lemma AddedKeyKeeps(config: Config, d: Defaults, data: Data, t: Target, replacement: Option<NewKey>)
    requires Committed(config, d, data) && FreshKey(data.headerKeys, t, replacement)
    ensures Committed(config, d, data.(headerKeys := WithKey(data.headerKeys, replacement)))
    ensures EntriesOf(d, WithKey(data.headerKeys, replacement), data.clients) == EntriesOf(d, data.headerKeys, data.clients)
  {
    hide ClientSound, EntriesOf, Distinct, AllSound, ValidHeaderKey;
    EntriesKept(config, d, data.headerKeys, WithKey(data.headerKeys, replacement), data.clients);
  }

  lemma NextSound(config: Config, d: Defaults, keys: KeyStore, swept: KeyStore, c: Client, t: Target,
                  replacement: Option<NewKey>)
    requires ClientSound(config, d, keys, c) && TargetNormal(t) && FreshKey(keys, t, replacement)
    requires forall k :: k in swept ==> k in WithKey(keys, replacement) && swept[k] == WithKey(keys, replacement)[k]
    requires ProfileOf(d, swept, NextClient(d, c, t, replacement)).Ok?
    ensures ClientSound(config, d, WithKey(keys, replacement), NextClient(d, c, t, replacement))
    ensures SamePerson(c, NextClient(d, c, t, replacement))
    ensures NextClient(d, c, t, replacement).group == c.group
  {
    hide Params.Normalized, Routing.Normalized, ProfileOf, Settable, ValidHeaderKey, Acceptable, WithKey;
    ProfileParts(d, swept, NextClient(d, c, t, replacement));
  }

  lemma SweptSmaller(keys: KeyStore, defaultKey: KeyId, cs: seq<Client>)
    ensures var swept := SweptKeys(keys, defaultKey, cs);
            forall k :: k in swept ==> k in keys && swept[k] == keys[k]
  {
  }

  lemma UpdatedCommitted(config: Config, d: Defaults, data: Data, i: nat, t: Target, replacement: Option<NewKey>)
    requires Committed(config, d, data) && i < |data.clients| && TargetNormal(t)
    requires FreshKey(data.headerKeys, t, replacement)
    requires var next := NextClient(d, data.clients[i], t, replacement);
             ProfileOf(d, Updated(data, i, next, replacement).headerKeys, next).Ok?
    ensures var next := NextClient(d, data.clients[i], t, replacement);
            var data' := Updated(data, i, next, replacement);
            var es := EntriesOf(d, data.headerKeys, data.clients);
            && SamePerson(data.clients[i], next) && next.group == data.clients[i].group
            && Committed(config, d, data') && KeysExact(data')
            && ProfileOf(d, data'.headerKeys, next).value.validated
            && EntriesMoved(es, EntriesOf(d, data'.headerKeys, data'.clients), i, ProfileOf(d, data'.headerKeys, next).value)
  {
    hide ClientSound, EntriesOf, SweptKeys, KeysExact, Distinct, AllSound, ValidHeaderKey, ProfileOf,
         NextClient, TargetNormal, WithKey, EntryOf, SamePerson, FreshKey;
    var c := data.clients[i];
    var next := NextClient(d, c, t, replacement);
    var keys := WithKey(data.headerKeys, replacement);
    var data1 := data.(headerKeys := keys, clients := data.clients[i := next]);
    SoundAt(config, d, data.headerKeys, data.clients, i);
    SweptSmaller(keys, data.defaultKey, data1.clients);
    NextSound(config, d, data.headerKeys, Swept(data1).headerKeys, c, t, replacement);
    AddedKeyKeeps(config, d, data, t, replacement);
    Replaced(config, d, keys, data.clients, i, next);
    SweepSafe(config, d, data1);
    SoundAt(config, d, Swept(data1).headerKeys, data1.clients, i);
    SoundProfile(config, d, Swept(data1).headerKeys, next);
    SoundProfile(config, d, keys, next);
    SameEntry(d, keys, Swept(data1).headerKeys, data1.clients, i);
  }

  /** Addresses and groups stay, so the inter-client chain does. */
  lemma SameLan(cs: seq<Client>, i: nat, c: Client)
    requires i < |cs| && SamePerson(cs[i], c) && c.group == cs[i].group
    ensures LanPeers(cs[i := c]) == LanPeers(cs)
  {
  }

  lemma SoundAt(config: Config, d: Defaults, keys: KeyStore, cs: seq<Client>, i: nat)
    requires AllSound(config, d, keys, cs) && i < |cs|
    ensures ClientSound(config, d, keys, cs[i])
  {
    hide ClientSound;
  }

  lemma SameEntry(d: Defaults, keys: KeyStore, keys': KeyStore, cs: seq<Client>, i: nat)
    requires EntriesOf(d, keys, cs) == EntriesOf(d, keys', cs) && i < |cs|
    ensures EntryOf(d, keys, cs[i]) == EntryOf(d, keys', cs[i])
  {
    hide EntryOf;
    assert EntriesOf(d, keys, cs)[i] == EntriesOf(d, keys', cs)[i];
  }

  // ---------------------------------------------------------------------------------------------
  // Regenerating
  // ---------------------------------------------------------------------------------------------

  /** A client's parameters with generated values laid over them, as they are stored. */
  function Regenerated(c: Client, g: Generated): (p: Option<AWGParams>)
    requires |g.headers| == 4 && (|g.padding| == 2 || |g.padding| == 4)
  {
    Some(Canonicalized(ApplyGenerated(c.params, g)))
  }

  function RegeneratedTarget(c: Client, g: Generated): Target
    requires |g.headers| == 4 && (|g.padding| == 2 || |g.padding| == 4)
  {
    Target(c.version, Regenerated(c, g), c.routing, false)
  }

  /** Whatever was drawn, the target normalizes, is in normal form and makes a valid profile. */
  lemma RegeneratedNormal(config: Config, d: Defaults, keys: KeyStore, c: Client, g: Generated)
    requires ClientSound(config, d, keys, c) && FitsVersion(c.version, g)
    ensures Params.Normalized(c.version, Some(ApplyGenerated(c.params, g))) == Ok(Regenerated(c, g))
    ensures TargetNormal(RegeneratedTarget(c, g)) && Settable(d, c.version, Regenerated(c, g))
  {
    hide Params.Normalized, Routing.Normalized, ValidProfile, ValidOverrides, Acceptable, Canonicalized, ApplyGenerated,
         Effective, ValidHeaderKey, Tiered;
    RegenerationValid(c.version, if c.version == V2 then d.legacy else d.awg31, c.params, g);
    ParamsNormalStays(c.version, Some(ApplyGenerated(c.params, g)), Regenerated(c, g));
  }

  /**
   What a regeneration leaves, said of the old client: generated headers and padding over the stored parameters, a header
   key that was not in the store for 3.1 and none for 2.0, and nothing else changed.
   */
  ghost predicate RegeneratedAsAsked(keys: KeyStore, c: Client, g: Generated, n: Client)
    requires |g.headers| == 4 && (|g.padding| == 2 || |g.padding| == 4)
  {
    var o: AWGParams := if c.params.Some? then c.params.value else NO_PARAMS;
    && n == c.(params := n.params, keyId := n.keyId)
    && StoredForm(o.(headers := g.headers, padding := g.padding + o.padding[|g.padding|..]), n.params)
    && (if c.version == V2 then n.keyId == NO_KEY else n.keyId != NO_KEY && n.keyId !in keys)
  }

  lemma RegeneratesAsAsked(config: Config, d: Defaults, keys: KeyStore, c: Client, g: Generated, replacement: Option<NewKey>)
    requires ClientSound(config, d, keys, c) && FitsVersion(c.version, g) && KeyForVersion(c.version, keys, replacement)
    ensures |g.headers| == 4 && (|g.padding| == 2 || |g.padding| == 4)
    ensures RegeneratedAsAsked(keys, c, g, NextClient(d, c, RegeneratedTarget(c, g), replacement))
  {
    hide Params.Normalized, Routing.Normalized, Settable, ValidHeaderKey, Acceptable, Canonicalized, Tiered, StoredForm, NO_PARAMS;
    GeneratedShape(c.version, g);
    RegeneratedNormal(config, d, keys, c, g);
    NormalizedKeeps(c.version, ApplyGenerated(c.params, g));
  }

  /** The identity of a 2.0 profile. */
  function LegacyKey(d: Defaults, params: Option<AWGParams>): ProfileKey {
    ProfileKey(ProfileIdentity.Preimage(V2, Canonicalized(EffectiveFor(d, V2, params)), None))
  }

  lemma LegacyProfile(d: Defaults, keys: KeyStore, params: Option<AWGParams>, keyId: KeyId)
    requires Settable(d, V2, params)
    ensures var p := ProfileFor(d, keys, V2, params, keyId); p.Ok? && p.value.key == LegacyKey(d, params)
  {
    hide Settable, EffectiveFor, ProfileIdentity.Preimage, Canonicalized;
  }

  lemma SoundSettable(config: Config, d: Defaults, keys: KeyStore, c: Client)
    requires ClientSound(config, d, keys, c)
    ensures Settable(d, c.version, c.params)
  {
    hide Settable, StoredNormal, Acceptable, RefersSafely;
  }

  lemma GeneratedShape(version: Version, g: Generated)
    requires FitsVersion(version, g)
    ensures |g.headers| == 4 && (|g.padding| == 2 || |g.padding| == 4)
  {
    hide Tiered;
  }

  /** The key a regeneration needs: a new one for 3.1, none for 2.0. */
  ghost predicate KeyForVersion(version: Version, keys: KeyStore, replacement: Option<NewKey>) {
    if version == V2 then replacement.None?
    else replacement.Some? && replacement.value.id !in keys && replacement.value.id != NO_KEY
         && ValidHeaderKey(replacement.value.key)
  }

  lemma RegeneratedProfile(d: Defaults, data: Data, i: nat, t: Target, replacement: Option<NewKey>)
    requires i < |data.clients| && Settable(d, t.version, t.params)
    requires KeyForVersion(t.version, data.headerKeys, replacement)
    ensures FreshKey(data.headerKeys, t, replacement)
    ensures var next := NextClient(d, data.clients[i], t, replacement);
            ProfileOf(d, Updated(data, i, next, replacement).headerKeys, next).Ok?
  {
    hide Settable, ValidHeaderKey, EffectiveFor, ProfileIdentity.Preimage, Canonicalized;
    var next := NextClient(d, data.clients[i], t, replacement);
    var cs := data.clients[i := next];
    if t.version == V31 {
      assert cs[i] == next;
      assert Referenced(cs, next.keyId);
    }
  }

  // ---------------------------------------------------------------------------------------------
  // Deleting and regrouping
  // ---------------------------------------------------------------------------------------------

  function Deleted(data: Data, i: nat): (r: Data)
    requires i < |data.clients|
  {
    Swept(data.(clients := Without(data.clients, i)))
  }

  lemma DeletedParts(data: Data, i: nat)
    requires i < |data.clients|
    ensures Deleted(data, i).clients == data.clients[..i] + data.clients[i + 1..] && StoreKept(data, Deleted(data, i))
  {
    hide Referenced;
  }

  lemma DeletedCommitted(config: Config, d: Defaults, data: Data, i: nat)
    requires Committed(config, d, data) && i < |data.clients|
    ensures Committed(config, d, Deleted(data, i)) && KeysExact(Deleted(data, i))
    ensures EntriesOf(d, Deleted(data, i).headerKeys, Deleted(data, i).clients)
            == Without(EntriesOf(d, data.headerKeys, data.clients), i)
  {
    hide ClientSound, EntriesOf, EntryOf, SweptKeys, KeysExact, Distinct, AllSound, ValidHeaderKey, Without;
    Dropped(config, d, data.headerKeys, data.clients, i);
    SweepSafe(config, d, data.(clients := Without(data.clients, i)));
  }

  function Grouped(c: Client, ids: set<ClientId>, group: string): Client {
    if c.id in ids then c.(group := group) else c
  }

  function Regrouped(cs: seq<Client>, ids: set<ClientId>, group: string): (r: seq<Client>)
    ensures |r| == |cs| && forall i :: 0 <= i < |cs| ==> r[i] == Grouped(cs[i], ids, group)
  {
    seq(|cs|, i requires 0 <= i < |cs| => Grouped(cs[i], ids, group))
  }

  /** Listed clients get the group and keep the rest; every other client is untouched. */
  ghost predicate GroupsSet(cs: seq<Client>, cs': seq<Client>, ids: seq<ClientId>, group: string) {
    && |cs'| == |cs|
    && (forall i :: 0 <= i < |cs| && cs[i].id in ids ==> cs'[i].group == group && cs'[i] == cs[i].(group := group))
    && (forall i :: 0 <= i < |cs| && cs[i].id !in ids ==> cs'[i] == cs[i])
  }

  lemma RegroupedSet(cs: seq<Client>, ids: seq<ClientId>, group: string)
    ensures GroupsSet(cs, Regrouped(cs, IdSet(ids), group), ids, group)
  {
  }

  lemma GroupedSound(config: Config, d: Defaults, keys: KeyStore, c: Client, ids: set<ClientId>, group: string)
    requires ClientSound(config, d, keys, c) && group != ""
    ensures ClientSound(config, d, keys, Grouped(c, ids, group))
    ensures EntryOf(d, keys, Grouped(c, ids, group)) == EntryOf(d, keys, c)
  {
    hide Acceptable, Settable, ValidHeaderKey, ProfileFor, Params.Normalized, Routing.Normalized;
  }

  lemma RegroupedCommitted(config: Config, d: Defaults, data: Data, ids: set<ClientId>, group: string)
    requires Committed(config, d, data) && group != ""
    ensures Committed(config, d, data.(clients := Regrouped(data.clients, ids, group)))
    ensures EntriesOf(d, data.headerKeys, Regrouped(data.clients, ids, group))
            == EntriesOf(d, data.headerKeys, data.clients)
  {
    hide ClientSound, EntryOf, ValidHeaderKey;
    var cs' := Regrouped(data.clients, ids, group);
    forall i | 0 <= i < |cs'|
      ensures ClientSound(config, d, data.headerKeys, cs'[i])
      ensures EntryOf(d, data.headerKeys, cs'[i]) == EntryOf(d, data.headerKeys, data.clients[i])
    {
      assert ClientSound(config, d, data.headerKeys, data.clients[i]);
      GroupedSound(config, d, data.headerKeys, data.clients[i], ids, group);
    }
    assert forall i :: 0 <= i < |cs'| ==> cs'[i].id == data.clients[i].id && cs'[i].address == data.clients[i].address
                                          && cs'[i].pk == data.clients[i].pk;
  }

  function IdSet(ids: seq<ClientId>): set<ClientId> {
    set id | id in ids
  }

  ghost predicate Repeats(ids: seq<ClientId>) {
    exists i, j :: 0 <= i < j < |ids| && ids[i] == ids[j]
  }

  /** Why a LAN group request is refused before anything is changed. */
  ghost function GroupRefusal(clients: map<ClientId, Client>, ids: seq<ClientId>, group: string): (e: Option<ManagerError>) {
    if |ids| == 0 then Some(EmptyClientIds)
    else if group == "" then Some(EmptyGroup)
    else if Repeats(ids) then Some(DuplicateClientId)
    else if exists i :: 0 <= i < |ids| && ids[i] !in clients then Some(ClientNotFound)
    else None
  }

  /** A group request is refused, in this order, for no clients, no group, a repeated client and an unknown one. */
  lemma GroupRefusalIff(clients: map<ClientId, Client>, ids: seq<ClientId>, group: string)
    ensures var unknown := exists i :: 0 <= i < |ids| && ids[i] !in clients;
            var repeated := exists i, j :: 0 <= i < |ids| && 0 <= j < |ids| && i != j && ids[i] == ids[j];
            && (GroupRefusal(clients, ids, group).None? <==> ids != [] && group != "" && !repeated && !unknown)
            && (ids != [] && group == "" ==> GroupRefusal(clients, ids, group) == Some(EmptyGroup))
            && (ids != [] && group != "" && repeated ==> GroupRefusal(clients, ids, group) == Some(DuplicateClientId))
            && (ids != [] && group != "" && !repeated && unknown ==> GroupRefusal(clients, ids, group) == Some(ClientNotFound))
  {
    if i, j :| 0 <= i < |ids| && 0 <= j < |ids| && i != j && ids[i] == ids[j] {
      assert Repeats(ids) by {
        assert ids[if i < j then i else j] == ids[if i < j then j else i];
      }
    }
  }

  method CheckGroupRequest(clients: map<ClientId, Client>, ids: seq<ClientId>, group: string)
      returns (e: Option<ManagerError>)
    ensures e == GroupRefusal(clients, ids, group)
  {
    if |ids| == 0 {
      return Some(EmptyClientIds);
    }
    if group == "" {
      return Some(EmptyGroup);
    }
    var seen: set<ClientId> := {};
    var i := 0;
    while i < |ids|
      invariant 0 <= i <= |ids|
      invariant forall id :: id in seen <==> exists j :: 0 <= j < i && ids[j] == id
      invariant forall j, k :: 0 <= j < k < i ==> ids[j] != ids[k]
    {
      if ids[i] in seen {
        return Some(DuplicateClientId);
      }
      seen := seen + {ids[i]};
      i := i + 1;
    }
    i := 0;
    while i < |ids|
      invariant 0 <= i <= |ids|
      invariant forall j :: 0 <= j < i ==> ids[j] in clients
    {
      if ids[i] !in clients {
        return Some(ClientNotFound);
      }
      i := i + 1;
    }
    return None;
  }

  function RegroupedIndex(clients: map<ClientId, Client>, ids: set<ClientId>, group: string): map<ClientId, Client> {
    map id | id in clients :: Grouped(clients[id], ids, group)
  }

  /** Sets the group of every listed client, at the position where it is stored. */
  method RegroupStored(cs: seq<Client>, ids: seq<ClientId>, group: string) returns (r: seq<Client>)
    requires Distinct(cs) && forall i :: 0 <= i < |ids| ==> HasId(cs, ids[i])
    ensures r == Regrouped(cs, IdSet(ids), group)
  {
    hide Regrouped, Distinct;
    var stored: map<ClientId, nat> := map[];
    var i := 0;
    while i < |cs|
      invariant 0 <= i <= |cs|
      invariant forall id :: id in stored ==> stored[id] < i && cs[stored[id]].id == id
      invariant forall j :: 0 <= j < i ==> cs[j].id in stored
    {
      stored := stored[cs[i].id := i];
      i := i + 1;
    }
    r := cs;
    NoneRegrouped(cs, group);
    assert ids[..0] == [];
    i := 0;
    while i < |ids|
      invariant 0 <= i <= |ids|
      invariant r == Regrouped(cs, IdSet(ids[..i]), group)
    {
      assert HasId(cs, ids[i]);
      var at := stored[ids[i]];
      assert ids[..i + 1] == ids[..i] + [ids[i]];
      OneRegrouped(cs, ids[..i], at, group);
      r := r[at := r[at].(group := group)];
      i := i + 1;
    }
    assert ids[..i] == ids;
  }

  lemma NoneRegrouped(cs: seq<Client>, group: string)
    ensures Regrouped(cs, IdSet([]), group) == cs
  {
    assert IdSet([]) == {};
  }

  lemma OneRegrouped(cs: seq<Client>, ids: seq<ClientId>, at: nat, group: string)
    requires Distinct(cs) && at < |cs|
    ensures var r := Regrouped(cs, IdSet(ids), group);
            Regrouped(cs, IdSet(ids + [cs[at].id]), group) == r[at := r[at].(group := group)]
  {
    var r := Regrouped(cs, IdSet(ids), group);
    var r' := Regrouped(cs, IdSet(ids + [cs[at].id]), group);
    forall j | 0 <= j < |cs|
      ensures r'[j] == if j == at then r[at].(group := group) else r[j]
    {
      assert cs[j].id in IdSet(ids + [cs[at].id]) <==> cs[j].id in IdSet(ids) || cs[j].id == cs[at].id;
      assert cs[j].id == cs[at].id ==> j == at;
    }
  }

  /** Replaces the listed clients in the index. */
  method RegroupIndex(clients: map<ClientId, Client>, ids: seq<ClientId>, group: string) returns (r: map<ClientId, Client>)
    requires forall i :: 0 <= i < |ids| ==> ids[i] in clients
    requires forall id :: id in clients ==> clients[id].id == id
    ensures r == RegroupedIndex(clients, IdSet(ids), group)
  {
    r := clients;
    var i := 0;
    while i < |ids|
      invariant 0 <= i <= |ids|
      invariant r.Keys == clients.Keys
      invariant forall id :: id in clients ==> r[id] == Grouped(clients[id], IdSet(ids[..i]), group)
    {
      assert ids[..i + 1] == ids[..i] + [ids[i]];
      r := r[ids[i] := clients[ids[i]].(group := group)];
      i := i + 1;
    }
    assert ids[..i] == ids;
  }

  lemma RegroupIndexed(clients: map<ClientId, Client>, usedIPs: set<int>, cs: seq<Client>, ids: set<ClientId>, group: string)
    requires Indexed(clients, usedIPs, cs)
    ensures Indexed(RegroupedIndex(clients, ids, group), usedIPs, Regrouped(cs, ids, group))
  {
    hide HasId, HasAddress;
    var cs' := Regrouped(cs, ids, group);
    forall id
      ensures HasId(cs', id) <==> HasId(cs, id)
    {
      RegroupIds(cs, ids, group, id);
    }
    forall a
      ensures HasAddress(cs', a) <==> HasAddress(cs, a)
    {
      RegroupAddresses(cs, ids, group, a);
    }
  }

  lemma RegroupIds(cs: seq<Client>, ids: set<ClientId>, group: string, id: ClientId)
    ensures HasId(Regrouped(cs, ids, group), id) <==> HasId(cs, id)
  {
    assert forall i :: 0 <= i < |cs| ==> Regrouped(cs, ids, group)[i].id == cs[i].id;
  }

  lemma RegroupAddresses(cs: seq<Client>, ids: set<ClientId>, group: string, a: int)
    ensures HasAddress(Regrouped(cs, ids, group), a) <==> HasAddress(cs, a)
  {
    assert forall i :: 0 <= i < |cs| ==> Regrouped(cs, ids, group)[i].address == cs[i].address;
  }
}
