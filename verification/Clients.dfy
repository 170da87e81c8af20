/** The client store as a value: what a committed state satisfies, and the prospective copies the transactions build. */
module Clients {
  import opened Wrappers
  import opened PoolView
  import opened Params
  import opened Addresses
  import opened RestorePlan
  import opened Agreement
  import opened ProfileIdentity
  import Firewall
  import Routing

  datatype ClientId = ClientId(text: string)

  datatype KeyId = KeyId(text: string)

  const NO_KEY := KeyId("")

  datatype Client = Client(
    id: ClientId,
    version: Version,
    pk: PublicKey,
    psk: Option<Psk>,
    address: int,
    group: string,
    params: Option<AWGParams>,
    routing: Option<Routing.Policy>,
    keyId: KeyId)

  type KeyStore = map<KeyId, seq<int>>

  /** What is persisted. */
  datatype Data = Data(
    serverKey: string,
    clients: seq<Client>,
    defaultKey: KeyId,
    headerKeys: KeyStore,
    generated: Option<Generated31>)

  datatype Defaults = Defaults(legacy: AWGParams, awg31: AWGParams, version: Version, keyId: KeyId)

  // ---------------------------------------------------------------------------------------------
  // Effective profiles
  // ---------------------------------------------------------------------------------------------

  function HeaderKey(version: Version, keys: KeyStore, keyId: KeyId): (r: Result<Option<seq<int>>, ()>) {
    if version == V2 then Ok(None)
    else if keyId == NO_KEY || keyId !in keys || !ValidHeaderKey(keys[keyId]) then Err(())
    else Ok(Some(keys[keyId]))
  }

  function EffectiveFor(d: Defaults, version: Version, params: Option<AWGParams>): AWGParams {
    Effective(if version == V2 then d.legacy else d.awg31, params)
  }

  predicate Settable(d: Defaults, version: Version, params: Option<AWGParams>) {
    && (params.Some? ==> ValidOverrides(version, params.value))
    && ValidProfile(version, EffectiveFor(d, version, params))
  }

  function ProfileFor(d: Defaults, keys: KeyStore, version: Version, params: Option<AWGParams>, keyId: KeyId)
      : (r: Result<Profile, ()>)
  {
    var key := HeaderKey(version, keys, keyId);
    if !Settable(d, version, params) || key.Err? then Err(())
    else
      var p := EffectiveFor(d, version, params);
      Ok(Profile(ProfileKey(Preimage(version, Canonicalized(p), key.value)), p.port, true))
  }

  function ProfileOf(d: Defaults, keys: KeyStore, c: Client): (r: Result<Profile, ()>) {
    ProfileFor(d, keys, c.version, c.params, c.keyId)
  }

  /** The client as the pool sees it. */
  function EntryOf(d: Defaults, keys: KeyStore, c: Client): Entry {
    var p := ProfileOf(d, keys, c);
    Entry(if p.Ok? then p.value else Profile(ProfileKey([]), 0, false), c.pk, c.psk)
  }

  function EntriesOf(d: Defaults, keys: KeyStore, cs: seq<Client>): (es: seq<Entry>)
    ensures |es| == |cs| && forall i :: 0 <= i < |cs| ==> es[i] == EntryOf(d, keys, cs[i])
  {
    seq(|cs|, i requires 0 <= i < |cs| => EntryOf(d, keys, cs[i]))
  }

  function LanPeers(cs: seq<Client>): (ps: seq<Firewall.LanPeer>)
    ensures |ps| == |cs| && forall i :: 0 <= i < |cs| ==> ps[i] == Firewall.LanPeer(cs[i].address, cs[i].group)
  {
    seq(|cs|, i requires 0 <= i < |cs| => Firewall.LanPeer(cs[i].address, cs[i].group))
  }

  // ---------------------------------------------------------------------------------------------
  // Committed states
  // ---------------------------------------------------------------------------------------------

  predicate ValidClientId(id: ClientId) {
    1 <= |id.text| <= 256
  }

  /** A 3.1 client refers to a stored key, a 2.0 client to none. */
  predicate RefersSafely(keys: KeyStore, c: Client) {
    if c.version == V2 then c.keyId == NO_KEY else c.keyId != NO_KEY && c.keyId in keys && ValidHeaderKey(keys[c.keyId])
  }

  /** Parameters and routing are stored in normal form. */
  predicate StoredNormal(c: Client) {
    && Params.Normalized(c.version, c.params) == Ok(c.params)
    && Routing.Normalized(c.routing) == Ok(c.routing)
  }

  ghost predicate ClientSound(config: Config, d: Defaults, keys: KeyStore, c: Client) {
    && ValidClientId(c.id)
    && c.group != ""
    && Acceptable(config, c.address)
    && StoredNormal(c)
    && RefersSafely(keys, c)
    && Settable(d, c.version, c.params)
  }

  ghost predicate Distinct(cs: seq<Client>) {
    forall i, j :: 0 <= i < j < |cs| ==> cs[i].id != cs[j].id && cs[i].address != cs[j].address && cs[i].pk != cs[j].pk
  }

  ghost predicate AllSound(config: Config, d: Defaults, keys: KeyStore, cs: seq<Client>) {
    forall i :: 0 <= i < |cs| ==> ClientSound(config, d, keys, cs[i])
  }

  /** Every stored key has an identifier and is usable. */
  predicate KeysUsable(keys: KeyStore) {
    forall k :: k in keys ==> k != NO_KEY && ValidHeaderKey(keys[k])
  }

  ghost predicate StoreSound(d: Defaults, data: Data) {
    && data.defaultKey == d.keyId && d.keyId in data.headerKeys
    && KeysUsable(data.headerKeys)
  }

  ghost predicate Committed(config: Config, d: Defaults, data: Data) {
    && StoreSound(d, data)
    && Distinct(data.clients)
    && AllSound(config, d, data.headerKeys, data.clients)
  }

  /** The in-memory index holds exactly the clients of the data, and the address set exactly their addresses. */
  ghost predicate Indexed(clients: map<ClientId, Client>, usedIPs: set<int>, cs: seq<Client>) {
    && (forall i :: 0 <= i < |cs| ==> cs[i].id in clients && clients[cs[i].id] == cs[i])
    && (forall id :: id in clients ==> HasId(cs, id))
    && (forall a :: a in usedIPs <==> HasAddress(cs, a))
  }

  ghost predicate HasId(cs: seq<Client>, id: ClientId) {
    exists i :: 0 <= i < |cs| && cs[i].id == id
  }

  ghost predicate HasAddress(cs: seq<Client>, a: int) {
    exists i :: 0 <= i < |cs| && cs[i].address == a
  }

  predicate Referenced(cs: seq<Client>, k: KeyId) {
    exists i :: 0 <= i < |cs| && cs[i].version == V31 && cs[i].keyId != NO_KEY && cs[i].keyId == k
  }

  /** The key store holds the default and the referenced keys, and nothing else. */
  ghost predicate KeysExact(data: Data) {
    forall k :: k in data.headerKeys <==> k == data.defaultKey || Referenced(data.clients, k)
  }

  /** The inter-client chain accepts no pair, or exactly the committed clients' groups. */
  ghost predicate Fenced(chain: seq<Firewall.Rule>, data: Data) {
    chain == Firewall.Chain([]) || chain == Firewall.Chain(LanPeers(data.clients))
  }

  /** Under first-match evaluation: no inter-client traffic, or exactly the pairs of committed clients in one group. */
  lemma FencedMeaning(chain: seq<Firewall.Rule>, data: Data)
    requires Fenced(chain, data)
    ensures || (forall src, dst :: !Firewall.Accepts(chain, src, dst))
            || (forall src, dst :: Firewall.Accepts(chain, src, dst) <==> InOneGroup(data.clients, src, dst))
  {
    hide Firewall.Chain, Firewall.Accepts;
    if chain == Firewall.Chain([]) {
      forall src, dst
        ensures !Firewall.Accepts(chain, src, dst)
      {
        Firewall.NoPeersBlockAll(src, dst);
      }
    } else {
      forall src, dst
        ensures Firewall.Accepts(chain, src, dst) <==> InOneGroup(data.clients, src, dst)
      {
        Firewall.ChainMeaning(LanPeers(data.clients), src, dst);
        GroupsOfPeers(data.clients, src, dst);
      }
    }
  }

  ghost predicate InOneGroup(cs: seq<Client>, src: int, dst: int) {
    exists i, j :: 0 <= i < |cs| && 0 <= j < |cs|
                   && cs[i].address == src && cs[j].address == dst && cs[i].group == cs[j].group
  }

  lemma GroupsOfPeers(cs: seq<Client>, src: int, dst: int)
    ensures Firewall.SameGroup(LanPeers(cs), src, dst) <==> InOneGroup(cs, src, dst)
  {
    var ps := LanPeers(cs);
    if Firewall.SameGroup(ps, src, dst) {
      var i, j :| 0 <= i < |ps| && 0 <= j < |ps|
                  && ps[i].address == src && ps[j].address == dst && ps[i].group == ps[j].group;
      assert cs[i].address == src && cs[j].address == dst && cs[i].group == cs[j].group;
    }
    if InOneGroup(cs, src, dst) {
      var i, j :| 0 <= i < |cs| && 0 <= j < |cs|
                  && cs[i].address == src && cs[j].address == dst && cs[i].group == cs[j].group;
      assert ps[i].address == src && ps[j].address == dst && ps[i].group == ps[j].group;
    }
  }

  /** Rendering never refuses a committed state. */
  lemma CommittedRenders(config: Config, d: Defaults, data: Data)
    requires Committed(config, d, data)
    ensures Firewall.Renderable(LanPeers(data.clients), config.network)
  {
    hide StoredNormal, RefersSafely, Settable;
    var ps := LanPeers(data.clients);
    forall i | 0 <= i < |ps|
      ensures Firewall.Permitted(ps[i], config.network)
    {
      assert ClientSound(config, d, data.headerKeys, data.clients[i]);
    }
  }

  lemma NoPeersRender(config: Config)
    ensures Firewall.Renderable([], config.network)
  {
  }

  // ---------------------------------------------------------------------------------------------
  // The key store
  // ---------------------------------------------------------------------------------------------

  function SweptKeys(keys: KeyStore, defaultKey: KeyId, cs: seq<Client>): (r: KeyStore) {
    map k | k in keys && (k == defaultKey || Referenced(cs, k)) :: keys[k]
  }

  function Swept(data: Data): (r: Data) {
    data.(headerKeys := SweptKeys(data.headerKeys, data.defaultKey, data.clients))
  }

  /** Deletes every header key that is neither the default nor referenced by a 3.1 client. */
  method MarkAndSweepHeaderKeys(data: Data) returns (r: Data)
    ensures r == Swept(data)
  {
    var referenced: set<KeyId> := {};
    var i := 0;
    while i < |data.clients|
      invariant 0 <= i <= |data.clients|
      invariant forall k :: k in referenced <==> Referenced(data.clients[..i], k)
    {
      var client := data.clients[i];
      assert data.clients[..i + 1] == data.clients[..i] + [client];
      ReferencedNext(data.clients[..i], client);
      if client.version == V31 && client.keyId != NO_KEY {
        referenced := referenced + {client.keyId};
      }
      i := i + 1;
    }
    assert data.clients[..i] == data.clients;
    var kept := data.headerKeys;
    var ids := data.headerKeys.Keys;
    while ids != {}
      invariant ids <= data.headerKeys.Keys
      invariant forall k :: k in kept <==> k in data.headerKeys && (k in ids || k == data.defaultKey || k in referenced)
      invariant forall k :: k in kept ==> kept[k] == data.headerKeys[k]
      decreases ids
    {
      var keyId :| keyId in ids;
      ids := ids - {keyId};
      if keyId != data.defaultKey && keyId !in referenced {
        kept := kept - {keyId};
      }
    }
    return data.(headerKeys := kept);
  }

  lemma ReferencedNext(cs: seq<Client>, c: Client)
    ensures forall k :: Referenced(cs + [c], k) <==>
              Referenced(cs, k) || (c.version == V31 && c.keyId != NO_KEY && c.keyId == k)
  {
    forall k
      ensures Referenced(cs + [c], k) <==> Referenced(cs, k) || (c.version == V31 && c.keyId != NO_KEY && c.keyId == k)
    {
      if Referenced(cs, k) {
        var i :| 0 <= i < |cs| && cs[i].version == V31 && cs[i].keyId != NO_KEY && cs[i].keyId == k;
        assert (cs + [c])[i] == cs[i];
      }
      if c.version == V31 && c.keyId != NO_KEY && c.keyId == k {
        assert (cs + [c])[|cs|] == c;
      }
    }
  }

  /** What a client needs of the key store is untouched. */
  ghost predicate KeyKept(keys: KeyStore, keys': KeyStore, c: Client) {
    c.version == V31 && c.keyId in keys ==> c.keyId in keys' && keys'[c.keyId] == keys[c.keyId]
  }

  lemma ProfileKept(config: Config, d: Defaults, keys: KeyStore, keys': KeyStore, c: Client)
    requires ClientSound(config, d, keys, c) && KeyKept(keys, keys', c)
    ensures ClientSound(config, d, keys', c)
    ensures ProfileOf(d, keys', c) == ProfileOf(d, keys, c)
    ensures EntryOf(d, keys', c) == EntryOf(d, keys, c)
  {
    hide StoredNormal, Settable, Acceptable, ValidHeaderKey, EffectiveFor, Preimage, Canonicalized;
  }

  lemma SoundProfile(config: Config, d: Defaults, keys: KeyStore, c: Client)
    requires ClientSound(config, d, keys, c)
    ensures ProfileOf(d, keys, c).Ok? && ProfileOf(d, keys, c).value.validated
    ensures EntryOf(d, keys, c) == Entry(ProfileOf(d, keys, c).value, c.pk, c.psk)
  {
    hide StoredNormal, Settable, Acceptable, ValidHeaderKey, EffectiveFor, Preimage, Canonicalized;
  }

  ghost predicate AllKept(keys: KeyStore, keys': KeyStore, cs: seq<Client>) {
    forall i :: 0 <= i < |cs| ==> KeyKept(keys, keys', cs[i])
  }

  lemma EntriesKept(config: Config, d: Defaults, keys: KeyStore, keys': KeyStore, cs: seq<Client>)
    requires AllSound(config, d, keys, cs) && AllKept(keys, keys', cs)
    ensures AllSound(config, d, keys', cs)
    ensures EntriesOf(d, keys', cs) == EntriesOf(d, keys, cs)
  {
    hide ClientSound, KeyKept, EntryOf;
    forall i | 0 <= i < |cs|
      ensures ClientSound(config, d, keys', cs[i]) && EntryOf(d, keys', cs[i]) == EntryOf(d, keys, cs[i])
    {
      assert ClientSound(config, d, keys, cs[i]) && KeyKept(keys, keys', cs[i]);
      ProfileKept(config, d, keys, keys', cs[i]);
    }
  }

  lemma SweepKeeps(config: Config, d: Defaults, keys: KeyStore, defaultKey: KeyId, cs: seq<Client>)
    requires AllSound(config, d, keys, cs)
    ensures AllKept(keys, SweptKeys(keys, defaultKey, cs), cs)
  {
    hide StoredNormal, Settable, Acceptable, ValidHeaderKey;
    var keys' := SweptKeys(keys, defaultKey, cs);
    forall i | 0 <= i < |cs|
      ensures KeyKept(keys, keys', cs[i])
    {
      assert ClientSound(config, d, keys, cs[i]);
      if cs[i].version == V31 && cs[i].keyId in keys {
        assert Referenced(cs, cs[i].keyId);
      }
    }
  }

  /** Sweeping a committed state keeps it committed, keeps every effective profile, and leaves exactly the needed keys. */
  lemma SweepSafe(config: Config, d: Defaults, data: Data)
    requires Committed(config, d, data)
    ensures Committed(config, d, Swept(data)) && KeysExact(Swept(data))
    ensures EntriesOf(d, Swept(data).headerKeys, data.clients) == EntriesOf(d, data.headerKeys, data.clients)
  {
    hide ClientSound, EntriesOf, AllKept, ValidHeaderKey, Distinct, Referenced, AllSound;
    SweepKeeps(config, d, data.headerKeys, data.defaultKey, data.clients);
    EntriesKept(config, d, data.headerKeys, Swept(data).headerKeys, data.clients);
    forall k | Referenced(data.clients, k)
      ensures k in data.headerKeys
    {
      ReferenceStored(config, d, data.headerKeys, data.clients, k);
    }
  }

  lemma ReferenceStored(config: Config, d: Defaults, keys: KeyStore, cs: seq<Client>, k: KeyId)
    requires AllSound(config, d, keys, cs) && Referenced(cs, k)
    ensures k in keys
  {
    hide StoredNormal, Settable, Acceptable, ValidHeaderKey;
    var i :| 0 <= i < |cs| && cs[i].version == V31 && cs[i].keyId != NO_KEY && cs[i].keyId == k;
    assert ClientSound(config, d, keys, cs[i]);
  }

  // ---------------------------------------------------------------------------------------------
  // Appending, replacing and removing a client
  // ---------------------------------------------------------------------------------------------

  ghost predicate Unused(cs: seq<Client>, c: Client) {
    forall i :: 0 <= i < |cs| ==> cs[i].id != c.id && cs[i].address != c.address && cs[i].pk != c.pk
  }

  lemma Appended(config: Config, d: Defaults, keys: KeyStore, cs: seq<Client>, c: Client)
    requires Distinct(cs) && AllSound(config, d, keys, cs) && Unused(cs, c) && ClientSound(config, d, keys, c)
    ensures Distinct(cs + [c]) && AllSound(config, d, keys, cs + [c])
    ensures EntriesOf(d, keys, cs + [c]) == EntriesOf(d, keys, cs) + [EntryOf(d, keys, c)]
    ensures Fresh(EntriesOf(d, keys, cs), c.pk)
  {
    hide ClientSound;
    forall i | 0 <= i < |cs|
      ensures EntryOf(d, keys, cs[i]).pk != c.pk
    {
      assert EntryOf(d, keys, cs[i]).pk == cs[i].pk;
    }
    assert EntriesOf(d, keys, cs + [c]) == EntriesOf(d, keys, cs) + [EntryOf(d, keys, c)];
  }

  lemma AppendIndexed(clients: map<ClientId, Client>, usedIPs: set<int>, cs: seq<Client>, c: Client)
    requires Indexed(clients, usedIPs, cs) && Unused(cs, c)
    ensures Indexed(clients[c.id := c], usedIPs + {c.address}, cs + [c])
  {
    var cs' := cs + [c];
    forall id
      ensures HasId(cs', id) <==> id == c.id || HasId(cs, id)
    {
      assert cs'[|cs|] == c;
      if HasId(cs, id) {
        var i :| 0 <= i < |cs| && cs[i].id == id;
        assert cs'[i].id == id;
      }
    }
    forall a
      ensures HasAddress(cs', a) <==> a == c.address || HasAddress(cs, a)
    {
      assert cs'[|cs|] == c;
      if HasAddress(cs, a) {
        var i :| 0 <= i < |cs| && cs[i].address == a;
        assert cs'[i].address == a;
      }
    }
  }

  ghost predicate SamePerson(a: Client, b: Client) {
    a.id == b.id && a.pk == b.pk && a.psk == b.psk && a.address == b.address
  }

  lemma Replaced(config: Config, d: Defaults, keys: KeyStore, cs: seq<Client>, i: nat, c: Client)
    requires Distinct(cs) && AllSound(config, d, keys, cs) && i < |cs|
    requires SamePerson(cs[i], c) && ClientSound(config, d, keys, c)
    ensures Distinct(cs[i := c]) && AllSound(config, d, keys, cs[i := c])
    ensures EntriesOf(d, keys, cs[i := c])
            == EntriesOf(d, keys, cs)[i := EntriesOf(d, keys, cs)[i].(profile := EntryOf(d, keys, c).profile)]
  {
    hide ClientSound;
    var es, es' := EntriesOf(d, keys, cs), EntriesOf(d, keys, cs[i := c]);
    assert es'[i] == es[i].(profile := EntryOf(d, keys, c).profile);
    assert forall j :: 0 <= j < |cs| && j != i ==> es'[j] == es[j];
  }

  lemma ReplaceIds(cs: seq<Client>, i: nat, c: Client, id: ClientId)
    requires i < |cs| && SamePerson(cs[i], c)
    ensures HasId(cs[i := c], id) <==> HasId(cs, id)
  {
    assert forall j :: 0 <= j < |cs| ==> cs[i := c][j].id == cs[j].id;
  }

  lemma ReplaceAddresses(cs: seq<Client>, i: nat, c: Client, a: int)
    requires i < |cs| && SamePerson(cs[i], c)
    ensures HasAddress(cs[i := c], a) <==> HasAddress(cs, a)
  {
    assert forall j :: 0 <= j < |cs| ==> cs[i := c][j].address == cs[j].address;
  }

  lemma ReplaceIndexed(clients: map<ClientId, Client>, usedIPs: set<int>, cs: seq<Client>, i: nat, c: Client)
    requires Indexed(clients, usedIPs, cs) && Distinct(cs) && i < |cs| && SamePerson(cs[i], c)
    ensures Indexed(clients[c.id := c], usedIPs + {c.address}, cs[i := c])
  {
    assert HasId(cs, c.id) && HasAddress(cs, c.address) by {
      assert cs[i].id == c.id && cs[i].address == c.address;
    }
    ReplaceIndexedWith(clients, usedIPs, cs, i, c);
  }

  lemma ReplaceIndexedWith(clients: map<ClientId, Client>, usedIPs: set<int>, cs: seq<Client>, i: nat, c: Client)
    requires Indexed(clients, usedIPs, cs) && Distinct(cs) && i < |cs| && SamePerson(cs[i], c)
    requires HasId(cs, c.id) && HasAddress(cs, c.address)
    ensures Indexed(clients[c.id := c], usedIPs + {c.address}, cs[i := c])
  {
    hide HasId, HasAddress;
    var cs' := cs[i := c];
    forall j | 0 <= j < |cs'|
      ensures cs'[j].id in clients[c.id := c] && clients[c.id := c][cs'[j].id] == cs'[j]
    {
      assert j != i ==> cs[j].id != cs[i].id;
    }
    forall id
      ensures HasId(cs', id) <==> HasId(cs, id)
    {
      ReplaceIds(cs, i, c, id);
    }
    forall a
      ensures HasAddress(cs', a) <==> HasAddress(cs, a)
    {
      ReplaceAddresses(cs, i, c, a);
    }
  }

  lemma Dropped(config: Config, d: Defaults, keys: KeyStore, cs: seq<Client>, i: nat)
    requires Distinct(cs) && AllSound(config, d, keys, cs) && i < |cs|
    ensures Distinct(Without(cs, i)) && AllSound(config, d, keys, Without(cs, i))
    ensures EntriesOf(d, keys, Without(cs, i)) == Without(EntriesOf(d, keys, cs), i)
  {
    hide ClientSound, EntryOf;
    var cs' := Without(cs, i);
    assert forall j :: 0 <= j < |cs'| ==> cs'[j] == cs[if j < i then j else j + 1];
    assert EntriesOf(d, keys, cs') == Without(EntriesOf(d, keys, cs), i);
  }

  lemma DropIds(cs: seq<Client>, i: nat, id: ClientId)
    requires Distinct(cs) && i < |cs|
    ensures HasId(Without(cs, i), id) <==> id != cs[i].id && HasId(cs, id)
  {
    var cs' := Without(cs, i);
    assert forall j :: 0 <= j < |cs'| ==> cs'[j] == cs[if j < i then j else j + 1];
    if HasId(cs, id) && id != cs[i].id {
      var j :| 0 <= j < |cs| && cs[j].id == id;
      assert cs'[if j < i then j else j - 1].id == id;
    }
  }

  lemma DropAddresses(cs: seq<Client>, i: nat, a: int)
    requires Distinct(cs) && i < |cs|
    ensures HasAddress(Without(cs, i), a) <==> a != cs[i].address && HasAddress(cs, a)
  {
    var cs' := Without(cs, i);
    assert forall j :: 0 <= j < |cs'| ==> cs'[j] == cs[if j < i then j else j + 1];
    if HasAddress(cs, a) && a != cs[i].address {
      var j :| 0 <= j < |cs| && cs[j].address == a;
      assert cs'[if j < i then j else j - 1].address == a;
    }
  }

  lemma DropIndexed(clients: map<ClientId, Client>, usedIPs: set<int>, cs: seq<Client>, i: nat)
    requires Indexed(clients, usedIPs, cs) && Distinct(cs) && i < |cs|
    ensures Indexed(clients - {cs[i].id}, usedIPs - {cs[i].address}, Without(cs, i))
  {
    hide HasId, HasAddress;
    var cs' := Without(cs, i);
    forall j | 0 <= j < |cs'|
      ensures cs'[j].id in clients - {cs[i].id} && clients[cs'[j].id] == cs'[j]
    {
      assert cs'[j] == cs[if j < i then j else j + 1];
    }
    forall id
      ensures HasId(cs', id) <==> id != cs[i].id && HasId(cs, id)
    {
      DropIds(cs, i, id);
    }
    forall a
      ensures HasAddress(cs', a) <==> a != cs[i].address && HasAddress(cs, a)
    {
      DropAddresses(cs, i, a);
    }
  }

  lemma EntriesDistinct(d: Defaults, keys: KeyStore, cs: seq<Client>)
    requires Distinct(cs)
    ensures DistinctKeys(EntriesOf(d, keys, cs))
  {
    assert forall i :: 0 <= i < |cs| ==> EntriesOf(d, keys, cs)[i].pk == cs[i].pk;
  }

  lemma StoredIffIndexed(clients: map<ClientId, Client>, usedIPs: set<int>, cs: seq<Client>, id: ClientId)
    requires Indexed(clients, usedIPs, cs)
    ensures id in clients <==> HasId(cs, id)
  {
  }

  lemma IndexedIds(clients: map<ClientId, Client>, usedIPs: set<int>, cs: seq<Client>)
    requires Indexed(clients, usedIPs, cs)
    ensures forall id :: id in clients ==> clients[id].id == id && HasId(cs, id)
  {
    forall id | id in clients
      ensures clients[id].id == id
    {
      IndexedUnderOwnId(clients, usedIPs, cs, id);
    }
  }

  lemma StoredIsIndexed(clients: map<ClientId, Client>, usedIPs: set<int>, cs: seq<Client>, i: nat)
    requires Indexed(clients, usedIPs, cs) && i < |cs|
    ensures cs[i].id in clients && clients[cs[i].id] == cs[i]
  {
  }

  lemma IndexedUnderOwnId(clients: map<ClientId, Client>, usedIPs: set<int>, cs: seq<Client>, id: ClientId)
    requires Indexed(clients, usedIPs, cs) && id in clients
    ensures clients[id].id == id
  {
    assert HasId(cs, id);
    var i :| 0 <= i < |cs| && cs[i].id == id;
  }

  lemma IndexedSound(config: Config, d: Defaults, data: Data, clients: map<ClientId, Client>, usedIPs: set<int>, id: ClientId)
    requires Committed(config, d, data) && Indexed(clients, usedIPs, data.clients) && id in clients
    ensures clients[id].id == id && ClientSound(config, d, data.headerKeys, clients[id])
  {
    hide ClientSound;
    assert HasId(data.clients, id);
    var i :| 0 <= i < |data.clients| && data.clients[i].id == id;
    assert ClientSound(config, d, data.headerKeys, data.clients[i]);
  }

  lemma OnlyIndex(cs: seq<Client>, i: nat)
    requires Distinct(cs) && i < |cs|
    ensures forall j :: 0 <= j < |cs| && cs[j].id == cs[i].id ==> j == i
  {
  }

  lemma CommittedDistinct(config: Config, d: Defaults, data: Data)
    requires Committed(config, d, data)
    ensures Distinct(data.clients) && DistinctKeys(EntriesOf(d, data.headerKeys, data.clients))
  {
    hide AllSound, EntriesOf;
    EntriesDistinct(d, data.headerKeys, data.clients);
  }

  /** A committed client has a profile, and its entry is that profile with its keys. */
  lemma StoredEntry(config: Config, d: Defaults, data: Data, i: nat)
    requires Committed(config, d, data) && i < |data.clients|
    ensures var c := data.clients[i];
            && ProfileOf(d, data.headerKeys, c).Ok? && ProfileOf(d, data.headerKeys, c).value.validated
            && EntriesOf(d, data.headerKeys, data.clients)[i] == Entry(ProfileOf(d, data.headerKeys, c).value, c.pk, c.psk)
  {
    hide ClientSound, ProfileOf, EntryOf;
    assert ClientSound(config, d, data.headerKeys, data.clients[i]);
    SoundProfile(config, d, data.headerKeys, data.clients[i]);
  }

  /** Two committed clients share an interface exactly when their effective profiles agree on everything that matters. */
  lemma SharedInterfaceIff(config: Config, d: Defaults, keys: KeyStore, a: Client, b: Client)
    requires ClientSound(config, d, keys, a) && ClientSound(config, d, keys, b)
    ensures HeaderKey(a.version, keys, a.keyId).Ok? && HeaderKey(b.version, keys, b.keyId).Ok?
    ensures EntryOf(d, keys, a).profile.key == EntryOf(d, keys, b).profile.key <==>
            SameIdentity(a.version, EffectiveFor(d, a.version, a.params), HeaderKey(a.version, keys, a.keyId).value,
                         b.version, EffectiveFor(d, b.version, b.params), HeaderKey(b.version, keys, b.keyId).value)
  {
    hide StoredNormal, Acceptable, ValidHeaderKey, EffectiveFor, Preimage, Canonicalized, SameIdentity, ValidProfile,
         ValidOverrides;
    CanonicalFormSameKey(a.version, EffectiveFor(d, a.version, a.params), HeaderKey(a.version, keys, a.keyId).value);
    CanonicalFormSameKey(b.version, EffectiveFor(d, b.version, b.params), HeaderKey(b.version, keys, b.keyId).value);
    SameKeyIffSameIdentity(a.version, EffectiveFor(d, a.version, a.params), HeaderKey(a.version, keys, a.keyId).value,
                           b.version, EffectiveFor(d, b.version, b.params), HeaderKey(b.version, keys, b.keyId).value);
  }

  /** A 3.1 client's header key is the stored one it refers to; a 2.0 client has none. */
  lemma HeaderKeyIsReferenced(keys: KeyStore, c: Client)
    requires RefersSafely(keys, c)
    ensures HeaderKey(c.version, keys, c.keyId) == Ok(if c.version == V2 then None else Some(keys[c.keyId]))
  {
  }

  /** The defaults a client's unset parameters come from. */
  function DefaultsFor(d: Defaults, version: Version): AWGParams {
    match version
    case V2 => d.legacy
    case V31 => d.awg31
  }

  /** A client's profile asks for the port its stored parameters set, or else for the default's. */
  lemma ProfilePort(config: Config, d: Defaults, keys: KeyStore, c: Client)
    requires ClientSound(config, d, keys, c)
    ensures ProfileOf(d, keys, c).Ok?
    ensures ProfileOf(d, keys, c).value.port
            == if c.params.Some? && c.params.value.port > 0 then c.params.value.port else DefaultsFor(d, c.version).port
  {
    hide StoredNormal, Settable, Acceptable, ValidHeaderKey, Preimage, Canonicalized, Effective;
    if c.params.Some? {
      SetFieldsWin(DefaultsFor(d, c.version), c.params.value);
      UnsetFieldsInherit(DefaultsFor(d, c.version), c.params.value);
    } else {
      UnsetFieldsInherit(DefaultsFor(d, c.version), NO_PARAMS);
    }
  }

  /** A client whose stored parameters set a port is served at exactly that port, and nowhere else. */
  lemma ExplicitPortServed(config: Config, d: Defaults, data: Data, v: View, i: nat, k: PoolView.ProfileKey)
    requires Committed(config, d, data) && Agrees(v, EntriesOf(d, data.headerKeys, data.clients)) && i < |data.clients|
    requires data.clients[i].params.Some? && data.clients[i].params.value.port > 0
    ensures exists k :: Tracks(v, k, data.clients[i].pk)
    ensures Tracks(v, k, data.clients[i].pk) ==> v.slots[k].port == data.clients[i].params.value.port
  {
    hide ClientSound, ProfileOf, EntryOf, EntriesOf, Distinct, DistinctKeys, Agrees;
    var es := EntriesOf(d, data.headerKeys, data.clients);
    CommittedDistinct(config, d, data);
    StoredEntry(config, d, data, i);
    assert ClientSound(config, d, data.headerKeys, data.clients[i]);
    ProfilePort(config, d, data.headerKeys, data.clients[i]);
    EntryServed(v, es, i);
    TrackedOnce(v, es, i, k);
  }

  /** Set parameters, as the identity of an interface sees them, differ somewhere. */
  ghost predicate SetApart(o: AWGParams, p: AWGParams) {
    || (exists i :: 0 <= i < 3 && o.junk[i] > 0 && p.junk[i] > 0 && o.junk[i] != p.junk[i])
    || (exists i :: 0 <= i < 4 && o.padding[i] > 0 && p.padding[i] > 0 && o.padding[i] != p.padding[i])
    || (exists i :: 0 <= i < 4 && o.headers[i] != "" && p.headers[i] != "" && ParseHeader(o.headers[i]) != ParseHeader(p.headers[i]))
    || (exists i :: 0 <= i < 6 && o.ranges[i].Some? && p.ranges[i].Some?
                    && CanonicalOption(o.ranges[i]) != CanonicalOption(p.ranges[i]))
    || (exists i :: 0 <= i < 2 && o.toggles[i] != "" && p.toggles[i] != "" && o.toggles[i] != p.toggles[i])
  }

  lemma EffectiveApart(base: AWGParams, o: AWGParams, p: AWGParams, version: Version, key: Option<seq<int>>, key': Option<seq<int>>)
    requires SetApart(o, p)
    ensures !SameIdentity(version, Effective(base, Some(o)), key, version, Effective(base, Some(p)), key')
  {
    hide Effective, ParseHeader, CanonicalOption;
    SetFieldsWin(base, o);
    SetFieldsWin(base, p);
    var e, f := Effective(base, Some(o)), Effective(base, Some(p));
    if i :| 0 <= i < 6 && o.ranges[i].Some? && p.ranges[i].Some? && CanonicalOption(o.ranges[i]) != CanonicalOption(p.ranges[i]) {
      assert CanonicalRanges(e.ranges)[i] != CanonicalRanges(f.ranges)[i];
    }
  }

  /** Clients that set different J, S, H, range or toggle values never share an interface; nor do clients of two versions. */
  lemma DifferentOverridesApart(config: Config, d: Defaults, keys: KeyStore, a: Client, b: Client)
    requires ClientSound(config, d, keys, a) && ClientSound(config, d, keys, b)
    requires a.version != b.version || (a.params.Some? && b.params.Some? && SetApart(a.params.value, b.params.value))
    ensures EntryOf(d, keys, a).profile.key != EntryOf(d, keys, b).profile.key
  {
    hide ClientSound, EntryOf, HeaderKey, SetApart, Effective, SameIdentity;
    SharedInterfaceIff(config, d, keys, a, b);
    if a.version == b.version {
      EffectiveApart(DefaultsFor(d, a.version), a.params.value, b.params.value, a.version,
                     HeaderKey(a.version, keys, a.keyId).value, HeaderKey(b.version, keys, b.keyId).value);
    } else {
      VersionsApart(a.version, EffectiveFor(d, a.version, a.params), HeaderKey(a.version, keys, a.keyId).value,
                    b.version, EffectiveFor(d, b.version, b.params), HeaderKey(b.version, keys, b.keyId).value);
    }
  }

  lemma VersionsApart(version: Version, p: AWGParams, key: Option<seq<int>>,
                      version': Version, p': AWGParams, key': Option<seq<int>>)
    ensures version != version' ==> !SameIdentity(version, p, key, version', p', key')
  {
    hide ParseHeader;
  }

  /** 3.1 clients on different header keys never share an interface. */
  lemma DifferentKeysApart(config: Config, d: Defaults, keys: KeyStore, a: Client, b: Client)
    requires ClientSound(config, d, keys, a) && ClientSound(config, d, keys, b)
    requires a.version == V31 && b.version == V31 && a.keyId in keys && b.keyId in keys && keys[a.keyId] != keys[b.keyId]
    ensures EntryOf(d, keys, a).profile.key != EntryOf(d, keys, b).profile.key
  {
    hide StoredNormal, Settable, Acceptable, ValidHeaderKey, EntryOf, EffectiveFor, ParseHeader, CanonicalRanges;
    SharedInterfaceIff(config, d, keys, a, b);
    HeaderKeyIsReferenced(keys, a);
    HeaderKeyIsReferenced(keys, b);
  }

  // ---------------------------------------------------------------------------------------------
  // Groups and the chain
  // ---------------------------------------------------------------------------------------------

  /** With the chain of the clients installed, two of them may talk exactly when they are in one group. */
  lemma GroupsDecide(cs: seq<Client>, i: nat, j: nat)
    requires Distinct(cs) && i < |cs| && j < |cs|
    ensures Firewall.Accepts(Firewall.Chain(LanPeers(cs)), cs[i].address, cs[j].address) <==> cs[i].group == cs[j].group
  {
    hide Firewall.Chain, Firewall.Accepts, LanPeers;
    Firewall.ChainMeaning(LanPeers(cs), cs[i].address, cs[j].address);
    GroupsOfPeers(cs, cs[i].address, cs[j].address);
  }

  /** No traffic in either direction between the client and any other of these whose group is not the text. */
  ghost predicate Isolated(chain: seq<Firewall.Rule>, cs: seq<Client>, c: Client, group: string) {
    forall i :: 0 <= i < |cs| && cs[i].group != group ==>
      && !Firewall.Accepts(chain, c.address, cs[i].address)
      && !Firewall.Accepts(chain, cs[i].address, c.address)
  }

  /** A newcomer talks to nobody outside its group. */
  lemma NewcomerIsolated(cs: seq<Client>, c: Client)
    requires Distinct(cs + [c])
    ensures Isolated(Firewall.Chain(LanPeers(cs + [c])), cs, c, c.group)
  {
    hide Firewall.Chain, Firewall.Accepts, LanPeers, Distinct;
    var all := cs + [c];
    assert all[|cs|] == c;
    forall i | 0 <= i < |cs| && cs[i].group != c.group
      ensures !Firewall.Accepts(Firewall.Chain(LanPeers(all)), c.address, cs[i].address)
      ensures !Firewall.Accepts(Firewall.Chain(LanPeers(all)), cs[i].address, c.address)
    {
      assert all[i] == cs[i];
      GroupsDecide(all, i, |cs|);
      GroupsDecide(all, |cs|, i);
    }
  }
}
