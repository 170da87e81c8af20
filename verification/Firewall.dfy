/** LAN isolation: the AWG-LAN chain rendered from client addresses and groups, under first-match evaluation. */
module Firewall {
  import opened Wrappers
  import opened Sorting
  import opened Ipv4Ranges
  import opened CidrBlocks

  datatype LanPeer = LanPeer(address: int, group: string)

  datatype Rule = Accept(src: int, dst: int) | Drop

  datatype FirewallError = InvalidAddress | OutsideNetwork | EmptyGroup | DuplicateAddress | HostFailure

  /** First match wins; a packet that leaves the chain unmatched is not accepted by it. */
  predicate Accepts(chain: seq<Rule>, src: int, dst: int) {
    if chain == [] then false
    else
      match chain[0]
      case Accept(s, d) => (s == src && d == dst) || Accepts(chain[1..], src, dst)
      case Drop => false
  }

  /** The pair the group policy allows. */
  ghost predicate SameGroup(peers: seq<LanPeer>, src: int, dst: int) {
    exists i, j :: 0 <= i < |peers| && 0 <= j < |peers|
                   && peers[i].address == src && peers[j].address == dst && peers[i].group == peers[j].group
  }

  predicate Permitted(p: LanPeer, network: Prefix)
    requires WellFormed(network)
  {
    0 <= p.address < ADDRESS_LIMIT && Has(network, p.address) && p.group != ""
  }

  /** What rendering demands of its peers. */
  ghost predicate Renderable(peers: seq<LanPeer>, network: Prefix)
    requires WellFormed(network)
  {
    && (forall i :: 0 <= i < |peers| ==> Permitted(peers[i], network))
    && (forall i, j :: 0 <= i < j < |peers| ==> peers[i].address != peers[j].address)
  }

  /** In plain terms: 32-bit addresses of the network, all different, and a group for everyone. */
  lemma RenderableIff(peers: seq<LanPeer>, network: Prefix)
    requires WellFormed(network)
    ensures Renderable(peers, network) <==>
            && (forall i :: 0 <= i < |peers| ==>
                  && 0 <= peers[i].address < 0x1_0000_0000 && peers[i].group != ""
                  && network.addr <= peers[i].address < network.addr + Size(network))
            && (forall i, j :: 0 <= i < |peers| && 0 <= j < |peers| && i != j ==> peers[i].address != peers[j].address)
  {
    hide Size;
    if Renderable(peers, network) {
      forall i | 0 <= i < |peers|
        ensures Permitted(peers[i], network)
      {
      }
    }
  }

  function Address(p: LanPeer): int {
    p.address
  }

  function SortPeers(peers: seq<LanPeer>): (s: seq<LanPeer>)
    ensures multiset(s) == multiset(peers) && |s| == |peers|
  {
    Sort(peers, Address)
  }

  /** One accept rule for every destination in the source's group. */
  function RowRules(source: LanPeer, peers: seq<LanPeer>): (rs: seq<Rule>) {
    if peers == [] then []
    else
      var n := |peers| - 1;
      RowRules(source, peers[..n])
      + (if source.group == peers[n].group then [Accept(source.address, peers[n].address)] else [])
  }

  function PairRules(sources: seq<LanPeer>, peers: seq<LanPeer>): (rs: seq<Rule>) {
    if sources == [] then []
    else PairRules(sources[..|sources| - 1], peers) + RowRules(sources[|sources| - 1], peers)
  }

  function Chain(peers: seq<LanPeer>): (chain: seq<Rule>) {
    PairRules(SortPeers(peers), SortPeers(peers)) + [Drop]
  }

  ghost predicate AllAccept(rs: seq<Rule>) {
    forall i :: 0 <= i < |rs| ==> rs[i].Accept?
  }

  lemma {:induction false} AcceptsThenDrop(rs: seq<Rule>, src: int, dst: int)
    requires AllAccept(rs)
    ensures Accepts(rs + [Drop], src, dst) <==> Accept(src, dst) in rs
  {
    if rs == [] {
    } else {
      AcceptsThenDrop(rs[1..], src, dst);
      assert (rs + [Drop])[1..] == rs[1..] + [Drop];
      assert Accept(src, dst) in rs <==> Accept(src, dst) == rs[0] || Accept(src, dst) in rs[1..];
    }
  }

  /** The destination is a peer of the source's group. */
  ghost predicate RowPair(source: LanPeer, peers: seq<LanPeer>, src: int, dst: int) {
    source.address == src && exists j :: 0 <= j < |peers| && peers[j].address == dst && peers[j].group == source.group
  }

  lemma {:induction false} RowMeaning(source: LanPeer, peers: seq<LanPeer>, src: int, dst: int)
    ensures AllAccept(RowRules(source, peers))
    ensures Accept(src, dst) in RowRules(source, peers) <==> RowPair(source, peers, src, dst)
  {
    if peers != [] {
      var n := |peers| - 1;
      RowMeaning(source, peers[..n], src, dst);
      assert forall j :: 0 <= j < n ==> peers[..n][j] == peers[j];
    }
  }

  ghost predicate SomeRow(sources: seq<LanPeer>, peers: seq<LanPeer>, src: int, dst: int) {
    exists i :: 0 <= i < |sources| && RowPair(sources[i], peers, src, dst)
  }

  lemma {:induction false} PairMeaning(sources: seq<LanPeer>, peers: seq<LanPeer>, src: int, dst: int)
    ensures AllAccept(PairRules(sources, peers))
    ensures Accept(src, dst) in PairRules(sources, peers) <==> SomeRow(sources, peers, src, dst)
  {
    hide RowPair, RowRules;
    if sources != [] {
      var n := |sources| - 1;
      PairMeaning(sources[..n], peers, src, dst);
      RowMeaning(sources[n], peers, src, dst);
      assert forall i :: 0 <= i < n ==> sources[..n][i] == sources[i];
    }
  }

  lemma SomeRowIsGroup(peers: seq<LanPeer>, src: int, dst: int)
    ensures SomeRow(peers, peers, src, dst) <==> SameGroup(peers, src, dst)
  {
    if SomeRow(peers, peers, src, dst) {
      var i :| 0 <= i < |peers| && RowPair(peers[i], peers, src, dst);
    }
    if SameGroup(peers, src, dst) {
      var i, j :| 0 <= i < |peers| && 0 <= j < |peers|
                  && peers[i].address == src && peers[j].address == dst && peers[i].group == peers[j].group;
      assert RowPair(peers[i], peers, src, dst);
    }
  }

  lemma SortedGroups(peers: seq<LanPeer>, other: seq<LanPeer>, src: int, dst: int)
    requires multiset(other) == multiset(peers) && SameGroup(other, src, dst)
    ensures SameGroup(peers, src, dst)
  {
    var i, j :| 0 <= i < |other| && 0 <= j < |other|
                && other[i].address == src && other[j].address == dst && other[i].group == other[j].group;
    SameElements(other, peers, other[i]);
    SameElements(other, peers, other[j]);
    var a :| 0 <= a < |peers| && peers[a] == other[i];
    var b :| 0 <= b < |peers| && peers[b] == other[j];
  }

  /** The chain accepts exactly the pairs of peers in one group. */
  lemma ChainMeaning(peers: seq<LanPeer>, src: int, dst: int)
    ensures Accepts(Chain(peers), src, dst) <==> SameGroup(peers, src, dst)
  {
    hide PairRules, SortPeers, SomeRow, SameGroup;
    var s := SortPeers(peers);
    PairMeaning(s, s, src, dst);
    SomeRowIsGroup(s, src, dst);
    AcceptsThenDrop(PairRules(s, s), src, dst);
    if SameGroup(s, src, dst) {
      SortedGroups(peers, s, src, dst);
    }
    if SameGroup(peers, src, dst) {
      SortedGroups(s, peers, src, dst);
    }
  }

  lemma NoPeersBlockAll(src: int, dst: int)
    ensures !Accepts(Chain([]), src, dst)
  {
    ChainMeaning([], src, dst);
  }

  method RenderLANFirewall(network: Prefix, peers: seq<LanPeer>) returns (r: Result<seq<Rule>, FirewallError>)
    requires WellFormed(network)
    ensures r.Ok? <==> Renderable(peers, network)
    ensures r.Ok? ==> r.value == Chain(peers)
    ensures r.Err? ==> r.error != HostFailure
  {
    var addresses: set<int> := {};
    var i := 0;
    while i < |peers|
      invariant 0 <= i <= |peers|
      invariant Renderable(peers[..i], network)
      invariant forall a :: a in addresses <==> exists k :: 0 <= k < i && peers[k].address == a
    {
      assert Renderable(peers, network) ==> Permitted(peers[i], network);
      if !(0 <= peers[i].address < ADDRESS_LIMIT) {
        return Err(InvalidAddress);
      }
      if !Has(network, peers[i].address) {
        return Err(OutsideNetwork);
      }
      if peers[i].group == "" {
        return Err(EmptyGroup);
      }
      if peers[i].address in addresses {
        return Err(DuplicateAddress);
      }
      addresses := addresses + {peers[i].address};
      i := i + 1;
    }
    assert peers[..i] == peers;
    var chain := EmitRules(SortPeers(peers));
    return Ok(chain);
  }

  /** The nested loops over the sorted peers. */
  method EmitRules(normalized: seq<LanPeer>) returns (rules: seq<Rule>)
    ensures rules == PairRules(normalized, normalized) + [Drop]
  {
    rules := [];
    var i := 0;
    while i < |normalized|
      invariant 0 <= i <= |normalized|
      invariant rules == PairRules(normalized[..i], normalized)
    {
      var source := normalized[i];
      var row: seq<Rule> := [];
      var j := 0;
      while j < |normalized|
        invariant 0 <= j <= |normalized|
        invariant row == RowRules(source, normalized[..j])
      {
        assert normalized[..j + 1][..j] == normalized[..j];
        if source.group == normalized[j].group {
          row := row + [Accept(source.address, normalized[j].address)];
        }
        j := j + 1;
      }
      assert normalized[..j] == normalized;
      assert normalized[..i + 1][..i] == normalized[..i];
      rules := rules + row;
      i := i + 1;
    }
    assert normalized[..i] == normalized;
    rules := rules + [Drop];
  }

  /** The installed chain; restoring a rule set takes full effect or none. */
  class Table {
    const network: Prefix
    var chain: seq<Rule>
    ghost var failures: nat

    constructor (network: Prefix)
      ensures this.network == network && chain == Chain([]) && failures == 0
    {
      this.network := network;
      chain := Chain([]);
      failures := 0;
    }

    method ApplyLANIsolation(peers: seq<LanPeer>) returns (r: Result<(), FirewallError>)
      requires WellFormed(network)
      modifies this
      ensures r.Ok? ==> Renderable(peers, network) && chain == Chain(peers)
      ensures r.Err? ==> chain == old(chain)
      ensures Renderable(peers, network) ==> r.Ok? || r == Err(HostFailure)
      ensures failures == old(failures) + (if r == Err(HostFailure) then 1 else 0)
    {
      var hookInspected: bool := *;
      if !hookInspected {
        failures := failures + 1;
        return Err(HostFailure);
      }
      var rules := RenderLANFirewall(network, peers);
      if rules.Err? {
        return Err(rules.error);
      }
      var restored: bool := *;
      if !restored {
        failures := failures + 1;
        return Err(HostFailure);
      }
      chain := rules.value;
      return Ok(());
    }
  }
}
