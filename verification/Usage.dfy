/** Usage accounting over kernel counters that grow, fall back to zero, and are sampled now and then. */
module Usage {
  import opened Wrappers
  import opened PoolView

  // ---------------------------------------------------------------------------------------------
  // The collector
  // ---------------------------------------------------------------------------------------------

  datatype Counter = Counter(total: nat, last: nat)

  datatype Stats = Stats(rx: Counter, tx: Counter, handshake: nat)

  /** One peer row of an interface dump; handshake 0 means none yet. */
  datatype Dump = Dump(pk: PublicKey, rx: nat, tx: nat, handshake: nat)

  const FRESH := Stats(Counter(0, 0), Counter(0, 0), 0)

  function Delta(last: nat, raw: nat): nat {
    if raw < last then raw else raw - last
  }

  function Absorb(c: Counter, raw: nat): Counter {
    Counter(c.total + Delta(c.last, raw), raw)
  }

  function StatsOf(stats: map<PublicKey, Stats>, pk: PublicKey): Stats {
    if pk in stats then stats[pk] else FRESH
  }

  function Absorbed(stats: map<PublicKey, Stats>, p: Dump): map<PublicKey, Stats> {
    var s := StatsOf(stats, p.pk);
    stats[p.pk := Stats(Absorb(s.rx, p.rx), Absorb(s.tx, p.tx), if p.handshake != 0 then p.handshake else s.handshake)]
  }

  function Accumulated(stats: map<PublicKey, Stats>, ps: seq<Dump>): (r: map<PublicKey, Stats>) {
    if ps == [] then stats else Absorbed(Accumulated(stats, ps[..|ps| - 1]), ps[|ps| - 1])
  }

  /** None is a dump that failed. */
  function Gathered(results: seq<Option<seq<Dump>>>): (ps: seq<Dump>) {
    if results == [] then []
    else
      var last := results[|results| - 1];
      Gathered(results[..|results| - 1]) + (if last.Some? then last.value else [])
  }

  predicate Complete(results: seq<Option<seq<Dump>>>) {
    forall i :: 0 <= i < |results| ==> results[i].Some? && results[i].value != []
  }

  /** The rows are those of the dumps that succeeded, and no others. */
  lemma {:induction false} GatheredRows(results: seq<Option<seq<Dump>>>, p: Dump)
    ensures p in Gathered(results) <==> exists i :: 0 <= i < |results| && results[i].Some? && p in results[i].value
  {
    if results != [] {
      var n := |results| - 1;
      GatheredRows(results[..n], p);
      assert forall i :: 0 <= i < n ==> results[..n][i] == results[i];
    }
  }

  /** Row i is the last one that tells of a handshake of this peer. */
  ghost predicate LastHandshake(ps: seq<Dump>, i: nat, pk: PublicKey) {
    i < |ps| && ps[i].pk == pk && ps[i].handshake != 0 && NoHandshake(ps, i + 1, pk)
  }

  ghost predicate NoHandshake(ps: seq<Dump>, from: nat, pk: PublicKey) {
    forall j :: from <= j < |ps| ==> ps[j].pk != pk || ps[j].handshake == 0
  }

  /** A peer's handshake becomes the last one seen, and stays when none is seen. */
  lemma {:induction false} HandshakeIsLastSeen(stats: map<PublicKey, Stats>, ps: seq<Dump>, pk: PublicKey, i: nat)
    ensures LastHandshake(ps, i, pk) ==> StatsOf(Accumulated(stats, ps), pk).handshake == ps[i].handshake
    ensures NoHandshake(ps, 0, pk) ==> StatsOf(Accumulated(stats, ps), pk).handshake == StatsOf(stats, pk).handshake
  {
    if ps != [] {
      var n := |ps| - 1;
      HandshakeIsLastSeen(stats, ps[..n], pk, i);
      assert i < n && LastHandshake(ps, i, pk) ==> LastHandshake(ps[..n], i, pk);
      assert NoHandshake(ps, 0, pk) ==> NoHandshake(ps[..n], 0, pk);
    }
  }

  /** What a guarded action does is not the collector's business; only whether it was started is. */
  class Action {
    ghost var runs: nat

    constructor ()
      ensures runs == 0
    {
      runs := 0;
    }

    method Perform() returns (ok: bool)
      modifies this
      ensures runs == old(runs) + 1
    {
      runs := runs + 1;
      ok := *;
    }
  }

  class Collector {
    var stats: map<PublicKey, Stats>

    constructor ()
      ensures stats == map[]
    {
      stats := map[];
    }

    /** Takes all dumps first; a required snapshot that is incomplete changes nothing. */
    method CollectDumps(results: seq<Option<seq<Dump>>>, requireComplete: bool) returns (ok: bool)
      modifies this
      ensures ok <==> !requireComplete || Complete(results)
      ensures stats == if ok then Accumulated(old(stats), Gathered(results)) else old(stats)
    {
      var allPeers: seq<Dump> := [];
      var i := 0;
      while i < |results|
        invariant 0 <= i <= |results| && allPeers == Gathered(results[..i]) && stats == old(stats)
        invariant requireComplete ==> Complete(results[..i])
      {
        assert results[..i + 1][..i] == results[..i];
        if results[i].None? || results[i].value == [] {
          if requireComplete {
            return false;
          }
          i := i + 1;
          continue;
        }
        allPeers := allPeers + results[i].value;
        i := i + 1;
      }
      assert results[..i] == results;
      i := 0;
      while i < |allPeers|
        invariant 0 <= i <= |allPeers| && stats == Accumulated(old(stats), allPeers[..i])
      {
        assert allPeers[..i + 1][..i] == allPeers[..i];
        UpdatePeer(allPeers[i]);
        i := i + 1;
      }
      assert allPeers[..i] == allPeers;
      return true;
    }

    method UpdatePeer(p: Dump)
      modifies this
      ensures stats == Absorbed(old(stats), p)
    {
      if p.pk !in stats {
        stats := stats[p.pk := Stats(Counter(p.rx, p.rx), Counter(p.tx, p.tx), 0)];
      } else {
        var s := stats[p.pk];
        var deltaRx, deltaTx;
        if p.rx < s.rx.last {
          deltaRx := p.rx;
        } else {
          deltaRx := p.rx - s.rx.last;
        }
        if p.tx < s.tx.last {
          deltaTx := p.tx;
        } else {
          deltaTx := p.tx - s.tx.last;
        }
        stats := stats[p.pk := Stats(Counter(s.rx.total + deltaRx, p.rx), Counter(s.tx.total + deltaTx, p.tx), s.handshake)];
      }
      if p.handshake != 0 {
        stats := stats[p.pk := stats[p.pk].(handshake := p.handshake)];
      }
    }

    /** The action runs once after a complete snapshot, and not at all after an incomplete one. */
    method WithRequiredSnapshot(results: seq<Option<seq<Dump>>>, action: Action) returns (ok: bool)
      modifies this, action
      ensures (forall i :: 0 <= i < |results| ==> results[i].Some? && results[i].value != []) ==>
                stats == Accumulated(old(stats), Gathered(results)) && action.runs == old(action.runs) + 1
      ensures (exists i :: 0 <= i < |results| && (results[i].None? || results[i].value == [])) ==>
                !ok && stats == old(stats) && action.runs == old(action.runs)
    {
      var snapshot := CollectDumps(results, true);
      if !snapshot {
        return false;
      }
      ok := action.Perform();
    }
  }

  // ---------------------------------------------------------------------------------------------
  // One counter against the truth
  // ---------------------------------------------------------------------------------------------

  datatype Event = Grow(n: nat) | Reset | Sample

  /**
   raw is what the kernel shows and counter what the collector has made of it. For the gap since the last sample:
   dropped says that the kernel counter fell to zero, and hidden is the traffic before its last fall. lost adds up what
   each sample could not see.
   */
  datatype Meter = Meter(raw: nat, counter: Counter, dropped: bool, hidden: nat, lost: nat)

  const ZERO := Meter(0, Counter(0, 0), false, 0, 0)

  /** Traffic of the current gap. */
  function Pending(m: Meter): int {
    if m.dropped then m.hidden + m.raw else m.raw - m.counter.last
  }

  /** Traffic a sample taken now would not see: everything before a fall, and a fall that has been overtaken. */
  function Unseen(m: Meter): nat {
    if !m.dropped then 0 else m.hidden + (if m.raw >= m.counter.last then m.counter.last else 0)
  }

  function Advance(m: Meter, e: Event): Meter {
    match e
    case Grow(n) => m.(raw := m.raw + n)
    case Reset => m.(raw := 0, dropped := true, hidden := if Pending(m) >= 0 then Pending(m) else 0)
    case Sample => Meter(m.raw, Absorb(m.counter, m.raw), false, 0, m.lost + Unseen(m))
  }

  function Metered(es: seq<Event>): (m: Meter) {
    if es == [] then ZERO else Advance(Metered(es[..|es| - 1]), es[|es| - 1])
  }

  /** The true cumulative traffic. */
  function Traffic(es: seq<Event>): (n: nat) {
    if es == [] then 0
    else
      var e := es[|es| - 1];
      Traffic(es[..|es| - 1]) + (if e.Grow? then e.n else 0)
  }

  /** Traffic is the total, plus exactly what the samples could not see, plus what is not sampled yet. */
  lemma {:induction false} ExactAccount(es: seq<Event>)
    ensures var m := Metered(es); Traffic(es) == m.counter.total + m.lost + Pending(m) && Pending(m) >= 0
  {
    if es != [] {
      ExactAccount(es[..|es| - 1]);
    }
  }

  /** Totals never exceed the true traffic, and right after a sample they differ from it by the unseen traffic alone. */
  lemma NeverOverCounts(es: seq<Event>)
    ensures Metered(es).counter.total <= Traffic(es)
    ensures es != [] && es[|es| - 1] == Sample ==> Traffic(es) == Metered(es).counter.total + Metered(es).lost
  {
    ExactAccount(es);
  }

  /** Totals never decrease. */
  lemma {:induction false} TotalsGrow(es: seq<Event>, i: nat)
    requires i <= |es|
    ensures Metered(es[..i]).counter.total <= Metered(es).counter.total
    ensures Metered(es[..i]).lost <= Metered(es).lost
  {
    if i == |es| {
      assert es[..i] == es;
    } else {
      TotalsGrow(es[..|es| - 1], i);
      assert es[..|es| - 1][..i] == es[..i];
    }
  }

  // ---------------------------------------------------------------------------------------------
  // When nothing is missed, said of the events alone
  // ---------------------------------------------------------------------------------------------

  /** What the kernel shows: the growth since the last reset. */
  function Shown(es: seq<Event>): (n: nat) {
    if es == [] then 0
    else
      match es[|es| - 1]
      case Grow(n) => Shown(es[..|es| - 1]) + n
      case Reset => 0
      case Sample => Shown(es[..|es| - 1])
  }

  /** Where the gap that ends at position i begins: right after the sample before it. */
  function GapStart(es: seq<Event>, i: nat): (s: nat)
    requires i <= |es|
    ensures s <= i
  {
    if i == 0 || es[i - 1] == Sample then i else GapStart(es, i - 1)
  }

  ghost predicate NoReset(es: seq<Event>, from: nat, to: nat)
    requires from <= to <= |es|
  {
    forall j :: from <= j < to ==> es[j] != Reset
  }

  ghost predicate LastReset(es: seq<Event>, from: nat, r: nat, to: nat)
    requires from <= to <= |es|
  {
    from <= r < to && es[r] == Reset && NoReset(es, r + 1, to)
  }

  /**
   The sample at position i sees its whole gap: no reset in it, or nothing grew before its last reset and the growth since
   then is below the value of the sample before, so that it shows as a drop (or that value was 0).
   */
  ghost predicate SeesGap(es: seq<Event>, i: nat)
    requires i <= |es|
  {
    var s := GapStart(es, i);
    || NoReset(es, s, i)
    || exists r: nat :: && LastReset(es, s, r, i)
                        && Traffic(es[s..r]) == 0
                        && (Traffic(es[r + 1..i]) < Shown(es[..s]) || Shown(es[..s]) == 0)
  }

  lemma GapStartInPrefix(es: seq<Event>, i: nat, n: nat)
    requires i <= n <= |es|
    ensures GapStart(es[..n], i) == GapStart(es, i)
  {
    if i > 0 && es[i - 1] != Sample {
      GapStartInPrefix(es, i - 1, n);
    }
  }

  lemma TrafficNext(es: seq<Event>, s: nat)
    requires es != [] && s < |es|
    ensures var n := |es| - 1; Traffic(es[s..]) == Traffic(es[s..n]) + (if es[n].Grow? then es[n].n else 0)
  {
    assert es[s..][..|es| - 1 - s] == es[s..|es| - 1];
  }

  /** The meter's view of the current gap is what the events say. */
  ghost predicate GapRead(es: seq<Event>) {
    var m, s := Metered(es), GapStart(es, |es|);
    && m.raw == Shown(es)
    && m.counter.last == Shown(es[..s])
    && Pending(m) == Traffic(es[s..])
    && (m.dropped <==> !NoReset(es, s, |es|))
    && (forall r: nat :: LastReset(es, s, r, |es|) ==> m.hidden == Traffic(es[s..r]) && m.raw == Traffic(es[r + 1..]))
  }

  lemma {:induction false} GapMeaning(es: seq<Event>)
    ensures GapRead(es)
  {
    if es != [] {
      GapMeaning(es[..|es| - 1]);
      match es[|es| - 1]
      case Sample => AfterSample(es);
      case Reset => AfterReset(es);
      case Grow(n) => AfterGrow(es);
    }
  }

  lemma AfterSample(es: seq<Event>)
    requires es != [] && es[|es| - 1] == Sample && GapRead(es[..|es| - 1])
    ensures GapRead(es)
  {
    assert es[..|es|] == es && es[|es|..] == [];
  }

  lemma AfterReset(es: seq<Event>)
    requires es != [] && es[|es| - 1] == Reset && GapRead(es[..|es| - 1])
    ensures GapRead(es)
  {
    var n := |es| - 1;
    var s := GapStart(es, n);
    GapStartInPrefix(es, n, n);
    assert es[..n][..s] == es[..s] && es[..n][s..] == es[s..n];
    TrafficNext(es, s);
    assert es[n + 1..] == [];
    assert !NoReset(es, s, |es|);
    assert forall r: nat :: LastReset(es, s, r, |es|) ==> r == n;
  }

  lemma AfterGrow(es: seq<Event>)
    requires es != [] && es[|es| - 1].Grow? && GapRead(es[..|es| - 1])
    ensures GapRead(es)
  {
    var n := |es| - 1;
    var before, s := es[..n], GapStart(es, n);
    GapStartInPrefix(es, n, n);
    assert before[..s] == es[..s] && before[s..] == es[s..n];
    TrafficNext(es, s);
    assert NoReset(es, s, |es|) <==> NoReset(before, s, n);
    forall r: nat | LastReset(es, s, r, |es|)
      ensures Metered(es).hidden == Traffic(es[s..r]) && Metered(es).raw == Traffic(es[r + 1..])
    {
      SameLastReset(es, s, r);
    }
  }

  /** Growth after the last reset adds to what is shown and leaves what is hidden. */
  lemma SameLastReset(es: seq<Event>, s: nat, r: nat)
    requires es != [] && es[|es| - 1].Grow? && s <= |es| - 1 && LastReset(es, s, r, |es|)
    requires GapRead(es[..|es| - 1]) && GapStart(es[..|es| - 1], |es| - 1) == s
    ensures Metered(es).hidden == Traffic(es[s..r]) && Metered(es).raw == Traffic(es[r + 1..])
  {
    hide Traffic, Shown;
    var n := |es| - 1;
    var before := es[..n];
    assert NoReset(before, r + 1, n);
    assert LastReset(before, s, r, n);
    assert before[s..r] == es[s..r] && before[r + 1..] == es[r + 1..n];
    TrafficNext(es, r + 1);
  }

  lemma {:induction false} ResetIsLast(es: seq<Event>, from: nat, to: nat) returns (r: nat)
    requires from <= to <= |es| && !NoReset(es, from, to)
    ensures LastReset(es, from, r, to)
  {
    if es[to - 1] == Reset {
      r := to - 1;
    } else {
      r := ResetIsLast(es, from, to - 1);
    }
  }

  /** What a sample at the end would not see, said of the events. */
  lemma UnseenIff(es: seq<Event>)
    ensures Unseen(Metered(es)) == 0 <==> SeesGap(es, |es|)
  {
    hide Metered, Shown, Traffic;
    GapMeaning(es);
    var s := GapStart(es, |es|);
    if !NoReset(es, s, |es|) {
      var r := ResetIsLast(es, s, |es|);
      assert es[r + 1..|es|] == es[r + 1..];
      assert forall q: nat :: LastReset(es, s, q, |es|) ==> q == r;
    }
  }

  lemma SeesGapInPrefix(es: seq<Event>, i: nat, n: nat)
    requires i <= n <= |es|
    ensures SeesGap(es[..n], i) <==> SeesGap(es, i)
  {
    hide Traffic, Shown;
    var p, s := es[..n], GapStart(es, i);
    GapStartInPrefix(es, i, n);
    assert p[..s] == es[..s];
    forall r | s <= r < i
      ensures p[s..r] == es[s..r] && p[r + 1..i] == es[r + 1..i]
      ensures LastReset(p, s, r, i) <==> LastReset(es, s, r, i)
    {
    }
  }

  /** Nothing is lost exactly when every sample sees its whole gap. */
  lemma {:induction false} LossFreeIff(es: seq<Event>)
    ensures Metered(es).lost == 0 <==> forall i :: 0 <= i < |es| && es[i] == Sample ==> SeesGap(es, i)
  {
    hide SeesGap, Unseen;
    if es != [] {
      var n := |es| - 1;
      LossFreeIff(es[..n]);
      forall i | 0 <= i < n
        ensures SeesGap(es[..n], i) <==> SeesGap(es, i)
      {
        SeesGapInPrefix(es, i, n);
      }
      SeesGapInPrefix(es, n, n);
      UnseenIff(es[..n]);
    }
  }

  /** After a sample the total is the true traffic exactly when every sample so far saw its whole gap. */
  lemma ExactIff(es: seq<Event>)
    requires es != [] && es[|es| - 1] == Sample
    ensures Metered(es).counter.total == Traffic(es) <==> forall i :: 0 <= i < |es| && es[i] == Sample ==> SeesGap(es, i)
  {
    hide SeesGap;
    NeverOverCounts(es);
    LossFreeIff(es);
  }

  /** The gap has one reset at most, right after the sample before it, and what grew since shows as a drop. */
  ghost predicate PromptReset(es: seq<Event>, i: nat)
    requires i <= |es|
  {
    var s := GapStart(es, i);
    || NoReset(es, s, i)
    || (s < i && es[s] == Reset && NoReset(es, s + 1, i) && Traffic(es[s + 1..i]) < Shown(es[..s]))
  }

  /** Resets that happen right after a sample and show as a drop cost nothing. */
  lemma PromptResetsExact(es: seq<Event>)
    requires es != [] && es[|es| - 1] == Sample
    requires forall i :: 0 <= i < |es| && es[i] == Sample ==> PromptReset(es, i)
    ensures Metered(es).counter.total == Traffic(es)
  {
    hide Metered, Shown;
    forall i | 0 <= i < |es| && es[i] == Sample
      ensures SeesGap(es, i)
    {
      var s := GapStart(es, i);
      if !NoReset(es, s, i) {
        assert PromptReset(es, i);
        assert LastReset(es, s, s, i) && Traffic(es[s..s]) == 0;
      }
    }
    ExactIff(es);
  }

  // ---------------------------------------------------------------------------------------------
  // All peers together
  // ---------------------------------------------------------------------------------------------

  datatype Raw = Raw(rx: nat, tx: nat)

  /** Kernel counters move, a peer's counters fall to zero, or a collection reads the peers it can reach. */
  datatype SystemEvent =
    | Transfer(pk: PublicKey, rx: nat, tx: nat)
    | Restart(pk: PublicKey)
    | Collection(seen: seq<PublicKey>)

  datatype World = World(kernel: map<PublicKey, Raw>, stats: map<PublicKey, Stats>)

  function RawOf(kernel: map<PublicKey, Raw>, pk: PublicKey): Raw {
    if pk in kernel then kernel[pk] else Raw(0, 0)
  }

  function DumpsOf(kernel: map<PublicKey, Raw>, seen: seq<PublicKey>): (ps: seq<Dump>)
    ensures |ps| == |seen|
    ensures forall i :: 0 <= i < |seen| ==> ps[i] == Dump(seen[i], RawOf(kernel, seen[i]).rx, RawOf(kernel, seen[i]).tx, 0)
  {
    seq(|seen|, i requires 0 <= i < |seen| => Dump(seen[i], RawOf(kernel, seen[i]).rx, RawOf(kernel, seen[i]).tx, 0))
  }

  function NextWorld(w: World, e: SystemEvent): World {
    match e
    case Transfer(pk, rx, tx) =>
      var r := RawOf(w.kernel, pk);
      w.(kernel := w.kernel[pk := Raw(r.rx + rx, r.tx + tx)])
    case Restart(pk) => w.(kernel := w.kernel[pk := Raw(0, 0)])
    case Collection(seen) => w.(stats := Accumulated(w.stats, DumpsOf(w.kernel, seen)))
  }

  function WorldAfter(es: seq<SystemEvent>): World {
    if es == [] then World(map[], map[]) else NextWorld(WorldAfter(es[..|es| - 1]), es[|es| - 1])
  }

  /** What one event means for one direction of one peer. */
  function Seen(e: SystemEvent, pk: PublicKey, receive: bool): seq<Event> {
    match e
    case Transfer(k, rx, tx) => if k == pk then [Grow(if receive then rx else tx)] else []
    case Restart(k) => if k == pk then [Reset] else []
    case Collection(seen) => if pk in seen then [Sample] else []
  }

  function History(es: seq<SystemEvent>, pk: PublicKey, receive: bool): (h: seq<Event>) {
    if es == [] then [] else History(es[..|es| - 1], pk, receive) + Seen(es[|es| - 1], pk, receive)
  }

  ghost predicate NoRepeats(seen: seq<PublicKey>) {
    forall i, j :: 0 <= i < j < |seen| ==> seen[i] != seen[j]
  }

  /** Each key at most once per collection. */
  ghost predicate OncePerCollection(es: seq<SystemEvent>) {
    forall i :: 0 <= i < |es| && es[i].Collection? ==> NoRepeats(es[i].seen)
  }

  /** A collection absorbs the one row of a listed peer and leaves every other peer alone. */
  lemma {:induction false} CollectionEffect(stats: map<PublicKey, Stats>, kernel: map<PublicKey, Raw>, seen: seq<PublicKey>,
                                            pk: PublicKey)
    requires NoRepeats(seen)
    ensures var s, s' := StatsOf(stats, pk), StatsOf(Accumulated(stats, DumpsOf(kernel, seen)), pk);
            if pk in seen then s'.rx == Absorb(s.rx, RawOf(kernel, pk).rx) && s'.tx == Absorb(s.tx, RawOf(kernel, pk).tx)
            else s' == s
  {
    hide Absorb;
    if seen != [] {
      var n := |seen| - 1;
      CollectionEffect(stats, kernel, seen[..n], pk);
      assert DumpsOf(kernel, seen)[..n] == DumpsOf(kernel, seen[..n]);
      assert pk in seen <==> pk in seen[..n] || pk == seen[n];
      assert pk == seen[n] ==> pk !in seen[..n];
    }
  }

  function Direction(s: Stats, receive: bool): Counter {
    if receive then s.rx else s.tx
  }

  function RawDirection(r: Raw, receive: bool): nat {
    if receive then r.rx else r.tx
  }

  /** The collector's entry for each peer and direction is the metered history of that peer alone. */
  lemma {:induction false} StatsMeterHistory(es: seq<SystemEvent>, pk: PublicKey, receive: bool)
    requires OncePerCollection(es)
    ensures var w, m := WorldAfter(es), Metered(History(es, pk, receive));
            && Direction(StatsOf(w.stats, pk), receive) == m.counter
            && RawDirection(RawOf(w.kernel, pk), receive) == m.raw
  {
    if es != [] {
      var n := |es| - 1;
      StatsMeterHistory(es[..n], pk, receive);
      HistoryStep(WorldAfter(es[..n]), es[n], History(es[..n], pk, receive), pk, receive);
    }
  }

  lemma HistoryStep(w: World, e: SystemEvent, h: seq<Event>, pk: PublicKey, receive: bool)
    requires Direction(StatsOf(w.stats, pk), receive) == Metered(h).counter
    requires RawDirection(RawOf(w.kernel, pk), receive) == Metered(h).raw
    requires e.Collection? ==> NoRepeats(e.seen)
    ensures var w', m := NextWorld(w, e), Metered(h + Seen(e, pk, receive));
            && Direction(StatsOf(w'.stats, pk), receive) == m.counter
            && RawDirection(RawOf(w'.kernel, pk), receive) == m.raw
  {
    hide Accumulated, Metered, Absorb;
    var s := Seen(e, pk, receive);
    if s == [] {
      assert h + s == h;
    } else {
      MeteredNext(h, s[0]);
    }
    if e.Collection? {
      CollectionEffect(w.stats, w.kernel, e.seen, pk);
    }
  }

  lemma MeteredNext(h: seq<Event>, e: Event)
    ensures Metered(h + [e]) == Advance(Metered(h), e)
  {
    assert (h + [e])[..|h|] == h;
  }

  /** Traffic the kernel carried for one peer in one direction, whatever the collector saw. */
  function Carried(es: seq<SystemEvent>, pk: PublicKey, receive: bool): (n: nat) {
    if es == [] then 0
    else
      var e := es[|es| - 1];
      Carried(es[..|es| - 1], pk, receive)
      + (if e.Transfer? && e.pk == pk then if receive then e.rx else e.tx else 0)
  }

  lemma {:induction false} CarriedIsTraffic(es: seq<SystemEvent>, pk: PublicKey, receive: bool)
    ensures Carried(es, pk, receive) == Traffic(History(es, pk, receive))
  {
    if es != [] {
      var n := |es| - 1;
      CarriedIsTraffic(es[..n], pk, receive);
      var h, s := History(es[..n], pk, receive), Seen(es[n], pk, receive);
      if s == [] {
        assert h + s == h;
      } else {
        assert (h + s)[..|h|] == h;
      }
    }
  }

  /** For any interleaving of transfers, counter resets and collections, no peer is charged for more than it carried. */
  lemma NobodyOvercharged(es: seq<SystemEvent>, pk: PublicKey, receive: bool)
    requires OncePerCollection(es)
    ensures Direction(StatsOf(WorldAfter(es).stats, pk), receive).total <= Carried(es, pk, receive)
  {
    StatsMeterHistory(es, pk, receive);
    CarriedIsTraffic(es, pk, receive);
    NeverOverCounts(History(es, pk, receive));
  }
}
