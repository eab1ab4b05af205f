/** Verdicts of the read-only peer preflight. */
module Health {
  import opened Outcomes

  const U64_MAX := 0xffff_ffff_ffff_ffff
  const U32_MAX := 0xffff_ffff

  // ----- shards -----

  /** A shard as reported. A field is absent or of the wrong type when it is none. */
  datatype RawShard = RawShard(shardId: Option<nat>, maxHeight: Option<nat>, blockDelay: Option<nat>, countMalformed: bool)
  datatype Shard = Shard(id: nat, maxHeight: nat, delay: nat)
  datatype Freshness = Fresh | Lagging | Unknown

  predicate WellFormedShard(s: RawShard, numShards: nat) {
    && s.shardId.Some? && s.shardId.value <= U32_MAX && s.shardId.value <= numShards
    && s.maxHeight.Some? && s.blockDelay.Some? && !s.countMalformed
  }

  function Read(s: RawShard): Shard
    requires s.shardId.Some? && s.maxHeight.Some? && s.blockDelay.Some?
  {
    Shard(s.shardId.value, s.maxHeight.value, s.blockDelay.value)
  }

  predicate Distinct(shards: seq<Shard>) {
    forall i, j :: 0 <= i < j < |shards| ==> shards[i].id != shards[j].id
  }

  ghost predicate Parsable(raw: seq<RawShard>, numShards: nat) {
    && |raw| <= 256 && (forall i :: 0 <= i < |raw| ==> WellFormedShard(raw[i], numShards))
    && forall i, j :: 0 <= i < j < |raw| ==> raw[i].shardId != raw[j].shardId
  }

  /** The shard loop of `parse_info`. */
  method ParseShards(raw: seq<RawShard>, numShards: nat) returns (r: Option<seq<Shard>>)
    ensures r.Some? <==> Parsable(raw, numShards)
    ensures r.Some? ==> |r.value| == |raw| && Distinct(r.value) && forall i :: 0 <= i < |raw| ==> r.value[i] == Read(raw[i])
  {
    if |raw| > 256 {
      return None;
    }
    var shards: seq<Shard> := [];
    for i := 0 to |raw|
      invariant |shards| == i && Distinct(shards)
      invariant forall j :: 0 <= j < i ==> WellFormedShard(raw[j], numShards) && shards[j] == Read(raw[j])
    {
      var s := raw[i];
      if s.shardId.None? || s.shardId.value > U32_MAX {
        return None;
      }
      var id := s.shardId.value;
      if id > numShards {
        return None;
      }
      if exists j :: 0 <= j < |shards| && shards[j].id == id {
        var j :| 0 <= j < |shards| && shards[j].id == id;
        assert raw[j].shardId == raw[i].shardId;
        return None;
      }
      if s.maxHeight.None? || s.blockDelay.None? || s.countMalformed {
        return None;
      }
      shards := shards + [Read(s)];
    }
    r := Some(shards);
    forall i, j | 0 <= i < j < |raw| ensures raw[i].shardId != raw[j].shardId {
      assert shards[i].id != shards[j].id;
    }
  }

  function FreshnessOf(shards: seq<Shard>, numShards: nat, threshold: nat): Freshness {
    if exists i :: 0 <= i < |shards| && shards[i].delay > threshold then Lagging
    else if |shards| != (if numShards >= U64_MAX then U64_MAX else numShards + 1)
            || exists i :: 0 <= i < |shards| && shards[i].maxHeight == 0
    then Unknown
    else Fresh
  }

  function Ids(shards: seq<Shard>): set<nat> {
    set i | 0 <= i < |shards| :: shards[i].id
  }

  lemma {:induction false} DistinctCount(shards: seq<Shard>)
    requires Distinct(shards)
    ensures |Ids(shards)| == |shards|
  {
    if shards != [] {
      var last := |shards| - 1;
      DistinctCount(shards[..last]);
      assert Ids(shards) == Ids(shards[..last]) + {shards[last].id};
      assert shards[last].id !in Ids(shards[..last]);
    }
  }

  function UpTo(n: nat): (s: set<nat>)
    ensures |s| == n + 1 && forall k: nat :: k in s <==> k <= n
  {
    if n == 0 then {0} else UpTo(n - 1) + {n}
  }

  lemma SameSize(a: set<nat>, b: set<nat>)
    requires a <= b
    ensures |a| <= |b| && (|a| == |b| ==> a == b)
  {
    assert |b| == |a| + |b - a|;
    assert a + (b - a) == b;
  }

  ghost predicate Reported(shards: seq<Shard>, id: nat, threshold: nat) {
    exists i :: 0 <= i < |shards| && shards[i].id == id && shards[i].maxHeight > 0 && shards[i].delay <= threshold
  }

  lemma OwnReport(shards: seq<Shard>, i: nat, threshold: nat)
    requires Distinct(shards) && i < |shards| && Reported(shards, shards[i].id, threshold)
    ensures shards[i].maxHeight > 0 && shards[i].delay <= threshold
  {
    var j :| 0 <= j < |shards| && shards[j].id == shards[i].id && shards[j].maxHeight > 0 && shards[j].delay <= threshold;
    assert j == i;
  }

  /** A node is fresh exactly when every shard from 0 to N is reported with a block and a delay within
      the threshold. Coverage follows from the count, by the pigeonhole principle. */
  lemma FreshExactly(shards: seq<Shard>, numShards: nat, threshold: nat)
    requires Distinct(shards) && |shards| <= 256 && forall i :: 0 <= i < |shards| ==> shards[i].id <= numShards
    ensures FreshnessOf(shards, numShards, threshold) == Fresh <==> forall id :: 0 <= id <= numShards ==> Reported(shards, id, threshold)
  {
    DistinctCount(shards);
    SameSize(Ids(shards), UpTo(numShards));
    if FreshnessOf(shards, numShards, threshold) == Fresh {
      forall id | 0 <= id <= numShards ensures Reported(shards, id, threshold) {
        assert id in Ids(shards);
      }
    }
    if forall id :: 0 <= id <= numShards ==> Reported(shards, id, threshold) {
      forall id | id in UpTo(numShards) ensures id in Ids(shards) {
        assert Reported(shards, id, threshold);
      }
      assert Ids(shards) == UpTo(numShards);
      forall i | 0 <= i < |shards| ensures shards[i].maxHeight > 0 && shards[i].delay <= threshold {
        OwnReport(shards, i, threshold);
      }
    }
  }

  /** It lags exactly when some reported shard is delayed, whatever else is missing. */
  lemma LaggingExactly(shards: seq<Shard>, numShards: nat, threshold: nat)
    ensures FreshnessOf(shards, numShards, threshold) == Lagging <==> exists s :: s in shards && s.delay > threshold
  {
    if exists i :: 0 <= i < |shards| && shards[i].delay > threshold {
      var i :| 0 <= i < |shards| && shards[i].delay > threshold;
      assert shards[i] in shards;
    }
  }

  // ----- peers -----

  type Peer = string

  function Count(peers: seq<Option<Peer>>, p: Peer): nat {
    if peers == [] then 0
    else Count(peers[..|peers| - 1], p) + if peers[|peers| - 1] == Some(p) then 1 else 0
  }

  function Known(peers: seq<Option<Peer>>): nat {
    if peers == [] then 0
    else Known(peers[..|peers| - 1]) + if peers[|peers| - 1].Some? then 1 else 0
  }

  ghost function Total(counts: map<Peer, nat>): nat {
    if counts == map[] then 0 else
      var p :| p in counts;
      counts[p] + Total(counts - {p})
  }

  lemma TotalWithout(counts: map<Peer, nat>, p: Peer)
    requires p in counts
    ensures Total(counts) == counts[p] + Total(counts - {p})
  {
    var q :| q in counts && Total(counts) == counts[q] + Total(counts - {q});
    if q != p {
      TotalWithout(counts - {q}, p);
      TotalWithout(counts - {p}, q);
      assert counts - {q} - {p} == counts - {p} - {q};
    }
  }

  lemma TotalUpdated(counts: map<Peer, nat>, p: Peer, n: nat)
    ensures Total(counts[p := n]) == Total(counts) - (if p in counts then counts[p] else 0) + n
  {
    TotalWithout(counts[p := n], p);
    assert counts[p := n] - {p} == counts - {p};
    if p in counts {
      TotalWithout(counts, p);
    } else {
      assert counts - {p} == counts;
    }
  }

  lemma OneMorePeer(peers: seq<Option<Peer>>, i: nat)
    requires i < |peers|
    ensures forall p :: Count(peers[..i + 1], p) == Count(peers[..i], p) + if peers[i] == Some(p) then 1 else 0
    ensures Known(peers[..i + 1]) == Known(peers[..i]) + if peers[i].Some? then 1 else 0
    ensures forall p :: Some(p) in peers[..i + 1] <==> Some(p) in peers[..i] || peers[i] == Some(p)
  {
    assert peers[..i + 1][..i] == peers[..i];
    assert peers[..i + 1] == peers[..i] + [peers[i]];
  }

  method CountPeers(peers: seq<Option<Peer>>) returns (counts: map<Peer, nat>)
    ensures forall p :: p in counts <==> Some(p) in peers
    ensures forall p :: p in counts ==> counts[p] == Count(peers, p)
    ensures Total(counts) == Known(peers)
  {
    counts := map[];
    for i := 0 to |peers|
      invariant forall p :: p in counts <==> Some(p) in peers[..i]
      invariant forall p :: p in counts ==> counts[p] == Count(peers[..i], p)
      invariant forall p :: p !in counts ==> Count(peers[..i], p) == 0
      invariant Total(counts) == Known(peers[..i])
    {
      OneMorePeer(peers, i);
      if peers[i].Some? {
        var p := peers[i].value;
        var n := (if p in counts then counts[p] else 0) + 1;
        TotalUpdated(counts, p, n);
        counts := counts[p := n];
      }
    }
    assert peers[..|peers|] == peers;
  }

  method SumCounts(counts: map<Peer, nat>) returns (sum: nat)
    ensures sum == Total(counts)
  {
    var pending := counts;
    sum := 0;
    while pending != map[]
      invariant sum + Total(pending) == Total(counts)
      decreases |pending|
    {
      var p :| p in pending;
      TotalWithout(pending, p);
      assert pending.Keys == (pending - {p}).Keys + {p};
      sum := sum + pending[p];
      pending := pending - {p};
    }
  }

  /** Unknown for a node without an identifier; false when another node reports the same; true when all
      nodes report one and no other reports this; unknown otherwise. */
  ghost predicate UniqueSpec(peers: seq<Option<Peer>>, i: nat, verdict: Option<bool>)
    requires i < |peers|
  {
    verdict ==
      if peers[i].None? then None
      else if exists j :: 0 <= j < |peers| && j != i && peers[j] == peers[i] then Some(false)
      else if forall j :: 0 <= j < |peers| ==> peers[j].Some? then Some(true)
      else None
  }

  lemma CountAtLeast(peers: seq<Option<Peer>>, p: Peer)
    ensures Count(peers, p) > 0 <==> Some(p) in peers
    ensures Count(peers, p) > 1 <==> exists i, j :: 0 <= i < j < |peers| && peers[i] == peers[j] == Some(p)
  {
    if peers != [] {
      var last := |peers| - 1;
      var front := peers[..last];
      CountAtLeast(front, p);
      assert peers == front + [peers[last]];
      if Count(peers, p) > 1 {
        if Count(front, p) > 1 {
          var i, j :| 0 <= i < j < |front| && front[i] == front[j] == Some(p);
          assert peers[i] == peers[j] == Some(p);
        } else {
          var i :| 0 <= i < |front| && front[i] == Some(p);
          assert peers[i] == peers[last] == Some(p);
        }
      }
      if i, j :| 0 <= i < j < |peers| && peers[i] == peers[j] == Some(p) {
        assert front[i] == Some(p);
        if j < last {
          assert front[j] == Some(p);
        }
      }
    }
  }

  lemma KnownAll(peers: seq<Option<Peer>>)
    ensures Known(peers) <= |peers|
    ensures Known(peers) == |peers| <==> forall j :: 0 <= j < |peers| ==> peers[j].Some?
  {
    if peers != [] {
      var last := |peers| - 1;
      KnownAll(peers[..last]);
      assert forall j :: 0 <= j < last ==> peers[..last][j] == peers[j];
    }
  }

  /** What one node contributes to the report. */
  datatype Node = Node(compatible: bool, upToDate: bool, peer: Option<Peer>)
  datatype Verdict = Verdict(peerUnique: Option<bool>, healthy: bool)
  datatype Report = Report(verdicts: seq<Verdict>, healthy: bool, distinctPeers: nat)

  function Peers(nodes: seq<Node>): (ps: seq<Option<Peer>>)
    ensures |ps| == |nodes|
  {
    seq(|nodes|, i requires 0 <= i < |nodes| => nodes[i].peer)
  }

  method Assess(nodes: seq<Node>) returns (r: Report)
    ensures |r.verdicts| == |nodes|
    ensures forall i :: 0 <= i < |nodes| ==>
              && UniqueSpec(Peers(nodes), i, r.verdicts[i].peerUnique)
              && (r.verdicts[i].healthy <==> nodes[i].compatible && nodes[i].upToDate && r.verdicts[i].peerUnique == Some(true))
    ensures r.healthy <==> forall i :: 0 <= i < |nodes| ==> r.verdicts[i].healthy
    ensures exists ids: set<Peer> :: (forall p :: p in ids <==> Some(p) in Peers(nodes)) && r.distinctPeers == |ids|
  {
    var peers := Peers(nodes);
    var counts := CountPeers(peers);
    var sum := SumCounts(counts);
    KnownAll(peers);
    var allKnown := sum == |nodes|;
    var verdicts: seq<Verdict> := [];
    var healthy := true;
    for i := 0 to |nodes|
      invariant |verdicts| == i
      invariant forall j :: 0 <= j < i ==>
          && UniqueSpec(peers, j, verdicts[j].peerUnique)
          && (verdicts[j].healthy <==> nodes[j].compatible && nodes[j].upToDate && verdicts[j].peerUnique == Some(true))
      invariant healthy <==> forall j :: 0 <= j < i ==> verdicts[j].healthy
    {
      var unique: Option<bool> := None;
      if nodes[i].peer.Some? {
        var p := nodes[i].peer.value;
        assert peers[i] == Some(p);
        SharedExactly(peers, i);
        if p in counts && counts[p] > 1 {
          unique := Some(false);
        } else {
          unique := if allKnown then Some(true) else None;
        }
      }
      var ok := nodes[i].compatible && nodes[i].upToDate && unique == Some(true);
      verdicts := verdicts + [Verdict(unique, ok)];
      healthy := healthy && ok;
    }
    assert forall p :: p in counts.Keys <==> Some(p) in Peers(nodes);
    r := Report(verdicts, healthy, |counts|);
    assert r.distinctPeers == |counts.Keys|;
  }

  lemma SharedExactly(peers: seq<Option<Peer>>, i: nat)
    requires i < |peers| && peers[i].Some?
    ensures Count(peers, peers[i].value) > 1 <==> exists j :: 0 <= j < |peers| && j != i && peers[j] == peers[i]
  {
    CountAtLeast(peers, peers[i].value);
    if j :| 0 <= j < |peers| && j != i && peers[j] == peers[i] {
      if j < i {
        assert peers[j] == peers[i] == Some(peers[i].value);
      } else {
        assert peers[i] == peers[j] == Some(peers[i].value);
      }
    }
  }

  lemma {:induction false} AllDifferent(peers: seq<Option<Peer>>, ids: set<Peer>)
    requires forall i, j :: 0 <= i < j < |peers| ==> peers[i] != peers[j]
    requires (forall i :: 0 <= i < |peers| ==> peers[i].Some?) && forall p :: p in ids <==> Some(p) in peers
    ensures |ids| == |peers|
  {
    if peers == [] {
      assert ids == {};
    } else {
      var last := |peers| - 1;
      var p := peers[last].value;
      assert p in ids;
      forall q ensures q in ids - {p} <==> Some(q) in peers[..last] {
        if q in ids - {p} {
          var i :| 0 <= i < |peers| && peers[i] == Some(q);
          assert peers[..last][i] == Some(q);
        }
      }
      AllDifferent(peers[..last], ids - {p});
    }
  }

  /** A healthy report comes from pairwise different peers, as many as there are endpoints. */
  lemma HealthyMeansDistinct(nodes: seq<Node>, verdicts: seq<Verdict>, ids: set<Peer>)
    requires |verdicts| == |nodes|
    requires forall i :: 0 <= i < |nodes| ==> UniqueSpec(Peers(nodes), i, verdicts[i].peerUnique) && verdicts[i].peerUnique == Some(true)
    requires forall p :: p in ids <==> Some(p) in Peers(nodes)
    ensures forall i, j :: 0 <= i < j < |nodes| ==> nodes[i].peer != nodes[j].peer
    ensures |ids| == |nodes|
  {
    var peers := Peers(nodes);
    forall i, j | 0 <= i < j < |nodes| ensures peers[i] != peers[j] && nodes[i].peer != nodes[j].peer {
      assert UniqueSpec(peers, i, verdicts[i].peerUnique);
      assert peers[i] == nodes[i].peer && peers[j] == nodes[j].peer;
    }
    forall i | 0 <= i < |peers| ensures peers[i].Some? {
      assert UniqueSpec(peers, i, verdicts[i].peerUnique);
    }
    AllDifferent(peers, ids);
  }

  // ----- registry events -----

  datatype RawEvent = RawEvent(fid: Option<nat>, kind: Option<string>, to: Option<string>,
                               block: Option<nat>, tx: Option<nat>, log: Option<nat>)
  datatype Position = Position(block: nat, tx: nat, log: nat)
  datatype Observation = Observation(events: nat, custody: Option<string>)

  predicate Custodial(e: RawEvent) {
    e.kind == Some("Register") || e.kind == Some("Transfer")
  }

  predicate AddressText(s: string) {
    |s| == 42 && s[..2] == "0x"
    && forall i :: 2 <= i < 42 ==> '0' <= s[i] <= '9' || 'a' <= s[i] <= 'f' || 'A' <= s[i] <= 'F'
  }

  predicate WellFormedEvent(e: RawEvent, fid: nat) {
    && e.fid == Some(fid) && e.kind.Some?
    && (Custodial(e) ==> e.to.Some? && AddressText(e.to.value) && e.block.Some? && e.tx.Some? && e.log.Some?)
  }

  function Number(n: Option<nat>): nat {
    if n.Some? then n.value else 0
  }

  /** Where a well-formed event stands in the chain. */
  function PositionOf(e: RawEvent): Position {
    Position(Number(e.block), Number(e.tx), Number(e.log))
  }

  predicate Before(a: Position, b: Position) {
    a.block < b.block || (a.block == b.block && (a.tx < b.tx || (a.tx == b.tx && a.log < b.log)))
  }

  /** Event `i` is the first of the custody events at the latest position among the first `n`. */
  ghost predicate IsLatest(events: seq<RawEvent>, n: nat, i: nat)
    requires n <= |events|
  {
    && i < n && Custodial(events[i])
    && forall j :: 0 <= j < n && j != i && Custodial(events[j]) ==>
         if j < i then Before(PositionOf(events[j]), PositionOf(events[i]))
         else !Before(PositionOf(events[i]), PositionOf(events[j]))
  }

  /** The reported custody is the target of the latest registration or transfer; one malformed event
      spoils the whole answer. */
  method ParseAuthority(events: seq<RawEvent>, fid: nat) returns (r: Option<Observation>)
    ensures r.Some? <==> |events| <= 1024 && forall j :: 0 <= j < |events| ==> WellFormedEvent(events[j], fid)
    ensures r.Some? ==> r.value.events == |events|
    ensures r.Some? ==> (r.value.custody.None? <==> forall j :: 0 <= j < |events| ==> !Custodial(events[j]))
    ensures r.Some? && r.value.custody.Some? ==>
              exists i: nat :: IsLatest(events, |events|, i) && events[i].to == r.value.custody
  {
    if |events| > 1024 {
      return None;
    }
    var latest: Option<(Position, string)> := None;
    ghost var at: nat := 0;
    for i := 0 to |events|
      invariant forall j :: 0 <= j < i ==> WellFormedEvent(events[j], fid)
      invariant latest.None? <==> forall j :: 0 <= j < i ==> !Custodial(events[j])
      invariant latest.Some? ==> IsLatest(events, i, at)
      invariant latest.Some? ==> Some(latest.value.1) == events[at].to && latest.value.0 == PositionOf(events[at])
    {
      var e := events[i];
      if e.fid != Some(fid) || e.kind.None? {
        return None;
      }
      if Custodial(e) {
        if e.to.None? || !AddressText(e.to.value) || e.block.None? || e.tx.None? || e.log.None? {
          return None;
        }
        var position := PositionOf(e);
        if latest.None? || Before(latest.value.0, position) {
          latest := Some((position, e.to.value));
          at := i;
        }
      }
    }
    r := Some(Observation(|events|, if latest.Some? then Some(latest.value.1) else None));
  }
}
