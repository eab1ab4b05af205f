/** Batch construction of the Merkle Search Tree. */
module Mst {
  import opened Ordered
  import opened Outcomes
  import opened Ipld

  /** A key with its value and its layer, as `build` collects them. */
  datatype Entry = Entry(key: Bytes, value: Cid, layer: nat)

  /** The tree as a value, before any node is encoded. */
  datatype Tree = Empty | Node(left: Tree, items: Items)
  datatype Items = Nil | Cons(key: Bytes, value: Cid, right: Tree, rest: Items)

  /** The serialized node and its entries. */
  datatype WireEntry = WireEntry(p: nat, k: Bytes, v: Cid, t: Option<Cid>)
  datatype WireNode = WireNode(l: Option<Cid>, e: seq<WireEntry>)

  const K_E: Bytes := [0x65]
  const K_K: Bytes := [0x6b]
  const K_L: Bytes := [0x6c]
  const K_P: Bytes := [0x70]
  const K_T: Bytes := [0x74]
  const K_V: Bytes := [0x76]

  function OptLink(o: Option<Cid>): Value {
    match o case None => Null case Some(cid) => Link(cid)
  }

  function EntryValue(e: WireEntry): Value {
    Map([Field(K_K, Blob(e.k)), Field(K_P, Integer(e.p)), Field(K_T, OptLink(e.t)), Field(K_V, Link(e.v))])
  }

  function EntryValues(es: seq<WireEntry>): seq<Value> {
    seq(|es|, i requires 0 <= i < |es| => EntryValue(es[i]))
  }

  function NodeValue(n: WireNode): Value {
    Map([Field(K_E, List(EntryValues(n.e))), Field(K_L, OptLink(n.l))])
  }

  // ----- layer -----

  function LeadingZeros(b: Byte): (z: nat)
    ensures z <= 8
  {
    if b >= 128 then 0 else if b >= 64 then 1 else if b >= 32 then 2 else if b >= 16 then 3
    else if b >= 8 then 4 else if b >= 4 then 5 else if b >= 2 then 6 else if b >= 1 then 7 else 8
  }

  function ZeroBits(digest: Bytes): (z: nat)
    ensures z <= 8 * |digest|
  {
    if digest == [] then 0
    else if digest[0] != 0 then LeadingZeros(digest[0])
    else 8 + ZeroBits(digest[1..])
  }

  lemma LeadingZerosBound(b: Byte)
    ensures b < Pow2(8 - LeadingZeros(b))
    ensures b > 0 ==> LeadingZeros(b) < 8 && Pow2(7 - LeadingZeros(b)) <= b
  {
    assert Pow2(4) == 16 && Pow2(5) == 32 && Pow2(6) == 64 && Pow2(7) == 128 && Pow2(8) == 256;
  }

  /** A leading digit between `lo` and `hi` keeps the number between their multiples of `unit`. */
  lemma HeadBounds(lo: nat, digit: nat, hi: nat, unit: nat, rest: nat)
    requires lo <= digit < hi && rest < unit
    ensures lo * unit <= digit * unit + rest < hi * unit
  {
    Product(lo, digit, unit);
    Product(digit + 1, hi, unit);
    assert (digit + 1) * unit == digit * unit + unit;
  }

  lemma PowGrows(a: nat, b: nat)
    requires a <= b
    ensures Pow2(a) <= Pow2(b)
  {
    if a < b {
      PowGrows(a, b - 1);
    }
  }

  /** The counted bits are exactly the leading zeros of the digest as a number. */
  lemma {:induction false} ZeroBitsExact(digest: Bytes)
    ensures BigEndian(digest) < Pow2(8 * |digest| - ZeroBits(digest))
    ensures ZeroBits(digest) < 8 * |digest| ==> Pow2(8 * |digest| - ZeroBits(digest) - 1) <= BigEndian(digest)
  {
    if digest != [] {
      var b, rest := digest[0], digest[1..];
      ZeroBitsExact(rest);
      PowGrows(8 * |rest| - ZeroBits(rest), 8 * |rest|);
      if b != 0 {
        var z := LeadingZeros(b);
        LeadingZerosBound(b);
        PowSum(8 - z, 8 * |rest|);
        PowSum(7 - z, 8 * |rest|);
        HeadBounds(Pow2(7 - z), b, Pow2(8 - z), Pow2(8 * |rest|), BigEndian(rest));
        assert 8 * |digest| - z - 1 == (7 - z) + 8 * |rest|;
      }
    }
  }

  function LayerOf(digest: Bytes): nat {
    ZeroBits(digest) / 2
  }

  /** The layer counts pairs of leading zero bits: it reaches `k` exactly if the digest, as a number, leaves
      its top `2k` bits empty. */
  lemma LayerExactly(digest: Bytes, k: nat)
    requires 2 * k <= 8 * |digest|
    ensures k <= LayerOf(digest) <==> BigEndian(digest) < Pow2(8 * |digest| - 2 * k)
  {
    var n, z := 8 * |digest|, ZeroBits(digest);
    ZeroBitsExact(digest);
    if 2 * k <= z {
      PowGrows(n - z, n - 2 * k);
    } else {
      PowGrows(n - 2 * k, n - z - 1);
    }
  }

  method Layer(digest: Bytes) returns (layer: nat)
    ensures layer == LayerOf(digest)
  {
    var zeros := 0;
    var i := 0;
    while i < |digest|
      invariant 0 <= i <= |digest|
      invariant zeros + ZeroBits(digest[i..]) == ZeroBits(digest)
      invariant i == |digest| ==> zeros == ZeroBits(digest)
    {
      zeros := zeros + LeadingZeros(digest[i]);
      assert digest[i..][1..] == digest[i + 1..];
      if digest[i] != 0 {
        return zeros / 2;
      }
      i := i + 1;
    }
    layer := zeros / 2;
  }

  // ----- the tree that `subtree` and `child` build -----
  // A slice of the entries is given by its bounds, `es[lo..hi]`.

  ghost predicate AtMost(es: seq<Entry>, lo: nat, hi: nat, at: int)
    requires lo <= hi <= |es|
  {
    forall i :: lo <= i < hi ==> es[i].layer <= at
  }

  function NextAnchor(es: seq<Entry>, from: nat, hi: nat, at: nat): (a: nat)
    requires from <= hi <= |es|
    ensures from <= a <= hi
    ensures forall k :: from <= k < a ==> es[k].layer != at
    ensures a < hi ==> es[a].layer == at
    decreases hi - from
  {
    if from == hi || es[from].layer == at then from else NextAnchor(es, from + 1, hi, at)
  }

  function Child(es: seq<Entry>, lo: nat, hi: nat, parent: nat): (t: Tree)
    requires lo <= hi <= |es| && AtMost(es, lo, hi, parent - 1)
    ensures t.Empty? <==> lo == hi
    decreases parent, 0, 0
  {
    if lo == hi then Empty else
      assert es[lo].layer <= parent - 1;
      Subtree(es, lo, hi, parent - 1)
  }

  function Subtree(es: seq<Entry>, lo: nat, hi: nat, at: nat): (t: Tree)
    requires lo <= hi <= |es| && AtMost(es, lo, hi, at)
    ensures t.Node?
    decreases at, 2, 0
  {
    var a := NextAnchor(es, lo, hi, at);
    Node(Child(es, lo, a, at), ItemsFrom(es, a, hi, at))
  }

  function ItemsFrom(es: seq<Entry>, i: nat, hi: nat, at: nat): Items
    requires i <= hi <= |es| && AtMost(es, i, hi, at)
    requires i < hi ==> es[i].layer == at
    decreases at, 1, hi - i
  {
    if i == hi then Nil else
      var j := NextAnchor(es, i + 1, hi, at);
      Cons(es[i].key, es[i].value, Child(es, i + 1, j, at), ItemsFrom(es, j, hi, at))
  }

  // ----- its encoding -----

  function CommonPrefix(a: Bytes, b: Bytes): (n: nat)
    ensures n <= |a| && n <= |b| && a[..n] == b[..n]
    ensures n < |a| && n < |b| ==> a[n] != b[n]
  {
    if a == [] || b == [] || a[0] != b[0] then 0 else
      var n := CommonPrefix(a[1..], b[1..]);
      assert a[..n + 1] == [a[0]] + a[1..][..n] && b[..n + 1] == [b[0]] + b[1..][..n];
      n + 1
  }

  function WireItems(c: Codec, items: Items, previous: Bytes): seq<WireEntry>
    decreases items, 0
  {
    match items
    case Nil => []
    case Cons(key, value, right, rest) =>
      var prefix := CommonPrefix(previous, key);
      [WireEntry(prefix, key[prefix..], value, LinkTo(c, right))] + WireItems(c, rest, key)
  }

  function LinkTo(c: Codec, t: Tree): Option<Cid>
    decreases t, 2
  {
    if t.Empty? then None else Some(TreeCid(c, t))
  }

  function TreeBytes(c: Codec, t: Tree): Bytes
    requires t.Node?
    decreases t, 0
  {
    c.enc(NodeValue(WireNode(LinkTo(c, t.left), WireItems(c, t.items, []))))
  }

  function TreeCid(c: Codec, t: Tree): Cid
    requires t.Node?
    decreases t, 1
  {
    c.CidFor(TreeBytes(c, t))
  }

  /** The blocks of a tree, in the order in which they are inserted. */
  function TreeBlocks(c: Codec, t: Tree): Blocks {
    match t
    case Empty => map[]
    case Node(left, items) =>
      (TreeBlocks(c, left) + ItemsBlocks(c, items))[TreeCid(c, t) := TreeBytes(c, t)]
  }

  function ItemsBlocks(c: Codec, items: Items): Blocks {
    match items
    case Nil => map[]
    case Cons(_, _, right, rest) => TreeBlocks(c, right) + ItemsBlocks(c, rest)
  }

  /** The block map after a tree's nodes are inserted, children before their parent. */
  function AddTree(c: Codec, blocks: Blocks, t: Tree): Blocks
    decreases t, 0
  {
    match t
    case Empty => blocks
    case Node(left, items) => AddItems(c, AddTree(c, blocks, left), items)[TreeCid(c, t) := TreeBytes(c, t)]
  }

  function AddItems(c: Codec, blocks: Blocks, items: Items): Blocks
    decreases items, 0
  {
    match items
    case Nil => blocks
    case Cons(_, _, right, rest) => AddItems(c, AddTree(c, blocks, right), rest)
  }

  lemma {:induction false} AddTreeIsUnion(c: Codec, blocks: Blocks, t: Tree)
    ensures AddTree(c, blocks, t) == blocks + TreeBlocks(c, t)
    decreases t, 0
  {
    if t.Node? {
      AddTreeIsUnion(c, blocks, t.left);
      AddItemsIsUnion(c, AddTree(c, blocks, t.left), t.items);
      UnionAssociates(blocks, TreeBlocks(c, t.left), ItemsBlocks(c, t.items));
      UnionUpdates(blocks, TreeBlocks(c, t.left) + ItemsBlocks(c, t.items), TreeCid(c, t), TreeBytes(c, t));
    }
  }

  lemma {:induction false} AddItemsIsUnion(c: Codec, blocks: Blocks, items: Items)
    ensures AddItems(c, blocks, items) == blocks + ItemsBlocks(c, items)
    decreases items, 0
  {
    if items.Cons? {
      AddTreeIsUnion(c, blocks, items.right);
      AddItemsIsUnion(c, AddTree(c, blocks, items.right), items.rest);
      UnionAssociates(blocks, TreeBlocks(c, items.right), ItemsBlocks(c, items.rest));
    }
  }

  // ----- the builder -----

  /** The block map that the builder shares between its calls. */
  class BlockStore {
    var blocks: Blocks

    constructor ()
      ensures blocks == map[]
    {
      blocks := map[];
    }
  }

  ghost predicate IsAnchors(es: seq<Entry>, lo: nat, hi: nat, at: nat, anchors: seq<nat>)
    requires lo <= hi <= |es|
  {
    && (forall x :: x in anchors <==> lo <= x < hi && es[x].layer == at)
    && (forall a, b :: 0 <= a < b < |anchors| ==> anchors[a] < anchors[b])
  }

  method Anchors(es: seq<Entry>, lo: nat, hi: nat, at: nat) returns (anchors: seq<nat>)
    requires lo <= hi <= |es|
    ensures IsAnchors(es, lo, hi, at, anchors)
  {
    anchors := [];
    for i := lo to hi
      invariant IsAnchors(es, lo, i, at, anchors)
    {
      assert forall a :: 0 <= a < |anchors| ==> anchors[a] in anchors;
      if es[i].layer == at {
        anchors := anchors + [i];
      }
    }
  }

  /** Position of the anchor with this index, or the end of the slice. */
  function AnchorOr(anchors: seq<nat>, index: nat, hi: nat): nat {
    if index < |anchors| then anchors[index] else hi
  }

  /** Stepping through the anchors visits exactly the next occupied position. */
  lemma AnchorStep(es: seq<Entry>, lo: nat, hi: nat, at: nat, anchors: seq<nat>, index: nat, from: nat)
    requires lo <= hi <= |es| && IsAnchors(es, lo, hi, at, anchors)
    requires index <= |anchors| && lo <= from <= hi
    requires from == if index == 0 then lo else anchors[index - 1] + 1
    ensures AnchorOr(anchors, index, hi) == NextAnchor(es, from, hi, at)
    ensures index < |anchors| ==> from <= anchors[index] < hi
  {
    var a := NextAnchor(es, from, hi, at);
    assert forall k :: 0 <= k < |anchors| ==> anchors[k] in anchors;
    if a < hi {
      var k :| 0 <= k < |anchors| && anchors[k] == a;
      assert index <= k;
    }
  }

  function WireOf(c: Codec, key: Bytes, value: Cid, right: Tree, previous: Bytes): WireEntry {
    var prefix := CommonPrefix(previous, key);
    WireEntry(prefix, key[prefix..], value, LinkTo(c, right))
  }

  /** Up to `pos` the loop has done its share: what it has encoded and stored, completed by the
      items from `pos` on, is what all the items from `first` on give. */
  ghost predicate Progress(c: Codec, es: seq<Entry>, first: nat, pos: nat, hi: nat, at: nat,
                           encoded: seq<WireEntry>, previous: Bytes, blocks: Blocks, base: Blocks)
    requires first <= pos <= hi <= |es|
    requires (first < hi ==> es[first].layer == at) && (pos < hi ==> es[pos].layer == at)
  {
    && AtMost(es, first, pos, at)
    && (AtMost(es, first, hi, at) ==>
          var pending, all := ItemsFrom(es, pos, hi, at), ItemsFrom(es, first, hi, at);
          && encoded + WireItems(c, pending, previous) == WireItems(c, all, [])
          && AddItems(c, blocks, pending) == AddItems(c, base, all))
  }

  lemma ProgressStep(c: Codec, es: seq<Entry>, first: nat, start: nat, end: nat, hi: nat, at: nat,
                     encoded: seq<WireEntry>, entry: WireEntry, previous: Bytes,
                     blocks: Blocks, after: Blocks, base: Blocks)
    requires first <= start < end <= hi <= |es| && es[first].layer == at && es[start].layer == at
    requires Progress(c, es, first, start, hi, at, encoded, previous, blocks, base)
    requires end == NextAnchor(es, start + 1, hi, at)
    requires AtMost(es, start, end, at) && AtMost(es, start + 1, end, at - 1)
    requires var child := Child(es, start + 1, end, at);
             && entry == WireOf(c, es[start].key, es[start].value, child, previous)
             && after == AddTree(c, blocks, child)
    ensures Progress(c, es, first, end, hi, at, encoded + [entry], es[start].key, after, base)
  {
    if AtMost(es, first, hi, at) {
      var rest := ItemsFrom(es, end, hi, at);
      assert ItemsFrom(es, start, hi, at) == Cons(es[start].key, es[start].value, Child(es, start + 1, end, at), rest);
      var tail := WireItems(c, rest, es[start].key);
      assert (encoded + [entry]) + tail == encoded + ([entry] + tail);
    }
  }

  method BuildSubtree(c: Codec, es: seq<Entry>, lo: nat, hi: nat, at: nat, store: BlockStore)
    returns (r: Result<Cid, Error>)
    requires lo <= hi <= |es|
    modifies store
    ensures r.Ok? <==> AtMost(es, lo, hi, at)
    ensures r.Ok? ==> r.value == TreeCid(c, Subtree(es, lo, hi, at))
    ensures r.Ok? ==> store.blocks == AddTree(c, old(store.blocks), Subtree(es, lo, hi, at))
    decreases at, 3
  {
    var anchors := Anchors(es, lo, hi, at);
    AnchorStep(es, lo, hi, at, anchors, 0, lo);
    var leftEnd := AnchorOr(anchors, 0, hi);
    var left := BuildChild(c, es, lo, leftEnd, at, store);
    if left.Err? {
      return Err(left.error);
    }
    var encoded := BuildEntries(c, es, lo, hi, at, anchors, store);
    if encoded.Err? {
      return Err(encoded.error);
    }
    var bytes := c.enc(NodeValue(WireNode(left.value, encoded.value)));
    var cid := c.CidFor(bytes);
    store.blocks := store.blocks[cid := bytes];
    r := Ok(cid);
  }

  /** The loop of `subtree` over its anchors. */
  method BuildEntries(c: Codec, es: seq<Entry>, lo: nat, hi: nat, at: nat, anchors: seq<nat>, store: BlockStore)
    returns (r: Result<seq<WireEntry>, Error>)
    requires lo <= hi <= |es| && IsAnchors(es, lo, hi, at, anchors)
    modifies store
    ensures var first := NextAnchor(es, lo, hi, at);
            && (r.Ok? <==> AtMost(es, first, hi, at))
            && (r.Ok? ==> r.value == WireItems(c, ItemsFrom(es, first, hi, at), []))
            && (r.Ok? ==> store.blocks == AddItems(c, old(store.blocks), ItemsFrom(es, first, hi, at)))
    decreases at, 2
  {
    AnchorStep(es, lo, hi, at, anchors, 0, lo);
    ghost var first := NextAnchor(es, lo, hi, at);
    ghost var pos := first;
    ghost var base := store.blocks;
    var encoded: seq<WireEntry> := [];
    var previous: Bytes := [];
    var index := 0;
    while index < |anchors|
      invariant 0 <= index <= |anchors|
      invariant pos == AnchorOr(anchors, index, hi)
      invariant first <= pos <= hi && (pos < hi ==> es[pos].layer == at)
      invariant index < |anchors| ==> pos < hi
      invariant Progress(c, es, first, pos, hi, at, encoded, previous, store.blocks, base)
    {
      var start := anchors[index];
      var end := AnchorOr(anchors, index + 1, hi);
      AnchorStep(es, lo, hi, at, anchors, index + 1, start + 1);
      ghost var before := store.blocks;
      var entry := BuildEntry(c, es, start, end, at, previous, store);
      if entry.Err? {
        return Err(entry.error);
      }
      ProgressStep(c, es, first, start, end, hi, at, encoded, entry.value, previous, before, store.blocks, base);
      encoded := encoded + [entry.value];
      previous := es[start].key;
      index := index + 1;
      pos := end;
    }
    r := Ok(encoded);
  }

  /** The loop body: the subtree right of an anchor, and the anchor's entry. */
  method BuildEntry(c: Codec, es: seq<Entry>, start: nat, end: nat, at: nat, previous: Bytes, store: BlockStore)
    returns (r: Result<WireEntry, Error>)
    requires start < end <= |es| && es[start].layer == at
    requires forall k :: start < k < end ==> es[k].layer != at
    modifies store
    ensures r.Ok? <==> AtMost(es, start, end, at)
    ensures r.Ok? ==> AtMost(es, start + 1, end, at - 1)
    ensures r.Ok? ==> r.value == WireOf(c, es[start].key, es[start].value, Child(es, start + 1, end, at), previous)
    ensures r.Ok? ==> store.blocks == AddTree(c, old(store.blocks), Child(es, start + 1, end, at))
    decreases at, 1
  {
    var tree := BuildChild(c, es, start + 1, end, at, store);
    if tree.Err? {
      return Err(tree.error);
    }
    var key := es[start].key;
    var prefix := CommonPrefix(previous, key);
    r := Ok(WireEntry(prefix, key[prefix..], es[start].value, tree.value));
  }

  method BuildChild(c: Codec, es: seq<Entry>, lo: nat, hi: nat, parent: nat, store: BlockStore)
    returns (r: Result<Option<Cid>, Error>)
    requires lo <= hi <= |es|
    modifies store
    ensures r.Ok? <==> AtMost(es, lo, hi, parent - 1)
    ensures r.Ok? ==> r.value == LinkTo(c, Child(es, lo, hi, parent))
    ensures r.Ok? ==> store.blocks == AddTree(c, old(store.blocks), Child(es, lo, hi, parent))
    decreases parent, 0
  {
    if lo == hi {
      return Ok(None);
    }
    if parent == 0 {
      assert es[lo].layer >= 0;
      return Err(Verification("MST layer underflow"));
    }
    var root := BuildSubtree(c, es, lo, hi, parent - 1, store);
    r := if root.Ok? then Ok(Some(root.value)) else Err(root.error);
  }

  // ----- the entry point -----

  /** The keys of a mapping in the order in which a BTreeMap iterates them. */
  function SortedKeys<V>(m: map<Bytes, V>): (ks: seq<Bytes>)
    ensures SortedBy(ks, LexLess) && |ks| == |m|
    ensures forall k :: k in ks <==> k in m
    ensures forall i :: 0 <= i < |ks| ==> ks[i] in m
  {
    LexIsStrictTotal();
    var ks := Ascending(m.Keys, LexLess);
    assert forall i :: 0 <= i < |ks| ==> ks[i] in ks;
    ks
  }

  function MapEntries(c: Codec, m: map<Bytes, Cid>): (es: seq<Entry>)
    ensures |es| == |m|
  {
    var ks := SortedKeys(m);
    seq(|ks|, i requires 0 <= i < |ks| => Entry(ks[i], m[ks[i]], LayerOf(c.hash(ks[i]))))
  }

  /** The highest occupied layer, zero for no entries. */
  function Top(es: seq<Entry>): (top: nat)
    ensures AtMost(es, 0, |es|, top)
    ensures if es == [] then top == 0 else exists i :: 0 <= i < |es| && es[i].layer == top
  {
    if es == [] then 0 else
      var n := |es| - 1;
      var rest := Top(es[..n]);
      assert forall i :: 0 <= i < n ==> es[..n][i] == es[i];
      if rest > es[n].layer then rest else es[n].layer
  }

  function MapTree(c: Codec, m: map<Bytes, Cid>): (t: Tree)
    ensures t.Node?
  {
    var es := MapEntries(c, m);
    Subtree(es, 0, |es|, Top(es))
  }

  lemma EntryAt(c: Codec, m: map<Bytes, Cid>, i: nat)
    requires i < |m|
    ensures SortedKeys(m)[i] in m
    ensures MapEntries(c, m)[i] == Entry(SortedKeys(m)[i], m[SortedKeys(m)[i]], LayerOf(c.hash(SortedKeys(m)[i])))
  {
  }

  method CollectEntries(c: Codec, mapping: map<Bytes, Cid>) returns (entries: seq<Entry>)
    ensures entries == MapEntries(c, mapping)
  {
    ghost var all := MapEntries(c, mapping);
    var keys := SortedKeys(mapping);
    entries := [];
    for i := 0 to |keys|
      invariant |all| == |keys| == |mapping| && entries == all[..i]
    {
      EntryAt(c, mapping, i);
      var layer := Layer(c.hash(keys[i]));
      entries := entries + [Entry(keys[i], mapping[keys[i]], layer)];
      SliceNext(all, i);
    }
  }

  /** Building never fails, whatever the keys, and adds exactly the tree's blocks. */
  method Build(c: Codec, mapping: map<Bytes, Cid>, store: BlockStore) returns (r: Result<Cid, Error>)
    modifies store
    ensures r == Ok(TreeCid(c, MapTree(c, mapping)))
    ensures store.blocks == old(store.blocks) + TreeBlocks(c, MapTree(c, mapping))
  {
    var entries := CollectEntries(c, mapping);
    r := BuildSubtree(c, entries, 0, |entries|, Top(entries), store);
    AddTreeIsUnion(c, old(store.blocks), MapTree(c, mapping));
  }
}
