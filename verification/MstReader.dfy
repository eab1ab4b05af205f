/** A reader of encoded trees, and what it says of the trees that `Mst.Build` makes. */
module MstReader {
  import opened Ordered
  import opened Outcomes
  import opened Ipld
  import opened Mst

  // ----- reading one node -----

  function LinkFrom(v: Value): Option<Option<Cid>> {
    match v
    case Null => Some(None)
    case Link(cid) => Some(Some(cid))
    case _ => None
  }

  function EntryFrom(v: Value): Option<WireEntry> {
    if v.Map? && |v.fields| == 4
       && v.fields[0].key == K_K && v.fields[0].value.Blob?
       && v.fields[1].key == K_P && v.fields[1].value.Integer? && v.fields[1].value.n >= 0
       && v.fields[2].key == K_T && LinkFrom(v.fields[2].value).Some?
       && v.fields[3].key == K_V && v.fields[3].value.Link?
    then Some(WireEntry(v.fields[1].value.n, v.fields[0].value.bytes, v.fields[3].value.cid,
                        LinkFrom(v.fields[2].value).value))
    else None
  }

  function EntriesFrom(items: seq<Value>): Option<seq<WireEntry>> {
    if items == [] then Some([]) else
      match (EntryFrom(items[0]), EntriesFrom(items[1..]))
      case (Some(e), Some(rest)) => Some([e] + rest)
      case _ => None
  }

  function NodeFrom(v: Value): Option<WireNode> {
    if v.Map? && |v.fields| == 2
       && v.fields[0].key == K_E && v.fields[0].value.List?
       && v.fields[1].key == K_L && LinkFrom(v.fields[1].value).Some?
    then
      match EntriesFrom(v.fields[0].value.items)
      case Some(es) => Some(WireNode(LinkFrom(v.fields[1].value).value, es))
      case None => None
    else None
  }

  lemma {:induction false} EntriesRoundTrip(es: seq<WireEntry>)
    ensures EntriesFrom(EntryValues(es)) == Some(es)
  {
    if es != [] {
      EntriesRoundTrip(es[1..]);
      assert EntryValues(es)[1..] == EntryValues(es[1..]);
      assert es == [es[0]] + es[1..];
    }
  }

  lemma NodeRoundTrip(n: WireNode)
    ensures NodeFrom(NodeValue(n)) == Some(n)
  {
    EntriesRoundTrip(n.e);
  }

  // ----- compression -----

  function Keys(items: Items): seq<Bytes> {
    match items case Nil => [] case Cons(key, _, _, rest) => [key] + Keys(rest)
  }

  /** `p` is the length of the longest common prefix of two keys. */
  predicate LongestShared(a: Bytes, b: Bytes, p: nat) {
    p <= |a| && p <= |b| && a[..p] == b[..p] && (p < |a| && p < |b| ==> a[p] != b[p])
  }

  /** Each entry leaves out the longest prefix that its key shares with the key before, and keeps the rest. */
  lemma {:induction false} WireCompressed(c: Codec, items: Items, previous: Bytes, i: nat)
    requires i < |Keys(items)|
    ensures var es := WireItems(c, items, previous);
            && |es| == |Keys(items)|
            && LongestShared(if i == 0 then previous else Keys(items)[i - 1], Keys(items)[i], es[i].p)
            && es[i].k == Keys(items)[i][es[i].p..]
    decreases i
  {
    WireLength(c, items, previous);
    if i > 0 {
      WireCompressed(c, items.rest, items.key, i - 1);
    }
  }

  lemma {:induction false} WireLength(c: Codec, items: Items, previous: Bytes)
    ensures |WireItems(c, items, previous)| == |Keys(items)|
  {
    if items.Cons? {
      WireLength(c, items.rest, items.key);
    }
  }

  // ----- walking the tree -----

  /** An entry as read, with the number of links between the root and its node. */
  datatype Found = Found(key: Bytes, value: Cid, depth: int)
  datatype Walked = Walked(entries: seq<Found>, nodes: set<Cid>)

  /** Read the node `cid` and all below it, at most `fuel` nodes deep. */
  function Walk(c: Codec, blocks: Blocks, cid: Cid, depth: int, fuel: nat): Option<Walked>
    decreases fuel, 0, 0
  {
    if fuel == 0 || cid !in blocks || c.dec(blocks[cid]).None? || NodeFrom(c.dec(blocks[cid]).value).None? then None else
      var n := NodeFrom(c.dec(blocks[cid]).value).value;
      match (WalkLink(c, blocks, n.l, depth + 1, fuel - 1), WalkEntries(c, blocks, n.e, [], depth, fuel - 1))
      case (Some(left), Some(rest)) => Some(Walked(left.entries + rest.entries, {cid} + left.nodes + rest.nodes))
      case _ => None
  }

  function WalkLink(c: Codec, blocks: Blocks, link: Option<Cid>, depth: int, fuel: nat): Option<Walked>
    decreases fuel, 1, 0
  {
    match link
    case None => Some(Walked([], {}))
    case Some(cid) => Walk(c, blocks, cid, depth, fuel)
  }

  /** Each key shares its first `p` bytes with the key before it. */
  function WalkEntries(c: Codec, blocks: Blocks, es: seq<WireEntry>, previous: Bytes, depth: int, fuel: nat): Option<Walked>
    decreases fuel, 2, |es|
  {
    if es == [] then Some(Walked([], {}))
    else if es[0].p > |previous| then None
    else
      var key := previous[..es[0].p] + es[0].k;
      match (WalkLink(c, blocks, es[0].t, depth + 1, fuel), WalkEntries(c, blocks, es[1..], key, depth, fuel))
      case (Some(right), Some(rest)) =>
        Some(Walked([Found(key, es[0].v, depth)] + right.entries + rest.entries, right.nodes + rest.nodes))
      case _ => None
  }

  // ----- what a tree holds -----

  function Flatten(t: Tree, depth: int): seq<Found> {
    match t
    case Empty => []
    case Node(left, items) => Flatten(left, depth + 1) + FlattenItems(items, depth)
  }

  function FlattenItems(items: Items, depth: int): seq<Found> {
    match items
    case Nil => []
    case Cons(key, value, right, rest) =>
      [Found(key, value, depth)] + Flatten(right, depth + 1) + FlattenItems(rest, depth)
  }

  function Height(t: Tree): nat {
    match t
    case Empty => 0
    case Node(left, items) => 1 + Max(Height(left), ItemsHeight(items))
  }

  function ItemsHeight(items: Items): nat {
    match items
    case Nil => 0
    case Cons(_, _, right, rest) => Max(Height(right), ItemsHeight(rest))
  }

  lemma TreeKeyed(c: Codec, t: Tree)
    requires c.Ideal()
    ensures Keyed(c, TreeBlocks(c, t))
    decreases t, 0
  {
    if t.Node? {
      TreeKeyed(c, t.left);
      ItemsKeyed(c, t.items);
      KeyedUnion(c, TreeBlocks(c, t.left), ItemsBlocks(c, t.items));
    }
  }

  lemma ItemsKeyed(c: Codec, items: Items)
    requires c.Ideal()
    ensures Keyed(c, ItemsBlocks(c, items))
    decreases items, 0
  {
    if items.Cons? {
      TreeKeyed(c, items.right);
      ItemsKeyed(c, items.rest);
      KeyedUnion(c, TreeBlocks(c, items.right), ItemsBlocks(c, items.rest));
    }
  }

  /** A node's own block and the blocks below it are all among the tree's blocks. */
  lemma NodeParts(c: Codec, t: Tree)
    requires c.Ideal() && t.Node?
    ensures var blocks := TreeBlocks(c, t);
            && SubMap(TreeBlocks(c, t.left), blocks) && SubMap(ItemsBlocks(c, t.items), blocks)
            && TreeCid(c, t) in blocks && blocks[TreeCid(c, t)] == TreeBytes(c, t)
            && blocks.Keys == {TreeCid(c, t)} + TreeBlocks(c, t.left).Keys + ItemsBlocks(c, t.items).Keys
  {
    TreeKeyed(c, t.left);
    ItemsKeyed(c, t.items);
    KeyedUnion(c, TreeBlocks(c, t.left), ItemsBlocks(c, t.items));
    KeyedUnion(c, TreeBlocks(c, t.left) + ItemsBlocks(c, t.items), map[TreeCid(c, t) := TreeBytes(c, t)]);
  }

  /** A stored tree's root block reads back to its node, beside the blocks of its parts. */
  lemma NodeStored(c: Codec, blocks: Blocks, t: Tree)
    requires c.Ideal() && t.Node? && SubMap(TreeBlocks(c, t), blocks)
    ensures TreeCid(c, t) in blocks && c.dec(blocks[TreeCid(c, t)]).Some?
    ensures NodeFrom(c.dec(blocks[TreeCid(c, t)]).value) == Some(WireNode(LinkTo(c, t.left), WireItems(c, t.items, [])))
    ensures SubMap(TreeBlocks(c, t.left), blocks) && SubMap(ItemsBlocks(c, t.items), blocks)
    ensures TreeBlocks(c, t).Keys == {TreeCid(c, t)} + TreeBlocks(c, t.left).Keys + ItemsBlocks(c, t.items).Keys
  {
    NodeParts(c, t);
    NodeRoundTrip(WireNode(LinkTo(c, t.left), WireItems(c, t.items, [])));
  }

  /** Reading a stored tree gives its entries in order and visits exactly its nodes. */
  lemma {:induction false} WalkTree(c: Codec, blocks: Blocks, t: Tree, depth: int, fuel: nat)
    requires c.Ideal() && t.Node?
    requires SubMap(TreeBlocks(c, t), blocks) && Height(t) <= fuel
    ensures Walk(c, blocks, TreeCid(c, t), depth, fuel)
         == Some(Walked(Flatten(t, depth), TreeBlocks(c, t).Keys))
    decreases t, 1
  {
    NodeStored(c, blocks, t);
    WalkFrom(c, blocks, TreeCid(c, t), t, depth, fuel);
  }

  /** The same from any block that holds the tree's root node. */
  lemma {:induction false} WalkFrom(c: Codec, blocks: Blocks, cid: Cid, t: Tree, depth: int, fuel: nat)
    requires c.Ideal() && t.Node? && Height(t) <= fuel && cid in blocks && c.dec(blocks[cid]).Some?
    requires NodeFrom(c.dec(blocks[cid]).value) == Some(WireNode(LinkTo(c, t.left), WireItems(c, t.items, [])))
    requires SubMap(TreeBlocks(c, t.left), blocks) && SubMap(ItemsBlocks(c, t.items), blocks)
    ensures Walk(c, blocks, cid, depth, fuel)
         == Some(Walked(Flatten(t, depth), {cid} + TreeBlocks(c, t.left).Keys + ItemsBlocks(c, t.items).Keys))
    decreases t, 0
  {
    WalkLinkTo(c, blocks, t.left, depth + 1, fuel - 1);
    WalkItems(c, blocks, t.items, [], depth, fuel - 1);
  }

  lemma {:induction false} WalkLinkTo(c: Codec, blocks: Blocks, t: Tree, depth: int, fuel: nat)
    requires c.Ideal()
    requires SubMap(TreeBlocks(c, t), blocks) && Height(t) <= fuel
    ensures WalkLink(c, blocks, LinkTo(c, t), depth, fuel)
         == Some(Walked(Flatten(t, depth), TreeBlocks(c, t).Keys))
    decreases t, 2
  {
    if t.Node? {
      WalkTree(c, blocks, t, depth, fuel);
    } else {
      assert TreeBlocks(c, t).Keys == {};
    }
  }

  lemma {:induction false} WalkItems(c: Codec, blocks: Blocks, items: Items, previous: Bytes, depth: int, fuel: nat)
    requires c.Ideal()
    requires SubMap(ItemsBlocks(c, items), blocks) && ItemsHeight(items) <= fuel
    ensures WalkEntries(c, blocks, WireItems(c, items, previous), previous, depth, fuel)
         == Some(Walked(FlattenItems(items, depth), ItemsBlocks(c, items).Keys))
    decreases items, 1
  {
    if items.Cons? {
      TreeKeyed(c, items.right);
      ItemsKeyed(c, items.rest);
      KeyedUnion(c, TreeBlocks(c, items.right), ItemsBlocks(c, items.rest));
      WalkLinkTo(c, blocks, items.right, depth + 1, fuel);
      WalkItems(c, blocks, items.rest, items.key, depth, fuel);
      var es := WireItems(c, items, previous);
      assert es[1..] == WireItems(c, items.rest, items.key);
      var p := CommonPrefix(previous, items.key);
      assert previous[..p] + items.key[p..] == items.key;
    } else {
      assert ItemsBlocks(c, items).Keys == {};
    }
  }

  // ----- the tree of a mapping -----

  /** Entries `lo..hi` as a reader finds them when layer `sum` is at depth zero. */
  function Listing(es: seq<Entry>, lo: nat, hi: nat, sum: int): seq<Found>
    requires lo <= hi <= |es|
  {
    seq(hi - lo, i requires 0 <= i < hi - lo => Found(es[lo + i].key, es[lo + i].value, sum - es[lo + i].layer))
  }

  lemma ListingSplits(es: seq<Entry>, lo: nat, mid: nat, hi: nat, sum: int)
    requires lo <= mid <= hi <= |es|
    ensures Listing(es, lo, hi, sum) == Listing(es, lo, mid, sum) + Listing(es, mid, hi, sum)
  {
  }

  lemma {:induction false} SubtreeHolds(es: seq<Entry>, lo: nat, hi: nat, at: nat, depth: int)
    requires lo <= hi <= |es| && AtMost(es, lo, hi, at)
    ensures Flatten(Subtree(es, lo, hi, at), depth) == Listing(es, lo, hi, depth + at)
    ensures Height(Subtree(es, lo, hi, at)) <= at + 1
    decreases at, 2, 0
  {
    var a := NextAnchor(es, lo, hi, at);
    ChildHolds(es, lo, a, at, depth);
    ItemsHold(es, a, hi, at, depth);
    ListingSplits(es, lo, a, hi, depth + at);
  }

  lemma {:induction false} ChildHolds(es: seq<Entry>, lo: nat, hi: nat, parent: nat, depth: int)
    requires lo <= hi <= |es| && AtMost(es, lo, hi, parent - 1)
    ensures Flatten(Child(es, lo, hi, parent), depth + 1) == Listing(es, lo, hi, depth + parent)
    ensures Height(Child(es, lo, hi, parent)) <= parent
    decreases parent, 0, 0
  {
    if lo < hi {
      assert es[lo].layer <= parent - 1;
      SubtreeHolds(es, lo, hi, parent - 1, depth + 1);
    }
  }

  lemma {:induction false} ItemsHold(es: seq<Entry>, i: nat, hi: nat, at: nat, depth: int)
    requires i <= hi <= |es| && AtMost(es, i, hi, at)
    requires i < hi ==> es[i].layer == at
    ensures FlattenItems(ItemsFrom(es, i, hi, at), depth) == Listing(es, i, hi, depth + at)
    ensures ItemsHeight(ItemsFrom(es, i, hi, at)) <= at
    decreases at, 1, hi - i
  {
    if i < hi {
      var j := NextAnchor(es, i + 1, hi, at);
      ChildHolds(es, i + 1, j, at, depth);
      ItemsHold(es, j, hi, at, depth);
      ListingSplits(es, i, i + 1, hi, depth + at);
      ListingSplits(es, i + 1, j, hi, depth + at);
      var head := [Found(es[i].key, es[i].value, depth)];
      assert Listing(es, i, i + 1, depth + at) == head;
      ConcatAssociates(head, Listing(es, i + 1, j, depth + at), Listing(es, j, hi, depth + at));
    }
  }

  /** The mapping's entries in key order; a key of layer L lies `top - L` links below the root. */
  function MapListing(c: Codec, m: map<Bytes, Cid>): seq<Found> {
    var es := MapEntries(c, m);
    Listing(es, 0, |es|, Top(es))
  }

  function MapTop(c: Codec, m: map<Bytes, Cid>): nat {
    Top(MapEntries(c, m))
  }

  lemma ListingAt(c: Codec, m: map<Bytes, Cid>, i: nat)
    requires i < |m|
    ensures |MapListing(c, m)| == |m|
    ensures var found := MapListing(c, m)[i];
            && found.key == SortedKeys(m)[i] && found.value == m[found.key]
            && found.depth == MapTop(c, m) - LayerOf(c.hash(found.key))
            && 0 <= found.depth <= MapTop(c, m)
  {
    var es := MapEntries(c, m);
    assert es[i].layer <= Top(es);
  }

  /** Reading back a built tree, whatever else is stored beside it, gives exactly the mapping, in
      key order and each key at its own depth, and visits exactly the blocks that were added. */
  lemma RoundTrip(c: Codec, m: map<Bytes, Cid>, blocks: Blocks, fuel: nat)
    requires c.Ideal() && SubMap(TreeBlocks(c, MapTree(c, m)), blocks)
    requires MapTop(c, m) < fuel
    ensures Walk(c, blocks, TreeCid(c, MapTree(c, m)), 0, fuel)
         == Some(Walked(MapListing(c, m), TreeBlocks(c, MapTree(c, m)).Keys))
  {
    ReadEntries(c, MapEntries(c, m), blocks, fuel);
  }

  lemma ReadEntries(c: Codec, es: seq<Entry>, blocks: Blocks, fuel: nat)
    requires c.Ideal() && Top(es) < fuel
    requires SubMap(TreeBlocks(c, Subtree(es, 0, |es|, Top(es))), blocks)
    ensures Walk(c, blocks, TreeCid(c, Subtree(es, 0, |es|, Top(es))), 0, fuel)
         == Some(Walked(Listing(es, 0, |es|, Top(es)), TreeBlocks(c, Subtree(es, 0, |es|, Top(es))).Keys))
  {
    SubtreeHolds(es, 0, |es|, Top(es), 0);
    WalkTree(c, blocks, Subtree(es, 0, |es|, Top(es)), 0, fuel);
  }

  lemma ListingDeterminesMapping(c: Codec, m1: map<Bytes, Cid>, m2: map<Bytes, Cid>)
    requires MapListing(c, m1) == MapListing(c, m2)
    ensures m1 == m2
  {
    ListingHas(c, m1, m2);
    ListingHas(c, m2, m1);
  }

  lemma ListingHas(c: Codec, m1: map<Bytes, Cid>, m2: map<Bytes, Cid>)
    requires MapListing(c, m1) == MapListing(c, m2)
    ensures SubMap(m1, m2)
  {
    forall k | k in m1 ensures k in m2 && m2[k] == m1[k] {
      assert k in SortedKeys(m1);
      var i :| 0 <= i < |SortedKeys(m1)| && SortedKeys(m1)[i] == k;
      ListedIn(c, m1, m2, i);
    }
  }

  lemma ListedIn(c: Codec, m1: map<Bytes, Cid>, m2: map<Bytes, Cid>, i: nat)
    requires MapListing(c, m1) == MapListing(c, m2) && i < |m1|
    ensures var k := SortedKeys(m1)[i];
            k in m1 && k in m2 && m2[k] == m1[k]
  {
    ListingSize(c, m1);
    ListingSize(c, m2);
    ListingAt(c, m1, i);
    ListingAt(c, m2, i);
  }

  lemma ListingSize(c: Codec, m: map<Bytes, Cid>)
    ensures |MapListing(c, m)| == |m|
  {
  }

  /** Different mappings have different roots. */
  lemma RootDeterminesMapping(c: Codec, m1: map<Bytes, Cid>, m2: map<Bytes, Cid>)
    requires c.Ideal() && TreeCid(c, MapTree(c, m1)) == TreeCid(c, MapTree(c, m2))
    ensures m1 == m2
  {
    var t1, t2 := MapTree(c, m1), MapTree(c, m2);
    TreeKeyed(c, t1);
    TreeKeyed(c, t2);
    KeyedUnion(c, TreeBlocks(c, t1), TreeBlocks(c, t2));
    var blocks := TreeBlocks(c, t1) + TreeBlocks(c, t2);
    var fuel := MapTop(c, m1) + MapTop(c, m2) + 1;
    RoundTrip(c, m1, blocks, fuel);
    RoundTrip(c, m2, blocks, fuel);
    ListingDeterminesMapping(c, m1, m2);
  }

  // ----- size -----

  function Nodes(t: Tree): nat {
    match t
    case Empty => 0
    case Node(left, items) => 1 + Nodes(left) + ItemsNodes(items)
  }

  function ItemsNodes(items: Items): nat {
    match items
    case Nil => 0
    case Cons(_, _, right, rest) => Nodes(right) + ItemsNodes(rest)
  }

  lemma Distributes(a: nat, b: nat, k: nat)
    ensures (a + b) * k == a * k + b * k
  {
  }

  lemma OneMore(n: nat, k: nat)
    ensures n * (k + 1) == n * k + n
  {
  }

  lemma {:induction false} SubtreeNodes(es: seq<Entry>, lo: nat, hi: nat, at: nat)
    requires lo < hi <= |es| && AtMost(es, lo, hi, at)
    ensures Nodes(Subtree(es, lo, hi, at)) <= (hi - lo) * at + 1
    decreases at, 2, 0
  {
    var a := NextAnchor(es, lo, hi, at);
    ChildNodes(es, lo, a, at);
    ItemsFromNodes(es, a, hi, at);
    Distributes(a - lo, hi - a, at);
  }

  lemma {:induction false} ChildNodes(es: seq<Entry>, lo: nat, hi: nat, parent: nat)
    requires lo <= hi <= |es| && AtMost(es, lo, hi, parent - 1)
    ensures Nodes(Child(es, lo, hi, parent)) <= (hi - lo) * parent
    decreases parent, 0, 0
  {
    if lo < hi {
      assert es[lo].layer <= parent - 1;
      SubtreeNodes(es, lo, hi, parent - 1);
      OneMore(hi - lo, parent - 1);
    }
  }

  lemma {:induction false} ItemsFromNodes(es: seq<Entry>, i: nat, hi: nat, at: nat)
    requires i <= hi <= |es| && AtMost(es, i, hi, at)
    requires i < hi ==> es[i].layer == at
    ensures ItemsNodes(ItemsFrom(es, i, hi, at)) <= (hi - i) * at
    decreases at, 1, hi - i
  {
    if i < hi {
      var j := NextAnchor(es, i + 1, hi, at);
      ChildNodes(es, i + 1, j, at);
      ItemsFromNodes(es, j, hi, at);
      Distributes(j - i - 1, hi - j, at);
      Distributes(1, hi - i - 1, at);
    }
  }

  lemma BlocksPerNode(c: Codec, t: Tree)
    ensures |TreeBlocks(c, t)| <= Nodes(t)
    decreases t, 0
  {
    if t.Node? {
      BlocksPerNode(c, t.left);
      BlocksPerItem(c, t.items);
      UnionSize(TreeBlocks(c, t.left), ItemsBlocks(c, t.items));
      UnionSize(TreeBlocks(c, t.left) + ItemsBlocks(c, t.items), map[TreeCid(c, t) := TreeBytes(c, t)]);
      UnionUpdates(TreeBlocks(c, t.left) + ItemsBlocks(c, t.items), map[], TreeCid(c, t), TreeBytes(c, t));
      assert (TreeBlocks(c, t.left) + ItemsBlocks(c, t.items)) + map[]
          == TreeBlocks(c, t.left) + ItemsBlocks(c, t.items);
    }
  }

  lemma BlocksPerItem(c: Codec, items: Items)
    ensures |ItemsBlocks(c, items)| <= ItemsNodes(items)
    decreases items, 0
  {
    if items.Cons? {
      BlocksPerNode(c, items.right);
      BlocksPerItem(c, items.rest);
      UnionSize(TreeBlocks(c, items.right), ItemsBlocks(c, items.rest));
    }
  }

  lemma UnionSize<K, V>(a: map<K, V>, b: map<K, V>)
    ensures |a + b| <= |a| + |b|
  {
    assert (a + b).Keys == a.Keys + b.Keys;
    assert |a.Keys + b.Keys| == |a.Keys| + |b.Keys| - |a.Keys * b.Keys|;
  }

  function MostNodes(keys: nat, top: nat): nat {
    keys * top + 1
  }

  /** A mapping of n keys takes at most n * top + 1 nodes, intermediate empty ones included. */
  lemma NodeCount(c: Codec, m: map<Bytes, Cid>)
    ensures |TreeBlocks(c, MapTree(c, m))| <= MostNodes(|m|, MapTop(c, m))
  {
    var es := MapEntries(c, m);
    BlocksPerNode(c, MapTree(c, m));
    if |es| > 0 {
      SubtreeNodes(es, 0, |es|, Top(es));
    }
  }
}
