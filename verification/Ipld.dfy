/** Content identifiers, the IPLD data model, and the cryptographic and encoding
    primitives that the repository takes from libraries. */
module Ipld {
  import opened Ordered
  import opened Outcomes

  /** The failures of the repository crate. */
  datatype Error =
    | InvalidPath
    | InvalidMetadata
    | InvalidRecord
    | Limit(what: string)
    | Cbor
    | Signature
    | Verification(why: string)

  const RAW := 0x55
  const DAG_CBOR := 0x71
  const SHA2_256 := 0x12

  /** A version 1 content identifier. */
  datatype Cid = Cid(codec: nat, hashCode: nat, digest: Bytes)

  datatype Value =
    | Null
    | Bool(b: bool)
    | Integer(n: int)
    | String(s: Bytes)
    | Blob(bytes: Bytes)
    | Link(cid: Cid)
    | List(items: seq<Value>)
    | Map(fields: seq<Field>)
  datatype Field = Field(key: Bytes, value: Value)

  /** The digest and the DAG-CBOR coder. They are parameters of everything below. */
  datatype Codec = Codec(hash: Bytes -> Bytes, enc: Value -> Bytes, dec: Bytes -> Option<Value>) {
    /** Distinct byte strings have distinct digests, and decoding inverts encoding. */
    ghost predicate Ideal() {
      && (forall x, y :: hash(x) == hash(y) ==> x == y)
      && (forall v :: dec(enc(v)) == Some(v))
    }

    function CidFor(bytes: Bytes): Cid {
      Cid(DAG_CBOR, SHA2_256, hash(bytes))
    }
  }

  type Blocks = map<Cid, Bytes>

  /** Every block is filed under the identifier of its own content. */
  ghost predicate Keyed(c: Codec, blocks: Blocks) {
    forall cid :: cid in blocks ==> c.CidFor(blocks[cid]) == cid
  }

  ghost predicate SubMap<K, V>(small: map<K, V>, big: map<K, V>) {
    forall k :: k in small ==> k in big && big[k] == small[k]
  }

  lemma NothingPlus<K, V>(m: map<K, V>)
    ensures map[] + m == m
  {
  }

  lemma UnionAssociates<K, V>(a: map<K, V>, b: map<K, V>, c: map<K, V>)
    ensures (a + b) + c == a + (b + c)
  {
  }

  lemma UnionUpdates<K, V>(a: map<K, V>, b: map<K, V>, k: K, v: V)
    ensures (a + b)[k := v] == a + b[k := v]
  {
  }

  /** Content addressing: an insertion never replaces a different block. */
  lemma KeyedUnion(c: Codec, a: Blocks, b: Blocks)
    requires c.Ideal() && Keyed(c, a) && Keyed(c, b)
    ensures Keyed(c, a + b)
    ensures SubMap(a, a + b) && SubMap(b, a + b)
  {
    forall cid | cid in a && cid in b ensures a[cid] == b[cid] {
      assert c.hash(a[cid]) == cid.digest == c.hash(b[cid]);
    }
  }

  lemma KeyedInsert(c: Codec, blocks: Blocks, bytes: Bytes)
    requires c.Ideal() && Keyed(c, blocks)
    ensures var after := blocks[c.CidFor(bytes) := bytes];
            Keyed(c, after) && SubMap(blocks, after)
  {
    KeyedUnion(c, blocks, map[c.CidFor(bytes) := bytes]);
    assert blocks[c.CidFor(bytes) := bytes] == blocks + map[c.CidFor(bytes) := bytes];
  }
}
