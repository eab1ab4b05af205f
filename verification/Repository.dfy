/** Signed repository snapshots: building one from records, and checking one. */
module Repository {
  import opened Ordered
  import opened Outcomes
  import opened Ipld
  import opened Records
  import Mst
  import MstReader
  import Syntax

  /** The signature scheme. Keys and signatures are their byte forms. */
  datatype Signing = Signing(sign: (Bytes, Bytes) -> Bytes, publicKey: Bytes -> Bytes,
                             isPublicKey: Bytes -> bool, isSignature: Bytes -> bool,
                             normalize: Bytes -> Option<Bytes>, check: (Bytes, Bytes, Bytes) -> bool) {
    /** Signatures check under their key, and lowering S keeps them valid. */
    ghost predicate Sound() {
      && (forall key :: isPublicKey(publicKey(key)))
      && (forall key, m :: isSignature(sign(key, m)) && check(publicKey(key), m, sign(key, m)))
      && (forall s :: normalize(s).Some? ==>
            normalize(normalize(s).value).None? && (isSignature(s) ==> isSignature(normalize(s).value)))
      && (forall pub, m, s :: normalize(s).Some? && check(pub, m, s) ==> check(pub, m, normalize(s).value))
    }

    /** Deterministic signing with low S. */
    function SignLow(key: Bytes, m: Bytes): Bytes {
      var s := sign(key, m);
      match normalize(s) case Some(low) => low case None => s
    }
  }

  datatype Unsigned = Unsigned(did: Bytes, version: nat, data: Cid, rev: Bytes, prev: Option<Cid>)
  datatype Commit = Commit(unsigned: Unsigned, sig: Bytes)
  datatype Repo = Repo(commit: Commit, root: Cid, records: RecordMap, blocks: Blocks)

  const K_DID: Bytes := [0x64, 0x69, 0x64]
  const K_REV: Bytes := [0x72, 0x65, 0x76]
  const K_SIG: Bytes := [0x73, 0x69, 0x67]
  const K_DATA: Bytes := [0x64, 0x61, 0x74, 0x61]
  const K_PREV: Bytes := [0x70, 0x72, 0x65, 0x76]
  const K_VERSION: Bytes := [0x76, 0x65, 0x72, 0x73, 0x69, 0x6f, 0x6e]

  function UnsignedValue(u: Unsigned): Value {
    Map([Field(K_DID, String(u.did)), Field(K_REV, String(u.rev)), Field(K_DATA, Link(u.data)),
         Field(K_PREV, Mst.OptLink(u.prev)), Field(K_VERSION, Integer(u.version))])
  }

  function CommitValue(m: Commit): Value {
    Map([Field(K_DID, String(m.unsigned.did)), Field(K_REV, String(m.unsigned.rev)), Field(K_SIG, Blob(m.sig)),
         Field(K_DATA, Link(m.unsigned.data)), Field(K_PREV, Mst.OptLink(m.unsigned.prev)),
         Field(K_VERSION, Integer(m.unsigned.version))])
  }

  function FieldOf(fields: seq<Field>, key: Bytes): Option<Value> {
    if fields == [] then None
    else if fields[0].key == key then Some(fields[0].value)
    else FieldOf(fields[1..], key)
  }

  /** Deserialization takes the named fields, in whatever order and whatever else is there; an
      absent `prev` reads as none. */
  function CommitFrom(v: Value): Option<Commit> {
    if !v.Map? then None else
      match (FieldOf(v.fields, K_DID), FieldOf(v.fields, K_REV), FieldOf(v.fields, K_SIG),
             FieldOf(v.fields, K_DATA), FieldOf(v.fields, K_PREV), FieldOf(v.fields, K_VERSION))
      case (Some(String(did)), Some(String(rev)), Some(Blob(sig)), Some(Link(data)), prev, Some(Integer(version))) =>
        var prevLink := if prev.None? then Some(None) else MstReader.LinkFrom(prev.value);
        if version < 0 || prevLink.None? then None
        else Some(Commit(Unsigned(did, version, data, rev, prevLink.value), sig))
      case _ => None
  }

  lemma {:induction false} FieldAt(fields: seq<Field>, i: nat)
    requires i < |fields| && forall j :: 0 <= j < i ==> fields[j].key != fields[i].key
    ensures FieldOf(fields, fields[i].key) == Some(fields[i].value)
  {
    if i > 0 {
      FieldAt(fields[1..], i - 1);
    }
  }

  lemma CommitRoundTrip(m: Commit)
    ensures CommitFrom(CommitValue(m)) == Some(m)
  {
    var fields := CommitValue(m).fields;
    FieldAt(fields, 0);
    FieldAt(fields, 1);
    FieldAt(fields, 2);
    FieldAt(fields, 3);
    FieldAt(fields, 4);
    FieldAt(fields, 5);
  }

  function Mapping(records: RecordMap): map<Bytes, Cid> {
    map p | p in records :: records[p].cid
  }

  // ----- building -----

  function AddRecords(blocks: Blocks, records: RecordMap, paths: seq<Bytes>): Blocks
    requires forall i :: 0 <= i < |paths| ==> paths[i] in records
  {
    if paths == [] then blocks else
      var last := |paths| - 1;
      AddRecords(blocks, records, paths[..last])[records[paths[last]].cid := records[paths[last]].bytes]
  }

  ghost function Added(blocks: Blocks, records: RecordMap, paths: seq<Bytes>, n: nat): Blocks
    requires n <= |paths| && forall i :: 0 <= i < |paths| ==> paths[i] in records
  {
    AddRecords(blocks, records, paths[..n])
  }

  lemma AddNext(blocks: Blocks, records: RecordMap, paths: seq<Bytes>, i: nat)
    requires i < |paths| && forall j :: 0 <= j < |paths| ==> paths[j] in records
    ensures Added(blocks, records, paths, i + 1)
         == Added(blocks, records, paths, i)[records[paths[i]].cid := records[paths[i]].bytes]
  {
    assert paths[..i + 1][..i] == paths[..i];
  }

  function CommitOf(k: Tools, s: Signing, did: Bytes, rev: Bytes, records: RecordMap, key: Bytes): Commit {
    var unsigned := Unsigned(did, 3, Mst.TreeCid(k.codec, Mst.MapTree(k.codec, Mapping(records))), rev, None);
    Commit(unsigned, s.SignLow(key, k.codec.enc(UnsignedValue(unsigned))))
  }

  /** The snapshot for given inputs. It depends on the records, not on how they came to be. */
  function Snapshot(k: Tools, s: Signing, did: Bytes, rev: Bytes, records: RecordMap, key: Bytes): Repo {
    var commit := CommitOf(k, s, did, rev, records, key);
    var bytes := k.codec.enc(CommitValue(commit));
    var root := k.codec.CidFor(bytes);
    var tree := Mst.TreeBlocks(k.codec, Mst.MapTree(k.codec, Mapping(records)));
    Repo(commit, root, records, AddRecords(tree, records, Mst.SortedKeys(records))[root := bytes])
  }

  method InsertRecords(records: RecordMap, store: Mst.BlockStore)
    modifies store
    ensures store.blocks == AddRecords(old(store.blocks), records, Mst.SortedKeys(records))
  {
    var paths := Mst.SortedKeys(records);
    for i := 0 to |paths|
      invariant store.blocks == Added(old(store.blocks), records, paths, i)
    {
      AddNext(old(store.blocks), records, paths, i);
      store.blocks := store.blocks[records[paths[i]].cid := records[paths[i]].bytes];
    }
    assert paths[..|paths|] == paths;
  }

  method Build(k: Tools, s: Signing, did: Bytes, rev: Bytes, records: RecordMap, key: Bytes)
    returns (r: Result<Repo, Error>)
    ensures r == if Syntax.Metadata(did, rev).Ok? then Ok(Snapshot(k, s, did, rev, records, key)) else Err(InvalidMetadata)
  {
    var checked := Syntax.Metadata(did, rev);
    if checked.Err? {
      return Err(checked.error);
    }
    var store := new Mst.BlockStore();
    var data := Mst.Build(k.codec, Mapping(records), store);
    NothingPlus(Mst.TreeBlocks(k.codec, Mst.MapTree(k.codec, Mapping(records))));
    InsertRecords(records, store);
    var unsigned := Unsigned(did, 3, data.value, rev, None);
    var commit := Commit(unsigned, s.SignLow(key, k.codec.enc(UnsignedValue(unsigned))));
    var bytes := k.codec.enc(CommitValue(commit));
    var root := k.codec.CidFor(bytes);
    store.blocks := store.blocks[root := bytes];
    r := Ok(Repo(commit, root, records, store.blocks));
  }

  // ----- checking -----

  /** The signed commit that the root block holds, canonically encoded. */
  ghost predicate CommitAt(k: Tools, blocks: Blocks, root: Cid, m: Commit) {
    && root in blocks && k.codec.dec(blocks[root]).Some?
    && CommitFrom(k.codec.dec(blocks[root]).value) == Some(m) && k.codec.enc(CommitValue(m)) == blocks[root]
  }

  predicate WellFormed(m: Commit) {
    Syntax.Metadata(m.unsigned.did, m.unsigned.rev).Ok? && m.unsigned.version == 3 && m.unsigned.prev.None?
  }

  ghost predicate SignedBy(k: Tools, s: Signing, m: Commit, pub: Bytes) {
    && s.isPublicKey(pub) && s.isSignature(m.sig) && s.normalize(m.sig).None?
    && s.check(pub, k.codec.enc(UnsignedValue(m.unsigned)), m.sig)
  }

  ghost predicate RecordsStored(records: RecordMap, blocks: Blocks) {
    forall p :: p in records ==> records[p].cid in blocks && blocks[records[p].cid] == records[p].bytes
  }

  /** A commit with this content, over exactly these records, all of whose blocks are stored. */
  ghost predicate CommitsTo(k: Tools, s: Signing, repo: Repo, pub: Bytes, m: Commit) {
    var t := Mst.MapTree(k.codec, Mapping(repo.records));
    && CommitAt(k, repo.blocks, repo.root, m)
    && WellFormed(m) && SignedBy(k, s, m, pub)
    && m.unsigned.data == Mst.TreeCid(k.codec, t)
    && SubMap(Mst.TreeBlocks(k.codec, t), repo.blocks) && RecordsStored(repo.records, repo.blocks)
  }

  ghost predicate Accepted(k: Tools, s: Signing, repo: Repo, pub: Bytes) {
    Keyed(k.codec, repo.blocks) && exists m :: CommitsTo(k, s, repo, pub, m)
  }

  const HASH_MISMATCH := Verification("block hash mismatch")

  method CheckHashes(c: Codec, blocks: Blocks) returns (ok: bool)
    ensures ok <==> Keyed(c, blocks)
  {
    var pending := blocks.Keys;
    while pending != {}
      invariant pending <= blocks.Keys
      invariant forall cid :: cid in blocks && cid !in pending ==> c.CidFor(blocks[cid]) == cid
      decreases |pending|
    {
      var cid :| cid in pending;
      if c.CidFor(blocks[cid]) != cid {
        return false;
      }
      pending := pending - {cid};
    }
    ok := true;
  }

  method CheckTree(expected: Blocks, blocks: Blocks) returns (ok: bool)
    ensures ok <==> SubMap(expected, blocks)
  {
    var pending := expected.Keys;
    while pending != {}
      invariant pending <= expected.Keys
      invariant forall cid :: cid in expected && cid !in pending ==> cid in blocks && blocks[cid] == expected[cid]
      decreases |pending|
    {
      var cid :| cid in pending;
      if cid !in blocks || blocks[cid] != expected[cid] {
        return false;
      }
      pending := pending - {cid};
    }
    ok := true;
  }

  method CheckRecords(records: RecordMap, blocks: Blocks) returns (ok: bool)
    ensures ok <==> RecordsStored(records, blocks)
  {
    var paths := Mst.SortedKeys(records);
    for i := 0 to |paths|
      invariant forall j :: 0 <= j < i ==> records[paths[j]].cid in blocks && blocks[records[paths[j]].cid] == records[paths[j]].bytes
    {
      var r := records[paths[i]];
      if r.cid !in blocks || blocks[r.cid] != r.bytes {
        return false;
      }
    }
    ok := true;
    forall p | p in records ensures records[p].cid in blocks && blocks[records[p].cid] == records[p].bytes {
      var i :| 0 <= i < |paths| && paths[i] == p;
    }
  }

  /** What checking says of the commit block, with the first thing wrong with it. */
  ghost function CommitVerdict(k: Tools, s: Signing, blocks: Blocks, root: Cid, pub: Bytes): Result<Commit, Error> {
    if root !in blocks then Err(Verification("missing commit"))
    else if k.codec.dec(blocks[root]).None? || CommitFrom(k.codec.dec(blocks[root]).value).None? then Err(Cbor)
    else
      var m := CommitFrom(k.codec.dec(blocks[root]).value).value;
      if Syntax.Metadata(m.unsigned.did, m.unsigned.rev).Err? then Err(InvalidMetadata)
      else if !WellFormed(m) || !CommitAt(k, blocks, root, m) then Err(Verification("invalid commit schema or encoding"))
      else if !SignedBy(k, s, m, pub) then Err(Signature)
      else Ok(m)
  }

  /** What checking says of a repository, with the first thing wrong with it. */
  ghost function Verdict(k: Tools, s: Signing, repo: Repo, pub: Bytes): Result<(), Error> {
    var tree := Mst.MapTree(k.codec, Mapping(repo.records));
    var commit := CommitVerdict(k, s, repo.blocks, repo.root, pub);
    if !Keyed(k.codec, repo.blocks) then Err(HASH_MISMATCH)
    else if commit.Err? then Err(commit.error)
    else if commit.value.unsigned.data != Mst.TreeCid(k.codec, tree) then Err(Verification("MST root mismatch"))
    else if !SubMap(Mst.TreeBlocks(k.codec, tree), repo.blocks) then Err(Verification("missing or incorrect MST block"))
    else if !RecordsStored(repo.records, repo.blocks) then Err(Verification("missing record block"))
    else Ok(())
  }

  /** The commit block: decoded, well-formed, canonical and signed under the key. */
  method CheckCommit(k: Tools, s: Signing, blocks: Blocks, root: Cid, pub: Bytes) returns (r: Result<Commit, Error>)
    ensures r.Ok? ==> CommitAt(k, blocks, root, r.value) && WellFormed(r.value) && SignedBy(k, s, r.value, pub)
    ensures r == CommitVerdict(k, s, blocks, root, pub) && (r.Err? ==> r.error != HASH_MISMATCH)
    ensures r.Err? ==> forall m :: CommitAt(k, blocks, root, m) && WellFormed(m) ==> !SignedBy(k, s, m, pub)
  {
    if root !in blocks {
      return Err(Verification("missing commit"));
    }
    var v := k.codec.dec(blocks[root]);
    if v.None? {
      return Err(Cbor);
    }
    var decoded := CommitFrom(v.value);
    if decoded.None? {
      return Err(Cbor);
    }
    var m := decoded.value;
    var checked := Syntax.Metadata(m.unsigned.did, m.unsigned.rev);
    if checked.Err? {
      return Err(checked.error);
    }
    if m.unsigned.version != 3 || m.unsigned.prev.Some? || k.codec.enc(CommitValue(m)) != blocks[root] {
      return Err(Verification("invalid commit schema or encoding"));
    }
    if !s.isPublicKey(pub) || !s.isSignature(m.sig) || s.normalize(m.sig).Some?
       || !s.check(pub, k.codec.enc(UnsignedValue(m.unsigned)), m.sig) {
      return Err(Signature);
    }
    r := Ok(m);
  }

  method Verify(k: Tools, s: Signing, repo: Repo, pub: Bytes) returns (r: Result<(), Error>)
    ensures r.Ok? <==> Accepted(k, s, repo, pub)
    ensures r == Verdict(k, s, repo, pub)
    ensures r == Err(HASH_MISMATCH) <==> !Keyed(k.codec, repo.blocks)
  {
    var hashes := CheckHashes(k.codec, repo.blocks);
    if !hashes {
      return Err(HASH_MISMATCH);
    }
    var commit := CheckCommit(k, s, repo.blocks, repo.root, pub);
    if commit.Err? {
      return Err(commit.error);
    }
    var expected := new Mst.BlockStore();
    var data := Mst.Build(k.codec, Mapping(repo.records), expected);
    NothingPlus(Mst.TreeBlocks(k.codec, Mst.MapTree(k.codec, Mapping(repo.records))));
    if data.value != commit.value.unsigned.data {
      return Err(Verification("MST root mismatch"));
    }
    var tree := CheckTree(expected.blocks, repo.blocks);
    if !tree {
      return Err(Verification("missing or incorrect MST block"));
    }
    var records := CheckRecords(repo.records, repo.blocks);
    if !records {
      return Err(Verification("missing record block"));
    }
    assert CommitsTo(k, s, repo, pub, commit.value);
    r := Ok(());
  }

  // ----- what building and checking amount to -----

  ghost predicate RecordsKeyed(k: Tools, records: RecordMap) {
    forall p :: p in records ==> records[p].cid == k.codec.CidFor(records[p].bytes)
  }

  function RecordCids(records: RecordMap): set<Cid> {
    set p | p in records :: records[p].cid
  }

  lemma {:induction false} AddRecordsKeeps(k: Tools, blocks: Blocks, records: RecordMap, paths: seq<Bytes>)
    requires k.codec.Ideal() && Keyed(k.codec, blocks) && RecordsKeyed(k, records)
    requires forall i :: 0 <= i < |paths| ==> paths[i] in records
    ensures var after := AddRecords(blocks, records, paths);
            && Keyed(k.codec, after) && SubMap(blocks, after)
            && (forall i :: 0 <= i < |paths| ==> records[paths[i]].cid in after)
            && after.Keys <= blocks.Keys + RecordCids(records)
  {
    if paths != [] {
      var last := |paths| - 1;
      AddRecordsKeeps(k, blocks, records, paths[..last]);
      var before := AddRecords(blocks, records, paths[..last]);
      KeyedInsert(k.codec, before, records[paths[last]].bytes);
      assert forall i :: 0 <= i < last ==> paths[..last][i] == paths[i];
    }
  }

  lemma RecordsAdded(k: Tools, blocks: Blocks, records: RecordMap)
    requires k.codec.Ideal() && Keyed(k.codec, blocks) && RecordsKeyed(k, records)
    ensures var after := AddRecords(blocks, records, Mst.SortedKeys(records));
            && Keyed(k.codec, after) && SubMap(blocks, after) && RecordsStored(records, after)
            && after.Keys == blocks.Keys + RecordCids(records)
  {
    var paths := Mst.SortedKeys(records);
    AddRecordsKeeps(k, blocks, records, paths);
    var after := AddRecords(blocks, records, paths);
    forall p | p in records ensures records[p].cid in after && after[records[p].cid] == records[p].bytes {
      assert p in paths;
      var i :| 0 <= i < |paths| && paths[i] == p;
      assert k.codec.CidFor(after[records[p].cid]) == k.codec.CidFor(records[p].bytes);
    }
  }

  /** A snapshot stores the tree, the records and the commit, and nothing else. */
  lemma SnapshotBlocks(k: Tools, s: Signing, did: Bytes, rev: Bytes, records: RecordMap, key: Bytes)
    requires k.codec.Ideal() && RecordsKeyed(k, records)
    ensures var repo := Snapshot(k, s, did, rev, records, key);
            var tree := Mst.TreeBlocks(k.codec, Mst.MapTree(k.codec, Mapping(records)));
            && Keyed(k.codec, repo.blocks) && SubMap(tree, repo.blocks) && RecordsStored(records, repo.blocks)
            && CommitAt(k, repo.blocks, repo.root, repo.commit)
            && repo.blocks.Keys == {repo.root} + tree.Keys + RecordCids(records)
  {
    var tree := Mst.TreeBlocks(k.codec, Mst.MapTree(k.codec, Mapping(records)));
    MstReader.TreeKeyed(k.codec, Mst.MapTree(k.codec, Mapping(records)));
    TreeWithRecords(k, tree, records, CommitOf(k, s, did, rev, records, key));
  }

  /** The records and a commit, added to the blocks of a tree. */
  lemma TreeWithRecords(k: Tools, tree: Blocks, records: RecordMap, m: Commit)
    requires k.codec.Ideal() && RecordsKeyed(k, records) && Keyed(k.codec, tree)
    ensures var bytes := k.codec.enc(CommitValue(m));
            var root := k.codec.CidFor(bytes);
            var after := AddRecords(tree, records, Mst.SortedKeys(records))[root := bytes];
            && Keyed(k.codec, after) && SubMap(tree, after) && RecordsStored(records, after)
            && CommitAt(k, after, root, m) && after.Keys == {root} + tree.Keys + RecordCids(records)
  {
    RecordsAdded(k, tree, records);
    WithCommit(k, tree, AddRecords(tree, records, Mst.SortedKeys(records)), records, RecordCids(records), m);
  }

  /** A commit, added to the blocks of a tree and its records. */
  lemma WithCommit(k: Tools, tree: Blocks, before: Blocks, records: RecordMap, added: set<Cid>, m: Commit)
    requires k.codec.Ideal() && Keyed(k.codec, before) && SubMap(tree, before) && RecordsStored(records, before)
    requires before.Keys == tree.Keys + added
    ensures var bytes := k.codec.enc(CommitValue(m));
            var root := k.codec.CidFor(bytes);
            var after := before[root := bytes];
            && Keyed(k.codec, after) && SubMap(tree, after) && RecordsStored(records, after)
            && CommitAt(k, after, root, m) && after.Keys == {root} + tree.Keys + added
  {
    CommitStored(k, before, m);
    var bytes := k.codec.enc(CommitValue(m));
    StoredThrough(tree, before, before[k.codec.CidFor(bytes) := bytes], records);
  }

  lemma StoredThrough(tree: Blocks, before: Blocks, after: Blocks, records: RecordMap)
    requires SubMap(tree, before) && SubMap(before, after) && RecordsStored(records, before)
    ensures SubMap(tree, after) && RecordsStored(records, after)
  {
  }

  /** Filing a commit under its own identifier disturbs no other block. */
  lemma CommitStored(k: Tools, before: Blocks, m: Commit)
    requires k.codec.Ideal() && Keyed(k.codec, before)
    ensures var bytes := k.codec.enc(CommitValue(m));
            var after := before[k.codec.CidFor(bytes) := bytes];
            Keyed(k.codec, after) && SubMap(before, after) && CommitAt(k, after, k.codec.CidFor(bytes), m)
  {
    KeyedInsert(k.codec, before, k.codec.enc(CommitValue(m)));
    CommitRoundTrip(m);
  }

  /** The commit that a snapshot's root block reads back to: version 3, no predecessor, for the given DID,
      revision and records, with a valid low-S signature under the key. */
  lemma SnapshotCommit(k: Tools, s: Signing, did: Bytes, rev: Bytes, records: RecordMap, key: Bytes)
    requires k.codec.Ideal() && s.Sound() && RecordsKeyed(k, records)
    ensures var repo := Snapshot(k, s, did, rev, records, key);
            && repo.root in repo.blocks && k.codec.dec(repo.blocks[repo.root]).Some?
            && CommitFrom(k.codec.dec(repo.blocks[repo.root]).value) == Some(repo.commit)
            && repo.commit.unsigned == Unsigned(did, 3, Mst.TreeCid(k.codec, Mst.MapTree(k.codec, Mapping(records))), rev, None)
            && SignedBy(k, s, repo.commit, s.publicKey(key)) && repo.records == records
  {
    var repo := Snapshot(k, s, did, rev, records, key);
    SnapshotBlocks(k, s, did, rev, records, key);
    SignLowIsSound(s, key, k.codec.enc(UnsignedValue(repo.commit.unsigned)));
  }

  /** What a reader meets from the commit on: the commit, the tree's nodes, and the records. */
  function Reach(k: Tools, blocks: Blocks, root: Cid, fuel: nat): Option<set<Cid>> {
    if root !in blocks || k.codec.dec(blocks[root]).None? || CommitFrom(k.codec.dec(blocks[root]).value).None? then None else
      var m := CommitFrom(k.codec.dec(blocks[root]).value).value;
      match MstReader.Walk(k.codec, blocks, m.unsigned.data, 0, fuel)
      case Some(w) => Some({root} + w.nodes + set i | 0 <= i < |w.entries| :: w.entries[i].value)
      case None => None
  }

  lemma ListedCids(k: Tools, records: RecordMap)
    ensures (set i | 0 <= i < |MstReader.MapListing(k.codec, Mapping(records))| ::
               MstReader.MapListing(k.codec, Mapping(records))[i].value) == RecordCids(records)
  {
    var m := Mapping(records);
    var listing := MstReader.MapListing(k.codec, m);
    MstReader.ListingSize(k.codec, m);
    forall cid | cid in RecordCids(records) ensures exists i :: 0 <= i < |listing| && listing[i].value == cid {
      var p :| p in records && records[p].cid == cid;
      assert p in Mst.SortedKeys(m);
      var i :| 0 <= i < |m| && Mst.SortedKeys(m)[i] == p;
      MstReader.ListingAt(k.codec, m, i);
    }
    forall i | 0 <= i < |listing| ensures listing[i].value in RecordCids(records) {
      MstReader.ListingAt(k.codec, m, i);
      assert Mst.SortedKeys(m)[i] in records;
    }
  }

  /** The stored blocks of a snapshot are exactly those reachable from its commit. */
  lemma BlocksAreClosure(k: Tools, s: Signing, did: Bytes, rev: Bytes, records: RecordMap, key: Bytes, fuel: nat)
    requires k.codec.Ideal() && RecordsKeyed(k, records)
    requires MstReader.MapTop(k.codec, Mapping(records)) < fuel
    ensures var repo := Snapshot(k, s, did, rev, records, key);
            Reach(k, repo.blocks, repo.root, fuel) == Some(repo.blocks.Keys)
  {
    var repo := Snapshot(k, s, did, rev, records, key);
    SnapshotBlocks(k, s, did, rev, records, key);
    MstReader.RoundTrip(k.codec, Mapping(records), repo.blocks, fuel);
    ListedCids(k, records);
  }

  lemma SignLowIsSound(s: Signing, key: Bytes, m: Bytes)
    requires s.Sound()
    ensures s.isSignature(s.SignLow(key, m)) && s.normalize(s.SignLow(key, m)).None?
    ensures s.check(s.publicKey(key), m, s.SignLow(key, m))
  {
  }

  /** Checking accepts every snapshot under its signer's key. */
  lemma VerifyComplete(k: Tools, s: Signing, did: Bytes, rev: Bytes, records: RecordMap, key: Bytes)
    requires k.codec.Ideal() && s.Sound() && RecordsKeyed(k, records) && Syntax.Metadata(did, rev).Ok?
    ensures Accepted(k, s, Snapshot(k, s, did, rev, records, key), s.publicKey(key))
  {
    var repo := Snapshot(k, s, did, rev, records, key);
    SnapshotBlocks(k, s, did, rev, records, key);
    SignLowIsSound(s, key, k.codec.enc(UnsignedValue(repo.commit.unsigned)));
    assert CommitsTo(k, s, repo, s.publicKey(key), repo.commit);
  }

  /** Whenever checking accepts, the signed root reads back, within the stored blocks, to exactly the
      record map, and every record's own bytes are stored under their own identifier. */
  lemma VerifySound(k: Tools, s: Signing, repo: Repo, pub: Bytes, fuel: nat) returns (m: Commit)
    requires k.codec.Ideal() && Accepted(k, s, repo, pub)
    requires MstReader.MapTop(k.codec, Mapping(repo.records)) < fuel
    ensures CommitAt(k, repo.blocks, repo.root, m)
    ensures m.unsigned.version == 3 && m.unsigned.prev.None? && Syntax.ValidDid(m.unsigned.did) && Syntax.ValidTid(m.unsigned.rev)
    ensures s.isPublicKey(pub) && s.normalize(m.sig).None? && s.check(pub, k.codec.enc(UnsignedValue(m.unsigned)), m.sig)
    ensures WellFormed(m) && SignedBy(k, s, m, pub)
    ensures MstReader.Walk(k.codec, repo.blocks, m.unsigned.data, 0, fuel).Some?
    ensures MstReader.Walk(k.codec, repo.blocks, m.unsigned.data, 0, fuel).value.entries
         == MstReader.MapListing(k.codec, Mapping(repo.records))
    ensures RecordsStored(repo.records, repo.blocks) && RecordsKeyed(k, repo.records)
  {
    m :| CommitsTo(k, s, repo, pub, m);
    MstReader.RoundTrip(k.codec, Mapping(repo.records), repo.blocks, fuel);
  }

  lemma SameMappingSameRecords(k: Tools, a: RecordMap, b: RecordMap)
    requires k.codec.Ideal() && RecordsKeyed(k, a) && RecordsKeyed(k, b) && Mapping(a) == Mapping(b)
    ensures a == b
  {
    assert a.Keys == Mapping(a).Keys == Mapping(b).Keys == b.Keys;
    forall p | p in a ensures a[p] == b[p] {
      assert a[p].cid == Mapping(a)[p] == Mapping(b)[p] == b[p].cid;
      assert k.codec.CidFor(a[p].bytes) == k.codec.CidFor(b[p].bytes);
    }
  }

  lemma AcceptedKeyed(k: Tools, repo: Repo)
    requires Keyed(k.codec, repo.blocks) && RecordsStored(repo.records, repo.blocks)
    ensures RecordsKeyed(k, repo.records)
  {
  }

  /** The records that verify under a root are unique: nothing else can be passed off under it. */
  lemma RootFixesRecords(k: Tools, s: Signing, repo1: Repo, repo2: Repo, pub: Bytes)
    requires k.codec.Ideal() && Accepted(k, s, repo1, pub) && Accepted(k, s, repo2, pub)
    requires repo1.root == repo2.root
    ensures repo1.records == repo2.records
  {
    var m1 :| CommitsTo(k, s, repo1, pub, m1);
    var m2 :| CommitsTo(k, s, repo2, pub, m2);
    KeyedUnion(k.codec, repo1.blocks, repo2.blocks);
    assert m1 == m2;
    MstReader.RootDeterminesMapping(k.codec, Mapping(repo1.records), Mapping(repo2.records));
    AcceptedKeyed(k, repo1);
    AcceptedKeyed(k, repo2);
    SameMappingSameRecords(k, repo1.records, repo2.records);
  }

  /** What is accepted without a block is neither its root, nor in its tree, nor one of its records. */
  lemma DroppedFails(k: Tools, s: Signing, repo: Repo, pub: Bytes, cid: Cid)
    requires Accepted(k, s, repo.(blocks := repo.blocks - {cid}), pub)
    ensures cid != repo.root && cid !in Mst.TreeBlocks(k.codec, Mst.MapTree(k.codec, Mapping(repo.records)))
    ensures cid !in RecordCids(repo.records)
  {
    var m :| CommitsTo(k, s, repo.(blocks := repo.blocks - {cid}), pub, m);
  }

  /** Dropping any one block of a snapshot, or changing its bytes, makes checking fail. */
  lemma TamperingFails(k: Tools, s: Signing, did: Bytes, rev: Bytes, records: RecordMap, key: Bytes,
                       pub: Bytes, cid: Cid, bytes: Bytes)
    requires k.codec.Ideal() && RecordsKeyed(k, records)
    requires cid in Snapshot(k, s, did, rev, records, key).blocks
    ensures var repo := Snapshot(k, s, did, rev, records, key);
            && !Accepted(k, s, repo.(blocks := repo.blocks - {cid}), pub)
            && (bytes != repo.blocks[cid] ==> !Accepted(k, s, repo.(blocks := repo.blocks[cid := bytes]), pub))
  {
    var repo := Snapshot(k, s, did, rev, records, key);
    SnapshotBlocks(k, s, did, rev, records, key);
    var changed := repo.blocks[cid := bytes];
    if bytes != repo.blocks[cid] {
      assert k.codec.CidFor(repo.blocks[cid]) == cid;
      assert k.codec.CidFor(bytes) != cid;
      assert !Keyed(k.codec, changed) by { assert cid in changed; }
    }
    var dropped := repo.(blocks := repo.blocks - {cid});
    if Accepted(k, s, dropped, pub) {
      DroppedFails(k, s, repo, pub, cid);
    }
  }
}
