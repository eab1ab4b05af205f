/** Histories of edits against the snapshots and exports of what they leave. */
module History {
  import opened Ordered
  import opened Ipld
  import opened Records
  import opened Repository
  import MstReader
  import Car

  /** The export of what a history leaves. */
  function Exported(k: Tools, s: Signing, did: Bytes, rev: Bytes, key: Bytes, ops: seq<Op>): Bytes {
    var repo := Snapshot(k, s, did, rev, Run(JudgeOf(k), EMPTY, ops).records, key);
    Car.CarBytes(k.codec, repo.root, repo.blocks)
  }

  lemma LeftKeyed(k: Tools, ops: seq<Op>)
    ensures RecordsKeyed(k, Run(JudgeOf(k), EMPTY, ops).records)
  {
    JudgeIsSound(k);
    var _ := RunKeeps(k, JudgeOf(k), EMPTY, ops, map[]);
  }

  lemma SameRootSameCommit(k: Tools, a: Commit, b: Commit)
    requires k.codec.Ideal() && k.codec.CidFor(k.codec.enc(CommitValue(a))) == k.codec.CidFor(k.codec.enc(CommitValue(b)))
    ensures a == b
  {
    assert k.codec.dec(k.codec.enc(CommitValue(a))) == k.codec.dec(k.codec.enc(CommitValue(b)));
    CommitRoundTrip(a);
    CommitRoundTrip(b);
  }

  /** For one DID, revision and key, two histories of puts and deletes, refused ones included, export
      the same bytes if and only if they leave the same records. */
  lemma HistoryIndependent(k: Tools, s: Signing, did: Bytes, rev: Bytes, key: Bytes, ops1: seq<Op>, ops2: seq<Op>)
    requires k.codec.Ideal()
    ensures Exported(k, s, did, rev, key, ops1) == Exported(k, s, did, rev, key, ops2)
       <==> Run(JudgeOf(k), EMPTY, ops1).records == Run(JudgeOf(k), EMPTY, ops2).records
  {
    var a := Run(JudgeOf(k), EMPTY, ops1).records;
    var b := Run(JudgeOf(k), EMPTY, ops2).records;
    var repo1 := Snapshot(k, s, did, rev, a, key);
    var repo2 := Snapshot(k, s, did, rev, b, key);
    if Exported(k, s, did, rev, key, ops1) == Exported(k, s, did, rev, key, ops2) {
      Car.CarRoundTrip(k.codec, repo1.root, repo1.blocks);
      Car.CarRoundTrip(k.codec, repo2.root, repo2.blocks);
      assert repo1.root == repo2.root;
      SameRootSameCommit(k, repo1.commit, repo2.commit);
      MstReader.RootDeterminesMapping(k.codec, Mapping(a), Mapping(b));
      LeftKeyed(k, ops1);
      LeftKeyed(k, ops2);
      SameMappingSameRecords(k, a, b);
    }
  }
}
