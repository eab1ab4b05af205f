/** Exporting blocks as a CARv1 byte stream, and a parser of such streams. */
module Car {
  import opened Ordered
  import opened Outcomes
  import opened Ipld

  // ----- the order of identifiers -----

  predicate CidLess(a: Cid, b: Cid) {
    || a.codec < b.codec
    || (a.codec == b.codec &&
        (|| a.hashCode < b.hashCode
         || (a.hashCode == b.hashCode &&
             (|| |a.digest| < |b.digest|
              || (|a.digest| == |b.digest| && LexLess(a.digest, b.digest))))))
  }

  lemma CidsAreOrdered()
    ensures StrictTotal(CidLess)
  {
    LexIsStrictTotal();
    forall x: Cid ensures !CidLess(x, x) {
      assert !LexLess(x.digest, x.digest);
    }
    forall x: Cid, y: Cid | x != y ensures CidLess(x, y) || CidLess(y, x) {
      assert x.digest != y.digest ==> LexLess(x.digest, y.digest) || LexLess(y.digest, x.digest);
    }
    forall x, y, z | CidLess(x, y) && CidLess(y, z) ensures CidLess(x, z) {
    }
  }

  function SortedCids(blocks: Blocks): (cids: seq<Cid>)
    ensures SortedBy(cids, CidLess) && forall cid :: cid in cids <==> cid in blocks
    ensures forall i :: 0 <= i < |cids| ==> cids[i] in blocks
  {
    CidsAreOrdered();
    var cids := Ascending(blocks.Keys, CidLess);
    assert forall i :: 0 <= i < |cids| ==> cids[i] in cids;
    cids
  }

  // ----- variable-length integers -----

  function VarintOf(n: nat): (s: Bytes)
    ensures s != []
  {
    if n < 128 then [n] else [n % 128 + 128] + VarintOf(n / 128)
  }

  function ReadVarint(s: Bytes): (r: Option<(nat, Bytes)>)
    ensures r.Some? ==> |r.value.1| < |s|
  {
    if s == [] then None
    else if s[0] < 128 then Some((s[0], s[1..]))
    else
      match ReadVarint(s[1..])
      case Some(high) => Some((s[0] - 128 + 128 * high.0, high.1))
      case None => None
  }

  /** Reading inverts writing and stops where the integer stops, whatever follows. */
  lemma {:induction false} VarintRoundTrip(n: nat, rest: Bytes)
    ensures ReadVarint(VarintOf(n) + rest) == Some((n, rest))
  {
    var s := VarintOf(n) + rest;
    if n < 128 {
      assert s[1..] == rest;
    } else {
      VarintRoundTrip(n / 128, rest);
      assert s[1..] == VarintOf(n / 128) + rest;
    }
  }

  lemma VarintPrefixFree(m: nat, n: nat)
    requires VarintOf(m) <= VarintOf(n)
    ensures m == n
  {
    VarintRoundTrip(m, VarintOf(n)[|VarintOf(m)|..]);
    VarintRoundTrip(n, []);
    assert VarintOf(n) == VarintOf(m) + VarintOf(n)[|VarintOf(m)|..];
    assert VarintOf(n) + [] == VarintOf(n);
  }

  /** No other text for the same integer is shorter. */
  lemma {:induction false} VarintMinimal(s: Bytes)
    requires ReadVarint(s).Some?
    ensures |VarintOf(ReadVarint(s).value.0)| <= |s| - |ReadVarint(s).value.1|
  {
    if s[0] >= 128 {
      VarintMinimal(s[1..]);
      var high := ReadVarint(s[1..]).value.0;
      var n := ReadVarint(s).value.0;
      if n >= 128 {
        assert n / 128 == high;
      }
    }
  }

  // ----- identifiers and sections -----

  function CidBytes(cid: Cid): Bytes {
    [1] + VarintOf(cid.codec) + VarintOf(cid.hashCode) + VarintOf(|cid.digest|) + cid.digest
  }

  function ReadCid(s: Bytes): Option<(Cid, Bytes)> {
    if s == [] || s[0] != 1 then None else
      match ReadVarint(s[1..])
      case None => None
      case Some(codec) =>
        match ReadVarint(codec.1)
        case None => None
        case Some(code) =>
          match ReadVarint(code.1)
          case None => None
          case Some(size) =>
            if size.0 > |size.1| then None
            else Some((Cid(codec.0, code.0, size.1[..size.0]), size.1[size.0..]))
  }

  lemma CidRoundTrip(cid: Cid, rest: Bytes)
    ensures ReadCid(CidBytes(cid) + rest) == Some((cid, rest))
  {
    var s := CidBytes(cid) + rest;
    var sized := VarintOf(|cid.digest|) + (cid.digest + rest);
    var coded := VarintOf(cid.hashCode) + sized;
    assert s[1..] == VarintOf(cid.codec) + coded;
    VarintRoundTrip(cid.codec, coded);
    VarintRoundTrip(cid.hashCode, sized);
    VarintRoundTrip(|cid.digest|, cid.digest + rest);
    assert (cid.digest + rest)[..|cid.digest|] == cid.digest && (cid.digest + rest)[|cid.digest|..] == rest;
  }

  datatype Section = Section(cid: Cid, bytes: Bytes)

  function SectionBytes(s: Section): (r: Bytes)
    ensures r != []
  {
    VarintOf(|CidBytes(s.cid)| + |s.bytes|) + CidBytes(s.cid) + s.bytes
  }

  function SectionsBytes(ss: seq<Section>): Bytes {
    if ss == [] then [] else SectionsBytes(ss[..|ss| - 1]) + SectionBytes(ss[|ss| - 1])
  }

  function ReadSections(s: Bytes): Option<seq<Section>>
    decreases |s|
  {
    if s == [] then Some([]) else
      match ReadVarint(s)
      case None => None
      case Some(size) =>
        if size.0 > |size.1| then None else
          match (ReadCid(size.1[..size.0]), ReadSections(size.1[size.0..]))
          case (Some(c), Some(rest)) => Some([Section(c.0, c.1)] + rest)
          case _ => None
  }

  lemma ReadOneSection(section: Section, rest: Bytes)
    ensures ReadSections(SectionBytes(section) + rest)
         == match ReadSections(rest) case Some(ss) => Some([section] + ss) case None => None
  {
    var body := CidBytes(section.cid) + section.bytes;
    assert SectionBytes(section) + rest == VarintOf(|body|) + (body + rest);
    VarintRoundTrip(|body|, body + rest);
    assert (body + rest)[..|body|] == body && (body + rest)[|body|..] == rest;
    CidRoundTrip(section.cid, section.bytes);
  }

  lemma {:induction false} ReadAllSections(ss: seq<Section>, rest: Bytes)
    requires ReadSections(rest).Some?
    ensures ReadSections(SectionsBytes(ss) + rest) == Some(ss + ReadSections(rest).value)
  {
    if ss == [] {
      assert SectionsBytes(ss) + rest == rest;
      assert ss + ReadSections(rest).value == ReadSections(rest).value;
    } else {
      var front, last := ss[..|ss| - 1], ss[|ss| - 1];
      ReadOneSection(last, rest);
      ReadAllSections(front, SectionBytes(last) + rest);
      ConcatAssociates(SectionsBytes(front), SectionBytes(last), rest);
      ConcatAssociates(front, [last], ReadSections(rest).value);
      assert ss == front + [last];
    }
  }

  lemma OneSection(s: Section)
    ensures SectionsBytes([s]) == SectionBytes(s)
  {
    assert [s][..0] == [];
    assert SectionsBytes([]) + SectionBytes(s) == SectionBytes(s);
  }

  lemma OneMoreSection(ss: seq<Section>, s: Section)
    ensures SectionsBytes(ss + [s]) == SectionsBytes(ss) + SectionBytes(s)
  {
    assert (ss + [s])[..|ss|] == ss;
  }

  // ----- the stream -----

  const K_ROOTS: Bytes := [0x72, 0x6f, 0x6f, 0x74, 0x73]
  const K_VERSION: Bytes := [0x76, 0x65, 0x72, 0x73, 0x69, 0x6f, 0x6e]

  function HeaderValue(root: Cid): Value {
    Map([Field(K_ROOTS, List([Link(root)])), Field(K_VERSION, Integer(1))])
  }

  function HeaderRoot(v: Value): Option<Cid> {
    if v.Map? && |v.fields| == 2 && v.fields[0].key == K_ROOTS && v.fields[1] == Field(K_VERSION, Integer(1))
       && v.fields[0].value.List? && |v.fields[0].value.items| == 1 && v.fields[0].value.items[0].Link?
    then Some(v.fields[0].value.items[0].cid) else None
  }

  datatype Parsed = Parsed(root: Cid, sections: seq<Section>)

  function Parse(c: Codec, s: Bytes): Option<Parsed> {
    match ReadVarint(s)
    case None => None
    case Some(size) =>
      if size.0 > |size.1| || c.dec(size.1[..size.0]).None? then None else
        match (HeaderRoot(c.dec(size.1[..size.0]).value), ReadSections(size.1[size.0..]))
        case (Some(root), Some(ss)) => Some(Parsed(root, ss))
        case _ => None
  }

  /** The other sections among the first `n` identifiers, in order. */
  function Others(root: Cid, blocks: Blocks, cids: seq<Cid>, n: nat): (ss: seq<Section>)
    requires n <= |cids| && forall i :: 0 <= i < |cids| ==> cids[i] in blocks
  {
    if n == 0 then []
    else if cids[n - 1] == root then Others(root, blocks, cids, n - 1)
    else Others(root, blocks, cids, n - 1) + [Section(cids[n - 1], blocks[cids[n - 1]])]
  }

  /** The root's section, then the rest in ascending order of identifiers. */
  function Listed(root: Cid, blocks: Blocks): seq<Section>
    requires root in blocks
  {
    var cids := SortedCids(blocks);
    [Section(root, blocks[root])] + Others(root, blocks, cids, |cids|)
  }

  function CarBytes(c: Codec, root: Cid, blocks: Blocks): Bytes
    requires root in blocks
  {
    var header := c.enc(HeaderValue(root));
    VarintOf(|header|) + header + SectionsBytes(Listed(root, blocks))
  }

  // ----- the exporter -----

  class Output {
    var data: Bytes

    constructor ()
      ensures data == []
    {
      data := [];
    }

    method Varint(number: nat)
      modifies this
      ensures data == old(data) + VarintOf(number)
    {
      var n := number;
      while n >= 128
        invariant data + VarintOf(n) == old(data) + VarintOf(number)
      {
        ConcatAssociates(data, [n % 128 + 128], VarintOf(n / 128));
        data := data + [n % 128 + 128];
        n := n / 128;
      }
      data := data + [n];
    }

    method Extend(bytes: Bytes)
      modifies this
      ensures data == old(data) + bytes
    {
      data := data + bytes;
    }

    method Block(cid: Cid, bytes: Bytes)
      modifies this
      ensures data == old(data) + SectionBytes(Section(cid, bytes))
    {
      var encoded := CidBytes(cid);
      Varint(|encoded| + |bytes|);
      Extend(encoded);
      Extend(bytes);
    }
  }

  const MISSING_ROOT := Verification("missing CAR root")

  method Export(c: Codec, root: Cid, blocks: Blocks) returns (r: Result<Bytes, Error>)
    ensures r == if root in blocks then Ok(CarBytes(c, root, blocks)) else Err(MISSING_ROOT)
  {
    var header := c.enc(HeaderValue(root));
    var out := new Output();
    out.Varint(|header|);
    assert out.data == VarintOf(|header|);
    out.Extend(header);
    if root !in blocks {
      return Err(MISSING_ROOT);
    }
    ExportBlocks(root, blocks, out);
    r := Ok(out.data);
  }

  /** The root's block, then the loop over all the others. */
  method ExportBlocks(root: Cid, blocks: Blocks, out: Output)
    requires root in blocks
    modifies out
    ensures out.data == old(out.data) + SectionsBytes(Listed(root, blocks))
  {
    ghost var head := out.data;
    out.Block(root, blocks[root]);
    OneSection(Section(root, blocks[root]));
    var cids := SortedCids(blocks);
    for i := 0 to |cids|
      invariant out.data == head + Written(root, blocks, cids, i)
    {
      WrittenNext(head, root, blocks, cids, i);
      if cids[i] != root {
        out.Block(cids[i], blocks[cids[i]]);
      }
    }
  }

  /** The sections that are out after the first `n` identifiers. */
  ghost function Written(root: Cid, blocks: Blocks, cids: seq<Cid>, n: nat): Bytes
    requires root in blocks && n <= |cids| && forall i :: 0 <= i < |cids| ==> cids[i] in blocks
  {
    SectionsBytes([Section(root, blocks[root])] + Others(root, blocks, cids, n))
  }

  lemma WrittenNext(head: Bytes, root: Cid, blocks: Blocks, cids: seq<Cid>, i: nat)
    requires root in blocks && i < |cids| && forall j :: 0 <= j < |cids| ==> cids[j] in blocks
    ensures head + Written(root, blocks, cids, i + 1)
         == if cids[i] == root then head + Written(root, blocks, cids, i)
            else (head + Written(root, blocks, cids, i)) + SectionBytes(Section(cids[i], blocks[cids[i]]))
  {
    if cids[i] != root {
      var done, next := [Section(root, blocks[root])] + Others(root, blocks, cids, i), Section(cids[i], blocks[cids[i]]);
      ConcatAssociates([Section(root, blocks[root])], Others(root, blocks, cids, i), [next]);
      OneMoreSection(done, next);
      ConcatAssociates(head, SectionsBytes(done), SectionBytes(next));
    }
  }

  lemma FileRoundTrip(c: Codec, root: Cid, ss: seq<Section>)
    requires c.Ideal()
    ensures var header := c.enc(HeaderValue(root));
            Parse(c, VarintOf(|header|) + (header + SectionsBytes(ss))) == Some(Parsed(root, ss))
  {
    var header, body := c.enc(HeaderValue(root)), SectionsBytes(ss);
    VarintRoundTrip(|header|, header + body);
    assert (header + body)[..|header|] == header && (header + body)[|header|..] == body;
    ReadAllSections(ss, []);
    assert body + [] == body;
    assert ss + [] == ss;
  }

  /** Parsing an export gives back the root and every section. */
  lemma CarRoundTrip(c: Codec, root: Cid, blocks: Blocks)
    requires c.Ideal() && root in blocks
    ensures Parse(c, CarBytes(c, root, blocks)) == Some(Parsed(root, Listed(root, blocks)))
  {
    var header := c.enc(HeaderValue(root));
    FileRoundTrip(c, root, Listed(root, blocks));
    ConcatAssociates(VarintOf(|header|), header, SectionsBytes(Listed(root, blocks)));
  }

  lemma {:induction false} OthersHave(root: Cid, blocks: Blocks, cids: seq<Cid>, n: nat)
    requires n <= |cids| && (forall i :: 0 <= i < |cids| ==> cids[i] in blocks) && SortedBy(cids, CidLess)
    ensures var ss := Others(root, blocks, cids, n);
            && (forall i :: 0 <= i < |ss| ==> ss[i].cid in cids[..n] && ss[i].cid != root && ss[i].bytes == blocks[ss[i].cid])
            && (forall cid :: cid in cids[..n] && cid != root ==> Section(cid, blocks[cid]) in ss)
            && (forall i, j :: 0 <= i < j < |ss| ==> CidLess(ss[i].cid, ss[j].cid))
  {
    if n > 0 {
      OthersHave(root, blocks, cids, n - 1);
      assert cids[..n] == cids[..n - 1] + [cids[n - 1]];
    }
  }

  /** The listed sections are the block map: the root first, every block exactly once, the others in
      ascending order of identifiers. */
  lemma ListedIsTheMap(root: Cid, blocks: Blocks)
    requires root in blocks
    ensures var ss := Listed(root, blocks);
            && ss[0] == Section(root, blocks[root])
            && (forall i, j :: 1 <= i < j < |ss| ==> CidLess(ss[i].cid, ss[j].cid))
            && (forall i, j :: 0 <= i < j < |ss| ==> ss[i].cid != ss[j].cid)
            && (forall s: Section :: s in ss <==> s.cid in blocks && blocks[s.cid] == s.bytes)
  {
    var cids := SortedCids(blocks);
    assert forall i :: 0 <= i < |cids| ==> cids[i] in cids;
    assert cids[..|cids|] == cids;
    var others := Others(root, blocks, cids, |cids|);
    OthersHave(root, blocks, cids, |cids|);
    ListedOnce(root, blocks, others);
  }

  lemma ListedOnce(root: Cid, blocks: Blocks, others: seq<Section>)
    requires root in blocks
    requires forall i :: 0 <= i < |others| ==>
               others[i].cid in blocks && others[i].cid != root && others[i].bytes == blocks[others[i].cid]
    requires forall cid :: cid in blocks && cid != root ==> Section(cid, blocks[cid]) in others
    requires forall i, j :: 0 <= i < j < |others| ==> CidLess(others[i].cid, others[j].cid)
    ensures var ss := [Section(root, blocks[root])] + others;
            && (forall i, j :: 1 <= i < j < |ss| ==> CidLess(ss[i].cid, ss[j].cid))
            && (forall i, j :: 0 <= i < j < |ss| ==> ss[i].cid != ss[j].cid)
            && (forall s: Section :: s in ss <==> s.cid in blocks && blocks[s.cid] == s.bytes)
  {
    var ss := [Section(root, blocks[root])] + others;
    forall i, j | 0 <= i < j < |ss| ensures ss[i].cid != ss[j].cid {
      if i > 0 {
        assert CidLess(others[i - 1].cid, others[j - 1].cid);
        CidNotLessItself(others[i - 1].cid);
      }
    }
    forall s: Section ensures s in ss <==> s.cid in blocks && blocks[s.cid] == s.bytes {
      if s.cid in blocks && blocks[s.cid] == s.bytes && s.cid != root {
        assert Section(s.cid, blocks[s.cid]) in others;
      }
    }
  }

  lemma CidNotLessItself(cid: Cid)
    ensures !CidLess(cid, cid)
  {
    LexTotal(cid.digest, cid.digest);
  }
}
