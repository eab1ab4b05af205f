/** The materialized record map and its byte accounting. */
module Records {
  import opened Ordered
  import opened Outcomes
  import opened Ipld
  import J = Json
  import Syntax

  const MAX_RECORD_BYTES := 1_000_000
  const MAX_RECORDS := 100_000
  const MAX_TOTAL_RECORD_BYTES := 16 * 1024 * 1024
  const TYPE: Bytes := [0x24, 0x74, 0x79, 0x70, 0x65]

  datatype Record = Record(cid: Cid, bytes: Bytes)
  type RecordMap = map<Bytes, Record>

  /** The fields of a record set as a value. */
  datatype Holdings = Holdings(records: RecordMap, encodedBytes: int)
  const EMPTY := Holdings(map[], 0)

  /** The primitives of the repository: the block codec and the textual forms. */
  datatype Tools = Tools(codec: Codec, texts: J.Texts)

  ghost function TotalBytes(m: RecordMap): nat {
    if m == map[] then 0 else
      var k :| k in m;
      |m[k].bytes| + TotalBytes(m - {k})
  }

  lemma TotalWithout(m: RecordMap, k: Bytes)
    requires k in m
    ensures TotalBytes(m) == |m[k].bytes| + TotalBytes(m - {k})
  {
    var j :| j in m && TotalBytes(m) == |m[j].bytes| + TotalBytes(m - {j});
    if j != k {
      TotalWithout(m - {j}, k);
      TotalWithout(m - {k}, j);
      assert m - {j} - {k} == m - {k} - {j};
    }
  }

  function BytesAt(m: RecordMap, path: Bytes): nat {
    if path in m then |m[path].bytes| else 0
  }

  lemma TotalUpdated(m: RecordMap, k: Bytes, r: Record)
    ensures TotalBytes(m[k := r]) == TotalBytes(m) - BytesAt(m, k) + |r.bytes|
  {
    TotalWithout(m[k := r], k);
    assert m[k := r] - {k} == m - {k};
    if k in m {
      TotalWithout(m, k);
    } else {
      assert m - {k} == m;
    }
  }

  lemma TotalOfPart(part: RecordMap, m: RecordMap)
    requires SubMap(part, m)
    ensures TotalBytes(part) <= TotalBytes(m) && |part| <= |m|
  {
    if part != map[] {
      var k :| k in part;
      TotalWithout(part, k);
      TotalWithout(m, k);
      TotalOfPart(part - {k}, m - {k});
      assert |part| == |(part - {k}).Keys| + 1 by { assert part.Keys == (part - {k}).Keys + {k}; }
      assert |m| == |(m - {k}).Keys| + 1 by { assert m.Keys == (m - {k}).Keys + {k}; }
    }
  }

  // ----- what put and delete do -----

  function TypeOf(value: J.Json): Option<Bytes> {
    if value.JObject? then
      match J.Get(value.members, TYPE)
      case Some(v) => if v.JString? then Some(v.s) else None
      case None => None
    else None
  }

  /** The record that a JSON value becomes, if it becomes one. */
  function RecordOf(k: Tools, value: J.Json): Option<Record> {
    match J.Convert(k.texts, value)
    case Some(v) =>
      var bytes := k.codec.enc(v);
      if J.Height(value) <= J.MAX_RECORD_DEPTH && J.Cost(value) <= MAX_RECORD_BYTES && |bytes| <= MAX_RECORD_BYTES
      then Some(Record(k.codec.CidFor(bytes), bytes)) else None
    case None => None
  }

  /** The record that a put files, if path, type and value are acceptable. */
  function Stored(k: Tools, path: Bytes, value: J.Json): Option<Record> {
    if Syntax.Path(path).Ok? && TypeOf(value) == Some(Syntax.Collection(path)) then RecordOf(k, value) else None
  }

  function AfterPut(h: Holdings, path: Bytes, r: Record): Holdings {
    Holdings(h.records[path := r], h.encodedBytes - BytesAt(h.records, path) + |r.bytes|)
  }

  predicate Fits(h: Holdings, path: Bytes, r: Record) {
    && (path in h.records || |h.records| < MAX_RECORDS)
    && AfterPut(h, path, r).encodedBytes <= MAX_TOTAL_RECORD_BYTES
  }

  function AfterDelete(h: Holdings, path: Bytes): Holdings {
    if Syntax.Path(path).Ok? && path in h.records
    then Holdings(h.records - {path}, h.encodedBytes - |h.records[path].bytes|)
    else h
  }

  /** The counter is the sum of the stored lengths, and both caps hold. */
  ghost predicate Consistent(k: Tools, h: Holdings) {
    && h.encodedBytes == TotalBytes(h.records) <= MAX_TOTAL_RECORD_BYTES
    && |h.records| <= MAX_RECORDS
    && forall p :: p in h.records ==> h.records[p].cid == k.codec.CidFor(h.records[p].bytes)
  }

  lemma PutKeeps(k: Tools, h: Holdings, path: Bytes, r: Record)
    requires Consistent(k, h) && Fits(h, path, r)
    requires r.cid == k.codec.CidFor(r.bytes)
    ensures Consistent(k, AfterPut(h, path, r))
  {
    TotalUpdated(h.records, path, r);
    CountUpdated(h.records, path, r);
  }

  lemma DeleteKeeps(k: Tools, h: Holdings, path: Bytes)
    requires Consistent(k, h)
    ensures Consistent(k, AfterDelete(h, path))
  {
    if path in h.records {
      TotalWithout(h.records, path);
      TotalOfPart(h.records - {path}, h.records);
    }
  }

  lemma CountUpdated(m: RecordMap, k: Bytes, r: Record)
    ensures |m[k := r]| == if k in m then |m| else |m| + 1
  {
    assert m[k := r].Keys == m.Keys + {k};
  }

  /** A put fits exactly if the records it would leave respect both caps. */
  lemma FitsExactly(k: Tools, h: Holdings, path: Bytes, r: Record)
    requires Consistent(k, h)
    ensures Fits(h, path, r) <==>
            |h.records[path := r]| <= MAX_RECORDS && TotalBytes(h.records[path := r]) <= MAX_TOTAL_RECORD_BYTES
  {
    TotalUpdated(h.records, path, r);
    CountUpdated(h.records, path, r);
  }

  /** Which puts are acceptable: an accepted path, a `$type` that names its collection, a well-formed value
      of at most 64 levels and a million values and bytes of text, and at most a million bytes encoded. */
  lemma StoredExactly(k: Tools, path: Bytes, value: J.Json)
    requires k.texts.Ideal()
    ensures Stored(k, path, value).Some?
       <==> && Syntax.Path(path).Ok? && value.JObject?
            && J.Get(value.members, TYPE) == Some(J.JString(path[..Syntax.IndexOf(path, Syntax.SLASH)]))
            && J.WellFormed(k.texts, value) && J.WithinDepth(value, 64) && J.Values(value) + J.TextBytes(value) <= 1_000_000
            && J.Convert(k.texts, value).Some? && |k.codec.enc(J.Convert(k.texts, value).value)| <= 1_000_000
  {
    J.ConvertsExactly(k.texts, value);
    J.HeightExactly(value, 64);
    J.CostExactly(value);
  }

  /** A stored record reads back to what its JSON stands for, under its own identifier. */
  lemma StoredContent(k: Tools, path: Bytes, value: J.Json)
    requires k.codec.Ideal() && Stored(k, path, value).Some?
    ensures var r := Stored(k, path, value).value;
            && J.Convert(k.texts, value).Some? && k.codec.dec(r.bytes) == J.Convert(k.texts, value)
            && r.cid == Cid(DAG_CBOR, SHA2_256, k.codec.hash(r.bytes)) && |r.bytes| <= MAX_RECORD_BYTES
  {
  }

  class RecordSet {
    var records: RecordMap
    var encodedBytes: int

    function Now(): Holdings
      reads this
    {
      Holdings(records, encodedBytes)
    }

    constructor ()
      ensures Now() == EMPTY
    {
      records := map[];
      encodedBytes := 0;
    }

    /** A put stores exactly one record and says where it refused; a refused put changes nothing. */
    method Put(k: Tools, path: Bytes, value: J.Json) returns (r: Result<Cid, Error>)
      requires Consistent(k, Now())
      modifies this
      ensures r.Ok? <==> Stored(k, path, value).Some? && Fits(old(Now()), path, Stored(k, path, value).value)
      ensures r.Ok? ==> r.value == Stored(k, path, value).value.cid
                        && Now() == AfterPut(old(Now()), path, Stored(k, path, value).value)
      ensures r.Err? ==> Now() == old(Now())
      ensures r == Err(InvalidPath) <==> Syntax.Path(path).Err?
      ensures Consistent(k, Now())
      ensures r.Ok? && k.codec.Ideal() ==> path in records && k.codec.dec(records[path].bytes) == J.Convert(k.texts, value)
    {
      var checked := Syntax.Path(path);
      if checked.Err? {
        return Err(checked.error);
      }
      if TypeOf(value) != Some(Syntax.Collection(path)) {
        return Err(InvalidRecord);
      }
      if path !in records && |records| >= MAX_RECORDS {
        return Err(Limit("record count"));
      }
      var budget := new J.Budget(MAX_RECORD_BYTES);
      var ipld := J.JsonToIpld(k.texts, value, 0, budget);
      if ipld.Err? {
        return Err(ipld.error);
      }
      var bytes := k.codec.enc(ipld.value);
      if |bytes| > MAX_RECORD_BYTES {
        return Err(Limit("encoded record bytes"));
      }
      var replaced := if path in records then |records[path].bytes| else 0;
      var total := encodedBytes - replaced + |bytes|;
      if total > MAX_TOTAL_RECORD_BYTES {
        return Err(Limit("aggregate record bytes"));
      }
      var cid := k.codec.CidFor(bytes);
      assert RecordOf(k, value) == Some(Record(cid, bytes));
      assert Fits(Now(), path, Record(cid, bytes));
      PutKeeps(k, Now(), path, Record(cid, bytes));
      records := records[path := Record(cid, bytes)];
      encodedBytes := total;
      assert Now() == AfterPut(old(Now()), path, Record(cid, bytes));
      r := Ok(cid);
    }

    method Delete(k: Tools, path: Bytes) returns (r: Result<bool, Error>)
      requires Consistent(k, Now())
      modifies this
      ensures r == if Syntax.Path(path).Ok? then Ok(path in old(records)) else Err(InvalidPath)
      ensures Now() == AfterDelete(old(Now()), path)
      ensures Consistent(k, Now())
    {
      var checked := Syntax.Path(path);
      if checked.Err? {
        return Err(checked.error);
      }
      if path in records {
        DeleteKeeps(k, Now(), path);
        encodedBytes := encodedBytes - |records[path].bytes|;
        records := records - {path};
        r := Ok(true);
      } else {
        r := Ok(false);
      }
    }
  }

  // ----- whole histories -----

  datatype Op = Put(path: Bytes, value: J.Json) | Delete(path: Bytes)

  /** Which record a put would file, as a function. */
  type Judge = (Bytes, J.Json) -> Option<Record>

  function JudgeOf(k: Tools): Judge {
    (path, value) => Stored(k, path, value)
  }

  ghost predicate SoundJudge(k: Tools, judge: Judge) {
    forall p, v :: judge(p, v).Some? ==> judge(p, v).value.cid == k.codec.CidFor(judge(p, v).value.bytes)
  }

  lemma JudgeIsSound(k: Tools)
    ensures SoundJudge(k, JudgeOf(k))
  {
  }

  function Apply(judge: Judge, h: Holdings, op: Op): Holdings {
    match op
    case Put(path, value) =>
      var r := judge(path, value);
      if r.Some? && Fits(h, path, r.value) then AfterPut(h, path, r.value) else h
    case Delete(path) => AfterDelete(h, path)
  }

  function Run(judge: Judge, h: Holdings, ops: seq<Op>): Holdings
    decreases |ops|
  {
    if ops == [] then h else Run(judge, Apply(judge, h, ops[0]), ops[1..])
  }

  /** Every stored record came from a JSON value filed under its path. */
  ghost predicate BackedBy(judge: Judge, h: Holdings, values: map<Bytes, J.Json>) {
    && values.Keys == h.records.Keys
    && forall p :: p in values ==> judge(p, values[p]) == Some(h.records[p])
  }

  lemma PutBacked(judge: Judge, h: Holdings, path: Bytes, value: J.Json, values: map<Bytes, J.Json>)
    requires BackedBy(judge, h, values) && judge(path, value).Some?
    ensures BackedBy(judge, AfterPut(h, path, judge(path, value).value), values[path := value])
  {
  }

  lemma DeleteBacked(judge: Judge, h: Holdings, path: Bytes, values: map<Bytes, J.Json>)
    requires BackedBy(judge, h, values)
    ensures BackedBy(judge, AfterDelete(h, path), if Syntax.Path(path).Ok? then values - {path} else values)
  {
  }

  lemma ApplyKeeps(k: Tools, judge: Judge, h: Holdings, op: Op, values: map<Bytes, J.Json>)
    returns (after: map<Bytes, J.Json>)
    requires SoundJudge(k, judge) && Consistent(k, h) && BackedBy(judge, h, values)
    ensures Consistent(k, Apply(judge, h, op)) && BackedBy(judge, Apply(judge, h, op), after)
  {
    match op {
      case Put(path, value) =>
        var r := judge(path, value);
        if r.Some? && Fits(h, path, r.value) {
          PutKeeps(k, h, path, r.value);
          PutBacked(judge, h, path, value, values);
          after := values[path := value];
        } else {
          after := values;
        }
      case Delete(path) =>
        DeleteKeeps(k, h, path);
        DeleteBacked(judge, h, path, values);
        after := if Syntax.Path(path).Ok? then values - {path} else values;
    }
  }

  /** In every history, refused operations included, the counter is exact and both caps hold. */
  lemma {:induction false} RunKeeps(k: Tools, judge: Judge, h: Holdings, ops: seq<Op>, values: map<Bytes, J.Json>)
    returns (after: map<Bytes, J.Json>)
    requires SoundJudge(k, judge) && Consistent(k, h) && BackedBy(judge, h, values)
    ensures Consistent(k, Run(judge, h, ops)) && BackedBy(judge, Run(judge, h, ops), after)
    decreases |ops|
  {
    if ops == [] {
      after := values;
    } else {
      var next := ApplyKeeps(k, judge, h, ops[0], values);
      after := RunKeeps(k, judge, Apply(judge, h, ops[0]), ops[1..], next);
    }
  }

  ghost predicate Enumerates(order: seq<Bytes>, paths: set<Bytes>) {
    && (forall i, j :: 0 <= i < j < |order| ==> order[i] != order[j])
    && (forall p :: p in order <==> p in paths)
  }

  function Puts(order: seq<Bytes>, values: map<Bytes, J.Json>): seq<Op>
    requires forall p :: p in order ==> p in values
  {
    seq(|order|, i requires 0 <= i < |order| => Put(order[i], values[order[i]]))
  }

  /** Whatever its history, a record set is what putting its surviving values, in any order, into an
      empty set gives; none of these puts is refused. */
  lemma HistoryForgotten(k: Tools, ops: seq<Op>, order: seq<Bytes>) returns (values: map<Bytes, J.Json>)
    requires Enumerates(order, Run(JudgeOf(k), EMPTY, ops).records.Keys)
    ensures BackedBy(JudgeOf(k), Run(JudgeOf(k), EMPTY, ops), values)
    ensures (forall p :: p in order ==> p in values)
         && Run(JudgeOf(k), EMPTY, Puts(order, values)) == Run(JudgeOf(k), EMPTY, ops)
  {
    JudgeIsSound(k);
    values := Forgotten(k, JudgeOf(k), ops, order);
  }

  lemma Forgotten(k: Tools, judge: Judge, ops: seq<Op>, order: seq<Bytes>) returns (values: map<Bytes, J.Json>)
    requires SoundJudge(k, judge) && Enumerates(order, Run(judge, EMPTY, ops).records.Keys)
    ensures BackedBy(judge, Run(judge, EMPTY, ops), values) && (forall p :: p in order ==> p in values)
    ensures Run(judge, EMPTY, Puts(order, values)) == Run(judge, EMPTY, ops)
  {
    values := RunKeeps(k, judge, EMPTY, ops, map[]);
    var h := Run(judge, EMPTY, ops);
    assert h.records.Keys - EMPTY.records.Keys == h.records.Keys;
    Rebuild(k, judge, h, values, order, EMPTY);
  }

  /** The next surviving value can be put into any part of the final state. */
  lemma RebuildOne(k: Tools, h: Holdings, part: Holdings, path: Bytes)
    requires Consistent(k, h) && Consistent(k, part) && SubMap(part.records, h.records)
    requires path in h.records && path !in part.records
    ensures Fits(part, path, h.records[path])
    ensures var next := AfterPut(part, path, h.records[path]);
            Consistent(k, next) && SubMap(next.records, h.records)
  {
    var r := h.records[path];
    TotalUpdated(part.records, path, r);
    CountUpdated(part.records, path, r);
    TotalOfPart(part.records[path := r], h.records);
    PutKeeps(k, part, path, r);
  }

  lemma {:induction false} Rebuild(k: Tools, judge: Judge, h: Holdings, values: map<Bytes, J.Json>,
                                   order: seq<Bytes>, part: Holdings)
    requires Consistent(k, h) && BackedBy(judge, h, values)
    requires Consistent(k, part) && SubMap(part.records, h.records)
    requires Enumerates(order, h.records.Keys - part.records.Keys)
    ensures (forall p :: p in order ==> p in values) && Run(judge, part, Puts(order, values)) == h
    decreases |order|
  {
    if order == [] {
      forall p | p in h.records ensures p in part.records {
        assert p !in order;
      }
      assert part.records == h.records;
    } else {
      var path := order[0];
      assert path in order;
      RebuildOne(k, h, part, path);
      var next := AfterPut(part, path, h.records[path]);
      EnumeratesRest(order, h.records.Keys - part.records.Keys);
      assert h.records.Keys - next.records.Keys == h.records.Keys - part.records.Keys - {path};
      Rebuild(k, judge, h, values, order[1..], next);
      assert Puts(order, values)[1..] == Puts(order[1..], values);
      assert Apply(judge, part, Put(path, values[path])) == next;
    }
  }

  lemma EnumeratesRest(order: seq<Bytes>, paths: set<Bytes>)
    requires order != [] && Enumerates(order, paths)
    ensures Enumerates(order[1..], paths - {order[0]})
  {
  }

  /** Two histories that leave the same records leave the same counter. */
  lemma SameRecordsSameState(k: Tools, ops1: seq<Op>, ops2: seq<Op>)
    requires Run(JudgeOf(k), EMPTY, ops1).records == Run(JudgeOf(k), EMPTY, ops2).records
    ensures Run(JudgeOf(k), EMPTY, ops1) == Run(JudgeOf(k), EMPTY, ops2)
  {
    JudgeIsSound(k);
    var _ := RunKeeps(k, JudgeOf(k), EMPTY, ops1, map[]);
    var _ := RunKeeps(k, JudgeOf(k), EMPTY, ops2, map[]);
  }

  /** The JSON last put, and not deleted since, at each path; refused operations do not count. */
  function LastPut(judge: Judge, h: Holdings, ops: seq<Op>, values: map<Bytes, J.Json>): map<Bytes, J.Json>
    decreases |ops|
  {
    if ops == [] then values
    else
      var next :=
        match ops[0]
        case Put(path, value) =>
          var r := judge(path, value);
          if r.Some? && Fits(h, path, r.value) then values[path := value] else values
        case Delete(path) => if Syntax.Path(path).Ok? then values - {path} else values;
      LastPut(judge, Apply(judge, h, ops[0]), ops[1..], next)
  }

  lemma {:induction false} LastPutBacks(judge: Judge, h: Holdings, ops: seq<Op>, values: map<Bytes, J.Json>)
    requires BackedBy(judge, h, values)
    ensures BackedBy(judge, Run(judge, h, ops), LastPut(judge, h, ops, values))
    decreases |ops|
  {
    if ops != [] {
      match ops[0] {
        case Put(path, value) =>
          var r := judge(path, value);
          if r.Some? && Fits(h, path, r.value) {
            PutBacked(judge, h, path, value, values);
            LastPutBacks(judge, Apply(judge, h, ops[0]), ops[1..], values[path := value]);
          } else {
            LastPutBacks(judge, h, ops[1..], values);
          }
        case Delete(path) =>
          DeleteBacked(judge, h, path, values);
          LastPutBacks(judge, Apply(judge, h, ops[0]), ops[1..], if Syntax.Path(path).Ok? then values - {path} else values);
      }
    }
  }

  /** After any history, the records are those paths at which a value was last put, and each record reads
      back to what that value stands for. */
  lemma RunContent(k: Tools, ops: seq<Op>)
    requires k.codec.Ideal()
    ensures var records := Run(JudgeOf(k), EMPTY, ops).records;
            var values := LastPut(JudgeOf(k), EMPTY, ops, map[]);
            && records.Keys == values.Keys
            && forall p :: p in values ==>
                 J.Convert(k.texts, values[p]).Some? && k.codec.dec(records[p].bytes) == J.Convert(k.texts, values[p])
  {
    LastPutBacks(JudgeOf(k), EMPTY, ops, map[]);
    var records := Run(JudgeOf(k), EMPTY, ops).records;
    var values := LastPut(JudgeOf(k), EMPTY, ops, map[]);
    forall p | p in values
      ensures J.Convert(k.texts, values[p]).Some? && k.codec.dec(records[p].bytes) == J.Convert(k.texts, values[p])
    {
      assert JudgeOf(k)(p, values[p]) == Stored(k, p, values[p]);
      StoredContent(k, p, values[p]);
    }
  }
}
