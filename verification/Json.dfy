/** From JSON to the IPLD data model under a nesting bound and a shared byte budget. */
module Json {
  import opened Ordered
  import opened Outcomes
  import opened Ipld

  /** A JSON value. An object lists its members in key order, each key once; a number carries
      what `as_i64` makes of it. Strings are UTF-8 bytes. */
  datatype Json =
    | JNull
    | JBool(b: bool)
    | JNumber(asI64: Option<int>)
    | JString(s: Bytes)
    | JArray(items: seq<Json>)
    | JObject(members: seq<Member>)
  datatype Member = Member(key: Bytes, value: Json)

  datatype ParsedCid = ParsedCid(v1: bool, cid: Cid)

  /** The textual forms of identifiers and of byte strings, which libraries provide. */
  datatype Texts = Texts(parseCid: Bytes -> Option<ParsedCid>, showCid: Cid -> Bytes,
                         decode64: Bytes -> Option<Bytes>, encode64: Bytes -> Bytes) {
    /** Parsing inverts printing, a blessed identifier prints short, and unpadded base64 is the
        shortest text that decodes to its bytes. */
    ghost predicate Ideal() {
      && (forall cid :: Blessed(cid) ==> parseCid(showCid(cid)) == Some(ParsedCid(true, cid)) && |showCid(cid)| <= 128)
      && (forall b :: decode64(encode64(b)) == Some(b))
      && (forall s :: decode64(s).Some? ==> |encode64(decode64(s).value)| <= |s|)
    }
  }

  const MAX_RECORD_DEPTH := 64
  const MAX_SAFE := 9_007_199_254_740_991
  const LINK: Bytes := [0x24, 0x6c, 0x69, 0x6e, 0x6b]
  const BYTES: Bytes := [0x24, 0x62, 0x79, 0x74, 0x65, 0x73]
  const NESTING := Limit("record nesting")
  const TOO_LARGE := Limit("record bytes")

  predicate Blessed(cid: Cid) {
    (cid.codec == RAW || cid.codec == DAG_CBOR) && cid.hashCode == SHA2_256 && |cid.digest| == 32
  }

  function Get(members: seq<Member>, key: Bytes): (r: Option<Json>)
    ensures r.Some? ==> exists m :: m in members && m.key == key && m.value == r.value
    ensures r.None? ==> forall m :: m in members ==> m.key != key
  {
    if members == [] then None
    else if members[0].key == key then Some(members[0].value)
    else Get(members[1..], key)
  }

  // ----- the pure meaning -----

  function LinkText(t: Texts, s: Bytes): Option<Value> {
    if |s| > 128 then None else
      match t.parseCid(s)
      case Some(p) => if p.v1 && Blessed(p.cid) && t.showCid(p.cid) == s then Some(Link(p.cid)) else None
      case None => None
  }

  /** The IPLD value that a JSON value stands for, if it stands for one. */
  function Convert(t: Texts, v: Json): Option<Value>
    decreases v, 0
  {
    match v
    case JNull => Some(Null)
    case JBool(b) => Some(Bool(b))
    case JString(s) => Some(String(s))
    case JNumber(n) => if n.Some? && -MAX_SAFE <= n.value <= MAX_SAFE then Some(Integer(n.value)) else None
    case JArray(items) =>
      (match ConvertItems(t, items, 0) case Some(vs) => Some(List(vs)) case None => None)
    case JObject(members) =>
      if Get(members, LINK).Some? then
        var link := Get(members, LINK).value;
        if |members| == 1 && link.JString? then LinkText(t, link.s) else None
      else if Get(members, BYTES).Some? then
        var bytes := Get(members, BYTES).value;
        if |members| == 1 && bytes.JString? then
          (match t.decode64(bytes.s) case Some(b) => Some(Blob(b)) case None => None)
        else None
      else
        (match ConvertMembers(t, members, 0) case Some(fs) => Some(Map(fs)) case None => None)
  }

  function ConvertItems(t: Texts, items: seq<Json>, i: nat): (r: Option<seq<Value>>)
    requires i <= |items|
    ensures r.Some? ==> |r.value| == |items| - i
    decreases items, |items| - i
  {
    if i == |items| then Some([]) else
      match (Convert(t, items[i]), ConvertItems(t, items, i + 1))
      case (Some(v), Some(rest)) => Some([v] + rest)
      case _ => None
  }

  function ConvertMembers(t: Texts, members: seq<Member>, i: nat): (r: Option<seq<Field>>)
    requires i <= |members|
    ensures r.Some? ==> |r.value| == |members| - i
    decreases members, |members| - i
  {
    if i == |members| then Some([]) else
      match (Convert(t, members[i].value), ConvertMembers(t, members, i + 1))
      case (Some(v), Some(rest)) => Some([Field(members[i].key, v)] + rest)
      case _ => None
  }

  function Prepend<T>(front: seq<T>, rest: Option<seq<T>>): Option<seq<T>> {
    if rest.None? || front == [] then rest else Some(front + rest.value)
  }

  lemma PrependOne<T>(front: seq<T>, x: T, rest: Option<seq<T>>)
    ensures Prepend(front + [x], rest) == Prepend(front, Prepend([x], rest))
  {
    assert front == [] ==> front + [x] == [x];
    if rest.Some? {
      assert (front + [x]) + rest.value == front + ([x] + rest.value);
    }
  }

  predicate Wrapper(members: seq<Member>) {
    Get(members, LINK).Some? || Get(members, BYTES).Some?
  }

  /** Nesting below a value. The string inside a wrapper does not count. */
  function Height(v: Json): nat {
    match v
    case JArray(items) => ItemsHeight(items, 0)
    case JObject(members) => if Wrapper(members) then 0 else MembersHeight(members, 0)
    case _ => 0
  }

  function ItemsHeight(items: seq<Json>, i: nat): nat
    requires i <= |items|
    decreases items, |items| - i
  {
    if i == |items| then 0 else Max(1 + Height(items[i]), ItemsHeight(items, i + 1))
  }

  function MembersHeight(members: seq<Member>, i: nat): nat
    requires i <= |members|
    decreases members, |members| - i
  {
    if i == |members| then 0 else Max(1 + Height(members[i].value), MembersHeight(members, i + 1))
  }

  /** What a value draws from the budget. */
  function Cost(v: Json): nat {
    match v
    case JString(s) => |s| + 1
    case JArray(items) => 1 + ItemsCost(items, 0)
    case JObject(members) =>
      if Get(members, LINK).Some? then 1 + TextCost(Get(members, LINK).value)
      else if Get(members, BYTES).Some? then 1 + TextCost(Get(members, BYTES).value)
      else 1 + MembersCost(members, 0)
    case _ => 1
  }

  function TextCost(v: Json): nat {
    if v.JString? then |v.s| else 0
  }

  function ItemsCost(items: seq<Json>, i: nat): nat
    requires i <= |items|
    decreases items, |items| - i
  {
    if i == |items| then 0 else Cost(items[i]) + ItemsCost(items, i + 1)
  }

  function MembersCost(members: seq<Member>, i: nat): nat
    requires i <= |members|
    decreases members, |members| - i
  {
    if i == |members| then 0 else |members[i].key| + Cost(members[i].value) + MembersCost(members, i + 1)
  }

  // ----- the traversal with its threaded budget -----

  class Budget {
    var left: nat

    constructor (left: nat)
      ensures this.left == left
    {
      this.left := left;
    }

    method Charge(amount: nat) returns (ok: bool)
      modifies this
      ensures ok <==> amount <= old(left)
      ensures left == if ok then old(left) - amount else old(left)
    {
      ok := amount <= left;
      if ok {
        left := left - amount;
      }
    }
  }

  /** Every refusal has a cause, and nothing else is refused. */
  ghost predicate Verdict(t: Texts, v: Json, depth: nat, before: nat, r: Result<Value, Error>, after: nat) {
    match r
    case Ok(value) =>
      && Convert(t, v) == Some(value) && depth + Height(v) <= MAX_RECORD_DEPTH
      && Cost(v) <= before && after == before - Cost(v)
    case Err(e) =>
      || (e == InvalidRecord && Convert(t, v).None?)
      || (e == NESTING && depth + Height(v) > MAX_RECORD_DEPTH)
      || (e == TOO_LARGE && Cost(v) > before)
  }

  /** Conversion succeeds exactly when the value is well-formed, shallow enough and affordable; it
      then lowers the budget by exactly the value's cost. */
  method JsonToIpld(t: Texts, v: Json, depth: nat, budget: Budget) returns (r: Result<Value, Error>)
    modifies budget
    ensures Verdict(t, v, depth, old(budget.left), r, budget.left)
    decreases v, 0
  {
    if depth > MAX_RECORD_DEPTH {
      return Err(NESTING);
    }
    var charge := if v.JString? then |v.s| + 1 else 1;
    var paid := budget.Charge(charge);
    if !paid {
      return Err(TOO_LARGE);
    }
    match v {
      case JNull => r := Ok(Null);
      case JBool(b) => r := Ok(Bool(b));
      case JString(s) => r := Ok(String(s));
      case JNumber(n) =>
        if n.Some? && -MAX_SAFE <= n.value <= MAX_SAFE {
          r := Ok(Integer(n.value));
        } else {
          r := Err(InvalidRecord);
        }
      case JArray(items) => r := ConvertArray(t, items, depth, budget);
      case JObject(members) =>
        var link := Get(members, LINK);
        if link.Some? {
          if |members| != 1 || !link.value.JString? || |link.value.s| > 128 {
            return Err(InvalidRecord);
          }
          paid := budget.Charge(|link.value.s|);
          if !paid {
            return Err(TOO_LARGE);
          }
          var cid := t.parseCid(link.value.s);
          if cid.None? || !cid.value.v1 || !Blessed(cid.value.cid) || t.showCid(cid.value.cid) != link.value.s {
            return Err(InvalidRecord);
          }
          return Ok(Link(cid.value.cid));
        }
        var bytes := Get(members, BYTES);
        if bytes.Some? {
          if |members| != 1 || !bytes.value.JString? {
            return Err(InvalidRecord);
          }
          paid := budget.Charge(|bytes.value.s|);
          if !paid {
            return Err(TOO_LARGE);
          }
          var decoded := t.decode64(bytes.value.s);
          return if decoded.Some? then Ok(Blob(decoded.value)) else Err(InvalidRecord);
        }
        r := ConvertObject(t, members, depth, budget);
    }
  }

  method ConvertArray(t: Texts, items: seq<Json>, depth: nat, budget: Budget) returns (r: Result<Value, Error>)
    modifies budget
    ensures match r {
              case Ok(v) => v.List? && ConvertItems(t, items, 0) == Some(v.items)
                            && (items != [] ==> depth + ItemsHeight(items, 0) <= MAX_RECORD_DEPTH)
                            && budget.left == old(budget.left) - ItemsCost(items, 0)
              case Err(e) => || (e == InvalidRecord && ConvertItems(t, items, 0).None?)
                             || (e == NESTING && depth + ItemsHeight(items, 0) > MAX_RECORD_DEPTH)
                             || (e == TOO_LARGE && ItemsCost(items, 0) > old(budget.left))
            }
    decreases items
  {
    var out: seq<Value> := [];
    var i := 0;
    while i < |items|
      invariant 0 <= i <= |items|
      invariant ConvertItems(t, items, 0)
             == Prepend(out, ConvertItems(t, items, i))
      invariant ItemsHeight(items, i) <= ItemsHeight(items, 0)
      invariant depth + ItemsHeight(items, 0) <= MAX_RECORD_DEPTH || ItemsHeight(items, 0) == ItemsHeight(items, i)
      invariant budget.left + ItemsCost(items, 0) == old(budget.left) + ItemsCost(items, i)
    {
      var v := JsonToIpld(t, items[i], depth + 1, budget);
      if v.Err? {
        return Err(v.error);
      }
      PrependOne(out, v.value, ConvertItems(t, items, i + 1));
      out := out + [v.value];
      i := i + 1;
    }
    assert out + [] == out;
    r := Ok(List(out));
  }

  method ConvertObject(t: Texts, members: seq<Member>, depth: nat, budget: Budget) returns (r: Result<Value, Error>)
    modifies budget
    ensures match r {
              case Ok(v) => v.Map? && ConvertMembers(t, members, 0) == Some(v.fields)
                            && (members != [] ==> depth + MembersHeight(members, 0) <= MAX_RECORD_DEPTH)
                            && budget.left == old(budget.left) - MembersCost(members, 0)
              case Err(e) => || (e == InvalidRecord && ConvertMembers(t, members, 0).None?)
                             || (e == NESTING && depth + MembersHeight(members, 0) > MAX_RECORD_DEPTH)
                             || (e == TOO_LARGE && MembersCost(members, 0) > old(budget.left))
            }
    decreases members
  {
    var out: seq<Field> := [];
    var i := 0;
    while i < |members|
      invariant 0 <= i <= |members|
      invariant ConvertMembers(t, members, 0)
             == Prepend(out, ConvertMembers(t, members, i))
      invariant MembersHeight(members, i) <= MembersHeight(members, 0)
      invariant depth + MembersHeight(members, 0) <= MAX_RECORD_DEPTH || MembersHeight(members, 0) == MembersHeight(members, i)
      invariant budget.left + MembersCost(members, 0) == old(budget.left) + MembersCost(members, i)
    {
      var paid := budget.Charge(|members[i].key|);
      if !paid {
        return Err(TOO_LARGE);
      }
      var v := JsonToIpld(t, members[i].value, depth + 1, budget);
      if v.Err? {
        return Err(v.error);
      }
      PrependOne(out, Field(members[i].key, v.value), ConvertMembers(t, members, i + 1));
      out := out + [Field(members[i].key, v.value)];
      i := i + 1;
    }
    assert out + [] == out;
    r := Ok(Map(out));
  }

  // ----- rendering back -----

  /** JSON for an IPLD value: links and bytes as their wrappers. */
  function Render(t: Texts, v: Value): Json
    decreases v, 0
  {
    match v
    case Null => JNull
    case Bool(b) => JBool(b)
    case Integer(n) => JNumber(Some(n))
    case String(s) => JString(s)
    case Blob(b) => JObject([Member(BYTES, JString(t.encode64(b)))])
    case Link(cid) => JObject([Member(LINK, JString(t.showCid(cid)))])
    case List(items) => JArray(RenderItems(t, items))
    case Map(fields) => JObject(RenderFields(t, fields))
  }

  function RenderItems(t: Texts, items: seq<Value>): seq<Json>
    decreases items, 0
  {
    seq(|items|, i requires 0 <= i < |items| => Render(t, items[i]))
  }

  function RenderFields(t: Texts, fields: seq<Field>): seq<Member>
    decreases fields, 0
  {
    seq(|fields|, i requires 0 <= i < |fields| => Member(fields[i].key, Render(t, fields[i].value)))
  }

  /** No map uses a wrapper's key, integers are safe and links blessed. */
  predicate Clean(v: Value) {
    match v
    case Integer(n) => -MAX_SAFE <= n <= MAX_SAFE
    case Link(cid) => Blessed(cid)
    case List(items) => forall i :: 0 <= i < |items| ==> Clean(items[i])
    case Map(fields) =>
      forall i :: 0 <= i < |fields| ==>
        fields[i].key != LINK && fields[i].key != BYTES && Clean(fields[i].value)
    case _ => true
  }

  /** What conversion yields renders back to a value with the same meaning, no deeper and no dearer. */
  lemma {:induction false} RenderBack(t: Texts, v: Json)
    requires t.Ideal() && Convert(t, v).Some?
    ensures Clean(Convert(t, v).value)
    ensures Convert(t, Render(t, Convert(t, v).value)) == Convert(t, v)
    ensures Height(Render(t, Convert(t, v).value)) == Height(v)
    ensures Cost(Render(t, Convert(t, v).value)) <= Cost(v)
    decreases v, 0
  {
    var w := Convert(t, v).value;
    match v {
      case JArray(items) => ItemsBack(t, items, w.items, 0);
      case JObject(members) =>
        if Get(members, LINK).Some? {
          WrapperAlone(members, LINK);
        } else if Get(members, BYTES).Some? {
          WrapperAlone(members, BYTES);
        } else {
          MembersBack(t, members, w.fields, 0);
          NoWrapper(members, RenderFields(t, w.fields));
        }
      case _ =>
    }
  }

  lemma WrapperAlone(members: seq<Member>, key: Bytes)
    requires |members| == 1 && Get(members, key).Some?
    ensures members == [Member(key, Get(members, key).value)]
  {
  }

  lemma NoWrapper(members: seq<Member>, rendered: seq<Member>)
    requires |rendered| == |members| && forall i :: 0 <= i < |members| ==> rendered[i].key == members[i].key
    requires !Wrapper(members)
    ensures !Wrapper(rendered)
    ensures forall i :: 0 <= i < |members| ==> members[i].key != LINK && members[i].key != BYTES
  {
    assert forall i :: 0 <= i < |members| ==> members[i] in members;
    forall m | m in rendered ensures m.key != LINK && m.key != BYTES {
      var i :| 0 <= i < |rendered| && rendered[i] == m;
      assert members[i] in members;
    }
  }

  lemma {:induction false} ItemsBack(t: Texts, items: seq<Json>, vs: seq<Value>, i: nat)
    requires t.Ideal() && i <= |items| == |vs| && ConvertItems(t, items, i) == Some(vs[i..])
    ensures forall j :: i <= j < |vs| ==> Clean(vs[j])
    ensures ConvertItems(t, RenderItems(t, vs), i) == ConvertItems(t, items, i)
    ensures ItemsHeight(RenderItems(t, vs), i) == ItemsHeight(items, i)
    ensures ItemsCost(RenderItems(t, vs), i) <= ItemsCost(items, i)
    decreases items, |items| - i
  {
    if i < |items| {
      assert vs[i..] == [vs[i]] + vs[i + 1..];
      assert ConvertItems(t, items, i).value[1..] == vs[i + 1..];
      RenderBack(t, items[i]);
      ItemsBack(t, items, vs, i + 1);
    }
  }

  lemma {:induction false} MembersBack(t: Texts, members: seq<Member>, fs: seq<Field>, i: nat)
    requires t.Ideal() && i <= |members| == |fs| && ConvertMembers(t, members, i) == Some(fs[i..])
    ensures forall j :: i <= j < |fs| ==> Clean(fs[j].value) && fs[j].key == members[j].key
    ensures ConvertMembers(t, RenderFields(t, fs), i) == ConvertMembers(t, members, i)
    ensures MembersHeight(RenderFields(t, fs), i) == MembersHeight(members, i)
    ensures MembersCost(RenderFields(t, fs), i) <= MembersCost(members, i)
    decreases members, |members| - i
  {
    if i < |members| {
      assert fs[i..] == [fs[i]] + fs[i + 1..];
      assert ConvertMembers(t, members, i).value[1..] == fs[i + 1..];
      RenderBack(t, members[i].value);
      MembersBack(t, members, fs, i + 1);
    }
  }

  /** So a rendered result passes wherever the original did, and to the same value. */
  lemma RenderedIsAccepted(t: Texts, v: Json, w: Value, depth: nat, before: nat, after: nat)
    requires t.Ideal() && Verdict(t, v, depth, before, Ok(w), after)
    ensures Clean(w)
    ensures exists left: nat :: left >= after && Verdict(t, Render(t, w), depth, before, Ok(w), left)
  {
    RenderBack(t, v);
    var left: nat := before - Cost(Render(t, w));
    assert Verdict(t, Render(t, w), depth, before, Ok(w), left);
  }

  // ----- what conversion means -----

  /** Every clean value is what its own rendering stands for: conversion loses and confuses nothing. */
  lemma {:induction false} ConvertRendered(t: Texts, w: Value)
    requires t.Ideal() && Clean(w)
    ensures Convert(t, Render(t, w)) == Some(w)
    decreases w, 0
  {
    match w {
      case List(items) =>
        ConvertRenderedItems(t, items, 0);
        assert items[0..] == items;
      case Map(fields) =>
        ConvertRenderedFields(t, fields, 0);
        assert fields[0..] == fields;
        NoWrapperKeys(RenderFields(t, fields));
      case _ =>
    }
  }

  lemma NoWrapperKeys(members: seq<Member>)
    requires forall i :: 0 <= i < |members| ==> members[i].key != LINK && members[i].key != BYTES
    ensures !Wrapper(members)
  {
  }

  lemma {:induction false} ConvertRenderedItems(t: Texts, items: seq<Value>, i: nat)
    requires t.Ideal() && i <= |items| && forall j :: 0 <= j < |items| ==> Clean(items[j])
    ensures ConvertItems(t, RenderItems(t, items), i) == Some(items[i..])
    decreases items, |items| - i
  {
    if i < |items| {
      ConvertRendered(t, items[i]);
      ConvertRenderedItems(t, items, i + 1);
      assert items[i..] == [items[i]] + items[i + 1..];
    }
  }

  lemma {:induction false} ConvertRenderedFields(t: Texts, fields: seq<Field>, i: nat)
    requires t.Ideal() && i <= |fields| && forall j :: 0 <= j < |fields| ==> Clean(fields[j].value)
    ensures ConvertMembers(t, RenderFields(t, fields), i) == Some(fields[i..])
    decreases fields, |fields| - i
  {
    if i < |fields| {
      ConvertRendered(t, fields[i].value);
      ConvertRenderedFields(t, fields, i + 1);
      assert fields[i..] == [fields[i]] + fields[i + 1..];
    }
  }

  /** Every base64 text in the value is the one that its bytes are rendered as. */
  predicate Canonical(t: Texts, v: Json)
    decreases v, 0
  {
    match v
    case JArray(items) => forall i :: 0 <= i < |items| ==> Canonical(t, items[i])
    case JObject(members) =>
      if Get(members, LINK).Some? then true
      else if Get(members, BYTES).Some? then
        var bytes := Get(members, BYTES).value;
        bytes.JString? ==> t.decode64(bytes.s).Some? ==> t.encode64(t.decode64(bytes.s).value) == bytes.s
      else forall i :: 0 <= i < |members| ==> Canonical(t, members[i].value)
    case _ => true
  }

  /** Rendering a converted value gives the very JSON that was converted, exactly when its base64 texts
      are canonical. */
  lemma {:induction false} RenderedIsOriginal(t: Texts, v: Json)
    requires t.Ideal() && Convert(t, v).Some?
    ensures Render(t, Convert(t, v).value) == v <==> Canonical(t, v)
    decreases v, 0
  {
    match v {
      case JArray(items) => ItemsOriginal(t, items, Convert(t, v).value.items, 0);
      case JObject(members) =>
        if Wrapper(members) {
          WrapperOriginal(t, members);
        } else {
          MembersOriginal(t, members, Convert(t, v).value.fields, 0);
        }
      case _ =>
    }
  }

  lemma WrapperOriginal(t: Texts, members: seq<Member>)
    requires t.Ideal() && Wrapper(members) && Convert(t, JObject(members)).Some?
    ensures Render(t, Convert(t, JObject(members)).value) == JObject(members) <==> Canonical(t, JObject(members))
  {
    if Get(members, LINK).Some? {
      WrapperAlone(members, LINK);
    } else {
      WrapperAlone(members, BYTES);
    }
  }

  lemma {:induction false} ItemsOriginal(t: Texts, items: seq<Json>, vs: seq<Value>, i: nat)
    requires t.Ideal() && i <= |items| == |vs| && ConvertItems(t, items, i) == Some(vs[i..])
    ensures (forall j :: i <= j < |items| ==> Render(t, vs[j]) == items[j]) <==> (forall j :: i <= j < |items| ==> Canonical(t, items[j]))
    decreases items, |items| - i
  {
    if i < |items| {
      assert vs[i..] == [vs[i]] + vs[i + 1..];
      assert ConvertItems(t, items, i).value[1..] == vs[i + 1..];
      RenderedIsOriginal(t, items[i]);
      ItemsOriginal(t, items, vs, i + 1);
    }
  }

  lemma {:induction false} MembersOriginal(t: Texts, members: seq<Member>, fs: seq<Field>, i: nat)
    requires t.Ideal() && i <= |members| == |fs| && ConvertMembers(t, members, i) == Some(fs[i..])
    ensures (forall j :: i <= j < |members| ==> Member(fs[j].key, Render(t, fs[j].value)) == members[j])
       <==> (forall j :: i <= j < |members| ==> Canonical(t, members[j].value))
    decreases members, |members| - i
  {
    if i < |members| {
      assert fs[i..] == [fs[i]] + fs[i + 1..];
      assert ConvertMembers(t, members, i).value[1..] == fs[i + 1..];
      RenderedIsOriginal(t, members[i].value);
      MembersOriginal(t, members, fs, i + 1);
    }
  }

  /** Scalars stand for themselves. */
  lemma ScalarsKept(t: Texts, b: bool, s: Bytes, n: int)
    ensures Convert(t, JNull) == Some(Null) && Convert(t, JBool(b)) == Some(Bool(b)) && Convert(t, JString(s)) == Some(String(s))
    ensures Convert(t, JNumber(Some(n))) == if -MAX_SAFE <= n <= MAX_SAFE then Some(Integer(n)) else None
  {
  }

  /** An object that names `key` is that one member, and a string. */
  predicate LoneText(members: seq<Member>, key: Bytes) {
    |members| == 1 && members[0].key == key && members[0].value.JString?
  }

  /** Numbers are safe integers; `$link` wraps the text of a blessed identifier, and `$bytes` a base64 text,
      with nothing beside them. */
  ghost predicate WellFormed(t: Texts, v: Json)
    decreases v, 0
  {
    match v
    case JNumber(n) => n.Some? && -MAX_SAFE <= n.value <= MAX_SAFE
    case JArray(items) => forall i :: 0 <= i < |items| ==> WellFormed(t, items[i])
    case JObject(members) =>
      if exists m :: m in members && m.key == LINK then
        LoneText(members, LINK) && exists cid :: Blessed(cid) && t.showCid(cid) == members[0].value.s
      else if exists m :: m in members && m.key == BYTES then
        LoneText(members, BYTES) && t.decode64(members[0].value.s).Some?
      else forall i :: 0 <= i < |members| ==> WellFormed(t, members[i].value)
    case _ => true
  }

  lemma LinkTextExactly(t: Texts, s: Bytes)
    requires t.Ideal()
    ensures LinkText(t, s).Some? <==> exists cid :: Blessed(cid) && t.showCid(cid) == s
  {
    if cid :| Blessed(cid) && t.showCid(cid) == s {
      assert t.parseCid(s) == Some(ParsedCid(true, cid));
    }
    if LinkText(t, s).Some? {
      var cid := t.parseCid(s).value.cid;
      assert Blessed(cid) && t.showCid(cid) == s;
    }
  }

  lemma LoneTextExactly(members: seq<Member>, key: Bytes)
    requires Get(members, key).Some?
    ensures |members| == 1 && Get(members, key).value.JString? <==> LoneText(members, key)
    ensures LoneText(members, key) ==> Get(members, key).value == members[0].value
  {
  }

  /** Exactly the well-formed values convert. */
  lemma {:induction false} ConvertsExactly(t: Texts, v: Json)
    requires t.Ideal()
    ensures Convert(t, v).Some? <==> WellFormed(t, v)
    decreases v, 0
  {
    match v {
      case JArray(items) => ItemsExactly(t, items, 0);
      case JObject(members) =>
        if Get(members, LINK).Some? {
          LoneTextExactly(members, LINK);
          if LoneText(members, LINK) {
            LinkTextExactly(t, members[0].value.s);
          }
        } else if Get(members, BYTES).Some? {
          LoneTextExactly(members, BYTES);
        } else {
          MembersExactly(t, members, 0);
        }
      case _ =>
    }
  }

  lemma {:induction false} ItemsExactly(t: Texts, items: seq<Json>, i: nat)
    requires t.Ideal() && i <= |items|
    ensures ConvertItems(t, items, i).Some? <==> forall j :: i <= j < |items| ==> WellFormed(t, items[j])
    decreases items, |items| - i
  {
    if i < |items| {
      ConvertsExactly(t, items[i]);
      ItemsExactly(t, items, i + 1);
    }
  }

  lemma {:induction false} MembersExactly(t: Texts, members: seq<Member>, i: nat)
    requires t.Ideal() && i <= |members|
    ensures ConvertMembers(t, members, i).Some? <==> forall j :: i <= j < |members| ==> WellFormed(t, members[j].value)
    decreases members, |members| - i
  {
    if i < |members| {
      ConvertsExactly(t, members[i].value);
      MembersExactly(t, members, i + 1);
    }
  }

  // ----- what the bounds mean -----

  /** No value lies more than `depth` levels below this one; a wrapper is one level. */
  predicate WithinDepth(v: Json, depth: nat)
    decreases v, 0
  {
    match v
    case JArray(items) => forall i :: 0 <= i < |items| ==> depth > 0 && WithinDepth(items[i], depth - 1)
    case JObject(members) =>
      Wrapper(members) || forall i :: 0 <= i < |members| ==> depth > 0 && WithinDepth(members[i].value, depth - 1)
    case _ => true
  }

  lemma {:induction false} HeightExactly(v: Json, depth: nat)
    ensures Height(v) <= depth <==> WithinDepth(v, depth)
    decreases v, 0
  {
    match v {
      case JArray(items) => ItemsHeightExactly(items, 0, depth);
      case JObject(members) =>
        if !Wrapper(members) {
          MembersHeightExactly(members, 0, depth);
        }
      case _ =>
    }
  }

  lemma {:induction false} ItemsHeightExactly(items: seq<Json>, i: nat, depth: nat)
    requires i <= |items|
    ensures ItemsHeight(items, i) <= depth <==> forall j :: i <= j < |items| ==> depth > 0 && WithinDepth(items[j], depth - 1)
    decreases items, |items| - i
  {
    if i < |items| {
      if depth > 0 {
        HeightExactly(items[i], depth - 1);
      }
      ItemsHeightExactly(items, i + 1, depth);
    }
  }

  lemma {:induction false} MembersHeightExactly(members: seq<Member>, i: nat, depth: nat)
    requires i <= |members|
    ensures MembersHeight(members, i) <= depth
       <==> forall j :: i <= j < |members| ==> depth > 0 && WithinDepth(members[j].value, depth - 1)
    decreases members, |members| - i
  {
    if i < |members| {
      if depth > 0 {
        HeightExactly(members[i].value, depth - 1);
      }
      MembersHeightExactly(members, i + 1, depth);
    }
  }

  /** How many values there are, a wrapper being one. */
  function Values(v: Json): nat {
    match v
    case JArray(items) => 1 + ItemsValues(items, 0)
    case JObject(members) => if Wrapper(members) then 1 else 1 + MembersValues(members, 0)
    case _ => 1
  }

  function ItemsValues(items: seq<Json>, i: nat): nat
    requires i <= |items|
    decreases items, |items| - i
  {
    if i == |items| then 0 else Values(items[i]) + ItemsValues(items, i + 1)
  }

  function MembersValues(members: seq<Member>, i: nat): nat
    requires i <= |members|
    decreases members, |members| - i
  {
    if i == |members| then 0 else Values(members[i].value) + MembersValues(members, i + 1)
  }

  /** How many bytes of text there are: strings, names, and the texts inside wrappers. */
  function TextBytes(v: Json): nat {
    match v
    case JString(s) => |s|
    case JArray(items) => ItemsText(items, 0)
    case JObject(members) =>
      if Get(members, LINK).Some? then StringBytes(Get(members, LINK).value)
      else if Get(members, BYTES).Some? then StringBytes(Get(members, BYTES).value)
      else MembersText(members, 0)
    case _ => 0
  }

  function StringBytes(v: Json): nat {
    match v case JString(s) => |s| case _ => 0
  }

  function ItemsText(items: seq<Json>, i: nat): nat
    requires i <= |items|
    decreases items, |items| - i
  {
    if i == |items| then 0 else TextBytes(items[i]) + ItemsText(items, i + 1)
  }

  function MembersText(members: seq<Member>, i: nat): nat
    requires i <= |members|
    decreases members, |members| - i
  {
    if i == |members| then 0 else |members[i].key| + TextBytes(members[i].value) + MembersText(members, i + 1)
  }

  /** A value costs one for each value in it, and each byte of text. */
  lemma {:induction false} CostExactly(v: Json)
    ensures Cost(v) == Values(v) + TextBytes(v)
    decreases v, 0
  {
    match v {
      case JArray(items) => ItemsCostExactly(items, 0);
      case JObject(members) =>
        if !Wrapper(members) {
          MembersCostExactly(members, 0);
        }
      case _ =>
    }
  }

  lemma {:induction false} ItemsCostExactly(items: seq<Json>, i: nat)
    requires i <= |items|
    ensures ItemsCost(items, i) == ItemsValues(items, i) + ItemsText(items, i)
    decreases items, |items| - i
  {
    if i < |items| {
      CostExactly(items[i]);
      ItemsCostExactly(items, i + 1);
    }
  }

  lemma {:induction false} MembersCostExactly(members: seq<Member>, i: nat)
    requires i <= |members|
    ensures MembersCost(members, i) == MembersValues(members, i) + MembersText(members, i)
    decreases members, |members| - i
  {
    if i < |members| {
      CostExactly(members[i].value);
      MembersCostExactly(members, i + 1);
    }
  }
}
