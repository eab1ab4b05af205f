/** Record paths, DIDs, host names and the service identity. */
module Syntax {
  import opened Ordered
  import opened Outcomes
  import opened Ipld

  predicate AsciiText(s: string) {
    forall i :: 0 <= i < |s| ==> s[i] as int < 128
  }

  function Ascii(s: string): Bytes
    requires AsciiText(s)
  {
    seq(|s|, i requires 0 <= i < |s| => s[i] as int)
  }

  const DOT: Byte := 0x2e
  const SLASH: Byte := 0x2f
  const HYPHEN: Byte := 0x2d
  const COLON: Byte := 0x3a

  predicate Lower(c: Byte) { 0x61 <= c <= 0x7a }
  predicate Upper(c: Byte) { 0x41 <= c <= 0x5a }
  predicate Digit(c: Byte) { 0x30 <= c <= 0x39 }
  predicate HexDigit(c: Byte) { Digit(c) || 0x61 <= c <= 0x66 || 0x41 <= c <= 0x46 }
  predicate Alphabetic(c: Byte) { Lower(c) || Upper(c) }
  predicate Alphanumeric(c: Byte) { Alphabetic(c) || Digit(c) }

  // ----- splitting -----

  /** Position of the first `sep`, or the length. */
  function IndexOf(s: Bytes, sep: Byte): (i: nat)
    ensures i <= |s| && (forall k :: 0 <= k < i ==> s[k] != sep) && (i < |s| ==> s[i] == sep)
  {
    if s == [] || s[0] == sep then 0 else 1 + IndexOf(s[1..], sep)
  }

  /** One past the last `sep`, or zero. */
  function AfterLast(s: Bytes, sep: Byte): (i: nat)
    ensures i <= |s| && (forall k :: i <= k < |s| ==> s[k] != sep) && (i > 0 ==> s[i - 1] == sep)
  {
    if s == [] then 0
    else if s[|s| - 1] == sep then |s|
    else AfterLast(s[..|s| - 1], sep)
  }

  function SplitOn(s: Bytes, sep: Byte): (parts: seq<Bytes>)
    ensures |parts| > 0
    decreases |s|
  {
    var i := IndexOf(s, sep);
    if i == |s| then [s] else [s[..i]] + SplitOn(s[i + 1..], sep)
  }

  // ----- record paths -----

  predicate PathChar(c: Byte) {
    Alphanumeric(c) || c == DOT || c == HYPHEN || c == 0x5f || c == 0x3a || c == 0x7e
  }

  predicate HostLabel(s: Bytes) {
    && 0 < |s| <= 63 && s[0] != HYPHEN && s[|s| - 1] != HYPHEN
    && forall i :: 0 <= i < |s| ==> Lower(s[i]) || Digit(s[i]) || s[i] == HYPHEN
  }

  predicate NsidValid(nsid: Bytes) {
    var split := AfterLast(nsid, DOT);
    split > 0 &&
    var authority, name := nsid[..split - 1], nsid[split..];
    var segments := SplitOn(authority, DOT);
    && |nsid| <= 317 && |authority| <= 253 && 0 < |name| <= 63
    && Alphabetic(name[0]) && (forall i :: 0 <= i < |name| ==> Alphanumeric(name[i]))
    && |segments| >= 2 && segments[0] != [] && Lower(segments[0][0])
    && forall i :: 0 <= i < |segments| ==> HostLabel(segments[i])
  }

  predicate KeyValid(key: Bytes) {
    0 < |key| <= 512 && key != [DOT] && key != [DOT, DOT] && forall i :: 0 <= i < |key| ==> PathChar(key[i])
  }

  function Path(path: Bytes): Result<(), Error> {
    var split := IndexOf(path, SLASH);
    if split == |path| then Err(InvalidPath) else
      var nsid, key := path[..split], path[split + 1..];
      if NsidValid(nsid) && KeyValid(key) then Ok(()) else Err(InvalidPath)
  }

  function Collection(path: Bytes): Bytes {
    path[..IndexOf(path, SLASH)]
  }

  // ----- host names and DIDs -----

  function LastLabel(host: Bytes): Bytes {
    host[AfterLast(host, DOT)..]
  }

  predicate Labels(host: Bytes) {
    var labels := SplitOn(host, DOT);
    |host| <= 253 && DOT in host && forall i :: 0 <= i < |labels| ==> HostLabel(labels[i])
  }

  predicate ValidHostname(host: Bytes) {
    && Labels(host)
    && LastLabel(host) != [] && Alphabetic(LastLabel(host)[0])
    && LastLabel(host) != Ascii("arpa") && LastLabel(host) != Ascii("invalid")
    && LastLabel(host) != Ascii("local") && LastLabel(host) != Ascii("onion")
  }

  function Decimal(n: nat): (s: Bytes)
    ensures s != [] && forall i :: 0 <= i < |s| ==> Digit(s[i])
  {
    if n < 10 then [0x30 + n] else Decimal(n / 10) + [0x30 + n % 10]
  }

  function DecimalValue(s: Bytes): nat
    requires forall i :: 0 <= i < |s| ==> Digit(s[i])
  {
    if s == [] then 0 else
      assert Digit(s[|s| - 1]);
      DecimalValue(s[..|s| - 1]) * 10 + (s[|s| - 1] as int - 0x30)
  }

  /** Rust's `parse::<u16>`: an optional plus sign, then digits whose value fits. */
  function ParseU16(s: Bytes): Option<nat> {
    var digits := if s != [] && s[0] == 0x2b then s[1..] else s;
    if digits != [] && (forall i :: 0 <= i < |digits| ==> Digit(digits[i])) && DecimalValue(digits) < 0x1_0000
    then Some(DecimalValue(digits)) else None
  }

  lemma DecimalRoundTrip(n: nat)
    ensures DecimalValue(Decimal(n)) == n
  {
    if n >= 10 {
      DecimalRoundTrip(n / 10);
      assert Decimal(n)[..|Decimal(n)| - 1] == Decimal(n / 10);
    }
  }

  const DID_PLC: Bytes := Ascii("did:plc:")
  const DID_WEB: Bytes := Ascii("did:web:")
  const LOCALHOST: Bytes := Ascii("localhost")
  const ENCODED_COLON: Bytes := Ascii("%3A")
  const TEST: Bytes := Ascii(".test")

  function StripPrefix(s: Bytes, prefix: Bytes): Option<Bytes> {
    if prefix <= s then Some(s[|prefix|..]) else None
  }

  predicate EndsWith(s: Bytes, suffix: Bytes) {
    |suffix| <= |s| && s[|s| - |suffix|..] == suffix
  }

  predicate LocalDomain(domain: Bytes) {
    || domain == LOCALHOST
    || (match StripPrefix(domain, LOCALHOST + ENCODED_COLON)
        case Some(port) => ParseU16(port).Some? && ParseU16(port).value > 0 && Decimal(ParseU16(port).value) == port
        case None => false)
  }

  predicate ValidDid(did: Bytes) {
    match StripPrefix(did, DID_PLC)
    case Some(id) => |id| == 24 && forall i :: 0 <= i < |id| ==> Lower(id[i]) || 0x32 <= id[i] <= 0x37
    case None =>
      match StripPrefix(did, DID_WEB)
      case Some(domain) =>
        || LocalDomain(domain)
        || (Labels(domain) && exists i :: 0 <= i < |LastLabel(domain)| && Lower(LastLabel(domain)[i]))
      case None => false
  }

  /** The 32 letters of a TID, in ASCII order. */
  predicate TidChar(c: Byte) { 0x32 <= c <= 0x37 || Lower(c) }

  predicate ValidTid(rev: Bytes) {
    && |rev| == 13
    && (0x32 <= rev[0] <= 0x37 || 0x61 <= rev[0] <= 0x6a)
    && forall i :: 0 <= i < |rev| ==> TidChar(rev[i])
  }

  function Metadata(did: Bytes, rev: Bytes): Result<(), Error> {
    if ValidDid(did) && ValidTid(rev) then Ok(()) else Err(InvalidMetadata)
  }

  // ----- the configured identity -----

  type Port = p: int | 0 <= p < 0x1_0000

  /** The parts of a parsed URL. A scheme's default port is absent. */
  datatype Url = Url(scheme: Bytes, username: Bytes, hasPassword: bool, hasQuery: bool, hasFragment: bool,
                     path: Bytes, host: Option<Bytes>, port: Option<Port>)

  datatype Identity = Identity(handle: Bytes, did: Bytes, serviceUrl: Bytes, serviceDid: Bytes)

  const HTTP: Bytes := Ascii("http")
  const HTTPS: Bytes := Ascii("https")

  function LocalDid(port: Option<Port>): Bytes {
    DID_WEB + LOCALHOST + if port.Some? then ENCODED_COLON + Decimal(port.value) else []
  }

  predicate ValidIdentity(parse: Bytes -> Option<Url>, id: Identity) {
    match parse(id.serviceUrl)
    case None => false
    case Some(url) =>
      && url.username == [] && !url.hasPassword && !url.hasQuery && !url.hasFragment
      && url.path == [SLASH] && url.host.Some? && ValidHostname(id.handle)
      && if url.scheme == HTTP && url.host.value == LOCALHOST then
           && id.did == LocalDid(url.port) && id.serviceDid == LocalDid(url.port)
           && EndsWith(id.handle, TEST) && url.port != Some(0)
         else
           match (StripPrefix(id.did, DID_WEB), StripPrefix(id.serviceDid, DID_WEB))
           case (Some(didHost), Some(serviceHost)) =>
             && ValidHostname(didHost) && id.handle == didHost && ValidHostname(serviceHost)
             && !EndsWith(id.handle, TEST) && !EndsWith(serviceHost, TEST)
             && url.scheme == HTTPS && url.port.None? && url.host.value == serviceHost
           case _ => false
  }

  lemma PlcIsNotWeb(s: Bytes)
    ensures !(DID_PLC <= DID_WEB + s)
  {
    assert DID_PLC[4] == 'p' as int && (DID_WEB + s)[4] == 'w' as int;
  }

  /** The last separator of a text is the last one of any tail that follows a separator. */
  lemma {:induction false} AfterLastOfTail(s: Bytes, i: nat, sep: Byte)
    requires i < |s| && s[i] == sep
    ensures AfterLast(s, sep) == i + 1 + AfterLast(s[i + 1..], sep)
    decreases |s|
  {
    var last := |s| - 1;
    if i < last && s[last] != sep {
      AfterLastOfTail(s[..last], i, sep);
      assert s[i + 1..][..last - i - 1] == s[..last][i + 1..];
    }
  }

  /** The last part of a split text is what follows its last separator. */
  lemma {:induction false} LastPart(s: Bytes, sep: Byte)
    ensures SplitOn(s, sep)[|SplitOn(s, sep)| - 1] == s[AfterLast(s, sep)..]
    decreases |s|
  {
    var i := IndexOf(s, sep);
    if i < |s| {
      var tail := s[i + 1..];
      LastPart(tail, sep);
      AfterLastOfTail(s, i, sep);
      assert SplitOn(s, sep) == [s[..i]] + SplitOn(tail, sep);
      assert s[AfterLast(s, sep)..] == tail[AfterLast(tail, sep)..];
    } else {
      assert SplitOn(s, sep) == [s];
    }
  }

  predicate HostChar(c: Byte) {
    Lower(c) || Digit(c) || c == HYPHEN || c == DOT
  }

  /** A text of host labels has no characters but theirs and the dots. */
  lemma {:induction false} LabelChars(s: Bytes)
    requires forall i :: 0 <= i < |SplitOn(s, DOT)| ==> HostLabel(SplitOn(s, DOT)[i])
    ensures forall k :: 0 <= k < |s| ==> HostChar(s[k])
    decreases |s|
  {
    var i := IndexOf(s, DOT);
    if i < |s| {
      var parts := SplitOn(s[i + 1..], DOT);
      assert SplitOn(s, DOT) == [s[..i]] + parts;
      assert forall j :: 0 <= j < |parts| ==> parts[j] == SplitOn(s, DOT)[j + 1];
      LabelChars(s[i + 1..]);
      assert HostLabel(SplitOn(s, DOT)[0]);
      assert s == s[..i] + [DOT] + s[i + 1..];
    } else {
      assert SplitOn(s, DOT)[0] == s;
    }
  }

  lemma LocalDidAccepted(port: Option<Port>)
    requires port != Some(0)
    ensures ValidDid(LocalDid(port))
  {
    var suffix := if port.Some? then ENCODED_COLON + Decimal(port.value) else [];
    assert LocalDid(port) == DID_WEB + (LOCALHOST + suffix);
    PlcIsNotWeb(LOCALHOST + suffix);
    assert StripPrefix(LocalDid(port), DID_WEB) == Some(LOCALHOST + suffix);
    if port.Some? {
      DecimalRoundTrip(port.value);
      assert LOCALHOST + suffix == (LOCALHOST + ENCODED_COLON) + Decimal(port.value);
      assert StripPrefix(LOCALHOST + suffix, LOCALHOST + ENCODED_COLON) == Some(Decimal(port.value));
    } else {
      assert LOCALHOST + suffix == LOCALHOST;
    }
  }

  lemma HostDidAccepted(host: Bytes)
    requires ValidHostname(host)
    ensures ValidDid(DID_WEB + host)
  {
    PlcIsNotWeb(host);
    assert StripPrefix(DID_WEB + host, DID_WEB) == Some(host);
    LastPart(host, DOT);
    assert Lower(LastLabel(host)[0]);
  }

  /** A valid identity always names a DID that the repository accepts. */
  lemma IdentityDidAccepted(parse: Bytes -> Option<Url>, id: Identity)
    requires ValidIdentity(parse, id)
    ensures ValidDid(id.did)
  {
    var url := parse(id.serviceUrl).value;
    if url.scheme == HTTP && url.host.value == LOCALHOST {
      LocalDidAccepted(url.port);
    } else {
      var host := StripPrefix(id.did, DID_WEB).value;
      assert id.did == DID_WEB + host;
      HostDidAccepted(host);
    }
  }

  lemma OnlySlash(path: Bytes, split: nat, i: nat)
    requires split == IndexOf(path, SLASH) < |path| && KeyValid(path[split + 1..]) && i < |path|
    ensures path[i] == SLASH <==> i == split
  {
    if i > split {
      KeyChars(path, split);
      assert PathChar(path[i]);
    }
  }

  /** An accepted path has exactly one slash, so collection and record key are unambiguous. */
  lemma PathSplitsOnce(path: Bytes, i: nat)
    requires Path(path).Ok? && i < |path|
    ensures path[i] == SLASH <==> i == IndexOf(path, SLASH)
  {
    OnlySlash(path, IndexOf(path, SLASH), i);
  }

  /** An accepted path is short and plain, and its record key is no dot segment. */
  lemma PathIsPlain(path: Bytes)
    requires Path(path).Ok?
    ensures var split := IndexOf(path, SLASH);
            && split < |path| <= 317 + 1 + 512 && DOT in path[..split]
            && path[split + 1..] != [] && path[split + 1..] != [DOT] && path[split + 1..] != [DOT, DOT]
            && forall i :: split < i < |path| ==> PathChar(path[i])
  {
    var split := IndexOf(path, SLASH);
    KeyChars(path, split);
    HasDot(path[..split]);
  }

  lemma KeyChars(path: Bytes, split: nat)
    requires split < |path| && KeyValid(path[split + 1..])
    ensures forall i :: split < i < |path| ==> PathChar(path[i])
  {
    var key := path[split + 1..];
    assert forall i :: split < i < |path| ==> key[i - split - 1] == path[i];
  }

  lemma HasDot(nsid: Bytes)
    requires NsidValid(nsid)
    ensures DOT in nsid && |nsid| <= 317
  {
    assert nsid[AfterLast(nsid, DOT) - 1] == DOT;
  }
}
