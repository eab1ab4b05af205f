/** The account settings and the revisioned settings document. */
module Settings {
  import opened Ordered
  import opened Outcomes
  import Syntax

  const MAX_FID := 9_007_199_254_740_991
  const U64_MAX := 0xffff_ffff_ffff_ffff

  datatype AccountSettings = AccountSettings(enabled: bool, serviceUrl: Bytes, allowedFid: Option<nat>, rpcUrl: Bytes)

  /** URL parsing, origin serialization and loopback addresses, which libraries provide. */
  datatype Urls = Urls(parse: Bytes -> Option<Syntax.Url>, originText: Syntax.Url -> Bytes, loopback: Bytes -> bool)

  function Origin(u: Urls, value: Bytes): Option<Syntax.Url> {
    if |value| > 2048 then None else
      match u.parse(value)
      case None => None
      case Some(url) =>
        var local := url.host.Some? && (url.host.value == Syntax.LOCALHOST || u.loopback(url.host.value));
        if !(url.scheme == Syntax.HTTPS || (url.scheme == Syntax.HTTP && local)) || url.username != [] || url.hasPassword
           || url.hasQuery || url.hasFragment || url.path != [Syntax.SLASH] || url.host.None?
        then None else Some(url)
  }

  const PSKY_TEST: Bytes := Syntax.Ascii("psky.test")

  function IdentityOf(u: Urls, s: AccountSettings): Option<Syntax.Identity> {
    match Origin(u, s.serviceUrl)
    case None => None
    case Some(url) =>
      var host := url.host.value;
      var did := Syntax.DID_WEB + host + if url.port.Some? then Syntax.ENCODED_COLON + Syntax.Decimal(url.port.value) else [];
      Some(Syntax.Identity(if host == Syntax.LOCALHOST then PSKY_TEST else host, did, u.originText(url), did))
  }

  predicate ValidAccount(u: Urls, s: AccountSettings) {
    && (s.allowedFid.Some? ==> 1 <= s.allowedFid.value <= MAX_FID) && (s.enabled ==> s.allowedFid.Some?)
    && Origin(u, s.rpcUrl).Some?
    && ((s.serviceUrl == [] && !s.enabled) ||
        match Origin(u, s.serviceUrl)
        case None => false
        case Some(url) => Syntax.COLON !in url.host.value && Syntax.ValidIdentity(u.parse, IdentityOf(u, s).value))
  }

  /** An origin, as the URL parser sees it: HTTPS, or HTTP on this machine, with nothing but a host and
      perhaps a port. */
  lemma OriginExactly(u: Urls, value: Bytes, url: Syntax.Url)
    ensures Origin(u, value) == Some(url)
       <==> && |value| <= 2048 && u.parse(value) == Some(url) && url.host.Some?
            && (|| url.scheme == Syntax.Ascii("https")
                || (url.scheme == Syntax.Ascii("http") && (url.host.value == Syntax.Ascii("localhost") || u.loopback(url.host.value))))
            && url.username == [] && !url.hasPassword && !url.hasQuery && !url.hasFragment && url.path == [0x2f]
  {
  }

  lemma TestHandleText()
    ensures PSKY_TEST == [0x70, 0x73, 0x6b, 0x79, 0x2e, 0x74, 0x65, 0x73, 0x74]
    ensures Syntax.TEST == [0x2e, 0x74, 0x65, 0x73, 0x74]
  {
  }

  lemma TestHandleSplit()
    ensures |PSKY_TEST| == 9 && Syntax.IndexOf(PSKY_TEST, Syntax.DOT) == 4
    ensures Syntax.SplitOn(PSKY_TEST, Syntax.DOT) == [PSKY_TEST[..4], PSKY_TEST[5..]]
    ensures Syntax.AfterLast(PSKY_TEST, Syntax.DOT) == 5
  {
    TestHandleText();
    assert Syntax.IndexOf(PSKY_TEST[5..], Syntax.DOT) == 4;
  }

  lemma TestHandleIsValid()
    ensures Syntax.ValidHostname(PSKY_TEST) && Syntax.EndsWith(PSKY_TEST, Syntax.TEST)
  {
    TestHandleText();
    TestHandleSplit();
  }

  /** Which origins can be configured: loopback by its name over HTTP, on any port but zero, or a public
      host name over HTTPS on the default port. Serializing an origin and parsing it again is assumed
      to give the same origin. */
  lemma OriginsAccepted(u: Urls, s: AccountSettings)
    requires Origin(u, s.serviceUrl).Some?
    requires u.parse(u.originText(Origin(u, s.serviceUrl).value)) == Origin(u, s.serviceUrl)
    ensures var url := Origin(u, s.serviceUrl).value;
            Syntax.ValidIdentity(u.parse, IdentityOf(u, s).value)
            <==> || (url.scheme == Syntax.HTTP && url.host.value == Syntax.LOCALHOST && url.port != Some(0))
                 || (&& url.scheme == Syntax.HTTPS && url.port.None? && Syntax.ValidHostname(url.host.value)
                     && !Syntax.EndsWith(url.host.value, Syntax.TEST))
  {
    var url := Origin(u, s.serviceUrl).value;
    var id := IdentityOf(u, s).value;
    if url.scheme == Syntax.HTTP && url.host.value == Syntax.LOCALHOST {
      TestHandleIsValid();
      assert id.did == Syntax.LocalDid(url.port);
    } else if url.port.None? {
      HostDid(url.host.value);
      LocalhostIsNoHostname();
    }
  }

  lemma HostDid(host: Bytes)
    ensures Syntax.StripPrefix(Syntax.DID_WEB + host + [], Syntax.DID_WEB) == Some(host)
  {
    assert Syntax.DID_WEB + host + [] == Syntax.DID_WEB + host;
  }

  lemma LocalhostIsNoHostname()
    ensures !Syntax.ValidHostname(Syntax.LOCALHOST)
  {
    assert Syntax.DOT !in Syntax.LOCALHOST;
  }

  /** The whole settings: the account part, and everything else as one value. */
  datatype Settings = Settings(account: AccountSettings, rest: Bytes)
  datatype Document = Document(schema: nat, revision: nat, settings: Settings)

  datatype Error = Invalid | Conflict | Persistence

  /** How far one save gets on the disk: the file cannot be read back; the new file cannot be put in
      place; or it is in place, and the directory is synchronized or not. */
  datatype SaveIo = Unreadable | Unpublished | Published(synced: bool)

  datatype Saved = Saved(document: Document, file: Option<Document>, result: Result<Document, Error>)

  function Replace(valid: Settings -> bool, fits: Document -> bool, document: Document, file: Option<Document>,
                   expected: nat, settings: Settings, io: SaveIo): Saved {
    if expected != document.revision then Saved(document, file, Err(Conflict))
    else if !valid(settings) then Saved(document, file, Err(Invalid))
    else if io.Unreadable? then Saved(document, file, Err(Persistence))
    else if file != Some(document) then Saved(document, file, Err(Conflict))
    else if document.revision >= U64_MAX then Saved(document, file, Err(Persistence))
    else
      var next := Document(1, document.revision + 1, settings);
      if !fits(next) then Saved(document, file, Err(Invalid))
      else if io.Unpublished? then Saved(document, file, Err(Persistence))
      else Saved(next, Some(next), if io.synced then Ok(next) else Err(Persistence))
  }

  class ConfigStore {
    var document: Document
    var file: Option<Document>

    /** Load the saved document, or publish the first one. */
    constructor (initial: Settings, saved: Option<Document>)
      ensures document == (if saved.Some? then saved.value else Document(1, 1, initial)) && file == Some(document)
    {
      document := if saved.Some? then saved.value else Document(1, 1, initial);
      file := Some(if saved.Some? then saved.value else Document(1, 1, initial));
    }

    method ReplaceWithSync(valid: Settings -> bool, fits: Document -> bool, expected: nat, settings: Settings, io: SaveIo)
      returns (r: Result<Document, Error>)
      modifies this
      ensures Saved(document, file, r) == Replace(valid, fits, old(document), old(file), expected, settings, io)
    {
      if expected != document.revision {
        return Err(Conflict);
      }
      if !valid(settings) {
        return Err(Invalid);
      }
      if io.Unreadable? {
        return Err(Persistence);
      }
      if file != Some(document) {
        return Err(Conflict);
      }
      if document.revision >= U64_MAX {
        return Err(Persistence);
      }
      var next := Document(1, document.revision + 1, settings);
      if !fits(next) {
        return Err(Invalid);
      }
      if io.Unpublished? {
        return Err(Persistence);
      }
      file := Some(next);
      document := next;
      if !io.synced {
        return Err(Persistence);
      }
      r := Ok(document);
    }
  }

  /** The save took effect exactly when the revision moved, whether or not it was reported as a
      success; the file and the store then agree on the new settings. */
  lemma SavedExactlyWhenRevisionMoved(valid: Settings -> bool, fits: Document -> bool, document: Document,
                                      expected: nat, settings: Settings, io: SaveIo)
    ensures var s := Replace(valid, fits, document, Some(document), expected, settings, io);
            && s.file == Some(s.document)
            && (s.document.revision != document.revision <==>
                  expected == document.revision < U64_MAX && valid(settings) && io.Published?
                  && fits(Document(1, document.revision + 1, settings)))
            && (s.document.revision == document.revision ==> s.document == document && s.result.Err?)
            && (s.document.revision != document.revision ==>
                  s.document.settings == settings && s.document.revision == document.revision + 1
                  && (s.result == Ok(s.document) || s.result == Err(Persistence)))
  {
  }

  /** Why a save is refused: a stale revision, or a file that another writer changed; settings that are
      invalid or too long; or the disk, or no revision left. */
  lemma RefusedExactly(valid: Settings -> bool, fits: Document -> bool, document: Document, file: Option<Document>,
                       expected: nat, settings: Settings, io: SaveIo)
    ensures var r := Replace(valid, fits, document, file, expected, settings, io).result;
            var read := expected == document.revision && valid(settings) && !io.Unreadable?;
            var numbered := read && file == Some(document) && document.revision < U64_MAX;
            && (r == Err(Conflict) <==> expected != document.revision || (read && file != Some(document)))
            && (r == Err(Invalid) <==>
                  || (expected == document.revision && !valid(settings))
                  || (numbered && !fits(Document(1, document.revision + 1, settings))))
            && (r.Ok? <==> numbered && fits(Document(1, document.revision + 1, settings)) && io == Published(true))
            && (r.Ok? ==> r.value == Document(1, document.revision + 1, settings))
  {
  }
}
