/** The account binding with the repository's own metadata rules and builder in place. */
module Binding {
  import opened Ordered
  import opened Outcomes
  import opened Records
  import Ipld
  import Syntax
  import Tid
  import Repository
  import Settings
  import Cr = Credentials

  /** The store's environment over the identity check, the revision and the empty repository that
      the program uses; tokens and digests are as in `base`. */
  function Standard(base: Cr.Env, parse: Bytes -> Option<Syntax.Url>, k: Tools, s: Repository.Signing,
                    show: Ipld.Cid -> Bytes): Cr.Env {
    base.(validate := id => Syntax.ValidIdentity(parse, id),
          revision := t => Tid.Digits(Tid.Timestamp(t), Tid.LENGTH),
          emptyRoot := (did, rev, key) =>
            if Syntax.Metadata(did, rev).Ok? then Some(show(Repository.Snapshot(k, s, did, rev, map[], key).root)) else None)
  }

  function Pow10(n: nat): (p: nat)
    ensures p > 0
  {
    if n == 0 then 1 else 10 * Pow10(n - 1)
  }

  lemma {:induction false} DecimalLength(n: nat, digits: nat)
    requires 0 < digits && n < Pow10(digits)
    ensures |Syntax.Decimal(n)| <= digits
  {
    if n >= 10 {
      DecimalLength(n / 10, digits - 1);
    }
  }

  lemma LocalDidPlain(port: Option<Syntax.Port>)
    ensures Cr.Plain(Syntax.LocalDid(port))
  {
    LocalPrefixPlain();
    if port.Some? {
      assert Pow10(5) == 100_000;
      DecimalLength(port.value, 5);
    }
  }

  lemma LocalPrefixPlain()
    ensures Cr.Plain(Syntax.DID_WEB) && |Syntax.DID_WEB| == 8
    ensures Cr.Plain(Syntax.LOCALHOST) && |Syntax.LOCALHOST| == 9
    ensures Cr.Plain(Syntax.ENCODED_COLON) && |Syntax.ENCODED_COLON| == 3
  {
  }

  lemma HostDidPlain(did: Bytes, host: Bytes)
    requires Syntax.StripPrefix(did, Syntax.DID_WEB) == Some(host) && Syntax.ValidHostname(host)
    ensures Cr.Plain(did)
  {
    LocalPrefixPlain();
    Syntax.LabelChars(host);
    assert did == Syntax.DID_WEB + host;
  }

  /** The DIDs of a valid identity are short and need no escapes in JSON, so every token stays in bounds. */
  lemma IdentityPlain(parse: Bytes -> Option<Syntax.Url>, id: Syntax.Identity)
    requires Syntax.ValidIdentity(parse, id)
    ensures Cr.Plain(id.did) && Cr.Plain(id.serviceDid)
  {
    var url := parse(id.serviceUrl).value;
    if url.scheme == Syntax.HTTP && url.host.value == Syntax.LOCALHOST {
      LocalDidPlain(url.port);
    } else {
      HostDidPlain(id.did, Syntax.StripPrefix(id.did, Syntax.DID_WEB).value);
      HostDidPlain(id.serviceDid, Syntax.StripPrefix(id.serviceDid, Syntax.DID_WEB).value);
    }
  }

  /** What the store assumes of identities, revisions and empty repositories is true of the real ones. */
  lemma StandardIsLawful(base: Cr.Env, parse: Bytes -> Option<Syntax.Url>, k: Tools, s: Repository.Signing, show: Ipld.Cid -> Bytes)
    requires forall h, c :: base.open(base.sign(h, c)) == Some(Cr.Opened(h, c))
    requires forall kind: Cr.Kind, c: Cr.Claims :: Cr.Compact(kind, c) ==> |base.sign(Cr.HeaderFor(kind), c)| <= 4096
    ensures Standard(base, parse, k, s, show).Lawful()
  {
    var env := Standard(base, parse, k, s, show);
    forall id | env.validate(id) ensures Cr.Plain(id.did) && Cr.Plain(id.serviceDid) {
      IdentityPlain(parse, id);
    }
    forall id, t: Cr.Time, key | env.validate(id) ensures env.emptyRoot(id.did, env.revision(t), key).Some? {
      Tid.BindingMetadataAccepted(parse, id, t);
    }
  }

  /** Binding a new account fails exactly on its inputs, never on metadata, and it records the root of
      an empty repository that checks under the account's key. */
  lemma BindsExactly(base: Cr.Env, parse: Bytes -> Option<Syntax.Url>, k: Tools, s: Repository.Signing, show: Ipld.Cid -> Bytes,
                     fid: nat, authority: Bytes, identity: Syntax.Identity, now: Cr.Time, key: Bytes)
    requires k.codec.Ideal() && s.Sound()
    ensures var env := Standard(base, parse, k, s, show);
            var rev := Tid.Digits(Tid.Timestamp(now), Tid.LENGTH);
            var repo := Repository.Snapshot(k, s, identity.did, rev, map[], key);
            var bound := Cr.BindVerified(env, Cr.FRESH, fid, authority, identity, now, key);
            && (bound.result.Ok? <==> Syntax.ValidIdentity(parse, identity) && 0 < fid <= Cr.I64_MAX
                                      && Cr.ValidAuthority(authority) && base.validScalar(key))
            && (bound.result.Ok? ==>
                  && bound.result.value.repoCid == show(repo.root) && bound.result.value.repoRevision == rev
                  && Repository.Accepted(k, s, repo, s.publicKey(key)))
  {
    if Syntax.ValidIdentity(parse, identity) {
      Tid.BindingMetadataAccepted(parse, identity, now);
      Repository.VerifyComplete(k, s, identity.did, Tid.Digits(Tid.Timestamp(now), Tid.LENGTH), map[], key);
    }
  }

  /** Settings that may be saved with the account service enabled can always be bound: a first login for
      their FID, with a valid authority and key, creates the account that they name. */
  lemma EnabledSettingsBind(base: Cr.Env, u: Settings.Urls, k: Tools, s: Repository.Signing, show: Ipld.Cid -> Bytes,
                            settings: Settings.AccountSettings, authority: Bytes, now: Cr.Time, key: Bytes)
    requires k.codec.Ideal() && s.Sound() && base.validScalar(key) && Cr.ValidAuthority(authority)
    requires Settings.ValidAccount(u, settings) && settings.enabled
    ensures settings.allowedFid.Some? && Settings.IdentityOf(u, settings).Some?
    ensures var identity := Settings.IdentityOf(u, settings).value;
            var bound := Cr.BindVerified(Standard(base, u.parse, k, s, show), Cr.FRESH, settings.allowedFid.value, authority, identity, now, key);
            && bound.result.Ok? && bound.result.value.fid == settings.allowedFid.value && bound.result.value.identity == identity
            && Cr.EnabledAccount(bound.db) == bound.result
  {
    var identity := Settings.IdentityOf(u, settings).value;
    BindsExactly(base, u.parse, k, s, show, settings.allowedFid.value, authority, identity, now, key);
  }
}
