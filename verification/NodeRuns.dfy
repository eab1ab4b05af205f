/** Whole runs of a node: actions cut off anywhere, configuration saves, and crashes. */
module NodeRuns {
  import opened Ordered
  import opened Outcomes
  import opened Account
  import opened AccountRuns
  import opened AccountEvidence
  import opened ActionSteps
  import opened Crashes
  import Chain
  import Settings
  import Cr = Credentials

  /** The core in memory, the configuration store, and the settings file. The credential tables in
      `core.db` are on disk too; the rest of the core is lost in a crash. */
  datatype Node = Node(core: Core, document: Settings.Document, file: Option<Settings.Document>)

  /** The rules for saving, beside those of the service. */
  datatype Policy = Policy(env: Env, validAccount: Settings.AccountSettings -> bool, valid: Settings.Settings -> bool,
                           fits: Settings.Document -> bool)
  {
    ghost predicate Lawful() {
      env.Lawful() && forall s :: valid(s) ==> validAccount(s.account)
    }
  }

  function Applied(c: Core, s: Settings.AccountSettings): Core {
    if c.settings == s then c else c.(settings := s, pending := map[], grants := map[], checkedAt := None)
  }

  /** A configuration save: checked against the binding, written, and applied if it was published. */
  function Save(p: Policy, n: Node, expected: nat, settings: Settings.Settings, io: Settings.SaveIo): Node {
    if !p.validAccount(settings.account) || !Names(p.env, settings.account, n.core.db) then n
    else
      var saved := Settings.Replace(p.valid, p.fits, n.document, n.file, expected, settings, io);
      if saved.result.Ok? || (saved.result == Err(Settings.Persistence) && saved.document.revision != expected)
      then Node(Applied(n.core, saved.document.settings.account), saved.document, saved.file)
      else Node(n.core, saved.document, saved.file)
  }

  /** Starting the node from what is on disk. It refuses a store or settings that do not agree. */
  function Open(p: Policy, file: Settings.Document, db: Cr.Tables): Option<Node> {
    var s := file.settings.account;
    if !p.valid(file.settings) || !p.validAccount(s) || !StoreOpens(p.env.store, db) || !Names(p.env, s, db) then None
    else Some(Node(Core(s, db, map[], map[], [], [], None), file, Some(file)))
  }

  predicate StoreOpens(env: Cr.Env, db: Cr.Tables) {
    db.account.Some? ==>
      var row := db.account.value;
      && env.validate(row.account.identity) && row.account.fid != 0 && Cr.ValidAuthority(row.account.authority)
      && env.emptyRoot(row.account.identity.did, row.account.repoRevision, row.repoKey) == Some(row.account.repoCid)
  }

  ghost predicate NodeSound(p: Policy, n: Node) {
    && CoreSound(p.env, n.core) && n.file == Some(n.document)
    && n.document.settings.account == n.core.settings && p.valid(n.document.settings)
  }

  // ----- saving and starting -----

  lemma AppliedSound(env: Env, c: Core, s: Settings.AccountSettings)
    requires CoreSound(env, c) && Names(env, s, c.db)
    ensures CoreSound(env, Applied(c, s))
  {
    if EvidenceFits(env, c.settings, c.db) && c.db.evidence.Some? {
      assert env.identity(s) == env.identity(c.settings);
    }
  }

  /** A save keeps memory and disk in agreement with the binding, also when the directory could not be
      synchronized. */
  lemma SaveKeeps(p: Policy, n: Node, expected: nat, settings: Settings.Settings, io: Settings.SaveIo)
    requires p.Lawful() && NodeSound(p, n)
    ensures NodeSound(p, Save(p, n, expected, settings, io))
    ensures Save(p, n, expected, settings, io).core.db == n.core.db
  {
    if Names(p.env, settings.account, n.core.db) {
      Settings.SavedExactlyWhenRevisionMoved(p.valid, p.fits, n.document, expected, settings, io);
      AppliedSound(p.env, n.core, settings.account);
      AppliedSound(p.env, n.core, n.core.settings);
    }
  }

  /** The node starts from any tables that fit the saved settings. */
  lemma OpenFits(p: Policy, document: Settings.Document, db: Cr.Tables)
    requires p.Lawful() && p.valid(document.settings) && TablesFit(p.env, document.settings.account, db)
    ensures var started := Open(p, document, db);
            started.Some? && NodeSound(p, started.value) && started.value.core.db == db
  {
  }

  /** Wherever a crash cuts an action of a sound node, the node starts again from what is on disk. */
  lemma OpenSucceeds(p: Policy, n: Node, now: Time, x: Action, k: nat)
    requires p.Lawful() && NodeSound(p, n) && k <= |ActSteps(p.env, n.core, now, x)|
    ensures var cut := CutTables(p.env, n.core.db, ActSteps(p.env, n.core, now, x), k);
            var reopened := Open(p, n.document, cut);
            && reopened.Some? && NodeSound(p, reopened.value) && reopened.value.core.db == cut
            && Follows(p.env, n.core.db, cut, SeenBy(x), ExcuseOf(p.env, x))
  {
    ActCutFits(p.env, n.core, now, x, k);
    OpenFits(p, n.document, CutTables(p.env, n.core.db, ActSteps(p.env, n.core, now, x), k));
  }

  /** A new node, or one with an unbound store, is sound as soon as it starts. */
  lemma FirstStart(p: Policy, file: Settings.Document)
    requires Open(p, file, Cr.FRESH).Some?
    ensures NodeSound(p, Open(p, file, Cr.FRESH).value)
  {
  }

  // ----- runs -----

  /** One action with all that happens during it; one save; or a crash and a new start. The crash comes
      after the first `done` store operations of an action that was under way, or after all of them if
      they are fewer; with none it is a crash between actions. */
  datatype Event =
    | Do(now: Time, action: Action)
    | Configure(expected: nat, settings: Settings.Settings, io: Settings.SaveIo)
    | Crash(now: Time, action: Action, done: nat)

  function Done(steps: Steps, done: nat): (k: nat)
    ensures k <= |steps|
  {
    if done < |steps| then done else |steps|
  }

  /** The tables that a crash leaves. */
  function CrashTables(env: Env, c: Core, now: Time, x: Action, done: nat): Cr.Tables {
    CutTables(env, c.db, ActSteps(env, c, now, x), Done(ActSteps(env, c, now, x), done))
  }

  function Next(p: Policy, n: Node, e: Event): Option<Node> {
    match e
    case Do(now, action) => Some(n.(core := Act(p.env, n.core, now, action).core))
    case Configure(expected, settings, io) => Some(Save(p, n, expected, settings, io))
    case Crash(now, action, done) =>
      if n.file.None? then None else Open(p, n.file.value, CrashTables(p.env, n.core, now, action, done))
  }

  /** `None` means that the node could not start again. */
  function Run(p: Policy, n: Node, events: seq<Event>): Option<Node>
    decreases |events|
  {
    if events == [] then Some(n)
    else match Next(p, n, events[0]) case None => None case Some(m) => Run(p, m, events[1..])
  }

  lemma RunOne(p: Policy, n: Node, e: Event)
    ensures Run(p, n, [e]) == Next(p, n, e)
  {
    assert [e][1..] == [];
    if Next(p, n, e).Some? {
      assert Run(p, n, [e]) == Run(p, Next(p, n, e).value, []);
    }
  }

  lemma RunTwo(p: Policy, n: Node, first: Event, second: Event)
    requires Next(p, n, first).Some?
    ensures Run(p, n, [first, second]) == Next(p, Next(p, n, first).value, second)
  {
    var m := Next(p, n, first).value;
    assert [first, second][1..] == [second];
    assert Run(p, n, [first, second]) == Run(p, m, [second]);
    RunOne(p, m, second);
  }

  lemma {:induction false} RunAppend(p: Policy, n: Node, first: seq<Event>, rest: seq<Event>)
    ensures Run(p, n, first + rest) == match Run(p, n, first) case None => None case Some(m) => Run(p, m, rest)
    decreases |first|
  {
    if first == [] {
      assert first + rest == rest;
    } else {
      assert (first + rest)[1..] == first[1..] + rest;
      if Next(p, n, first[0]).Some? {
        RunAppend(p, Next(p, n, first[0]).value, first[1..], rest);
      }
    }
  }

  lemma NextKeeps(p: Policy, n: Node, e: Event)
    requires p.Lawful() && NodeSound(p, n)
    ensures Next(p, n, e).Some? && NodeSound(p, Next(p, n, e).value)
  {
    match e {
      case Do(now, action) => ActKeeps(p.env, n.core, now, action);
      case Configure(expected, settings, io) => SaveKeeps(p, n, expected, settings, io);
      case Crash(now, action, done) =>
        OpenSucceeds(p, n, now, action, Done(ActSteps(p.env, n.core, now, action), done));
    }
  }

  lemma {:induction false} RunKeeps(p: Policy, n: Node, events: seq<Event>)
    requires p.Lawful() && NodeSound(p, n)
    ensures Run(p, n, events).Some? && NodeSound(p, Run(p, n, events).value)
    decreases |events|
  {
    if events != [] {
      NextKeeps(p, n, events[0]);
      RunKeeps(p, Next(p, n, events[0]).value, events[1..]);
    }
  }

  /** After any run from a new node, and whatever crashed on the way: the node runs; if an account is
      bound, the settings in memory and the document on disk both name its FID and identity; at most
      eight logins are pending; and grants exist only for a bound, enabled account. */
  lemma BindingAgreement(p: Policy, file: Settings.Document, events: seq<Event>)
    requires p.Lawful() && Open(p, file, Cr.FRESH).Some?
    ensures var end := Run(p, Open(p, file, Cr.FRESH).value, events);
            && end.Some? && var c := end.value.core;
               && end.value.file == Some(end.value.document) && end.value.document.settings.account == c.settings
               && Names(p.env, c.settings, c.db) && Names(p.env, end.value.file.value.settings.account, c.db)
               && |c.pending| <= MAX_PENDING && (c.grants != map[] ==> Cr.EnabledAccount(c.db).Ok?)
  {
    FirstStart(p, file);
    RunKeeps(p, Open(p, file, Cr.FRESH).value, events);
  }

  /** What one event may do to the account and the evidence. */
  lemma NextFollows(p: Policy, n: Node, e: Event)
    requires p.Lawful() && NodeSound(p, n) && Next(p, n, e).Some?
    ensures Follows(p.env, n.core.db, Next(p, n, e).value.core.db,
                    if e.Configure? then None else SeenBy(e.action), if e.Configure? then NoExcuse else ExcuseOf(p.env, e.action))
  {
    match e {
      case Do(now, action) => ActFollows(p.env, n.core, now, action);
      case Configure(expected, settings, io) =>
        SaveKeeps(p, n, expected, settings, io);
        SelfFollows(p.env, n.core.db, None, NoExcuse);
      case Crash(now, action, done) =>
        OpenSucceeds(p, n, now, action, Done(ActSteps(p.env, n.core, now, action), done));
    }
  }

  /** The bound account is the same one for ever: no action, save or crash changes its FID, its
      identity, its key or its repository. */
  lemma {:induction false} BoundForever(p: Policy, n: Node, events: seq<Event>)
    requires p.Lawful() && NodeSound(p, n) && n.core.db.account.Some?
    ensures var end := Run(p, n, events);
            end.Some? && SameAccount(n.core.db, end.value.core.db)
    decreases |events|
  {
    if events != [] {
      NextKeeps(p, n, events[0]);
      NextFollows(p, n, events[0]);
      BoundForever(p, Next(p, n, events[0]).value, events[1..]);
    }
  }

  // ----- evidence over runs -----

  lemma AdvancesTransitive(a: Chain.Verified, b: Chain.Verified, number: nat, hash: Bytes)
    requires Chain.Advances(a, b.checkedBlock, b.blockHash) && Chain.Advances(b, number, hash)
    ensures Chain.Advances(a, number, hash)
  {
  }

  /** One event takes evidence away only with a finalized block that lies ahead of it, and replaces it
      only with evidence of such a block. */
  lemma EvidenceStep(p: Policy, n: Node, e: Event)
    requires p.Lawful() && NodeSound(p, n) && Held(p.env, n.core.db).Some?
    ensures Next(p, n, e).Some?
    ensures var v := Held(p.env, n.core.db).value;
            match Held(p.env, Next(p, n, e).value.core.db)
            case Some(later) => Chain.Advances(v, later.checkedBlock, later.blockHash)
            case None => !e.Configure? && SeenBy(e.action).Some?
                         && Chain.Advances(v, SeenBy(e.action).value.number, SeenBy(e.action).value.hash)
  {
    NextKeeps(p, n, e);
    NextFollows(p, n, e);
  }

  /** While no evidence is held, no password, session or grant exists, at any point of any run. */
  lemma NothingWithoutEvidence(p: Policy, n: Node, events: seq<Event>)
    requires p.Lawful() && NodeSound(p, n)
    ensures var end := Run(p, n, events);
            && end.Some?
            && (Held(p.env, end.value.core.db).None? ==>
                  end.value.core.db.passwords == [] && end.value.core.db.sessions == map[] && end.value.core.grants == map[])
  {
    RunKeeps(p, n, events);
    var c := Run(p, n, events).value.core;
    if Held(p.env, c.db).None? {
      NoPasswordsNoSessions(p.env, c);
    }
  }

  lemma NoPasswordsNoSessions(env: Env, c: Core)
    requires CoreSound(env, c) && Held(env, c.db).None?
    ensures c.db.passwords == [] && c.db.sessions == map[] && c.grants == map[]
  {
  }

  /** A save takes effect exactly if the account part is valid and still names the bound account, the whole
      is valid and fits, the revision is current and not the last, and the file was published. Changed
      account settings then drop pending logins, grants and the cache; the store is left alone. */
  lemma SaveExactly(p: Policy, n: Node, expected: nat, settings: Settings.Settings, io: Settings.SaveIo)
    requires NodeSound(p, n)
    ensures var after := Save(p, n, expected, settings, io);
            var next := Settings.Document(1, expected + 1, settings);
            var took := && p.validAccount(settings.account) && Names(p.env, settings.account, n.core.db)
                        && expected == n.document.revision < Settings.U64_MAX && p.valid(settings) && io.Published? && p.fits(next);
            && (!took ==> after == n)
            && (took ==>
                  && after.document == next && after.file == Some(next) && after.core.settings == settings.account
                  && (if settings.account == n.core.settings then after.core == n.core
                      else after.core == n.core.(settings := settings.account, pending := map[], grants := map[], checkedAt := None)))
  {
  }

  /** A node starts exactly on valid settings, a store whose account is sound and reproduces its repository,
      and settings that name that account. It starts with no login, no grant and no check behind it. */
  lemma OpenExactly(p: Policy, file: Settings.Document, db: Cr.Tables)
    ensures var s := file.settings.account;
            && (Open(p, file, db).Some? <==>
                  && p.valid(file.settings) && p.validAccount(s)
                  && (db.account.Some? ==>
                        var a := db.account.value.account;
                        && p.env.store.validate(a.identity) && a.fid != 0 && Cr.ValidAuthority(a.authority)
                        && p.env.store.emptyRoot(a.identity.did, a.repoRevision, db.account.value.repoKey) == Some(a.repoCid)
                        && s.allowedFid == Some(a.fid) && p.env.identity(s) == Some(a.identity)))
            && (Open(p, file, db).Some? ==>
                  var n := Open(p, file, db).value;
                  && n.document == file && n.file == Some(file) && n.core.settings == s && n.core.db == db
                  && n.core.pending == map[] && n.core.grants == map[] && n.core.checkedAt.None?
                  && n.core.startTimes == [] && n.core.passwordTimes == [])
  {
  }
}
