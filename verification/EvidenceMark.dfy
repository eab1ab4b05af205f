/** The height of the chain evidence over runs, against the highest that logins and checks have reached. */
module EvidenceMark {
  import opened Ordered
  import opened Outcomes
  import opened Account
  import opened AccountRuns
  import opened AccountEvidence
  import opened ActionSteps
  import opened Crashes
  import opened LoginEvidence
  import opened NodeRuns
  import Revoked = RevokedEvidence
  import Settings
  import Chain
  import Cr = Credentials

  type Mark = Option<Chain.Verified>

  /** The block of `v` lies ahead of the mark's, or is the same. */
  predicate Reached(mark: Chain.Verified, v: Chain.Verified) {
    Chain.Advances(mark, v.checkedBlock, v.blockHash)
  }

  /** How many of its store operations an event's action carries out. */
  function Carried(env: Env, c: Core, e: Event): (k: nat)
    requires !e.Configure?
    ensures k <= |ActSteps(env, c, e.now, e.action)|
  {
    var steps := ActSteps(env, c, e.now, e.action);
    if e.Do? then |steps| else Done(steps, e.done)
  }

  /** A login's poll that carries out all its operations and gets its evidence stored. */
  predicate Completes(env: Env, c: Core, e: Event) {
    && !e.Configure? && StoresBy(env, c, e.now, e.action)
    && Carried(env, c, e) == |ActSteps(env, c, e.now, e.action)|
  }

  /** The authority check takes the evidence away. */
  predicate Resets(env: Env, c: Core, e: Event) {
    !e.Configure? && !e.action.Poll? && Revoked.Revokes(env, c, e.now, e.action) && Carried(env, c, e) >= 1
  }

  /** A login's poll takes the evidence away, and does not get to storing its own. */
  predicate Interrupted(env: Env, c: Core, e: Event) {
    !e.Configure? && SupersedesBy(env, c, e.now, e.action) && Carried(env, c, e) >= 1 && !Completes(env, c, e)
  }

  lemma EventTables(p: Policy, n: Node, e: Event)
    requires p.Lawful() && NodeSound(p, n) && !e.Configure?
    ensures Next(p, n, e).Some?
    ensures Next(p, n, e).value.core.db == CutTables(p.env, n.core.db, ActSteps(p.env, n.core, e.now, e.action), Carried(p.env, n.core, e))
  {
    NextKeeps(p, n, e);
    if e.Do? {
      ActTables(p.env, n.core, e.now, e.action);
      CutAtEnds(p.env, n.core.db, ActSteps(p.env, n.core, e.now, e.action));
    } else {
      OpenSucceeds(p, n, e.now, e.action, Carried(p.env, n.core, e));
    }
  }

  /** When evidence appears: exactly when a login completes. When it goes: exactly when the authority check
      revokes it, or a login's poll takes it away and does not complete. */
  lemma EvidenceExactly(p: Policy, n: Node, e: Event)
    requires p.Lawful() && NodeSound(p, n)
    ensures Next(p, n, e).Some?
    ensures var before, after := Held(p.env, n.core.db), Held(p.env, Next(p, n, e).value.core.db);
            && (Completes(p.env, n.core, e) ==> after == Some(LoginOf(p.env, n.core, e.now, e.action)))
            && (before.None? ==> (after.Some? <==> Completes(p.env, n.core, e)))
            && (before.Some? ==> (after.None? <==> Resets(p.env, n.core, e) || Interrupted(p.env, n.core, e)))
  {
    if e.Configure? {
      SaveKeeps(p, n, e.expected, e.settings, e.io);
    } else {
      var k := Carried(p.env, n.core, e);
      EventTables(p, n, e);
      ActCutEvidence(p.env, n.core, e.now, e.action, k);
      if !e.action.Poll? && Held(p.env, n.core.db).Some? {
        Revoked.OtherLosesExactly(p.env, n.core, e.now, e.action, k);
      }
    }
  }

  // ----- the mark -----

  /** The highest evidence so far. Only a revocation by the authority check forgets it. */
  function NextMark(p: Policy, n: Node, e: Event, mark: Mark): Mark
    requires Next(p, n, e).Some?
  {
    var held := Held(p.env, Next(p, n, e).value.core.db);
    if held.Some? then (if mark.Some? && !Reached(mark.value, held.value) then mark else held)
    else if Held(p.env, n.core.db).Some? && Resets(p.env, n.core, e) then None
    else mark
  }

  /** The evidence held is behind the mark, or forks from it. */
  predicate Off(env: Env, db: Cr.Tables, mark: Mark) {
    Held(env, db).Some? && mark.Some? && !Reached(mark.value, Held(env, db).value)
  }

  /** With no evidence held, a login completes whose block does not reach the mark. */
  predicate LowLogin(env: Env, c: Core, e: Event, mark: Mark) {
    Held(env, c.db).None? && mark.Some? && Completes(env, c, e) && !Reached(mark.value, LoginOf(env, c, e.now, e.action))
  }

  /** One event takes the evidence off the mark exactly when it is a low login. */
  lemma OffExactly(p: Policy, n: Node, e: Event, mark: Mark)
    requires p.Lawful() && NodeSound(p, n) && !Off(p.env, n.core.db, mark)
    ensures Next(p, n, e).Some?
    ensures Off(p.env, Next(p, n, e).value.core.db, NextMark(p, n, e, mark)) <==> LowLogin(p.env, n.core, e, mark)
  {
    EvidenceExactly(p, n, e);
    var held := Held(p.env, Next(p, n, e).value.core.db);
    if Held(p.env, n.core.db).Some? && held.Some? && mark.Some? {
      EvidenceStep(p, n, e);
      AdvancesTransitive(mark.value, Held(p.env, n.core.db).value, held.value.checkedBlock, held.value.blockHash);
    }
  }

  /** At some point of the run the evidence is off the mark. */
  predicate EverOff(p: Policy, n: Node, events: seq<Event>, mark: Mark)
    decreases |events|
  {
    || Off(p.env, n.core.db, mark)
    || (events != [] && Next(p, n, events[0]).Some? && EverOff(p, Next(p, n, events[0]).value, events[1..], NextMark(p, n, events[0], mark)))
  }

  /** Some event of the run is a low login. */
  predicate EverLow(p: Policy, n: Node, events: seq<Event>, mark: Mark)
    decreases |events|
  {
    events != [] && Next(p, n, events[0]).Some? &&
    (|| LowLogin(p.env, n.core, events[0], mark)
     || EverLow(p, Next(p, n, events[0]).value, events[1..], NextMark(p, n, events[0], mark)))
  }

  /** Over any run, crashes and saves included: between revocations by the authority check the evidence
      falls behind what it reached, or forks from it, if and only if some login completes below the mark
      while no evidence is held. */
  lemma {:induction false} MonotoneExactly(p: Policy, n: Node, events: seq<Event>, mark: Mark)
    requires p.Lawful() && NodeSound(p, n) && !Off(p.env, n.core.db, mark)
    ensures EverOff(p, n, events, mark) <==> EverLow(p, n, events, mark)
    decreases |events|
  {
    if events != [] {
      NextKeeps(p, n, events[0]);
      OffExactly(p, n, events[0], mark);
      var m, next := Next(p, n, events[0]).value, NextMark(p, n, events[0], mark);
      if !Off(p.env, m.core.db, next) {
        MonotoneExactly(p, m, events[1..], next);
      }
    }
  }

  /** No event of the run is a revocation by the authority check. */
  predicate NoReset(p: Policy, n: Node, events: seq<Event>)
    decreases |events|
  {
    events != [] && Next(p, n, events[0]).Some? ==>
      !Resets(p.env, n.core, events[0]) && NoReset(p, Next(p, n, events[0]).value, events[1..])
  }

  lemma ReachedItself(v: Chain.Verified)
    ensures Reached(v, v)
  {
  }

  /** Without a revocation and a low login, evidence at the end of a run reaches the mark at its start,
      whether or not evidence was held all the way. */
  lemma {:induction false} EvidenceNeverGoesBack(p: Policy, n: Node, events: seq<Event>, mark: Chain.Verified)
    requires p.Lawful() && NodeSound(p, n) && !Off(p.env, n.core.db, Some(mark))
    requires NoReset(p, n, events) && !EverLow(p, n, events, Some(mark))
    ensures var end := Run(p, n, events);
            end.Some? && (Held(p.env, end.value.core.db).Some? ==> Reached(mark, Held(p.env, end.value.core.db).value))
    decreases |events|
  {
    if events != [] {
      NextKeeps(p, n, events[0]);
      OffExactly(p, n, events[0], Some(mark));
      var m, next := Next(p, n, events[0]).value, NextMark(p, n, events[0], Some(mark));
      EvidenceNeverGoesBack(p, m, events[1..], next.value);
      var held := Held(p.env, Run(p, n, events).value.core.db);
      ReachedItself(mark);
      if held.Some? {
        AdvancesTransitive(mark, next.value, held.value.checkedBlock, held.value.blockHash);
      }
    }
  }

  /** From a new node on, the same with no mark to begin with. */
  lemma MonotoneFromNewNode(p: Policy, file: Settings.Document, events: seq<Event>)
    requires p.Lawful() && Open(p, file, Cr.FRESH).Some?
    ensures var n := Open(p, file, Cr.FRESH).value;
            EverOff(p, n, events, None) <==> EverLow(p, n, events, None)
  {
    FirstStart(p, file);
    MonotoneExactly(p, Open(p, file, Cr.FRESH).value, events, None);
  }

  // ----- a run on which the height goes back -----

  lemma VerifyLeavesOthers(env: Env, c: Core, id: Bytes, proof: Chain.Proof, now: Time, x: Action, other: Bytes)
    requires x.Poll? && id in c.pending && env.identity(c.settings).Some? && other in c.pending && other != id
    ensures var d := VerifyBy(env, c, id, proof, now, x).core;
            other in d.pending && d.pending[other] == c.pending[other]
  {
    VerifyDoes(env, c, id, proof, now, x.verifyAt, x.a, x.expiryAt, x.bindAt, x.checkedAt, x.w, x.key, x.accountToken);
    var check := LoginCheck(env, env.identity(c.settings).value, proof, c.pending[id].challenge, x.verifyAt, x.a);
    if check.Ok? {
      var cleared := Supersede(c, env.FingerprintOf(check.value), x.w).core;
      AdmitLeavesOthers(env, cleared, id, proof, check.value, now, x, other);
    }
  }

  lemma AdmitLeavesOthers(env: Env, c: Core, id: Bytes, proof: Chain.Proof, v: Chain.Verified, now: Time, x: Action, other: Bytes)
    requires x.Poll? && id in c.pending && env.identity(c.settings).Some? && other in c.pending && other != id
    ensures var d := Admit(env, c, id, proof, v, env.identity(c.settings).value, now, x.bindAt, x.checkedAt, x.w, x.key, x.accountToken).core;
            other in d.pending && d.pending[other] == c.pending[other]
  {
  }

  lemma PollLeavesOthers(env: Env, c: Core, now: Time, x: Action, other: Bytes)
    requires x.Poll? && other in c.pending && other != x.pollId
    ensures var d := PollAction(env, c, now, x).core;
            other in d.pending && d.pending[other] == c.pending[other]
  {
    var s := PollRelay(env, c, x.pollId, x.token, now, x.status);
    RelayLeaves(env, c, x.pollId, x.token, now, x.status);
    if s.stage.Proceed? {
      VerifyLeavesOthers(env, s.core, x.pollId, s.stage.proof, now, x, other);
    }
  }

  /** With no evidence in its way, this poll would store its own. */
  predicate StoresAlone(env: Env, c: Core, now: Time, x: Action) {
    && Reaches(env, c, now, x) && x.w.invalidate
    && var q, proof := Pruned(c, now), ProofOf(env, c, now, x);
       ChecksOut(env, q, x.pollId, proof, x) && Storable(env, q, proof, CheckedBy(env, q, x.pollId, proof, x), x)
  }

  lemma StillStores(env: Env, c: Core, d: Core, now: Time, x: Action)
    requires StoresAlone(env, c, now, x) && d.settings == c.settings && d.db.evidence.None? && c.db.account.Some? && d.db.account.Some?
    requires x.pollId in d.pending && d.pending[x.pollId] == Pruned(c, now).pending[x.pollId]
    ensures StoresBy(env, d, now, x)
    ensures LoginOf(env, d, now, x) == CheckedBy(env, Pruned(c, now), x.pollId, ProofOf(env, c, now, x), x)
  {
  }

  /** Two polls of two pending logins that between them take the stored height back: the first is of a
      changed authority, and does not get to storing its evidence; the second is of any lower block. */
  lemma HeightCanGoBack(p: Policy, n: Node, now: Time, x: Action, later: Time, y: Action)
    requires p.Lawful() && NodeSound(p, n) && Held(p.env, n.core.db).Some? && now <= later
    requires SupersedesBy(p.env, n.core, now, x) && !StoresBy(p.env, n.core, now, x)
    requires StoresAlone(p.env, n.core, later, y) && y.pollId != x.pollId
    requires CheckedBy(p.env, Pruned(n.core, later), y.pollId, ProofOf(p.env, n.core, later, y), y).checkedBlock
             < Held(p.env, n.core.db).value.checkedBlock
    ensures var end := Run(p, n, [Do(now, x), Do(later, y)]);
            && end.Some? && Held(p.env, end.value.core.db).Some?
            && Held(p.env, end.value.core.db).value.checkedBlock < Held(p.env, n.core.db).value.checkedBlock
  {
    var first, second := Do(now, x), Do(later, y);
    EvidenceExactly(p, n, first);
    NextKeeps(p, n, first);
    NextFollows(p, n, first);
    ActTables(p.env, n.core, now, x);
    CarriedSome(p, n, now, x);
    var m := Next(p, n, first).value;
    PollLeavesOthers(p.env, Pruned(n.core, now), now, x, y.pollId);
    StillStores(p.env, n.core, m.core, later, y);
    EvidenceExactly(p, m, second);
    RunTwo(p, n, first, second);
    CompletesWhole(p.env, m.core, later, y);
  }

  lemma CompletesWhole(env: Env, c: Core, now: Time, x: Action)
    requires StoresBy(env, c, now, x)
    ensures Completes(env, c, Do(now, x))
  {
  }

  /** A poll that takes evidence away carries out an operation. */
  lemma CarriedSome(p: Policy, n: Node, now: Time, x: Action)
    requires p.Lawful() && NodeSound(p, n) && Held(p.env, n.core.db).Some?
    requires SupersedesBy(p.env, n.core, now, x) && !StoresBy(p.env, n.core, now, x)
    ensures |ActSteps(p.env, n.core, now, x)| >= 1
  {
    var q := Pruned(n.core, now);
    var s := PollRelay(p.env, q, x.pollId, x.token, now, x.status);
    PrunedKeeps(p.env, n.core, now);
    RelayKeeps(p.env, q, x.pollId, x.token, now, x.status);
    RelayChallenge(p.env, q, x.pollId, x.token, now, x.status);
    SameLogin(p.env, q, s.core, x.pollId, s.stage.proof, x);
    PollEvidence(p.env, s.core, x.pollId, s.stage.proof, now, x);
    PollTables(p.env, q, now, x);
  }
}
