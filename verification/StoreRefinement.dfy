/** Every run of a node is a run of its credential store, so what holds of all store runs holds of nodes. */
module StoreRefinement {
  import opened Ordered
  import opened Outcomes
  import opened Account
  import opened AccountRuns
  import opened NodeRuns
  import opened ActionSteps
  import opened Crashes
  import Chain
  import Cr = Credentials
  import Runs = CredentialRuns

  // ----- fresh identifiers -----

  predicate Quiet(steps: Steps) {
    forall i :: 0 <= i < |steps| ==> !steps[i].Login? && !steps[i].Rotate?
  }

  /** The identifiers that an action would draw are new. */
  predicate FreshAction(w: Runs.World, x: Action) {
    (x.Login? ==> Runs.FreshIds(w, LoginStep(x))) && (x.Refresh? ==> Runs.FreshIds(w, RotateStep(x)))
  }

  lemma {:induction false} QuietRun(env: Cr.Env, w: Runs.World, steps: Steps)
    requires Quiet(steps)
    ensures Runs.FreshRun(env, w, steps) && Runs.Run(env, w, steps).used == w.used
    decreases |steps|
  {
    if steps != [] {
      QuietRun(env, Runs.Next(env, w, steps[0]), steps[1..]);
    }
  }

  lemma {:induction false} RunThen(env: Cr.Env, w: Runs.World, first: Steps, rest: Steps)
    ensures Runs.Run(env, w, first + rest) == Runs.Run(env, Runs.Run(env, w, first), rest)
    ensures Runs.FreshRun(env, w, first + rest) <==> Runs.FreshRun(env, w, first) && Runs.FreshRun(env, Runs.Run(env, w, first), rest)
    decreases |first|
  {
    if first == [] {
      assert first + rest == rest;
    } else {
      assert (first + rest)[1..] == first[1..] + rest;
      RunThen(env, Runs.Next(env, w, first[0]), first[1..], rest);
    }
  }

  lemma RunOne(env: Cr.Env, w: Runs.World, step: Runs.Step)
    ensures Runs.Run(env, w, [step]) == Runs.Next(env, w, step)
    ensures Runs.FreshRun(env, w, [step]) <==> Runs.FreshIds(w, step)
  {
    assert [step][1..] == [];
  }

  lemma CheckedFresh(env: Env, c: Core, now: Time, a: Await<Chain.Answers>, writes: Writes, done: Did<()>, step: Runs.Step, w: Runs.World)
    requires Runs.FreshIds(w, step)
    ensures Runs.FreshRun(env.store, w, CheckedSteps(env, c, now, a, writes, done, step))
  {
    var first := AuthoritySteps(env, c, now, a, writes);
    QuietRun(env.store, w, first);
    RunOne(env.store, Runs.Run(env.store, w, first), step);
    RunThen(env.store, w, first, [step]);
    assert first + [] == first;
  }

  lemma QuietAct(env: Env, c: Core, now: Time, x: Action)
    requires !x.Login? && !x.Refresh?
    ensures Quiet(ActSteps(env, c, now, x))
  {
    var q := Pruned(c, now);
    if x.Poll? {
      QuietPoll(env, q, now, x);
    }
  }

  lemma QuietPoll(env: Env, c: Core, now: Time, x: Action)
    requires x.Poll?
    ensures Quiet(PollSteps(env, c, now, x))
  {
    var s := PollRelay(env, c, x.pollId, x.token, now, x.status);
    if s.stage.Proceed? {
      QuietVerify(env, s.core, x.pollId, s.stage.proof, now, x);
    }
  }

  lemma QuietVerify(env: Env, c: Core, id: Bytes, proof: Chain.Proof, now: Time, x: Action)
    requires x.Poll? && id in c.pending && env.identity(c.settings).Some?
    ensures Quiet(VerifySteps(env, c, id, proof, now, x))
  {
  }

  /** An action draws identifiers only for the login or the rotation that it carries out. */
  lemma ActFresh(env: Env, c: Core, now: Time, x: Action, w: Runs.World)
    requires FreshAction(w, x)
    ensures Runs.FreshRun(env.store, w, ActSteps(env, c, now, x))
  {
    var q := Pruned(c, now);
    if x.Login? {
      CheckedFresh(env, Limited(q, now), x.authorityAt, x.a, x.w, LoginAction(env, q, now, x), LoginStep(x), w);
    } else if x.Refresh? {
      CheckedFresh(env, q, x.authorityAt, x.a, x.w, RefreshAction(env, q, x), RotateStep(x), w);
    } else {
      QuietAct(env, c, now, x);
      QuietRun(env.store, w, ActSteps(env, c, now, x));
    }
  }

  // ----- whole runs -----

  function EventSteps(p: Policy, n: Node, e: Event): Steps {
    match e
    case Do(now, x) => ActSteps(p.env, n.core, now, x)
    case Configure(_, _, _) => []
    case Crash(now, x, done) =>
      var steps := ActSteps(p.env, n.core, now, x);
      steps[..NodeRuns.Done(steps, done)]
  }

  function NodeSteps(p: Policy, n: Node, events: seq<Event>): Steps
    decreases |events|
  {
    if events == [] || Next(p, n, events[0]).None? then []
    else EventSteps(p, n, events[0]) + NodeSteps(p, Next(p, n, events[0]).value, events[1..])
  }

  predicate FreshEvents(p: Policy, n: Node, w: Runs.World, events: seq<Event>)
    decreases |events|
  {
    events == [] || Next(p, n, events[0]).None? ||
    (&& (!events[0].Configure? ==> FreshAction(w, events[0].action))
     && FreshEvents(p, Next(p, n, events[0]).value, Runs.Run(p.env.store, w, EventSteps(p, n, events[0])), events[1..]))
  }

  lemma EventIsStoreRun(p: Policy, n: Node, e: Event, w: Runs.World)
    requires w.db == n.core.db && Next(p, n, e).Some? && (!e.Configure? ==> FreshAction(w, e.action))
    ensures Runs.Run(p.env.store, w, EventSteps(p, n, e)).db == Next(p, n, e).value.core.db
    ensures Runs.FreshRun(p.env.store, w, EventSteps(p, n, e))
  {
    match e {
      case Do(now, x) => ActIsStoreRun(p.env, n.core, now, x, w);
      case Configure(_, _, _) =>
      case Crash(now, x, done) => CutIsStoreRun(p.env, n.core, now, x, NodeRuns.Done(ActSteps(p.env, n.core, now, x), done), w);
    }
  }

  lemma ActIsStoreRun(env: Env, c: Core, now: Time, x: Action, w: Runs.World)
    requires w.db == c.db && FreshAction(w, x)
    ensures var steps := ActSteps(env, c, now, x);
            Runs.Run(env.store, w, steps).db == Act(env, c, now, x).core.db && Runs.FreshRun(env.store, w, steps)
  {
    ActTables(env, c, now, x);
    ActFresh(env, c, now, x, w);
    TablesOfRun(env.store, w, ActSteps(env, c, now, x));
  }

  lemma CutIsStoreRun(env: Env, c: Core, now: Time, x: Action, k: nat, w: Runs.World)
    requires w.db == c.db && FreshAction(w, x) && k <= |ActSteps(env, c, now, x)|
    ensures var steps := ActSteps(env, c, now, x);
            Runs.Run(env.store, w, steps[..k]).db == CutTables(env, c.db, steps, k) && Runs.FreshRun(env.store, w, steps[..k])
  {
    ActFresh(env, c, now, x, w);
    PrefixRun(env.store, w, ActSteps(env, c, now, x), k);
  }

  lemma PrefixRun(env: Cr.Env, w: Runs.World, steps: Steps, k: nat)
    requires Runs.FreshRun(env, w, steps) && k <= |steps|
    ensures Runs.FreshRun(env, w, steps[..k]) && Runs.Run(env, w, steps[..k]).db == Tables(env, w.db, steps[..k])
  {
    TablesOfRun(env, w, steps[..k]);
    RunThen(env, w, steps[..k], steps[k..]);
    assert steps[..k] + steps[k..] == steps;
  }

  /** Over any run, crashes and saves included, the tables are those of a run of the store with fresh
      identifiers. What `CredentialRuns` proves of such runs thus holds of every node. */
  lemma {:induction false} NodeRunIsStoreRun(p: Policy, n: Node, events: seq<Event>, w: Runs.World)
    requires w.db == n.core.db && FreshEvents(p, n, w, events) && Run(p, n, events).Some?
    ensures Runs.Run(p.env.store, w, NodeSteps(p, n, events)).db == Run(p, n, events).value.core.db
    ensures Runs.FreshRun(p.env.store, w, NodeSteps(p, n, events))
    decreases |events|
  {
    if events != [] {
      var steps := EventSteps(p, n, events[0]);
      var m := Next(p, n, events[0]).value;
      EventIsStoreRun(p, n, events[0], w);
      NodeRunIsStoreRun(p, m, events[1..], Runs.Run(p.env.store, w, steps));
      RunThen(p.env.store, w, steps, NodeSteps(p, m, events[1..]));
    }
  }

  /** A refresh that succeeds is a rotation of the store after the check of the authority. */
  lemma RefreshSteps(env: Env, c: Core, now: Time, x: Action)
    requires x.Refresh? && Act(env, c, now, x).result.Ok?
    ensures var q := Pruned(c, now);
            var first := AuthoritySteps(env, q, x.authorityAt, x.a, x.w);
            && ActSteps(env, c, now, x) == first + [RotateStep(x)]
            && Cr.RefreshSession(env.store, Authority(env, q, x.authorityAt, x.a, x.w).core.db, x.refresh, x.rotateAt, x.jti, x.accessJti).result.Ok?
            && Tables(env.store, c.db, first) == Authority(env, q, x.authorityAt, x.a, x.w).core.db
  {
    AuthorityTables(env, Pruned(c, now), x.authorityAt, x.a, x.w);
  }

  lemma {:induction false} StaysSound(env: Cr.Env, w: Runs.World, steps: Steps)
    requires Runs.IdsSound(w) && Runs.FreshRun(env, w, steps)
    ensures Runs.IdsSound(Runs.Run(env, w, steps))
    decreases |steps|
  {
    if steps != [] {
      Runs.IdsStaySound(env, w, steps[0]);
      StaysSound(env, Runs.Next(env, w, steps[0]), steps[1..]);
    }
  }

  /** A refresh that succeeds. */
  predicate Rotates(env: Env, c: Core, e: Event) {
    e.Do? && e.action.Refresh? && Act(env, c, e.now, e.action).result.Ok?
  }

  /** Both texts open to the same token identifier. */
  predicate SameToken(env: Cr.Env, a: Bytes, b: Bytes) {
    env.open(a).Some? && env.open(b).Some? && env.open(a).value.claims.jti == env.open(b).value.claims.jti
  }

  /** A node answers each refresh token with a rotation at most once. After it did, and whatever happens
      next, crashes included, no copy of the token is accepted again. */
  lemma NodeNoReplay(p: Policy, n: Node, events: seq<Event>, w: Runs.World, copy: Bytes, at: Time, rowAt: Time)
    requires w.db == n.core.db && Runs.IdsSound(w) && FreshEvents(p, n, w, events) && Run(p, n, events).Some?
    requires events != [] && Rotates(p.env, n.core, events[0])
    requires SameToken(p.env.store, copy, events[0].action.refresh)
    ensures Cr.Bearer(p.env.store, Run(p, n, events).value.core.db, copy, Cr.Refresh, at, rowAt).Err?
  {
    var env := p.env.store;
    var now, x, later := events[0].now, events[0].action, events[1..];
    var m := Next(p, n, events[0]).value;
    var rest := NodeSteps(p, m, later);
    var first := AuthoritySteps(p.env, Pruned(n.core, now), x.authorityAt, x.a, x.w);
    NodeRunIsStoreRun(p, n, events, w);
    RefreshSteps(p.env, n.core, now, x);
    Split(first, RotateStep(x), rest);
    RunThen(env, w, first, [RotateStep(x)] + rest);
    StaysSound(env, w, first);
    TablesOfRun(env, w, first);
    Runs.NoReplay(env, Runs.Run(env, w, first), x.refresh, x.rotateAt, x.jti, x.accessJti, rest, copy, at, rowAt);
  }

  lemma Split(first: Steps, step: Runs.Step, rest: Steps)
    ensures (first + [step]) + rest == first + ([step] + rest)
  {
  }
}
