/** The operator console: one action at a time, configuration saves, and draining before shutdown. */
module Scheduler {
  import opened Ordered
  import opened Outcomes
  import Settings

  const OPERATION_CAPACITY := 32

  datatype Kind = Preflight | Reconstruct
  datatype Status = Running | Succeeded | Failed
  datatype Operation = Operation(id: nat, kind: Kind, status: Status, startedAt: nat, finishedAt: Option<nat>,
                                 error: Option<string>, configRevision: nat)
  type Report = string

  datatype Refusal = ShuttingDown | Busy | NoEndpoints | InvalidConfig | ClientFailed | Conflict | SaveFailed | DurabilityUnknown

  /** What the settings allow a preflight to be. */
  datatype Setup = Ready | Unset | BadSettings | NoClient

  /** One drainer's place: queued for a notification, notified, or returned to its caller. */
  datatype Drainer = Waiting | Notified | Returned

  /** The state behind the control lock, the supervisors still running, and the drainers. */
  datatype State = State(
    document: Settings.Document, file: Option<Settings.Document>,
    preflight: Option<Report>, preflightRevision: Option<nat>, lastCheckAt: Option<nat>,
    lab: Option<Report>, labRevision: Option<nat>,
    active: Option<Operation>, recent: seq<Operation>, nextOperation: nat, shuttingDown: bool,
    tasks: set<Operation>, drainers: map<nat, Drainer>)

  predicate IsInitial(s: State) {
    && s.file == Some(s.document) && s.preflight.None? && s.preflightRevision.None? && s.lastCheckAt.None?
    && s.active.None? && s.recent == [] && s.nextOperation == 1 && !s.shuttingDown && s.tasks == {} && s.drainers == map[]
  }

  function Unavailable(s: State): Option<Refusal> {
    if s.shuttingDown then Some(ShuttingDown) else if s.active.Some? then Some(Busy) else None
  }

  function SetupRefusal(setup: Setup): Refusal {
    match setup case Unset => NoEndpoints case BadSettings => InvalidConfig case _ => ClientFailed
  }

  datatype Effect<T> = Effect(state: State, result: Result<T, Refusal>)

  function StartEffect(s: State, kind: Kind, setup: Setup, now: nat): Effect<Operation> {
    if Unavailable(s).Some? then Effect(s, Err(Unavailable(s).value))
    else if kind.Preflight? && !setup.Ready? then Effect(s, Err(SetupRefusal(setup)))
    else
      var op := Operation(s.nextOperation, kind, Running, now, None, None, s.document.revision);
      Effect(s.(nextOperation := s.nextOperation + 1, active := Some(op), tasks := s.tasks + {op}), Ok(op))
  }

  function NotifyAll(drainers: map<nat, Drainer>): map<nat, Drainer> {
    map d | d in drainers :: if drainers[d].Waiting? then Notified else drainers[d]
  }

  function Truncated(recent: seq<Operation>): seq<Operation> {
    if |recent| == OPERATION_CAPACITY then recent[..OPERATION_CAPACITY - 1] else recent
  }

  function FinishEffect(s: State, op: Operation, result: Result<Report, string>, now: nat): State {
    var done := op.(finishedAt := Some(now), status := if result.Ok? then Succeeded else Failed,
                    error := if result.Ok? then None else Some(result.error));
    var reported :=
      if op.kind.Preflight? then
        (if result.Ok? then s.(preflight := Some(result.value), preflightRevision := Some(op.configRevision), lastCheckAt := Some(now))
         else s.(preflight := None, preflightRevision := None, lastCheckAt := None))
      else s.(lab := Some(if result.Ok? then result.value else "LabFailed"), labRevision := Some(op.configRevision));
    reported.(active := None, recent := [done] + Truncated(s.recent), drainers := NotifyAll(s.drainers), tasks := s.tasks - {op})
  }

  function DrainEffect(s: State, d: nat): State {
    s.(shuttingDown := true, drainers := s.drainers[d := if s.active.None? then Returned else Waiting])
  }

  function SaveEffect(s: State, valid: Settings.Settings -> bool, fits: Settings.Document -> bool, agreed: bool,
                      expected: nat, settings: Settings.Settings, io: Settings.SaveIo): Effect<nat> {
    if Unavailable(s).Some? then Effect(s, Err(Unavailable(s).value))
    else if !agreed then Effect(s, Err(InvalidConfig))
    else
      var saved := Settings.Replace(valid, fits, s.document, s.file, expected, settings, io);
      var stored := s.(document := saved.document, file := saved.file);
      var cleared := stored.(preflight := None, preflightRevision := None, lastCheckAt := None);
      match saved.result
      case Ok(d) => Effect(cleared, Ok(d.revision))
      case Err(Conflict) => Effect(stored, Err(Refusal.Conflict))
      case Err(Invalid) => Effect(stored, Err(InvalidConfig))
      case Err(Persistence) =>
        if saved.document.revision != expected then Effect(cleared, Err(DurabilityUnknown)) else Effect(stored, Err(SaveFailed))
  }

  // ----- the console -----

  class Console {
    var s: State

    constructor (document: Settings.Document)
      ensures IsInitial(s) && s.document == document
    {
      s := State(document, Some(document), None, None, None, None, None, None, [], 1, false, {}, map[]);
    }

    method Start(kind: Kind, setup: Setup, now: nat) returns (r: Result<Operation, Refusal>)
      modifies this
      ensures Effect(s, r) == StartEffect(old(s), kind, setup, now)
    {
      var busy := Unavailable(s);
      if busy.Some? {
        return Err(busy.value);
      }
      if kind == Preflight && setup != Ready {
        return Err(SetupRefusal(setup));
      }
      var op := Operation(s.nextOperation, kind, Running, now, None, None, s.document.revision);
      s := s.(nextOperation := s.nextOperation + 1);
      s := s.(active := Some(op));
      s := s.(tasks := s.tasks + {op});
      r := Ok(op);
    }

    method Finish(op: Operation, result: Result<Report, string>, now: nat)
      modifies this
      ensures s == FinishEffect(old(s), op, result, now)
    {
      var done := op.(finishedAt := Some(now));
      match result {
        case Ok(report) =>
          done := done.(status := Succeeded, error := None);
          match op.kind {
            case Preflight =>
              s := s.(preflight := Some(report), preflightRevision := Some(op.configRevision), lastCheckAt := done.finishedAt);
            case Reconstruct =>
              s := s.(lab := Some(report), labRevision := Some(op.configRevision));
          }
        case Err(error) =>
          done := done.(status := Failed, error := Some(error));
          match op.kind {
            case Preflight => s := s.(preflight := None, preflightRevision := None, lastCheckAt := None);
            case Reconstruct => s := s.(lab := Some("LabFailed"), labRevision := Some(op.configRevision));
          }
      }
      s := s.(active := None);
      if |s.recent| == OPERATION_CAPACITY {
        s := s.(recent := s.recent[..|s.recent| - 1]);
      }
      s := s.(recent := [done] + s.recent);
      s := s.(drainers := NotifyAll(s.drainers), tasks := s.tasks - {op});
    }

    /** One pass of the drain loop, from taking the lock to returning or queueing under it. */
    method DrainPass(d: nat) returns (returned: bool)
      modifies this
      ensures s == DrainEffect(old(s), d) && (returned <==> old(s).active.None?)
    {
      if !s.shuttingDown {
        s := s.(shuttingDown := true);
      }
      if s.active.None? {
        s := s.(drainers := s.drainers[d := Returned]);
        return true;
      }
      s := s.(drainers := s.drainers[d := Waiting]);
      returned := false;
    }

    method UpdateConfig(valid: Settings.Settings -> bool, fits: Settings.Document -> bool, agreed: bool,
                        expected: nat, settings: Settings.Settings, io: Settings.SaveIo) returns (r: Result<nat, Refusal>)
      modifies this
      ensures Effect(s, r) == SaveEffect(old(s), valid, fits, agreed, expected, settings, io)
    {
      var busy := Unavailable(s);
      if busy.Some? {
        return Err(busy.value);
      }
      if !agreed {
        return Err(InvalidConfig);
      }
      var saved := Settings.Replace(valid, fits, s.document, s.file, expected, settings, io);
      s := s.(document := saved.document, file := saved.file);
      match saved.result {
        case Ok(d) =>
          s := s.(preflight := None, preflightRevision := None, lastCheckAt := None);
          r := Ok(d.revision);
        case Err(Conflict) => r := Err(Refusal.Conflict);
        case Err(Invalid) => r := Err(InvalidConfig);
        case Err(Persistence) =>
          if s.document.revision != expected {
            s := s.(preflight := None, preflightRevision := None, lastCheckAt := None);
            r := Err(DurabilityUnknown);
          } else {
            r := Err(SaveFailed);
          }
      }
    }
  }

  // ----- what an action leaves behind -----

  /** A started action is the next number's, for the current revision, and is running. */
  lemma StartExactly(s: State, kind: Kind, setup: Setup, now: nat)
    ensures var e := StartEffect(s, kind, setup, now);
            && (e.result.Ok? <==> !s.shuttingDown && s.active.None? && (kind.Preflight? ==> setup == Ready))
            && (e.result.Err? ==> e.state == s)
            && (e.result == Err(ShuttingDown) <==> s.shuttingDown)
            && (e.result == Err(Busy) <==> !s.shuttingDown && s.active.Some?)
            && (e.result.Ok? ==>
                  && e.state == s.(active := Some(e.result.value), nextOperation := e.state.nextOperation, tasks := e.state.tasks)
                  && e.state.nextOperation == s.nextOperation + 1
                  && e.result.value == Operation(s.nextOperation, kind, Running, now, None, None, s.document.revision))
  {
  }

  /** A finished action heads the history, as succeeded or with its error; of the rest at most the oldest is
      dropped, at the capacity. A preflight's report replaces the last one, and its failure clears it; a
      reconstruction leaves the preflight report alone. */
  lemma FinishExactly(s: State, op: Operation, result: Result<Report, string>, now: nat)
    requires |s.recent| <= OPERATION_CAPACITY
    ensures var after := FinishEffect(s, op, result, now);
            && |after.recent| > 0 && after.active.None?
            && after.recent[0].id == op.id && after.recent[0].kind == op.kind && after.recent[0].startedAt == op.startedAt
            && after.recent[0].configRevision == op.configRevision && after.recent[0].finishedAt == Some(now)
            && (match result
                case Ok(_) => after.recent[0].status == Succeeded && after.recent[0].error.None?
                case Err(e) => after.recent[0].status == Failed && after.recent[0].error == Some(e))
            && after.recent[1..] <= s.recent
            && (|s.recent| < 32 ==> after.recent[1..] == s.recent) && (|s.recent| == 32 ==> |after.recent| == 32)
            && (if op.kind.Preflight? then
                  && (match result
                      case Ok(report) => after.preflight == Some(report) && after.preflightRevision == Some(op.configRevision) && after.lastCheckAt == Some(now)
                      case Err(_) => after.preflight.None? && after.preflightRevision.None? && after.lastCheckAt.None?)
                  && after.lab == s.lab && after.labRevision == s.labRevision
                else
                  && after.preflight == s.preflight && after.preflightRevision == s.preflightRevision && after.lastCheckAt == s.lastCheckAt
                  && after.lab == Some(if result.Ok? then result.value else "LabFailed") && after.labRevision == Some(op.configRevision))
            && after.document == s.document && after.file == s.file && after.shuttingDown == s.shuttingDown
            && (forall d :: d in s.drainers <==> d in after.drainers) && (forall d :: d in after.drainers ==> !after.drainers[d].Waiting?)
  {
  }

  /** A save is refused while an action runs or after shutdown began. Once it took effect the preflight
      report is gone, whether the directory was synchronized or not; otherwise everything stays. */
  lemma SaveExactly(s: State, valid: Settings.Settings -> bool, fits: Settings.Document -> bool, agreed: bool,
                    expected: nat, settings: Settings.Settings, io: Settings.SaveIo)
    requires s.file == Some(s.document)
    ensures var e := SaveEffect(s, valid, fits, agreed, expected, settings, io);
            var took := !s.shuttingDown && s.active.None? && agreed && expected == s.document.revision < Settings.U64_MAX && valid(settings)
                        && io.Published? && fits(Settings.Document(1, expected + 1, settings));
            && (e.result.Ok? <==> took && io.synced)
            && (e.result == Err(DurabilityUnknown) <==> took && !io.synced)
            && (if took then e.state == s.(document := Settings.Document(1, expected + 1, settings),
                                           file := Some(Settings.Document(1, expected + 1, settings)),
                                           preflight := None, preflightRevision := None, lastCheckAt := None)
                else e.state == s)
  {
  }

  // ----- whole runs -----

  datatype Event =
    | Begin(kind: Kind, setup: Setup, now: nat)
    | End(op: Operation, result: Result<Report, string>, now: nat)
    | Drain(d: nat)
    | Save(valid: Settings.Settings -> bool, fits: Settings.Document -> bool, agreed: bool,
           expected: nat, settings: Settings.Settings, io: Settings.SaveIo)

  /** A supervisor finishes once; a drainer passes again only after it was notified. */
  predicate Enabled(s: State, e: Event) {
    match e
    case End(op, _, _) => op in s.tasks
    case Drain(d) => d in s.drainers ==> s.drainers[d].Notified?
    case _ => true
  }

  function Next(s: State, e: Event): State {
    match e
    case Begin(kind, setup, now) => StartEffect(s, kind, setup, now).state
    case End(op, result, now) => FinishEffect(s, op, result, now)
    case Drain(d) => DrainEffect(s, d)
    case Save(valid, fits, agreed, expected, settings, io) => SaveEffect(s, valid, fits, agreed, expected, settings, io).state
  }

  function Run(s: State, events: seq<Event>): State
    decreases |events|
  {
    if events == [] then s else Run(Next(s, events[0]), events[1..])
  }

  predicate Possible(s: State, events: seq<Event>)
    decreases |events|
  {
    events == [] || (Enabled(s, events[0]) && Possible(Next(s, events[0]), events[1..]))
  }

  ghost predicate Sound(s: State) {
    // one action, one supervisor
    && s.tasks == (if s.active.Some? then {s.active.value} else {})
    && (s.active.Some? ==> s.active.value.id < s.nextOperation && s.active.value.configRevision == s.document.revision)
    // the history
    && |s.recent| <= OPERATION_CAPACITY
    && (forall i, j :: 0 <= i < j < |s.recent| ==> s.recent[i].id > s.recent[j].id)
    && (forall i :: 0 <= i < |s.recent| ==> s.recent[i].id < (if s.active.Some? then s.active.value.id else s.nextOperation))
    // a stored report is for the current settings
    && (s.preflight.Some? <==> s.preflightRevision.Some?)
    && (s.preflightRevision.Some? ==> s.preflightRevision.value == s.document.revision)
    && s.file == Some(s.document)
    // no lost notification, and a drain returns only to silence
    && (forall d :: d in s.drainers ==> s.shuttingDown)
    && (forall d :: d in s.drainers && s.drainers[d].Waiting? ==> s.active.Some?)
    && (forall d :: d in s.drainers && s.drainers[d].Returned? ==> s.active.None?)
  }

  lemma FinishSound(s: State, op: Operation, result: Result<Report, string>, now: nat)
    requires Sound(s) && op in s.tasks
    ensures Sound(FinishEffect(s, op, result, now))
  {
    assert s.active == Some(op);
  }

  lemma SaveSound(s: State, e: Event)
    requires Sound(s) && e.Save?
    ensures Sound(Next(s, e))
  {
    if Unavailable(s).None? && e.agreed {
      Settings.SavedExactlyWhenRevisionMoved(e.valid, e.fits, s.document, e.expected, e.settings, e.io);
    }
  }

  lemma NextSound(s: State, e: Event)
    requires Sound(s) && Enabled(s, e)
    ensures Sound(Next(s, e))
  {
    match e {
      case End(op, result, now) => FinishSound(s, op, result, now);
      case Save(_, _, _, _, _, _) => SaveSound(s, e);
      case _ =>
    }
  }

  /** In every reachable state: one action at most, an exact history, reports only for the current
      revision, and no drainer left waiting once the action is gone. */
  lemma {:induction false} AlwaysSound(s: State, events: seq<Event>)
    requires Sound(s) && Possible(s, events)
    ensures Sound(Run(s, events))
    decreases |events|
  {
    if events != [] {
      NextSound(s, events[0]);
      AlwaysSound(Next(s, events[0]), events[1..]);
    }
  }

  /** The console starts sound, so all this holds of every state that it can reach. */
  lemma ReachableSound(s: State, events: seq<Event>)
    requires IsInitial(s) && Possible(s, events)
    ensures Sound(Run(s, events))
  {
    AlwaysSound(s, events);
  }

  ghost predicate Drained(s: State) {
    exists d :: d in s.drainers && s.drainers[d].Returned?
  }

  lemma StaysDrained(s: State, e: Event)
    requires Sound(s) && Drained(s) && Enabled(s, e)
    ensures Drained(Next(s, e)) && Next(s, e).document == s.document && Next(s, e).file == s.file
    ensures Next(s, e).nextOperation == s.nextOperation && Next(s, e).active.None?
  {
    var d :| d in s.drainers && s.drainers[d].Returned?;
    assert s.shuttingDown && s.active.None?;
    assert d in Next(s, e).drainers && Next(s, e).drainers[d].Returned?;
  }

  /** Once any drain has returned, no action ever starts and no setting ever changes. */
  lemma {:induction false} DrainIsFinal(s: State, events: seq<Event>)
    requires Sound(s) && Drained(s) && Possible(s, events)
    ensures var after := Run(s, events);
            after.document == s.document && after.file == s.file && after.nextOperation == s.nextOperation && after.active.None?
    decreases |events|
  {
    if events != [] {
      NextSound(s, events[0]);
      StaysDrained(s, events[0]);
      DrainIsFinal(Next(s, events[0]), events[1..]);
    }
  }

  /** When the action ends, every waiting drainer is notified, and its next pass returns. */
  lemma DrainCompletes(s: State, op: Operation, result: Result<Report, string>, now: nat, d: nat)
    requires Sound(s) && op in s.tasks && d in s.drainers && s.drainers[d].Waiting?
    ensures var after := FinishEffect(s, op, result, now);
            && Enabled(after, Drain(d)) && DrainEffect(after, d).drainers[d] == Returned
  {
  }
}
