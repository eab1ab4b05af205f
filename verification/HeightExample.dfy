/** A run of a new node on which the height of the chain evidence goes back. */
module HeightExample {
  import opened Ordered
  import opened Outcomes
  import opened Account
  import opened AccountRuns
  import opened AccountEvidence
  import opened LoginEvidence
  import opened NodeRuns
  import opened EvidenceMark
  import Syntax
  import Chain
  import Settings
  import Cr = Credentials

  // ----- the surroundings: one identity, one FID, and proofs that always parse -----

  const ID := Syntax.Identity([], [], [], [])
  const SETTINGS := Settings.AccountSettings(true, [], Some(1), [])
  const FILE := Settings.Document(1, 1, Settings.Settings(SETTINGS, []))
  const PROOF := Chain.Proof([], [])

  predicate AnyIdentity(id: Syntax.Identity) { true }
  function NoRevision(t: Time): Bytes { [] }
  function SomeRoot(did: Bytes, rev: Bytes, key: Bytes): Option<Bytes> { Some([]) }
  predicate AnyKey(key: Bytes) { true }
  function NoDigest(salt: Bytes, secret: Bytes): Bytes { [] }
  function NoToken(h: Cr.Header, c: Cr.Claims): Bytes { [] }
  function NothingOpens(token: Bytes): Option<Cr.Opened> { None }

  function StoreEnv(): Cr.Env {
    Cr.Env(AnyIdentity, NoRevision, SomeRoot, AnyKey, NoDigest, NoToken, NothingOpens)
  }

  function Itself(b: Bytes): Bytes { b }
  function ByCustody(fid: nat, address: Bytes, custody: Bytes): Bytes { custody }
  function TheIdentity(s: Settings.AccountSettings): Option<Syntax.Identity> { Some(ID) }
  function ParsesProof(id: Syntax.Identity, p: Chain.Proof): Result<Chain.Parsed, Chain.AuthError> { Ok(Chain.Parsed(1, [])) }
  function ParsesLogin(id: Syntax.Identity, p: Chain.Proof, ch: Challenge, t: Time): Result<Chain.Parsed, Chain.AuthError> {
    Ok(Chain.Parsed(1, []))
  }

  /** Only how evidence is written down is left open. */
  function ExampleEnv(show: Evidence -> Bytes, read: Bytes -> Option<Evidence>): Env {
    Env(StoreEnv(), Itself, ByCustody, show, read, TheIdentity, ParsesProof, ParsesLogin)
  }

  predicate AnyAccount(s: Settings.AccountSettings) { true }
  predicate AnySettings(s: Settings.Settings) { true }
  predicate AnyDocument(d: Settings.Document) { true }

  function ExamplePolicy(env: Env): Policy {
    Policy(env, AnyAccount, AnySettings, AnyDocument)
  }

  // ----- what the node answers -----

  function Repeated(b: Byte, n: nat): Bytes {
    seq(n, _ => b)
  }

  function BlockHash(): Bytes {
    Chain.HexText(Repeated(0, 32))
  }

  /** A 32-byte word with this last byte. */
  function Word(last: Byte): Bytes {
    Repeated(0, 31) + [last]
  }

  /** An answer at this block, with a custody address of these bytes and a registered key. */
  function AnswersAt(block: nat, custody: Byte): Chain.Answers {
    Chain.Answers(Ok(10), Ok(block), Ok(BlockHash()), Ok(10), Ok([]), true, Err(Chain.Down),
                  Ok(Repeated(0, 12) + Repeated(custody, 20)), Ok(Word(1) + Word(2)), Err(Chain.Down))
  }

  /** What a check of that answer finds. */
  function FoundAt(block: nat, custody: Byte): Chain.Verified {
    Chain.Verified(1, [], Chain.HexText(Repeated(custody, 20)), Chain.Eoa, Chain.AuthAddress, block, BlockHash(), 10)
  }

  lemma {:induction false} SmallNumber(n: nat, last: Byte)
    ensures BigEndian(Repeated(0, n) + [last]) == last
  {
    var b := Repeated(0, n) + [last];
    if n == 0 {
      assert b == [last] && b[1..] == [];
    } else {
      assert b[1..] == Repeated(0, n - 1) + [last];
      SmallNumber(n - 1, last);
    }
  }

  lemma WordValue(last: Byte)
    ensures Chain.WordU64(Word(last)) == Ok(last as nat)
  {
    assert Word(last)[24..] == Repeated(0, 7) + [last];
    SmallNumber(7, last);
  }

  /** A key in state 1 and of kind 2 is an authorized one. */
  lemma KeyPermits(a: Chain.Answers, p: Chain.Parsed, custody: Bytes, state: Bytes, kind: Bytes)
    requires |state| == 32 && Chain.WordU64(state) == Ok(1) && |kind| == 32 && Chain.WordU64(kind) == Ok(2)
    requires a.keyData == Ok(state + kind)
    ensures Chain.Permission(a, p, custody) == Ok(Chain.AuthAddress)
  {
    assert (state + kind)[..32] == state && (state + kind)[32..] == kind;
  }

  lemma CustodyGiven(block: nat, custody: Byte)
    requires custody > 0
    ensures Chain.CustodyText(AnswersAt(block, custody)) == Ok(FoundAt(block, custody).custody)
  {
    var word := Repeated(0, 12) + Repeated(custody, 20);
    assert word[..12] == Repeated(0, 12) && word[12..] == Repeated(custody, 20);
    assert word[12..][0] != 0;
  }

  lemma BlockGiven(block: nat, custody: Byte)
    requires block > 0
    ensures Chain.Finalized(AnswersAt(block, custody), 10) == Ok(Chain.Block(block, BlockHash()))
  {
    Chain.HexTextDecodes(Repeated(0, 32));
  }

  lemma Checks(block: nat, custody: Byte)
    requires block > 0 && custody > 0
    ensures Chain.VerifyAuthority(AnswersAt(block, custody), Chain.Parsed(1, []), 10, None) == Ok(FoundAt(block, custody))
  {
    BlockGiven(block, custody);
    CustodyGiven(block, custody);
    WordValue(1);
    WordValue(2);
    KeyPermits(AnswersAt(block, custody), Chain.Parsed(1, []), FoundAt(block, custody).custody, Word(1), Word(2));
  }

  lemma AuthorityValid(custody: Byte)
    ensures Cr.ValidAuthority(Chain.HexText(Repeated(custody, 20)))
  {
    Chain.HexTextDecodes(Repeated(custody, 20));
  }

  lemma SecondDigit(b: Bytes)
    requires b != []
    ensures |Chain.HexText(b)| > 3 && Chain.HexText(b)[3] == Chain.Nibble(b[0] % 16)
  {
    Chain.HexTextDecodes(b);
    var digits := Chain.HexDigits(b);
    assert digits == [Chain.Nibble(b[0] / 16), Chain.Nibble(b[0] % 16)] + Chain.HexDigits(b[1..]);
    assert digits[1] == Chain.Nibble(b[0] % 16);
  }

  lemma AuthoritiesDiffer()
    ensures Chain.HexText(Repeated(1, 20)) != Chain.HexText(Repeated(2, 20))
  {
    SecondDigit(Repeated(1, 20));
    SecondDigit(Repeated(2, 20));
  }

  // ----- the actions -----

  function StartOf(id: Bytes): Action {
    Start(Answered(Ok([])), [], id, [])
  }

  function PollOf(id: Bytes, block: nat, custody: Byte, bind: bool): Action {
    Poll(id, [], Answered(Ok(Completed(PROOF))), 10, Answered(AnswersAt(block, custody)), 10, 10, 10, Writes(true, bind, true, true), [], [])
  }

  /** A login that was started at zero and not polled yet. */
  const WAITING := Pending([], Challenge([], 0, 300), [], None, 0, None)

  lemma StartAdds(env: Env, c: Core, id: Bytes)
    requires env == ExampleEnv(env.show, env.read) && c.settings == SETTINGS && |c.startTimes| < 5 && |c.pending| < MAX_PENDING
    requires forall i :: i in c.pending ==> c.pending[i] == WAITING
    ensures var d := Act(env, c, 0, StartOf(id)).core;
            d.settings == SETTINGS && d.db == c.db && d.pending == c.pending[id := WAITING] && |d.startTimes| <= |c.startTimes| + 1
  {
    assert Pruned(c, 0).pending == c.pending;
  }

  /** A poll of a login that waits gets to its proof, and the login checks out. */
  lemma PollChecksOut(env: Env, c: Core, x: Action, id: Bytes, block: nat, custody: Byte, bind: bool)
    requires env == ExampleEnv(env.show, env.read) && c.settings == SETTINGS && block > 0 && custody > 0
    requires x == PollOf(id, block, custody, bind) && id in c.pending && c.pending[id] == WAITING
    ensures Reaches(env, c, 10, x) && ProofOf(env, c, 10, x) == PROOF
    ensures id in Pruned(c, 10).pending && ChecksOut(env, Pruned(c, 10), id, PROOF, x)
    ensures CheckedBy(env, Pruned(c, 10), id, PROOF, x) == FoundAt(block, custody)
  {
    Checks(block, custody);
  }

  lemma FirstStores(env: Env, c: Core, x: Action, id: Bytes, block: nat, custody: Byte)
    requires env == ExampleEnv(env.show, env.read) && c.settings == SETTINGS && c.db == Cr.FRESH && block > 0 && custody > 0
    requires x == PollOf(id, block, custody, true) && id in c.pending && c.pending[id] == WAITING
    requires 0 < |env.show(Evidence(FoundAt(block, custody), PROOF))| <= Cr.MAX_EVIDENCE
    ensures StoresBy(env, c, 10, x) && LoginOf(env, c, 10, x) == FoundAt(block, custody)
  {
    PollChecksOut(env, c, x, id, block, custody, true);
    AuthorityValid(custody);
  }

  // ----- the run -----

  function Starts(): seq<Event> {
    [Do(0, StartOf([1])), Do(0, StartOf([2])), Do(0, StartOf([3]))]
  }

  /** A login at block 10 that completes; one of another custody address at block 11 whose binding fails;
      and one at block 5. */
  function Polls(): seq<Event> {
    [Do(10, PollOf([1], 10, 1, true)), Do(10, PollOf([2], 11, 2, false)), Do(10, PollOf([3], 5, 1, true))]
  }

  lemma ExampleLawful(show: Evidence -> Bytes, read: Bytes -> Option<Evidence>)
    requires forall e :: read(show(e)) == Some(e)
    ensures ExamplePolicy(ExampleEnv(show, read)).Lawful()
    ensures Open(ExamplePolicy(ExampleEnv(show, read)), FILE, Cr.FRESH).Some?
  {
  }

  /** After the three starts the logins wait. */
  predicate ThreeWait(c: Core) {
    && c.settings == SETTINGS && c.db == Cr.FRESH
    && c.pending == map[[1 as Byte] := WAITING, [2 as Byte] := WAITING, [3 as Byte] := WAITING]
  }

  lemma Started(p: Policy, n: Node)
    requires p == ExamplePolicy(ExampleEnv(p.env.show, p.env.read)) && Open(p, FILE, Cr.FRESH) == Some(n)
    ensures Run(p, n, Starts()).Some? && ThreeWait(Run(p, n, Starts()).value.core)
  {
    var c := n.core;
    StartAdds(p.env, c, [1]);
    var c1 := Act(p.env, c, 0, StartOf([1])).core;
    StartAdds(p.env, c1, [2]);
    var c2 := Act(p.env, c1, 0, StartOf([2])).core;
    StartAdds(p.env, c2, [3]);
    var n1 := Next(p, n, Starts()[0]).value;
    var n2 := Next(p, n1, Starts()[1]).value;
    RunTwo(p, n1, Starts()[1], Starts()[2]);
    assert Starts()[1..] == [Starts()[1], Starts()[2]];
  }

  /** A login that completes from a store with nothing in it leaves its evidence there. */
  lemma FirstPoll(p: Policy, n: Node)
    requires p == ExamplePolicy(ExampleEnv(p.env.show, p.env.read)) && p.Lawful() && NodeSound(p, n) && ThreeWait(n.core)
    requires 0 < |p.env.show(Evidence(FoundAt(10, 1), PROOF))| <= Cr.MAX_EVIDENCE
    ensures var m := Next(p, n, Polls()[0]);
            && m.Some? && NodeSound(p, m.value) && Held(p.env, m.value.core.db) == Some(FoundAt(10, 1))
            && m.value.core.settings == SETTINGS
  {
    var x := PollOf([1], 10, 1, true);
    FirstStores(p.env, n.core, x, [1], 10, 1);
    EvidenceExactly(p, n, Polls()[0]);
    CompletesWhole(p.env, n.core, 10, x);
    NextKeeps(p, n, Polls()[0]);
  }

  lemma SecondAndThirdWait(p: Policy, n: Node)
    requires ThreeWait(n.core)
    ensures var m := Next(p, n, Polls()[0]);
            && m.Some?
            && (forall id :: id == [2 as Byte] || id == [3 as Byte] ==> id in m.value.core.pending && m.value.core.pending[id] == WAITING)
  {
    var x := PollOf([1], 10, 1, true);
    OthersWait(p.env, n.core, x, [2]);
    OthersWait(p.env, n.core, x, [3]);
  }

  lemma OthersWait(env: Env, c: Core, x: Action, id: Bytes)
    requires c.settings == SETTINGS && x.Poll? && x.pollId != id && id in c.pending && c.pending[id] == WAITING
    ensures var d := Act(env, c, 10, x).core;
            d.settings == SETTINGS && id in d.pending && d.pending[id] == WAITING
  {
    PollLeavesOthers(env, Pruned(c, 10), 10, x, id);
  }

  /** The second login takes the first one's evidence away and stores none. */
  lemma SecondSupersedes(env: Env, c: Core, x: Action)
    requires env == ExampleEnv(env.show, env.read) && CoreSound(env, c) && x == PollOf([2], 11, 2, false)
    requires c.settings == SETTINGS && Held(env, c.db) == Some(FoundAt(10, 1))
    requires [2] in c.pending && c.pending[[2]] == WAITING
    ensures SupersedesBy(env, c, 10, x) && !StoresBy(env, c, 10, x)
  {
    PollChecksOut(env, c, x, [2], 11, 2, false);
    AuthoritiesDiffer();
  }

  /** The third would store its own. */
  lemma ThirdStores(env: Env, c: Core, y: Action)
    requires env == ExampleEnv(env.show, env.read) && c.settings == SETTINGS && c.db.account.Some? && y == PollOf([3], 5, 1, true)
    requires [3] in c.pending && c.pending[[3]] == WAITING && 0 < |env.show(Evidence(FoundAt(5, 1), PROOF))| <= Cr.MAX_EVIDENCE
    ensures StoresAlone(env, c, 10, y) && CheckedBy(env, Pruned(c, 10), [3], ProofOf(env, c, 10, y), y) == FoundAt(5, 1)
  {
    PollChecksOut(env, c, y, [3], 5, 1, true);
    AuthorityValid(1);
  }

  lemma LowerPoll(p: Policy, n: Node)
    requires p == ExamplePolicy(ExampleEnv(p.env.show, p.env.read)) && p.Lawful() && NodeSound(p, n)
    requires n.core.settings == SETTINGS && Held(p.env, n.core.db) == Some(FoundAt(10, 1))
    requires forall id :: id == [2 as Byte] || id == [3 as Byte] ==> id in n.core.pending && n.core.pending[id] == WAITING
    requires 0 < |p.env.show(Evidence(FoundAt(5, 1), PROOF))| <= Cr.MAX_EVIDENCE
    ensures var end := Run(p, n, [Polls()[1], Polls()[2]]);
            end.Some? && Held(p.env, end.value.core.db).Some? && Held(p.env, end.value.core.db).value.checkedBlock < 10
  {
    var x, y := PollOf([2], 11, 2, false), PollOf([3], 5, 1, true);
    SecondSupersedes(p.env, n.core, x);
    ThirdStores(p.env, n.core, y);
    HeightCanGoBack(p, n, 10, x, 10, y);
  }

  /** From a new node: three logins are started; the first stores evidence of block 10; and after the
      other two the evidence is of a lower block. */
  lemma HeightGoesBack(show: Evidence -> Bytes, read: Bytes -> Option<Evidence>)
    requires forall e :: read(show(e)) == Some(e)
    requires 0 < |show(Evidence(FoundAt(10, 1), PROOF))| <= Cr.MAX_EVIDENCE && 0 < |show(Evidence(FoundAt(5, 1), PROOF))| <= Cr.MAX_EVIDENCE
    ensures var p := ExamplePolicy(ExampleEnv(show, read));
            var n := Open(p, FILE, Cr.FRESH);
            && n.Some?
            && var middle, end := Run(p, n.value, Starts() + Polls()[..1]), Run(p, n.value, Starts() + Polls());
               && middle.Some? && Held(p.env, middle.value.core.db) == Some(FoundAt(10, 1))
               && end.Some? && Held(p.env, end.value.core.db).Some? && Held(p.env, end.value.core.db).value.checkedBlock < 10
  {
    var p := ExamplePolicy(ExampleEnv(show, read));
    ExampleLawful(show, read);
    var n := Open(p, FILE, Cr.FRESH).value;
    FirstStart(p, FILE);
    Started(p, n);
    RunKeeps(p, n, Starts());
    var m := Run(p, n, Starts()).value;
    FirstPoll(p, m);
    SecondAndThirdWait(p, m);
    LowerPoll(p, Next(p, m, Polls()[0]).value);
    RunAppend(p, n, Starts(), Polls()[..1]);
    RunAppend(p, n, Starts(), Polls());
    RunOne(p, m, Polls()[0]);
    assert Polls()[..1] == [Polls()[0]] && Polls()[1..] == [Polls()[1], Polls()[2]];
  }
}
