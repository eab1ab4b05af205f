/** Verdicts on Farcaster authority from the answers of an Optimism node. */
module Chain {
  import opened Ordered
  import opened Outcomes
  import Syntax

  datatype AuthError =
    | InvalidConfig | InvalidChallenge | InvalidRelayResponse | ChannelExpired | Unavailable | InvalidMessage
    | InvalidSignature | UnsupportedWallet | InvalidChainEvidence | Unauthorized

  datatype WalletKind = Eoa | Erc1271
  datatype ProofKind = Custody | AuthAddress

  /** Addresses and block hashes are in their textual form. */
  datatype Verified = Verified(fid: nat, address: Bytes, custody: Bytes, walletKind: WalletKind, proofKind: ProofKind,
                               checkedBlock: nat, blockHash: Bytes, checkedAt: nat)
  datatype Proof = Proof(message: Bytes, signature: Bytes)

  /** What a parsed proof claims. */
  datatype Parsed = Parsed(fid: nat, address: Bytes)

  /** A call that fails is down, or its response is malformed. */
  datatype Fault = Down | Malformed

  function FaultError(f: Fault): AuthError {
    if f.Down? then Unavailable else InvalidChainEvidence
  }

  /** Whatever the node answers to each call of one check. */
  datatype Answers = Answers(
    chainId: Result<nat, Fault>, number: Result<nat, Fault>, hash: Result<Bytes, Fault>, timestamp: Result<nat, Fault>,
    code: Result<Bytes, Fault>, signerMatches: bool, erc1271: Result<Bytes, Fault>,
    custodyOf: Result<Bytes, Fault>, keyData: Result<Bytes, Fault>, idOf: Result<Bytes, Fault>)

  datatype Block = Block(number: nat, hash: Bytes)

  const MAX_FINALIZED_AGE := 3600
  const MAGIC: Bytes := [0x16, 0x26, 0xba, 0x7e]
  const DELEGATION: Bytes := [0xef, 0x01, 0x00]

  /** Number of bytes that a `0x` text decodes to, if it decodes. */
  function HexLength(text: Bytes): Option<nat> {
    if |text| >= 2 && text[0] == 0x30 && text[1] == 0x78 && |text| % 2 == 0 && forall i :: 2 <= i < |text| ==> Syntax.HexDigit(text[i])
    then Some((|text| - 2) / 2) else None
  }

  function Nibble(n: int): Byte
    requires 0 <= n < 16
  {
    if n < 10 then 0x30 + n else 0x61 + n - 10
  }

  function HexDigits(b: Bytes): Bytes {
    if b == [] then [] else [Nibble(b[0] / 16), Nibble(b[0] % 16)] + HexDigits(b[1..])
  }

  /** Lower-case hexadecimal with its prefix. */
  function HexText(b: Bytes): Bytes {
    [0x30, 0x78] + HexDigits(b)
  }

  lemma {:induction false} HexTextDecodes(b: Bytes)
    ensures |HexDigits(b)| == 2 * |b| && forall i :: 0 <= i < |HexDigits(b)| ==> Syntax.HexDigit(HexDigits(b)[i])
    ensures HexLength(HexText(b)) == Some(|b|)
  {
    if b != [] {
      HexTextDecodes(b[1..]);
    }
  }

  function FoldCase(c: Byte): Byte {
    if Syntax.Upper(c) then c + 32 else c
  }

  predicate SameIgnoringCase(a: Bytes, b: Bytes) {
    |a| == |b| && forall i :: 0 <= i < |a| ==> FoldCase(a[i]) == FoldCase(b[i])
  }

  predicate AllZero(b: Bytes) {
    forall i :: 0 <= i < |b| ==> b[i] == 0
  }

  /** A 32-byte word that holds a 64-bit number. */
  function WordU64(word: Bytes): Result<nat, AuthError> {
    if |word| != 32 || !AllZero(word[..24]) then Err(InvalidChainEvidence) else Ok(BigEndian(word[24..]))
  }

  function Lift<T>(r: Result<T, Fault>): Result<T, AuthError> {
    match r case Ok(v) => Ok(v) case Err(f) => Err(FaultError(f))
  }

  /** The finalized block that the node reports, if it is on the right chain and recent. */
  function Finalized(a: Answers, now: nat): Result<Block, AuthError> {
    var chainId :- Lift(a.chainId);
    if chainId != 10 then Err(InvalidChainEvidence) else
      var number :- Lift(a.number);
      var hash :- Lift(a.hash);
      if HexLength(hash) != Some(32) then Err(InvalidChainEvidence) else
        var time :- Lift(a.timestamp);
        if number == 0 || time > now + 60 || now - time > MAX_FINALIZED_AGE then Err(InvalidChainEvidence)
        else Ok(Block(number, hash))
  }

  /** The block is not behind the evidence and does not fork from it. */
  predicate Advances(before: Verified, number: nat, hash: Bytes) {
    number > before.checkedBlock || (number == before.checkedBlock && SameIgnoringCase(hash, before.blockHash))
  }

  function Wallet(a: Answers): Result<WalletKind, AuthError> {
    var code :- Lift(a.code);
    if code == [] then (if a.signerMatches then Ok(Eoa) else Err(InvalidSignature))
    else if DELEGATION <= code then Err(UnsupportedWallet)
    else
      var result :- Lift(a.erc1271);
      if |result| != 32 || result[..4] != MAGIC || !AllZero(result[4..]) then Err(InvalidSignature) else Ok(Erc1271)
  }

  function CustodyText(a: Answers): Result<Bytes, AuthError> {
    var word :- Lift(a.custodyOf);
    if |word| != 32 || !AllZero(word[..12]) then Err(InvalidChainEvidence)
    else if AllZero(word[12..]) then Err(Unauthorized)
    else Ok(HexText(word[12..]))
  }

  function Permission(a: Answers, p: Parsed, custody: Bytes): Result<ProofKind, AuthError> {
    var data :- Lift(a.keyData);
    if |data| != 64 then Err(InvalidChainEvidence) else
      var state :- WordU64(data[..32]);
      var kind :- WordU64(data[32..]);
      if state > 2 || kind > 0xffff_ffff then Err(InvalidChainEvidence)
      else if state == 1 && kind == 2 then Ok(AuthAddress)
      else
        var word :- Lift(a.idOf);
        if |word| != 32 then Err(InvalidChainEvidence) else
          var fid :- WordU64(word);
          if fid != p.fid || custody != p.address then Err(Unauthorized) else Ok(ProofKind.Custody)
  }

  /** Signature and registry verdict at one finalized block. Evidence is compared first. */
  function VerifyAuthority(a: Answers, p: Parsed, now: nat, expected: Option<Verified>): Result<Verified, AuthError> {
    var block :- Finalized(a, now);
    if expected.Some? && !Advances(expected.value, block.number, block.hash) then Err(InvalidChainEvidence) else
      var wallet :- Wallet(a);
      var custody :- CustodyText(a);
      if expected.Some? && expected.value.custody != custody then Err(Unauthorized) else
        var permission :- Permission(a, p, custody);
        Ok(Verified(p.fid, p.address, custody, wallet, permission, block.number, block.hash, now))
  }

  /** What a recheck of stored evidence requires before it asks the node anything. */
  function RecheckLocally(parsed: Result<Parsed, AuthError>, identity: Verified, now: nat): Result<Parsed, AuthError> {
    var p :- parsed;
    if p.fid != identity.fid || p.address != identity.address then Err(Unauthorized)
    else if HexLength(identity.custody).None? then Err(InvalidChainEvidence)
    else if HexLength(identity.custody) != Some(20) then Err(Unauthorized)
    else if identity.checkedAt > now || identity.checkedBlock == 0 || HexLength(identity.blockHash) != Some(32)
    then Err(InvalidChainEvidence)
    else Ok(p)
  }

  /** Rechecking stored evidence against its own proof, as parsed for the configured origin. */
  function Recheck(a: Answers, parsed: Result<Parsed, AuthError>, identity: Verified, now: nat): Result<Verified, AuthError> {
    var p :- RecheckLocally(parsed, identity, now);
    VerifyAuthority(a, p, now, Some(identity))
  }

  predicate Revokes(e: AuthError) {
    e == Unauthorized || e == InvalidSignature
  }

  /** Evidence that a successful check leaves behind: consistent with its proof and well-formed. */
  predicate EvidenceSound(parsed: Result<Parsed, AuthError>, v: Verified) {
    && parsed == Ok(Parsed(v.fid, v.address)) && HexLength(v.custody) == Some(20)
    && v.checkedBlock > 0 && HexLength(v.blockHash) == Some(32)
  }

  /** A check that succeeds leaves sound evidence, from the block it read, and never goes back. */
  lemma VerifiedEvidence(a: Answers, p: Parsed, now: nat, expected: Option<Verified>)
    requires VerifyAuthority(a, p, now, expected).Ok?
    ensures var v := VerifyAuthority(a, p, now, expected).value;
            && EvidenceSound(Ok(p), v) && v.checkedAt == now
            && a.number == Ok(v.checkedBlock) && a.hash == Ok(v.blockHash)
            && (expected.Some? ==> Advances(expected.value, v.checkedBlock, v.blockHash) && v.custody == expected.value.custody)
  {
    HexTextDecodes(a.custodyOf.value[12..]);
  }

  /** A verdict that revokes stored evidence comes only from a block that does not lie behind it or
      fork from it. */
  lemma RevocationNeedsAdvance(a: Answers, parsed: Result<Parsed, AuthError>, identity: Verified, now: nat)
    requires EvidenceSound(parsed, identity)
    requires Recheck(a, parsed, identity, now).Err? && Revokes(Recheck(a, parsed, identity, now).error)
    ensures Finalized(a, now).Ok?
    ensures Advances(identity, Finalized(a, now).value.number, Finalized(a, now).value.hash)
  {
  }

  /** And such a verdict means that the node denied one of three things: the signature, the custody on
      record, or the signer's permission. */
  lemma RevocationCause(a: Answers, parsed: Result<Parsed, AuthError>, identity: Verified, now: nat)
    requires EvidenceSound(parsed, identity)
    requires Recheck(a, parsed, identity, now).Err?
    ensures Revokes(Recheck(a, parsed, identity, now).error) <==>
            && identity.checkedAt <= now && Finalized(a, now).Ok?
            && Advances(identity, Finalized(a, now).value.number, Finalized(a, now).value.hash)
            && (|| Wallet(a) == Err(InvalidSignature)
                || (Wallet(a).Ok? && (CustodyText(a) == Err(Unauthorized) || (CustodyText(a).Ok? && CustodyText(a).value != identity.custody)))
                || (Wallet(a).Ok? && CustodyText(a) == Ok(identity.custody) && Permission(a, parsed.value, identity.custody) == Err(Unauthorized)))
  {
  }
}
