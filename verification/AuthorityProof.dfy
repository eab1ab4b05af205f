/** What an accepted check proves, in terms of the node's raw answers. */
module AuthorityProof {
  import opened Ordered
  import opened Outcomes
  import opened Chain

  function Zeros(n: nat): Bytes {
    seq(n, _ => 0)
  }

  lemma ZerosExactly(b: Bytes)
    ensures AllZero(b) <==> b == Zeros(|b|)
  {
  }

  lemma SixtyFourBits()
    ensures Pow2(64) == 0x1_0000_0000_0000_0000
  {
    assert Pow2(4) == 16;
    PowSum(4, 4);
    PowSum(8, 8);
    PowSum(16, 16);
    PowSum(32, 32);
  }

  lemma HighPart(high: nat, low: nat, unit: nat)
    requires low < unit
    ensures high * unit + low < unit <==> high == 0
  {
    if high > 0 {
      Product(1, high, unit);
    }
  }

  /** A 32-byte word reads as its big-endian number, if that fits 64 bits. */
  lemma WordExactly(word: Bytes)
    ensures WordU64(word) == if |word| == 32 && BigEndian(word) < 0x1_0000_0000_0000_0000 then Ok(BigEndian(word)) else Err(InvalidChainEvidence)
  {
    if |word| == 32 {
      var high, low := word[..24], word[24..];
      assert word == high + low;
      BigEndianConcat(high, low);
      BigEndianBound(low);
      BigEndianZero(high);
      SixtyFourBits();
      HighPart(BigEndian(high), BigEndian(low), Pow2(8 * |low|));
    }
  }

  // ----- the signature -----

  /** The wallet's signature over the proof is good: by the signer's own key for a plain account, by the
      contract's word otherwise. Delegated accounts do not count. */
  predicate Signed(a: Answers) {
    && a.code.Ok?
    && if a.code.value == [] then a.signerMatches
       else !([0xef, 0x01, 0x00] <= a.code.value) && a.erc1271 == Ok([0x16, 0x26, 0xba, 0x7e] + Zeros(28))
  }

  /** The node answers, and the answer is that the signature is not good. */
  predicate Unsigned(a: Answers) {
    && a.code.Ok?
    && if a.code.value == [] then !a.signerMatches
       else !([0xef, 0x01, 0x00] <= a.code.value) && a.erc1271.Ok? && a.erc1271.value != [0x16, 0x26, 0xba, 0x7e] + Zeros(28)
  }

  lemma WalletExactly(a: Answers)
    ensures Wallet(a).Ok? <==> Signed(a)
    ensures Wallet(a).Ok? ==> Wallet(a).value == if a.code.value == [] then Eoa else Erc1271
    ensures Wallet(a) == Err(InvalidSignature) <==> Unsigned(a)
    ensures Wallet(a) != Err(Unauthorized)
  {
    if a.erc1271.Ok? && |a.erc1271.value| == 32 {
      var word := a.erc1271.value;
      ZerosExactly(word[4..]);
      assert word == word[..4] + word[4..];
    }
  }

  // ----- the custody address -----

  /** The registry names this 20-byte address, not the zero one, as the custody of the FID. */
  predicate CustodyIs(a: Answers, address: Bytes) {
    |address| == 20 && address != Zeros(20) && a.custodyOf == Ok(Zeros(12) + address)
  }

  /** The registry answers with an address, and it is none or another than this text. */
  predicate CustodyIsNot(a: Answers, text: Bytes) {
    && a.custodyOf.Ok? && |a.custodyOf.value| == 32 && a.custodyOf.value[..12] == Zeros(12)
    && (a.custodyOf.value[12..] == Zeros(20) || HexText(a.custodyOf.value[12..]) != text)
  }

  lemma CustodyExactly(a: Answers, text: Bytes)
    ensures CustodyText(a) == Ok(text) <==> exists address :: CustodyIs(a, address) && text == HexText(address)
    ensures CustodyText(a) == Err(Unauthorized) || (CustodyText(a).Ok? && CustodyText(a).value != text) <==> CustodyIsNot(a, text)
    ensures CustodyText(a) != Err(InvalidSignature)
  {
    if a.custodyOf.Ok? && |a.custodyOf.value| == 32 {
      var word := a.custodyOf.value;
      ZerosExactly(word[..12]);
      ZerosExactly(word[12..]);
      assert word == word[..12] + word[12..];
      if CustodyText(a) == Ok(text) {
        assert CustodyIs(a, word[12..]);
      }
    }
    if address :| CustodyIs(a, address) && text == HexText(address) {
      var word := a.custodyOf.value;
      assert word[..12] == Zeros(12) && word[12..] == address;
    }
  }

  // ----- the permission -----

  /** The key registry's entry for the signer: a state and a kind. */
  predicate KeyIs(a: Answers, state: nat, kind: nat) {
    && a.keyData.Ok? && |a.keyData.value| == 64 && state <= 2 && kind <= 0xffff_ffff
    && BigEndian(a.keyData.value[..32]) == state && BigEndian(a.keyData.value[32..]) == kind
  }

  predicate AuthKey(a: Answers) {
    KeyIs(a, 1, 2)
  }

  /** The registry answers with a number of an owner, for the signer. */
  predicate IdIs(a: Answers, fid: nat) {
    a.idOf.Ok? && |a.idOf.value| == 32 && BigEndian(a.idOf.value) == fid < 0x1_0000_0000_0000_0000
  }

  predicate Permitted(a: Answers, p: Parsed, custody: Bytes) {
    AuthKey(a) || (KnownKey(a) && IdIs(a, p.fid) && custody == p.address)
  }

  predicate KnownKey(a: Answers) {
    && a.keyData.Ok? && |a.keyData.value| == 64
    && BigEndian(a.keyData.value[..32]) <= 2 && BigEndian(a.keyData.value[32..]) <= 0xffff_ffff
  }

  predicate Forbidden(a: Answers, p: Parsed, custody: Bytes) {
    && KnownKey(a) && !AuthKey(a)
    && a.idOf.Ok? && |a.idOf.value| == 32 && BigEndian(a.idOf.value) < 0x1_0000_0000_0000_0000
    && (BigEndian(a.idOf.value) != p.fid || custody != p.address)
  }

  lemma PermissionExactly(a: Answers, p: Parsed, custody: Bytes)
    ensures Permission(a, p, custody).Ok? <==> Permitted(a, p, custody)
    ensures Permission(a, p, custody).Ok? ==> Permission(a, p, custody).value == if AuthKey(a) then AuthAddress else ProofKind.Custody
    ensures Permission(a, p, custody) == Err(Unauthorized) <==> Forbidden(a, p, custody)
    ensures Permission(a, p, custody) != Err(InvalidSignature)
  {
    if a.keyData.Ok? && |a.keyData.value| == 64 {
      WordExactly(a.keyData.value[..32]);
      WordExactly(a.keyData.value[32..]);
      if a.idOf.Ok? {
        WordExactly(a.idOf.value);
      }
    }
  }

  // ----- the block -----

  /** A finalized block of Optimism that is at most an hour old, and at most a minute ahead of the clock. */
  predicate BlockIs(a: Answers, now: nat, number: nat, hash: Bytes) {
    && a.chainId == Ok(10) && a.number == Ok(number) && number > 0
    && a.hash == Ok(hash) && HexLength(hash) == Some(32)
    && a.timestamp.Ok? && now <= a.timestamp.value + 3600 && a.timestamp.value <= now + 60
  }

  lemma BlockExactly(a: Answers, now: nat, number: nat, hash: Bytes)
    ensures Finalized(a, now) == Ok(Block(number, hash)) <==> BlockIs(a, now, number, hash)
    ensures Finalized(a, now).Err? ==> !Revokes(Finalized(a, now).error)
  {
  }

  // ----- the verdict -----

  /** All that a check's outcome `v` rests on. */
  ghost predicate Proven(a: Answers, p: Parsed, now: nat, expected: Option<Verified>, v: Verified) {
    && BlockIs(a, now, v.checkedBlock, v.blockHash) && v.checkedAt == now
    && (expected.Some? ==> Advances(expected.value, v.checkedBlock, v.blockHash) && v.custody == expected.value.custody)
    && Signed(a) && v.walletKind == (if a.code.value == [] then Eoa else Erc1271)
    && (exists address :: CustodyIs(a, address) && v.custody == HexText(address))
    && Permitted(a, p, v.custody) && v.proofKind == (if AuthKey(a) then AuthAddress else ProofKind.Custody)
    && v.fid == p.fid && v.address == p.address
  }

  /** A check succeeds with an outcome if and only if the raw answers prove it. */
  lemma VerifiedExactly(a: Answers, p: Parsed, now: nat, expected: Option<Verified>, v: Verified)
    ensures VerifyAuthority(a, p, now, expected) == Ok(v) <==> Proven(a, p, now, expected, v)
  {
    BlockExactly(a, now, v.checkedBlock, v.blockHash);
    WalletExactly(a);
    CustodyExactly(a, v.custody);
    PermissionExactly(a, p, v.custody);
  }

  /** At a block that advances the evidence, the node denies the signature, or with a good one the custody
      on record, or with that the signer's permission. */
  predicate Denied(a: Answers, p: Parsed, now: nat, identity: Verified, number: nat, hash: Bytes) {
    && identity.checkedAt <= now && BlockIs(a, now, number, hash) && Advances(identity, number, hash)
    && (|| Unsigned(a)
        || (Signed(a) && CustodyIsNot(a, identity.custody))
        || (Signed(a) && a.custodyOf.Ok? && |a.custodyOf.value| == 32 && a.custodyOf.value[..12] == Zeros(12)
            && !CustodyIsNot(a, identity.custody) && Forbidden(a, p, identity.custody)))
  }

  /** A recheck of sound evidence revokes it if and only if the raw answers deny it. */
  lemma RevokedExactly(a: Answers, parsed: Result<Parsed, AuthError>, identity: Verified, now: nat)
    requires EvidenceSound(parsed, identity)
    ensures Recheck(a, parsed, identity, now).Err? && Revokes(Recheck(a, parsed, identity, now).error)
       <==> exists number, hash :: Denied(a, parsed.value, now, identity, number, hash)
  {
    var r := Recheck(a, parsed, identity, now);
    WalletExactly(a);
    CustodyExactly(a, identity.custody);
    PermissionExactly(a, parsed.value, identity.custody);
    if Finalized(a, now).Ok? {
      var block := Finalized(a, now).value;
      BlockExactly(a, now, block.number, block.hash);
      if r.Err? && Revokes(r.error) {
        assert Denied(a, parsed.value, now, identity, block.number, block.hash);
      }
    } else {
      BlockExactly(a, now, 0, []);
    }
    if number, hash :| Denied(a, parsed.value, now, identity, number, hash) {
      BlockExactly(a, now, number, hash);
    }
  }

  /** A recheck of stored evidence succeeds if and only if its own proof still says the same, the evidence
      is well-formed and not from the future, and the raw answers prove it anew. */
  lemma RecheckedExactly(a: Answers, parsed: Result<Parsed, AuthError>, identity: Verified, now: nat, v: Verified)
    ensures Recheck(a, parsed, identity, now) == Ok(v)
       <==> && parsed == Ok(Parsed(identity.fid, identity.address)) && HexLength(identity.custody) == Some(20)
            && identity.checkedAt <= now && identity.checkedBlock > 0 && HexLength(identity.blockHash) == Some(32)
            && Proven(a, Parsed(identity.fid, identity.address), now, Some(identity), v)
  {
    VerifiedExactly(a, Parsed(identity.fid, identity.address), now, Some(identity), v);
  }
}
