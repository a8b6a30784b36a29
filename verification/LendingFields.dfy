/** What each of the eleven claims asks, stated over the claim, the request, the wallet's outputs, its
    declarations and the fields of the template's outputs; the checker accepts exactly that. */
module LendingFields {
  import opened Common
  import opened Pset
  import opened Covenant
  import opened Approval
  import opened Lending
  import opened LendingTheorems
  import opened LendingBinding

  // ----- Fields -----

  /** Output `i` states `v` of `a`. */
  predicate Row(t: Template, i: nat, a: AssetId, v: u64) {
    i < |t.outputs| && t.outputs[i].asset == Some(a) && t.outputs[i].amount == Some(v)
  }

  /** An output of the wallet states `v` of `a`. */
  ghost predicate Pays(t: Template, q: Funding, a: AssetId, v: u64) { exists i :: i in q.mine && Row(t, i, a, v) }

  ghost predicate PaysAtLeast(t: Template, q: Funding, a: AssetId, floor: u64) {
    exists v: u64 :: v >= floor && Pays(t, q, a, v)
  }

  /** The host's first word on input 0 is that it is one unit of `a`. */
  ghost predicate SpendsToken(q: Funding, a: AssetId) {
    exists k :: FirstWord(q.owned, k, OwnedInput(0, a, 1))
  }

  /** The `k`-th declaration is `o`, and none before it is about that input. */
  predicate FirstWord(owned: seq<OwnedInput>, k: nat, o: OwnedInput) {
    k < |owned| && owned[k] == o && forall j :: 0 <= j < k ==> owned[j].index != o.index
  }

  /** The two forms of a data output with one push. */
  predicate PushesData(script: Script, data: Bytes) {
    || (1 <= |data| <= 75 && script == [0x6a, |data|] + data)
    || (|data| <= 255 && script == [0x6a, 0x4c, |data|] + data)
  }

  ghost predicate IsDataOutput(script: Script) { exists data :: PushesData(script, data) }

  /** `n` in `width` bytes, the least significant first. */
  function LittleEndian(n: nat, width: nat): (b: Bytes)
    ensures |b| == width
  {
    if width == 0 then [] else [n % 256] + LittleEndian(n / 256, width - 1)
  }

  function CollateralOf(given: Option<AssetId>, policy: AssetId): AssetId {
    match given
    case None => policy
    case Some(a) => a
  }

  // ----- What a fill asks -----

  /** The terms every fill asks: the collateral is what is requested and it is at output 0, the token is the
      wallet's at output 1, and the sale less the fee is paid to the wallet. */
  ghost predicate FillAsks(t: Template, q: Funding, s: Sale, borrowerNft: AssetId) {
    && q.requested == CollateralOf(s.collateral, q.policy) && q.amount == s.size && s.sale < s.buyback
    && Row(t, 0, q.requested, s.size)
    && 1 in q.mine && Row(t, 1, borrowerNft, 1)
    && s.fee <= s.sale && Pays(t, q, s.cash, s.sale - s.fee)
  }

  /** The creation metadata at output 3: 80 bytes with the cash asset, the buyback and the expiry in place. */
  ghost predicate MetadataAsks(t: Template, s: Sale) {
    exists meta :: PushesData(if |t.outputs| > 3 then t.outputs[3].script else [], meta) && |meta| == 80
                   && meta[4..36] == s.cash && meta[36..44] == LittleEndian(s.buyback, 8)
                   && meta[44..48] == LittleEndian(s.expiry, 4)
  }

  function FillTerms(q: Funding, s: Sale, borrowerNft: AssetId, lenderNft: AssetId, payout: Bytes32): PositionTerms {
    PositionTerms(q.requested, s.cash, s.size, s.buyback, s.expiry, borrowerNft, lenderNft, payout)
  }

  /** Output 0 is the covenant of these terms under `leaf`, with the buyback as its debt. */
  predicate CovenantAt0(h: Hashes, t: Template, leaf: Bytes32, preimage: Bytes, debt: u64) {
    t.outputs != [] && t.outputs[0].script == PositionScript(h, leaf, h.sha(preimage), debt)
  }

  /** A fill with a last look: the lender is paid at its token's claim script, the look ends before expiry, and
      the borrower is paid where its token goes. */
  predicate LastLookAsks(h: Hashes, t: Template, q: Funding, s: Sale, payout: Bytes32, lastLook: Bytes32, height: u32,
                         leaf: Bytes32, borrowerNft: AssetId, lenderNft: AssetId)
  {
    && payout == h.sha(ClaimScript(h, lenderNft)) && (height == 0 || height < s.expiry)
    && |t.outputs| > 1
    && CovenantAt0(h, t, leaf,
                   EncodeV4(FillTerms(q, s, borrowerNft, lenderNft, payout),
                            LastLook(h.sha(t.outputs[1].script), lastLook, height)), s.buyback)
  }

  /** What the claim asks. */
  ghost predicate Conforms(h: Hashes, claim: TypedFund, t: Template, q: Funding) {
    match claim
    case Fill(s) => exists b :: FillAsks(t, q, s, b) && MetadataAsks(t, s)
    case FillV2(s, payout) =>
      exists b, l :: FillAsks(t, q, s, b) && Row(t, 2, l, 1)
                     && CovenantAt0(h, t, LENDING_V2_LEAF, EncodeV2(FillTerms(q, s, b, l, payout)), s.buyback)
    case FillV3(s, payout) =>
      exists b, l :: FillAsks(t, q, s, b) && Row(t, 2, l, 1) && payout == h.sha(ClaimScript(h, l))
                     && CovenantAt0(h, t, LENDING_V3_LEAF, EncodeV2(FillTerms(q, s, b, l, payout)), s.buyback)
    case FillV4(s, payout, lastLook, height) =>
      exists b, l :: FillAsks(t, q, s, b) && Row(t, 2, l, 1)
                     && LastLookAsks(h, t, q, s, payout, lastLook, height, LENDING_V4_LEAF, b, l)
    case FillV5(s, payout, lastLook, height) =>
      exists b, l :: FillAsks(t, q, s, b) && Row(t, 2, l, 1)
                     && LastLookAsks(h, t, q, s, payout, lastLook, height, LENDING_V5_LEAF, b, l)
    case FillV6(s, payout, lastLook, height, lenderNft) =>
      exists b :: FillAsks(t, q, s, b)
                  && LastLookAsks(h, t, q, s, payout, lastLook, height, LENDING_V5_LEAF, b, lenderNft)
    case Offer(terms, amounts, tokenOutput) =>
      && q.requested == terms.cash && 1 <= |amounts| <= 4 && Sum(amounts, Id()) == q.amount
      && 1 <= |terms.rows| <= 4
      && (forall r :: r in terms.rows ==> r.expiry > 0 && r.priceOut > 0 && r.buyback > 0 && r.minSize > 0)
      && terms.positionLeaf == LENDING_V5_LEAF && terms.claim == h.sha(ClaimScript(h, terms.lenderToken))
      && (forall i :: 0 <= i < |amounts| ==> OfferCoinAt(h, t, terms, amounts, i))
      && (tokenOutput.Some? ==> tokenOutput.value in q.mine && Row(t, tokenOutput.value, terms.lenderToken, 1))
    case OfferCancel(cash, back, fee, lenderToken) =>
      && SpendsToken(q, lenderToken) && q.requested == q.policy && q.amount == fee && fee <= 5000
      && 0 in q.mine && Row(t, 0, lenderToken, 1) && PaysAtLeast(t, q, cash, back)
    case Claim(lenderToken, fee, receives) =>
      && SpendsToken(q, lenderToken) && q.requested == q.policy && q.amount == fee && fee <= 20000
      && 0 in q.mine && Row(t, 0, lenderToken, 1)
      && receives != [] && forall i :: 0 <= i < |receives| ==> PaysAtLeast(t, q, receives[i].0, receives[i].1)
    case SellRight(price, cash, fee) =>
      && (exists a :: SpendsToken(q, a)) && q.requested == q.policy && q.amount == fee && fee <= 5000
      && price > 0 && PaysAtLeast(t, q, cash, price)
    case Exercise(pay, released, remaining, cash, given) =>
      && q.requested == cash && q.amount == pay
      && (exists a :: SpendsToken(q, a)
                      && if remaining > 0 then PartialAsks(t, q, a, CollateralOf(given, q.policy)) else FullAsks(t, a))
      && PaysAtLeast(t, q, CollateralOf(given, q.policy), released)
  }

  predicate OfferCoinAt(h: Hashes, t: Template, terms: OfferTerms, amounts: seq<u64>, i: nat)
    requires i < |amounts|
  {
    Row(t, i, terms.cash, amounts[i])
    && t.outputs[i].script == PositionScript(h, OFFER_LEAF, h.sha(EncodeOffer(terms)), amounts[i])
  }

  /** A partial exercise returns the token, not as data, and continues the position in its collateral. */
  ghost predicate PartialAsks(t: Template, q: Funding, token: AssetId, collateral: AssetId) {
    && 0 in q.mine && Row(t, 0, token, 1) && !IsDataOutput(t.outputs[0].script)
    && exists v :: Row(t, 1, collateral, v)
  }

  /** A full exercise has a data output of the token's asset first. */
  ghost predicate FullAsks(t: Template, token: AssetId) {
    t.outputs != [] && t.outputs[0].asset == Some(token) && IsDataOutput(t.outputs[0].script)
  }

  // ----- The checker's steps and the fields -----

  lemma ExplicitIff(t: Template, i: nat, a: AssetId, v: u64)
    ensures Explicit(t.outputs, i) == Ok((a, v)) <==> Row(t, i, a, v)
  {
  }

  lemma PaysIff(t: Template, q: Funding, a: AssetId, v: u64)
    ensures v in MinePaying(t.outputs, q.mine, a) <==> Pays(t, q, a, v)
  {
    hide Explicit, Row;
    if v in MinePaying(t.outputs, q.mine, a) {
      var i := MinePayingHas(t.outputs, q.mine, a, v);
      ExplicitIff(t, i, a, v);
    }
    if i :| i in q.mine && Row(t, i, a, v) {
      ExplicitIff(t, i, a, v);
      MinePayingFinds(t.outputs, q.mine, a, v, i);
    }
  }

  lemma PaysAtLeastIff(t: Template, q: Funding, a: AssetId, floor: u64)
    ensures MoneyFound(t.outputs, q.mine, a, floor) <==> PaysAtLeast(t, q, a, floor)
    ensures BestAtLeast(MinePaying(t.outputs, q.mine, a), floor).Some? <==> PaysAtLeast(t, q, a, floor)
  {
    hide MinePaying, BestAtLeast, Pays;
    BestIsBest(MinePaying(t.outputs, q.mine, a), floor);
    forall v: u64 ensures v in MinePaying(t.outputs, q.mine, a) <==> Pays(t, q, a, v) { PaysIff(t, q, a, v); }
  }

  lemma {:induction false} DeclaredFirst(owned: seq<OwnedInput>, o: OwnedInput)
    ensures Declared(owned, o.index) == Some(o) <==> exists k :: FirstWord(owned, k, o)
  {
    if owned != [] {
      var rest := owned[1..];
      DeclaredFirst(rest, o);
      if k: nat :| FirstWord(owned, k, o) {
        assert k > 0 ==> FirstWord(rest, k - 1, o);
      }
      if owned[0] == o {
        assert FirstWord(owned, 0, o);
      }
      if owned[0].index != o.index {
        if k: nat :| FirstWord(rest, k, o) {
          WordLater(owned, k, o);
        }
      }
    }
  }

  lemma WordLater(owned: seq<OwnedInput>, k: nat, o: OwnedInput)
    requires owned != [] && FirstWord(owned[1..], k, o) && owned[0].index != o.index
    ensures FirstWord(owned, k + 1, o)
  {
    forall j | 0 <= j < k + 1 ensures owned[j].index != o.index { assert j > 0 ==> owned[j] == owned[1..][j - 1]; }
  }

  lemma {:induction false} DeclaredIndex(owned: seq<OwnedInput>, i: nat)
    ensures Declared(owned, i).Some? ==> Declared(owned, i).value.index == i
  {
    if owned != [] {
      DeclaredIndex(owned[1..], i);
    }
  }

  lemma TokenIff(q: Funding, a: AssetId)
    ensures OwnedToken(q) == Ok(OwnedInput(0, a, 1)) <==> SpendsToken(q, a)
    ensures OwnedToken(q).Ok? ==> OwnedToken(q).value.index == 0
  {
    hide Declared;
    DeclaredFirst(q.owned, OwnedInput(0, a, 1));
    DeclaredIndex(q.owned, 0);
  }

  lemma DataIff(script: Script)
    ensures OpReturnPayload(script).Some? <==> IsDataOutput(script)
    ensures forall data :: OpReturnPayload(script) == Some(data) <==> PushesData(script, data)
  {
    hide OpReturnPayload;
    forall data ensures OpReturnPayload(script) == Some(data) <==> PushesData(script, data) {
      OpReturnForms(script, data);
    }
  }

  lemma {:induction false} LittleEndianIff(b: Bytes, n: nat)
    requires n < Pow256(|b|)
    ensures FromLittleEndian(b) == n <==> b == LittleEndian(n, |b|)
  {
    if b != [] {
      assert Pow256(|b|) == 256 * Pow256(|b| - 1);
      LittleEndianIff(b[1..], n / 256);
      assert b == [b[0]] + b[1..];
    }
  }

  lemma MetadataIff(t: Template, s: Sale)
    ensures Metadata(t, s).Ok? <==> MetadataAsks(t, s)
  {
    assert Pow256(4) == U32_LIMIT;
    assert Pow256(8) == U64_LIMIT;
    hide FromLittleEndian, LittleEndian, Pow256, OpReturnPayload, PushesData;
    DataIff(if |t.outputs| > 3 then t.outputs[3].script else []);
    NothingPushed();
    if |t.outputs| > 3 && OpReturnPayload(t.outputs[3].script).Some? {
      var meta := OpReturnPayload(t.outputs[3].script).value;
      if |meta| == 80 {
        LittleEndianIff(meta[36..44], s.buyback);
        LittleEndianIff(meta[44..48], s.expiry);
      }
    }
  }

  lemma NothingPushed()
    ensures forall data :: !PushesData([], data)
  {
  }

  /** What the steps shared by all fills come to. */
  ghost predicate SharedSteps(t: Template, q: Funding, s: Sale) {
    FillHead(t, q, s).Ok? && BorrowerToken(t, q).Ok? && Proceeds(t, q, s).Ok?
  }

  lemma SharedIff(t: Template, q: Funding, s: Sale, b: AssetId)
    ensures SharedSteps(t, q, s) && BorrowerToken(t, q).value == b <==> FillAsks(t, q, s, b)
    ensures SharedSteps(t, q, s) ==> FillHead(t, q, s).value == q.requested
  {
    hide Explicit, MinePaying, Pays, Row;
    ExplicitIff(t, 0, q.requested, s.size);
    ExplicitIff(t, 1, b, 1);
    if s.fee <= s.sale {
      PaysIff(t, q, s.cash, s.sale - s.fee);
    }
    FirstRow(t);
  }

  /** Explicit reads one row or none. */
  lemma FirstRow(t: Template)
    ensures forall i :: Explicit(t.outputs, i).Ok? ==>
              Row(t, i, Explicit(t.outputs, i).value.0, Explicit(t.outputs, i).value.1)
    ensures forall i, a, v: u64 :: Row(t, i, a, v) ==> Explicit(t.outputs, i) == Ok((a, v))
  {
  }

  lemma LenderIff(t: Template, l: AssetId)
    ensures LenderTokenOutput(t) == Ok(l) <==> Row(t, 2, l, 1)
  {
  }

  lemma OutputsThere(t: Template, q: Funding, s: Sale)
    ensures FillHead(t, q, s).Ok? ==> t.outputs != [] && FillHead(t, q, s).value == q.requested
    ensures BorrowerToken(t, q).Ok? ==> |t.outputs| > 1
  {
  }

  lemma FillV1Steps(h: Hashes, claim: TypedFund, t: Template, q: Funding)
    requires claim.Fill?
    ensures VerifyTypedFund(h, claim, t, q).Ok? <==> SharedSteps(t, q, claim.s) && Metadata(t, claim.s).Ok?
  {
    hide FillHead, BorrowerToken, Proceeds, Metadata;
  }

  lemma FillV1Iff(h: Hashes, claim: TypedFund, t: Template, q: Funding)
    requires claim.Fill?
    ensures VerifyTypedFund(h, claim, t, q).Ok? <==> Conforms(h, claim, t, q)
  {
    FillV1Steps(h, claim, t, q);
    MetadataIff(t, claim.s);
    hide VerifyTypedFund, BorrowerToken, SharedSteps, Metadata, FillAsks, MetadataAsks;
    if SharedSteps(t, q, claim.s) {
      SharedGives(t, q, claim.s);
    }
    if b :| FillAsks(t, q, claim.s, b) {
      SharedIff(t, q, claim.s, b);
    }
  }

  /** The token that an accepted fill leaves at output 1. */
  lemma SharedGives(t: Template, q: Funding, s: Sale)
    requires SharedSteps(t, q, s)
    ensures BorrowerToken(t, q).Ok? && FillAsks(t, q, s, BorrowerToken(t, q).value)
  {
    hide FillHead, BorrowerToken, Proceeds, FillAsks;
    SharedIff(t, q, s, BorrowerToken(t, q).value);
  }

  lemma FillV2Steps(h: Hashes, claim: TypedFund, t: Template, q: Funding)
    requires claim.FillV2? || claim.FillV3?
    ensures VerifyTypedFund(h, claim, t, q).Ok? <==>
            && SharedSteps(t, q, claim.s) && LenderTokenOutput(t).Ok?
            && (claim.FillV3? ==> claim.payout == h.sha(ClaimScript(h, LenderTokenOutput(t).value)))
            && CovenantAt0(h, t, if claim.FillV2? then LENDING_V2_LEAF else LENDING_V3_LEAF,
                           EncodeV2(FillTerms(q, claim.s, BorrowerToken(t, q).value, LenderTokenOutput(t).value,
                                              claim.payout)), claim.s.buyback)
  {
    OutputsThere(t, q, claim.s);
    hide FillHead, BorrowerToken, Proceeds, LenderTokenOutput, PositionScript, ClaimScript, EncodeV2;
  }

  lemma FillV2Iff(h: Hashes, claim: TypedFund, t: Template, q: Funding)
    requires claim.FillV2? || claim.FillV3?
    ensures VerifyTypedFund(h, claim, t, q).Ok? <==> Conforms(h, claim, t, q)
  {
    FillV2Steps(h, claim, t, q);
    hide VerifyTypedFund, BorrowerToken, SharedSteps, FillAsks, LenderTokenOutput, Row, CovenantAt0, EncodeV2,
      FillTerms, ClaimScript;
    if VerifyTypedFund(h, claim, t, q).Ok? {
      SharedGives(t, q, claim.s);
      LenderIff(t, LenderTokenOutput(t).value);
    }
    if Conforms(h, claim, t, q) {
      var b, l :| FillAsks(t, q, claim.s, b) && Row(t, 2, l, 1)
                  && (claim.FillV3? ==> claim.payout == h.sha(ClaimScript(h, l)))
                  && CovenantAt0(h, t, if claim.FillV2? then LENDING_V2_LEAF else LENDING_V3_LEAF,
                                 EncodeV2(FillTerms(q, claim.s, b, l, claim.payout)), claim.s.buyback);
      SharedIff(t, q, claim.s, b);
      LenderIff(t, l);
    }
  }

  /** The tail of the fills from v4 on. */
  lemma LookIff(h: Hashes, t: Template, q: Funding, s: Sale, payout: Bytes32, lastLook: Bytes32, height: u32,
                leaf: Bytes32, b: AssetId, l: AssetId)
    requires |t.outputs| > 1
    ensures LastLookFill(h, t, q, s, payout, lastLook, height, leaf, q.requested, b, l).Ok? <==>
            Proceeds(t, q, s).Ok? && LastLookAsks(h, t, q, s, payout, lastLook, height, leaf, b, l)
  {
    hide Proceeds, PositionScript, ClaimScript, EncodeV4;
  }

  /** Its program, and the lender's token, which from v6 on the claim names. */
  function LookLeaf(claim: TypedFund): Bytes32 { if claim.FillV4? then LENDING_V4_LEAF else LENDING_V5_LEAF }

  predicate Looks(h: Hashes, claim: TypedFund, t: Template, q: Funding, b: AssetId, l: AssetId)
    requires claim.FillV4? || claim.FillV5? || claim.FillV6?
  {
    LastLookAsks(h, t, q, claim.s, claim.payout, claim.lastLook, claim.lastLookHeight, LookLeaf(claim), b, l)
  }

  lemma LookFillSteps(h: Hashes, claim: TypedFund, t: Template, q: Funding)
    requires claim.FillV4? || claim.FillV5?
    ensures VerifyTypedFund(h, claim, t, q).Ok? <==>
            SharedSteps(t, q, claim.s) && LenderTokenOutput(t).Ok?
            && Looks(h, claim, t, q, BorrowerToken(t, q).value, LenderTokenOutput(t).value)
  {
    OutputsThere(t, q, claim.s);
    if |t.outputs| > 1 && BorrowerToken(t, q).Ok? && LenderTokenOutput(t).Ok? {
      LookIff(h, t, q, claim.s, claim.payout, claim.lastLook, claim.lastLookHeight, LookLeaf(claim),
              BorrowerToken(t, q).value, LenderTokenOutput(t).value);
    }
    hide FillHead, BorrowerToken, Proceeds, LenderTokenOutput, LastLookFill, LastLookAsks;
  }

  lemma NamedFillSteps(h: Hashes, claim: TypedFund, t: Template, q: Funding)
    requires claim.FillV6?
    ensures VerifyTypedFund(h, claim, t, q).Ok? <==>
            SharedSteps(t, q, claim.s) && Looks(h, claim, t, q, BorrowerToken(t, q).value, claim.lenderNft)
  {
    OutputsThere(t, q, claim.s);
    if |t.outputs| > 1 && BorrowerToken(t, q).Ok? {
      LookIff(h, t, q, claim.s, claim.payout, claim.lastLook, claim.lastLookHeight, LookLeaf(claim),
              BorrowerToken(t, q).value, claim.lenderNft);
    }
    hide FillHead, BorrowerToken, Proceeds, LastLookFill, LastLookAsks;
  }

  lemma LookFillUnfolds(h: Hashes, claim: TypedFund, t: Template, q: Funding)
    requires claim.FillV4? || claim.FillV5?
    ensures Conforms(h, claim, t, q) <==>
            exists b, l :: FillAsks(t, q, claim.s, b) && Row(t, 2, l, 1) && Looks(h, claim, t, q, b, l)
  {
    hide FillAsks, Row, LastLookAsks;
  }

  lemma NamedFillUnfolds(h: Hashes, claim: TypedFund, t: Template, q: Funding)
    requires claim.FillV6?
    ensures Conforms(h, claim, t, q) <==>
            exists b :: FillAsks(t, q, claim.s, b) && Looks(h, claim, t, q, b, claim.lenderNft)
  {
    hide FillAsks, LastLookAsks;
  }

  lemma LookFillIff(h: Hashes, claim: TypedFund, t: Template, q: Funding)
    requires claim.FillV4? || claim.FillV5?
    ensures VerifyTypedFund(h, claim, t, q).Ok? <==> Conforms(h, claim, t, q)
  {
    hide VerifyTypedFund, Conforms, SharedSteps, FillAsks, Row, Looks, Explicit;
    LookFillSteps(h, claim, t, q);
    LookFillUnfolds(h, claim, t, q);
    if VerifyTypedFund(h, claim, t, q).Ok? {
      SharedGives(t, q, claim.s);
      LenderIff(t, LenderTokenOutput(t).value);
    }
    if b, l :| FillAsks(t, q, claim.s, b) && Row(t, 2, l, 1) && Looks(h, claim, t, q, b, l) {
      SharedIff(t, q, claim.s, b);
      LenderIff(t, l);
    }
  }

  lemma NamedFillIff(h: Hashes, claim: TypedFund, t: Template, q: Funding)
    requires claim.FillV6?
    ensures VerifyTypedFund(h, claim, t, q).Ok? <==> Conforms(h, claim, t, q)
  {
    hide VerifyTypedFund, Conforms, SharedSteps, FillAsks, Looks, Explicit;
    NamedFillSteps(h, claim, t, q);
    NamedFillUnfolds(h, claim, t, q);
    if VerifyTypedFund(h, claim, t, q).Ok? {
      SharedGives(t, q, claim.s);
    }
    if b :| FillAsks(t, q, claim.s, b) && Looks(h, claim, t, q, b, claim.lenderNft) {
      SharedIff(t, q, claim.s, b);
    }
  }

  lemma {:induction false} CoinsIff(h: Hashes, t: Template, terms: OfferTerms, amounts: seq<u64>, i: nat)
    requires i <= |amounts|
    ensures OfferCoins(h, t, terms, amounts, i).Ok? <==>
            forall j :: i <= j < |amounts| ==> OfferCoinAt(h, t, terms, amounts, j)
    decreases |amounts| - i
  {
    hide PositionScript, EncodeOffer;
    if i < |amounts| {
      CoinsIff(h, t, terms, amounts, i + 1);
      ExplicitIff(t, i, terms.cash, amounts[i]);
      CoinsStep(h, t, terms, amounts, i);
      hide OfferCoins, OfferCoinAt;
    }
  }

  lemma CoinsStep(h: Hashes, t: Template, terms: OfferTerms, amounts: seq<u64>, i: nat)
    requires i < |amounts|
    ensures OfferCoins(h, t, terms, amounts, i).Ok? <==>
            OfferCoinAt(h, t, terms, amounts, i) && OfferCoins(h, t, terms, amounts, i + 1).Ok?
  {
    hide PositionScript, EncodeOffer;
  }

  /** The checker's tests of an offer, with its coins and its token apart. */
  lemma OfferSteps(h: Hashes, claim: TypedFund, t: Template, q: Funding)
    requires claim.Offer?
    ensures VerifyTypedFund(h, claim, t, q).Ok? <==>
            && q.requested == claim.terms.cash && 0 < |claim.amounts| <= 4
            && CheckedTotal(claim.amounts) == Some(q.amount)
            && RowsWellFormed(claim.terms.rows) && claim.terms.positionLeaf == LENDING_V5_LEAF
            && claim.terms.claim == h.sha(ClaimScript(h, claim.terms.lenderToken))
            && OfferCoins(h, t, claim.terms, claim.amounts, 0).Ok?
            && (claim.tokenOutput.Some? ==>
                  claim.tokenOutput.value in q.mine
                  && Explicit(t.outputs, claim.tokenOutput.value) == Ok((claim.terms.lenderToken, 1)))
  {
    hide OfferCoins, ClaimScript, CheckedTotal;
  }

  lemma OfferIff(h: Hashes, claim: TypedFund, t: Template, q: Funding)
    requires claim.Offer?
    ensures VerifyTypedFund(h, claim, t, q).Ok? <==> Conforms(h, claim, t, q)
  {
    OfferSteps(h, claim, t, q);
    CheckedTotalIsSum(claim.amounts);
    CoinsIff(h, t, claim.terms, claim.amounts, 0);
    if claim.tokenOutput.Some? {
      ExplicitIff(t, claim.tokenOutput.value, claim.terms.lenderToken, 1);
    }
    hide VerifyTypedFund, Explicit, OfferCoins, OfferCoinAt, ClaimScript, CheckedTotal, Sum, Row, LENDING_V5_LEAF;
  }

  lemma {:induction false} ReceivesIff(t: Template, q: Funding, receives: seq<(AssetId, u64)>)
    ensures ReceivesAll(t, q, receives).Ok? <==>
            forall i :: 0 <= i < |receives| ==> PaysAtLeast(t, q, receives[i].0, receives[i].1)
  {
    hide MinePaying, PaysAtLeast;
    if receives != [] {
      var rest := receives[1..];
      ReceivesIff(t, q, rest);
      PaysAtLeastIff(t, q, receives[0].0, receives[0].1);
      assert forall i :: 0 <= i < |rest| ==> rest[i] == receives[i + 1];
      if forall i :: 0 <= i < |rest| ==> PaysAtLeast(t, q, rest[i].0, rest[i].1) {
        forall i | 1 <= i < |receives| ensures PaysAtLeast(t, q, receives[i].0, receives[i].1) {
          assert receives[i] == rest[i - 1];
        }
      }
      assert MoneyFound(t.outputs, q.mine, receives[0].0, receives[0].1) <==>
             exists v :: v in MinePaying(t.outputs, q.mine, receives[0].0) && v >= receives[0].1;
    }
  }

  lemma CancelIff(h: Hashes, claim: TypedFund, t: Template, q: Funding)
    requires claim.OfferCancel?
    ensures VerifyTypedFund(h, claim, t, q).Ok? <==> Conforms(h, claim, t, q)
  {
    TokenIff(q, claim.lenderToken);
    ExplicitIff(t, 0, claim.lenderToken, 1);
    PaysAtLeastIff(t, q, claim.cash, claim.back);
    hide OwnedToken, Explicit, BestAtLeast, MinePaying, SpendsToken, PaysAtLeast, Row, MoneyFound;
  }

  lemma CollectionIff(h: Hashes, claim: TypedFund, t: Template, q: Funding)
    requires claim.Claim?
    ensures VerifyTypedFund(h, claim, t, q).Ok? <==> Conforms(h, claim, t, q)
  {
    TokenIff(q, claim.lenderToken);
    ExplicitIff(t, 0, claim.lenderToken, 1);
    ReceivesIff(t, q, claim.receives);
    hide OwnedToken, Explicit, ReceivesAll, SpendsToken, PaysAtLeast, Row;
  }

  lemma SellIff(h: Hashes, claim: TypedFund, t: Template, q: Funding)
    requires claim.SellRight?
    ensures VerifyTypedFund(h, claim, t, q).Ok? <==> Conforms(h, claim, t, q)
  {
    forall a ensures OwnedToken(q) == Ok(OwnedInput(0, a, 1)) <==> SpendsToken(q, a) { TokenIff(q, a); }
    TokenIff(q, q.policy);
    PaysAtLeastIff(t, q, claim.cash, claim.price);
    hide OwnedToken, BestAtLeast, MinePaying, SpendsToken, PaysAtLeast, MoneyFound;
    if OwnedToken(q).Ok? && OwnedToken(q).value.amount == 1 {
      assert OwnedToken(q) == Ok(OwnedInput(0, OwnedToken(q).value.asset, 1));
    }
  }

  lemma ExerciseTokenIff(t: Template, q: Funding, remaining: u64, token: AssetId, collateral: AssetId)
    ensures ExerciseToken(t, q, remaining, token, collateral).Ok? <==>
            if remaining > 0 then PartialAsks(t, q, token, collateral) else FullAsks(t, token)
  {
    FirstRow(t);
    if t.outputs != [] {
      DataIff(t.outputs[0].script);
    }
    SomeRow(t);
    hide OpReturnPayload, IsDataOutput, Explicit, Row;
  }

  lemma SomeRow(t: Template)
    ensures forall a, v :: Row(t, 0, a, v) ==> t.outputs != []
  {
  }

  lemma ExerciseIff(h: Hashes, claim: TypedFund, t: Template, q: Funding)
    requires claim.Exercise?
    ensures VerifyTypedFund(h, claim, t, q).Ok? <==> Conforms(h, claim, t, q)
  {
    var collateral := CollateralOf(claim.collateral, q.policy);
    assert collateral == Or(claim.collateral, q.policy);
    forall a ensures OwnedToken(q) == Ok(OwnedInput(0, a, 1)) <==> SpendsToken(q, a) { TokenIff(q, a); }
    TokenIff(q, q.policy);
    forall a
      ensures ExerciseToken(t, q, claim.remaining, a, collateral).Ok? <==>
              if claim.remaining > 0 then PartialAsks(t, q, a, collateral) else FullAsks(t, a)
    {
      ExerciseTokenIff(t, q, claim.remaining, a, collateral);
    }
    PaysAtLeastIff(t, q, collateral, claim.released);
    hide OwnedToken, BestAtLeast, MinePaying, SpendsToken, PaysAtLeast, MoneyFound, ExerciseToken, PartialAsks,
      FullAsks;
    if OwnedToken(q).Ok? && OwnedToken(q).value.amount == 1 {
      assert OwnedToken(q) == Ok(OwnedInput(0, OwnedToken(q).value.asset, 1));
    }
  }

  /** The checker accepts a claim exactly when the template and the request have what the claim asks. */
  lemma VerifyTypedFundExact(h: Hashes, claim: TypedFund, t: Template, q: Funding)
    ensures VerifyTypedFund(h, claim, t, q).Ok? <==> Conforms(h, claim, t, q)
  {
    hide VerifyTypedFund, Conforms;
    match claim
    case Fill(_) => FillV1Iff(h, claim, t, q);
    case FillV2(_, _) => FillV2Iff(h, claim, t, q);
    case FillV3(_, _) => FillV2Iff(h, claim, t, q);
    case FillV4(_, _, _, _) => LookFillIff(h, claim, t, q);
    case FillV5(_, _, _, _) => LookFillIff(h, claim, t, q);
    case FillV6(_, _, _, _, _) => NamedFillIff(h, claim, t, q);
    case Offer(_, _, _) => OfferIff(h, claim, t, q);
    case OfferCancel(_, _, _, _) => CancelIff(h, claim, t, q);
    case Claim(_, _, _) => CollectionIff(h, claim, t, q);
    case SellRight(_, _, _) => SellIff(h, claim, t, q);
    case Exercise(_, _, _, _, _) => ExerciseIff(h, claim, t, q);
  }
}
