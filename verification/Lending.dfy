/** Typed lending claims (`lending.rs`): the eleven-variant checker over template rows. */
module Lending {
  import opened Common
  import opened Pset
  import opened Covenant
  import opened Approval

  /** The fields every fill shares. */
  datatype Sale = Sale(
    size: u64, sale: u64, buyback: u64, expiry: u32, cash: AssetId, collateral: Option<AssetId>, fee: u64)

  datatype TypedFund =
    | Fill(s: Sale)
    | FillV2(s: Sale, payout: Bytes32)
    | FillV3(s: Sale, payout: Bytes32)
    | FillV4(s: Sale, payout: Bytes32, lastLook: Bytes32, lastLookHeight: u32)
    | FillV5(s: Sale, payout: Bytes32, lastLook: Bytes32, lastLookHeight: u32)
    | FillV6(s: Sale, payout: Bytes32, lastLook: Bytes32, lastLookHeight: u32, lenderNft: AssetId)
    | Offer(terms: OfferTerms, amounts: seq<u64>, tokenOutput: Option<u32>)
    | OfferCancel(cash: AssetId, back: u64, fee: u64, lenderToken: AssetId)
    | Claim(lenderToken: AssetId, fee: u64, receives: seq<(AssetId, u64)>)
    | SellRight(price: u64, cash: AssetId, fee: u64)
    | Exercise(pay: u64, released: u64, remaining: u64, cash: AssetId, collateral: Option<AssetId>)

  /** The fund request and what the host knows: its own outputs and its own inputs. */
  datatype Funding = Funding(
    requested: AssetId, amount: u64, policy: AssetId, mine: seq<nat>, owned: seq<OwnedInput>)

  datatype ClaimRefusal =
    | WrongAsset | WrongAmount | BuybackNotAboveSale | NoSuchOutput | NotExplicit | NotThePosition
    | NotMyToken | NotLenderToken | NoMetadata | MetadataLength | MetadataDisagrees | NotTheCovenant
    | PayoutNotClaimScript | LastLookTooLate | FeeExceedsSale | NoProceeds | CoinCount | AmountsOverflow
    | RowCount | ZeroTerm | UnknownProgram | NotAnOfferCoin | NoOwnedToken | UnreasonableFee
    | TokenNotReturned | NothingReceived | ShortReceipt | ZeroPrice | NoContinuingPosition | TokenNotBurned

  type Check<T> = Result<T, ClaimRefusal>

  const POSITION_OUTPUT: nat := 0
  const BORROWER_NFT_OUTPUT: nat := 1
  const LENDER_NFT_OUTPUT: nat := 2
  const METADATA_OUTPUT: nat := 3
  const METADATA_LEN: nat := 80

  function Explicit(outputs: seq<Output>, i: nat): Check<(AssetId, u64)> {
    if i >= |outputs| then Err(NoSuchOutput)
    else if outputs[i].asset.Some? && outputs[i].amount.Some? then Ok((outputs[i].asset.value, outputs[i].amount.value))
    else Err(NotExplicit)
  }

  /** The amounts of `asset` that template outputs listed in `mine` pay. */
  function MinePaying(outputs: seq<Output>, mine: seq<nat>, asset: AssetId): seq<u64> {
    if mine == [] then []
    else
      var e := Explicit(outputs, mine[0]);
      (if e.Ok? && e.value.0 == asset then [e.value.1] else []) + MinePaying(outputs, mine[1..], asset)
  }

  /** `.filter(|v| *v >= floor).max()`. */
  function BestAtLeast(values: seq<u64>, floor: u64): Option<u64> {
    if values == [] then None
    else
      var rest := BestAtLeast(values[1..], floor);
      if values[0] >= floor && (rest.None? || rest.value <= values[0]) then Some(values[0]) else rest
  }

  function Or(asset: Option<AssetId>, default: AssetId): AssetId {
    if asset.Some? then asset.value else default
  }

  /** Payload of `OP_RETURN <push>`. */
  function OpReturnPayload(b: Script): Option<Bytes> {
    if |b| < 2 || b[0] != 0x6a then None
    else if 1 <= b[1] <= 75 then (if |b| - 2 == b[1] then Some(b[2..]) else None)
    else if b[1] == 0x4c then (if |b| >= 3 && |b| - 3 == b[2] then Some(b[3..]) else None)
    else None
  }

  // ----- The steps the fills share, in the source's order -----

  function FillHead(t: Template, q: Funding, s: Sale): Check<AssetId> {
    var collateral := Or(s.collateral, q.policy);
    :- Ensure(q.requested == collateral, WrongAsset);
    :- Ensure(q.amount == s.size, WrongAmount);
    :- Ensure(s.buyback > s.sale, BuybackNotAboveSale);
    var (asset, value) :- Explicit(t.outputs, POSITION_OUTPUT);
    :- Ensure(asset == collateral && value == s.size, NotThePosition);
    Ok(collateral)
  }

  function BorrowerToken(t: Template, q: Funding): Check<AssetId> {
    var (nft, n) :- Explicit(t.outputs, BORROWER_NFT_OUTPUT);
    :- Ensure(n == 1 && BORROWER_NFT_OUTPUT in q.mine, NotMyToken);
    Ok(nft)
  }

  function LenderTokenOutput(t: Template): Check<AssetId> {
    var (nft, n) :- Explicit(t.outputs, LENDER_NFT_OUTPUT);
    :- Ensure(n == 1, NotLenderToken);
    Ok(nft)
  }

  function Proceeds(t: Template, q: Funding, s: Sale): Check<u64> {
    if s.sale < s.fee then Err(FeeExceedsSale)
    else
      var proceeds := s.sale - s.fee;
      if proceeds in MinePaying(t.outputs, q.mine, s.cash) then Ok(proceeds) else Err(NoProceeds)
  }

  function Metadata(t: Template, s: Sale): Check<()> {
    if |t.outputs| <= METADATA_OUTPUT || OpReturnPayload(t.outputs[METADATA_OUTPUT].script).None? then Err(NoMetadata)
    else
      var meta := OpReturnPayload(t.outputs[METADATA_OUTPUT].script).value;
      if |meta| != METADATA_LEN then Err(MetadataLength)
      else if meta[4..36] == s.cash && FromLittleEndian(meta[36..44]) == s.buyback
          && FromLittleEndian(meta[44..48]) == s.expiry
      then Ok(())
      else Err(MetadataDisagrees)
  }

  function TermsOf(s: Sale, collateral: AssetId, borrowerNft: AssetId, lenderNft: AssetId,
      payout: Bytes32): PositionTerms {
    PositionTerms(collateral, s.cash, s.size, s.buyback, s.expiry, borrowerNft, lenderNft, payout)
  }

  /** The tail of a fill from v4 on: lender payout, last look, covenant, proceeds. */
  function LastLookFill(h: Hashes, t: Template, q: Funding, s: Sale, payout: Bytes32, lastLook: Bytes32,
                        lastLookHeight: u32, leaf: Bytes32, collateral: AssetId, borrowerNft: AssetId,
                        lenderNft: AssetId): Check<u64>
    requires |t.outputs| > BORROWER_NFT_OUTPUT
  {
    var expected := h.sha(ClaimScript(h, lenderNft));
    :- Ensure(expected == payout, PayoutNotClaimScript);
    :- Ensure(lastLookHeight == 0 || lastLookHeight < s.expiry, LastLookTooLate);
    var look := LastLook(h.sha(t.outputs[BORROWER_NFT_OUTPUT].script), lastLook, lastLookHeight);
    var digest := h.sha(EncodeV4(TermsOf(s, collateral, borrowerNft, lenderNft, payout), look));
    :- Ensure(t.outputs[POSITION_OUTPUT].script == PositionScript(h, leaf, digest, s.buyback), NotTheCovenant);
    Proceeds(t, q, s)
  }

  function OwnedToken(q: Funding): Check<OwnedInput> {
    if Declared(q.owned, 0).None? then Err(NoOwnedToken) else Ok(Declared(q.owned, 0).value)
  }

  function CheckedTotal(amounts: seq<u64>): Option<u64> {
    if amounts == [] then Some(0)
    else
      var rest := CheckedTotal(amounts[..|amounts| - 1]);
      if rest.Some? && rest.value + amounts[|amounts| - 1] < U64_LIMIT
      then Some(rest.value + amounts[|amounts| - 1]) else None
  }

  /** Every offer coin from the `i`-th on is the covenant for these terms and its own amount. */
  function OfferCoins(h: Hashes, t: Template, terms: OfferTerms, amounts: seq<u64>, i: nat): Check<()>
    requires i <= |amounts|
    decreases |amounts| - i
  {
    if i == |amounts| then Ok(())
    else
      var (asset, value) :- Explicit(t.outputs, i);
      :- Ensure(asset == terms.cash && value == amounts[i], NotAnOfferCoin);
      :- Ensure(t.outputs[i].script == PositionScript(h, OFFER_LEAF, h.sha(EncodeOffer(terms)), amounts[i]),
          NotTheCovenant);
      OfferCoins(h, t, terms, amounts, i + 1)
  }

  function ReceivesAll(t: Template, q: Funding, receives: seq<(AssetId, u64)>): Check<()> {
    if receives == [] then Ok(())
    else if exists v :: v in MinePaying(t.outputs, q.mine, receives[0].0) && v >= receives[0].1
    then ReceivesAll(t, q, receives[1..])
    else Err(ShortReceipt)
  }

  /** Check a typed claim; the result is the amount the wallet receives, read from the rows. */
  function VerifyTypedFund(h: Hashes, claim: TypedFund, t: Template, q: Funding): Check<u64> {
    match claim
    case Fill(s) =>
      var _ :- FillHead(t, q, s);
      var _ :- BorrowerToken(t, q);
      var _ :- Metadata(t, s);
      Proceeds(t, q, s)

    case FillV2(s, payout) =>
      var collateral :- FillHead(t, q, s);
      var borrowerNft :- BorrowerToken(t, q);
      var lenderNft :- LenderTokenOutput(t);
      var digest := h.sha(EncodeV2(TermsOf(s, collateral, borrowerNft, lenderNft, payout)));
      :- Ensure(t.outputs[POSITION_OUTPUT].script == PositionScript(h, LENDING_V2_LEAF, digest, s.buyback),
          NotTheCovenant);
      Proceeds(t, q, s)

    case FillV3(s, payout) =>
      var collateral :- FillHead(t, q, s);
      var borrowerNft :- BorrowerToken(t, q);
      var lenderNft :- LenderTokenOutput(t);
      :- Ensure(h.sha(ClaimScript(h, lenderNft)) == payout, PayoutNotClaimScript);
      var digest := h.sha(EncodeV2(TermsOf(s, collateral, borrowerNft, lenderNft, payout)));
      :- Ensure(t.outputs[POSITION_OUTPUT].script == PositionScript(h, LENDING_V3_LEAF, digest, s.buyback),
          NotTheCovenant);
      Proceeds(t, q, s)

    case FillV4(s, payout, lastLook, height) =>
      var collateral :- FillHead(t, q, s);
      var borrowerNft :- BorrowerToken(t, q);
      var lenderNft :- LenderTokenOutput(t);
      LastLookFill(h, t, q, s, payout, lastLook, height, LENDING_V4_LEAF, collateral, borrowerNft, lenderNft)

    case FillV5(s, payout, lastLook, height) =>
      var collateral :- FillHead(t, q, s);
      var borrowerNft :- BorrowerToken(t, q);
      var lenderNft :- LenderTokenOutput(t);
      LastLookFill(h, t, q, s, payout, lastLook, height, LENDING_V5_LEAF, collateral, borrowerNft, lenderNft)

    case FillV6(s, payout, lastLook, height, lenderNft) =>
      var collateral :- FillHead(t, q, s);
      var borrowerNft :- BorrowerToken(t, q);
      LastLookFill(h, t, q, s, payout, lastLook, height, LENDING_V5_LEAF, collateral, borrowerNft, lenderNft)

    case Offer(terms, amounts, tokenOutput) =>
      :- Ensure(q.requested == terms.cash, WrongAsset);
      :- Ensure(0 < |amounts| <= 4, CoinCount);
      :- Ensure(CheckedTotal(amounts).Some?, AmountsOverflow);
      :- Ensure(Some(q.amount) == CheckedTotal(amounts), WrongAmount);
      :- Ensure(0 < |terms.rows| <= OFFER_ROWS, RowCount);
      :- Ensure(forall r :: r in terms.rows ==> r.expiry > 0 && r.priceOut > 0 && r.buyback > 0
          && r.minSize > 0, ZeroTerm);
      :- Ensure(terms.positionLeaf == LENDING_V5_LEAF, UnknownProgram);
      :- Ensure(terms.claim == h.sha(ClaimScript(h, terms.lenderToken)), PayoutNotClaimScript);
      var _ :- OfferCoins(h, t, terms, amounts, 0);
      if tokenOutput.None? then Ok(0)
      else
        var (asset, value) :- Explicit(t.outputs, tokenOutput.value);
        :- Ensure(asset == terms.lenderToken && value == 1 && tokenOutput.value in q.mine, NotMyToken);
        Ok(0)

    case OfferCancel(cash, back, fee, lenderToken) =>
      var token :- OwnedToken(q);
      :- Ensure(token.amount == 1 && token.asset == lenderToken, NoOwnedToken);
      :- Ensure(q.requested == q.policy && q.amount == fee, WrongAmount);
      :- Ensure(fee <= 5000, UnreasonableFee);
      var (a0, v0) :- Explicit(t.outputs, 0);
      :- Ensure(a0 == lenderToken && v0 == 1 && 0 in q.mine, TokenNotReturned);
      var got := BestAtLeast(MinePaying(t.outputs, q.mine, cash), back);
      if got.Some? then Ok(got.value) else Err(ShortReceipt)

    case Claim(lenderToken, fee, receives) =>
      var token :- OwnedToken(q);
      :- Ensure(token.amount == 1 && token.asset == lenderToken, NoOwnedToken);
      :- Ensure(q.requested == q.policy && q.amount == fee, WrongAmount);
      :- Ensure(fee <= 20000, UnreasonableFee);
      :- Ensure(receives != [], NothingReceived);
      var (a0, v0) :- Explicit(t.outputs, 0);
      :- Ensure(a0 == lenderToken && v0 == 1 && 0 in q.mine, TokenNotReturned);
      var _ :- ReceivesAll(t, q, receives);
      Ok(receives[0].1)

    case SellRight(price, cash, fee) =>
      var token :- OwnedToken(q);
      :- Ensure(token.amount == 1, NoOwnedToken);
      :- Ensure(q.requested == q.policy && q.amount == fee, WrongAmount);
      :- Ensure(fee <= 5000, UnreasonableFee);
      :- Ensure(price > 0, ZeroPrice);
      var got := BestAtLeast(MinePaying(t.outputs, q.mine, cash), price);
      if got.Some? then Ok(got.value) else Err(ShortReceipt)

    case Exercise(pay, released, remaining, cash, collateral0) =>
      var collateral := Or(collateral0, q.policy);
      :- Ensure(q.requested == cash, WrongAsset);
      :- Ensure(q.amount == pay, WrongAmount);
      var token :- OwnedToken(q);
      :- Ensure(token.amount == 1, NoOwnedToken);
      var _ :- ExerciseToken(t, q, remaining, token.asset, collateral);
      var got := BestAtLeast(MinePaying(t.outputs, q.mine, collateral), released);
      if got.Some? then Ok(got.value) else Err(ShortReceipt)
  }

  /** A partial exercise returns the token and continues the position; a full one has a data output of the
      token's asset, of whatever amount. */
  function ExerciseToken(t: Template, q: Funding, remaining: u64, token: AssetId, collateral: AssetId): Check<()> {
    if remaining > 0 then
      var (asset, value) :- Explicit(t.outputs, 0);
      :- Ensure(asset == token && value == 1 && 0 in q.mine
          && OpReturnPayload(t.outputs[0].script).None?, TokenNotReturned);
      var (asset1, _) :- Explicit(t.outputs, 1);
      :- Ensure(asset1 == collateral, NoContinuingPosition);
      Ok(())
    else
      :- Ensure(t.outputs != [], NoSuchOutput);
      :- Ensure(OpReturnPayload(t.outputs[0].script).Some? && t.outputs[0].asset == Some(token), TokenNotBurned);
      Ok(())
  }
}
