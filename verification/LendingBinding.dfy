/** What the covenant output of an accepted claim fixes, and what its texts and data outputs say. */
module LendingBinding {
  import opened Common
  import opened Pset
  import opened Covenant
  import opened Approval
  import opened Lending
  import opened LendingTheorems

  /** The terms a covenant fill commits to, with its program and its debt. */
  datatype Committed = Committed(leaf: Bytes32, terms: PositionTerms, tail: Bytes, debt: u64)

  predicate IsCovenantFill(claim: TypedFund) {
    claim.FillV2? || claim.FillV3? || claim.FillV4? || claim.FillV5? || claim.FillV6?
  }

  function LeafOf(claim: TypedFund): Bytes32 {
    match claim
    case FillV2(_, _) => LENDING_V2_LEAF
    case FillV3(_, _) => LENDING_V3_LEAF
    case FillV4(_, _, _, _) => LENDING_V4_LEAF
    case _ => LENDING_V5_LEAF
  }

  /** The last look of a fill from v4 on: the borrower is paid where its position token goes. */
  function LookOf(h: Hashes, t: Template, claim: TypedFund): LastLook
    requires claim.FillV4? || claim.FillV5? || claim.FillV6?
    requires |t.outputs| > BORROWER_NFT_OUTPUT
  {
    LastLook(h.sha(t.outputs[BORROWER_NFT_OUTPUT].script), claim.lastLook, claim.lastLookHeight)
  }

  function CommittedBy(h: Hashes, t: Template, q: Funding, claim: TypedFund): Committed
    requires IsCovenantFill(claim) && |t.outputs| > BORROWER_NFT_OUTPUT
  {
    var lenderNft := if claim.FillV6? then claim.lenderNft else AssetAt(t, LENDER_NFT_OUTPUT);
    var terms := TermsOf(claim.s, Or(claim.s.collateral, q.policy), AssetAt(t, BORROWER_NFT_OUTPUT), lenderNft,
        claim.payout);
    Committed(LeafOf(claim), terms, if claim.FillV2? || claim.FillV3? then []
        else EncodeLastLook(LookOf(h, t, claim)), claim.s.buyback)
  }

  function CommittedScript(h: Hashes, k: Committed): Script {
    PositionScript(h, k.leaf, h.sha(EncodePosition(k.terms, k.tail)), k.debt)
  }

  /** The covenant check: an accepted fill's position output is the script of its own terms, and
      from v3 on the lender is paid at the claim script of its token. */
  lemma {:induction false} AcceptedFillIsCommitted(h: Hashes, t: Template, q: Funding, claim: TypedFund)
    requires IsCovenantFill(claim) && VerifyTypedFund(h, claim, t, q).Ok?
    ensures |t.outputs| > BORROWER_NFT_OUTPUT
    ensures t.outputs[POSITION_OUTPUT].script == CommittedScript(h, CommittedBy(h, t, q, claim))
    ensures !claim.FillV2? ==> claim.payout == h.sha(ClaimScript(h, CommittedBy(h, t, q, claim).terms.lenderNft))
    ensures claim.FillV4? || claim.FillV5? || claim.FillV6? ==>
              claim.lastLookHeight == 0 || claim.lastLookHeight < claim.s.expiry
  {
    hide PositionScript, ClaimScript, EncodePosition, EncodeLastLook, Proceeds;
  }

  /** Covenant binding for fills: two accepted claims of one program whose position outputs carry
      the same script agree on every digested term and on the debt, or the strings hashed for
      the two scripts exhibit a collision or a NUMS-tweak clash. */
  lemma {:induction false} FillsBind(h: Hashes, t: Template, q: Funding, claim: TypedFund, t': Template, q': Funding,
      claim': TypedFund)
    requires IsCovenantFill(claim) && VerifyTypedFund(h, claim, t, q).Ok?
    requires IsCovenantFill(claim') && VerifyTypedFund(h, claim', t', q').Ok?
    requires t.outputs != [] && t'.outputs != []
    requires t.outputs[POSITION_OUTPUT].script == t'.outputs[POSITION_OUTPUT].script
    ensures |t.outputs| > BORROWER_NFT_OUTPUT && |t'.outputs| > BORROWER_NFT_OUTPUT
    ensures var k, k' := CommittedBy(h, t, q, claim), CommittedBy(h, t', q', claim');
            || (k.terms == k'.terms && k.debt == k'.debt && k.leaf == k'.leaf
                && ((claim.FillV4? || claim.FillV5? || claim.FillV6?)
                    && (claim'.FillV4? || claim'.FillV5? || claim'.FillV6?)
                    ==> LookOf(h, t, claim) == LookOf(h, t', claim')))
            || Broken(h, k.leaf, EncodePosition(k.terms, k.tail), k.debt, k'.leaf, EncodePosition(k'.terms, k'.tail),
                k'.debt)
  {
    AcceptedFillIsCommitted(h, t, q, claim);
    AcceptedFillIsCommitted(h, t', q', claim');
    hide VerifyTypedFund, PositionScript, Broken, EncodePosition, EncodeLastLook;
    var k, k' := CommittedBy(h, t, q, claim), CommittedBy(h, t', q', claim');
    PositionScriptBinds(h, k.leaf, EncodePosition(k.terms, k.tail), k.debt, k'.leaf, EncodePosition(k'.terms, k'.tail),
        k'.debt);
    if !Broken(h, k.leaf, EncodePosition(k.terms, k.tail), k.debt, k'.leaf, EncodePosition(k'.terms, k'.tail),
        k'.debt) {
      PositionEncodingInjective(k.terms, k.tail, k'.terms, k'.tail);
      if (claim.FillV4? || claim.FillV5? || claim.FillV6?) && (claim'.FillV4? || claim'.FillV5? || claim'.FillV6?) {
        LastLookEncodingInjective(LookOf(h, t, claim), LookOf(h, t', claim'));
      }
    }
  }

  /** Every coin of an accepted offer is the offer covenant for its terms and its own amount. */
  lemma {:induction false} OfferCoinsAreCommitted(h: Hashes, t: Template, terms: OfferTerms, amounts: seq<u64>, i: nat,
      j: nat)
    requires i <= j < |amounts| && OfferCoins(h, t, terms, amounts, i).Ok?
    ensures j < |t.outputs| && t.outputs[j].script
            == PositionScript(h, OFFER_LEAF, h.sha(EncodeOffer(terms)), amounts[j])
    ensures Explicit(t.outputs, j) == Ok((terms.cash, amounts[j]))
    decreases |amounts| - i
  {
    hide PositionScript, EncodeOffer;
    if i < j {
      OfferCoinsAreCommitted(h, t, terms, amounts, i + 1, j);
    }
  }

  lemma AcceptedOffer(h: Hashes, t: Template, q: Funding, claim: TypedFund)
    requires claim.Offer? && VerifyTypedFund(h, claim, t, q).Ok?
    ensures RowsWellFormed(claim.terms.rows) && OfferCoins(h, t, claim.terms, claim.amounts, 0).Ok?
    ensures CheckedTotal(claim.amounts) == Some(q.amount) && 0 < |claim.amounts| <= 4
  {
    hide OfferCoins, ClaimScript;
  }

  /** Covenant binding for offers: two accepted offers that share one coin's script agree on all
      terms, the rows and their number included, and on that coin's amount. */
  lemma {:induction false} OffersBind(h: Hashes, t: Template, q: Funding, claim: TypedFund, i: nat, t': Template,
      q': Funding, claim': TypedFund, j: nat)
    requires claim.Offer? && VerifyTypedFund(h, claim, t, q).Ok? && i < |claim.amounts| && i < |t.outputs|
    requires claim'.Offer? && VerifyTypedFund(h, claim', t', q').Ok? && j < |claim'.amounts| && j < |t'.outputs|
    requires t.outputs[i].script == t'.outputs[j].script
    ensures || (claim.terms == claim'.terms && claim.amounts[i] == claim'.amounts[j])
            || Broken(h, OFFER_LEAF, EncodeOffer(claim.terms), claim.amounts[i], OFFER_LEAF, EncodeOffer(claim'.terms),
                claim'.amounts[j])
  {
    AcceptedOffer(h, t, q, claim);
    AcceptedOffer(h, t', q', claim');
    hide VerifyTypedFund, PositionScript, Broken, EncodeOffer, RowsWellFormed, OfferCoins;
    OfferCoinsAreCommitted(h, t, claim.terms, claim.amounts, 0, i);
    OfferCoinsAreCommitted(h, t', claim'.terms, claim'.amounts, 0, j);
    PositionScriptBinds(h, OFFER_LEAF, EncodeOffer(claim.terms), claim.amounts[i], OFFER_LEAF,
        EncodeOffer(claim'.terms), claim'.amounts[j]);
    if EncodeOffer(claim.terms) == EncodeOffer(claim'.terms) {
      WellFormedRowsBind(claim.terms, claim'.terms);
    }
  }

  function Id(): u64 -> nat { v => v }

  lemma {:induction false} CheckedTotalIsSum(amounts: seq<u64>)
    ensures CheckedTotal(amounts).Some? <==> Sum(amounts, Id()) < U64_LIMIT
    ensures CheckedTotal(amounts).Some? ==> CheckedTotal(amounts).value == Sum(amounts, Id())
  {
    if amounts != [] {
      CheckedTotalIsSum(amounts[..|amounts| - 1]);
    }
  }

  /** The unchecked sum in the rendered text cannot overflow on an accepted offer, at any prefix,
      and it shows exactly the funded amount. */
  lemma RenderedOfferTotal(h: Hashes, t: Template, q: Funding, claim: TypedFund, n: nat)
    requires claim.Offer? && VerifyTypedFund(h, claim, t, q).Ok? && n <= |claim.amounts|
    ensures Sum(claim.amounts[..n], Id()) < U64_LIMIT
    ensures Sum(claim.amounts, Id()) == q.amount
  {
    AcceptedOffer(h, t, q, claim);
    CheckedTotalIsSum(claim.amounts);
    SumPrefix(claim.amounts, Id(), n);
  }

  /** An `OP_RETURN` payload is read from exactly the two single-push forms. */
  lemma OpReturnForms(b: Script, p: Bytes)
    ensures OpReturnPayload(b) == Some(p) <==>
            || (1 <= |p| <= 75 && b == [0x6a, |p|] + p)
            || (|p| <= 255 && b == [0x6a, 0x4c, |p|] + p)
  {
    if OpReturnPayload(b) == Some(p) {
      if b[1] == 0x4c {
        assert b == [0x6a, 0x4c, |p|] + p;
      } else {
        assert b == [0x6a, |p|] + p;
      }
    }
    assert ([0x6a, |p|] + p)[2..] == p;
    assert ([0x6a, 0x4c, |p|] + p)[3..] == p;
  }
}
