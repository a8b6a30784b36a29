/** What a full exercise of a lending right does with the position token: the check looks at the asset and
    script of output 0 and never at its amount. */
module LendingExercise {
  import opened Common
  import opened Pset
  import opened Covenant
  import opened Approval
  import opened ApprovalTheorems
  import opened ExplicitTemplates
  import opened Lending
  import opened LendingTheorems

  /** What output 0 burns of `token`: its true contents, if it is a data output. */
  function Burned(w: Opening, t: Template, token: AssetId): nat {
    if t.outputs != [] && OpReturnPayload(t.outputs[0].script).Some? then TrueDebit(w, t.outputs[0], token) else 0
  }

  lemma FullExercise(h: Hashes, t: Template, claim: TypedFund, q: Funding)
    requires claim.Exercise? && claim.remaining == 0 && VerifyTypedFund(h, claim, t, q).Ok?
    ensures Declared(q.owned, 0).Some? && Declared(q.owned, 0).value.amount == 1
    ensures t.outputs != [] && OpReturnPayload(t.outputs[0].script).Some?
            && t.outputs[0].asset == Some(Declared(q.owned, 0).value.asset)
  {
    hide MinePaying, BestAtLeast, OpReturnPayload, Declared;
  }

  /** A full exercise that passes both checks burns exactly what output 0 states, so it burns the spent unit
      if and only if that output's amount is not zero. */
  lemma FullExerciseBurnsIff(c: Crypto, w: Opening, h: Hashes, t: Template, claim: TypedFund, q: Funding)
    requires BothAccept(c, w, h, t, claim, q) && claim.Exercise? && claim.remaining == 0
    ensures Declared(q.owned, 0).Some? && t.outputs != [] && t.outputs[0].amount.Some?
    ensures Burned(w, t, Declared(q.owned, 0).value.asset) == t.outputs[0].amount.value
    ensures Burned(w, t, Declared(q.owned, 0).value.asset) >= 1 <==> t.outputs[0].amount.value != 0
  {
    VerifiedByBoth(c, w, h, t, claim, q);
    FullExercise(h, t, claim, q);
    hide VerifyTypedFund, OpReturnPayload, Declared, Claims, InTotal, OutTotal, ReadOutput, TrueDebit, OutBinds,
      InBinds, Honest;
    var o, token := t.outputs[0], Declared(q.owned, 0).value.asset;
    assert o in t.outputs;
    ExplicitIsVerified(c, o, token);
    ExplicitIsTrue(c, w, o, token);
  }

  // ----- A full exercise that burns nothing -----

  const BURN: Script := [0x6a, 0x01, 0x00]
  const WALLET: Script := [0x51]
  const STRANGER: Script := [0x52]

  /** The token, and six of the policy asset: five that are released and one that is the fee. */
  function KeptIn(token: AssetId, policy: AssetId): seq<Entry> { [(token, 1), (policy, 6)] }

  /** A data output of no unit, the released collateral, the cash that is paid, the token, and the fee. */
  function KeptOut(token: AssetId, policy: AssetId, cash: AssetId): seq<Entry> {
    [(token, 0), (policy, 5), (cash, 100), (token, 1), (policy, 1)]
  }

  const KEPT_SCRIPTS: seq<Script> := [BURN, WALLET, STRANGER, STRANGER, []]

  function KeptTemplate(token: AssetId, policy: AssetId, cash: AssetId): Template {
    Build(KeptIn(token, policy), KeptOut(token, policy, cash), KEPT_SCRIPTS)
  }

  function KeptFunding(token: AssetId, policy: AssetId, cash: AssetId): Funding {
    Funding(cash, 100, policy, [1], [OwnedInput(0, token, 1)])
  }

  lemma KeptInListed(token: AssetId, policy: AssetId, b: AssetId)
    ensures Listed(KeptIn(token, policy), b) == EntryFor((token, 1), b) + EntryFor((policy, 6), b)
  {
    hide Listed, EntryFor;
    var r0: Entry, r1: Entry := (token, 1), (policy, 6);
    assert KeptIn(token, policy) == [r0] + [r1];
    ListedConcat([r0], [r1], b);
    ListedOne(r0, b);
    ListedOne(r1, b);
  }

  lemma KeptOutListed(token: AssetId, policy: AssetId, cash: AssetId, b: AssetId)
    ensures Listed(KeptOut(token, policy, cash), b)
            == EntryFor((token, 0), b) + EntryFor((policy, 5), b) + EntryFor((cash, 100), b) + EntryFor((token, 1), b)
               + EntryFor((policy, 1), b)
  {
    hide Listed, EntryFor;
    var r0: Entry, r1: Entry, r2: Entry, r3: Entry, r4: Entry
      := (token, 0), (policy, 5), (cash, 100), (token, 1), (policy, 1);
    assert KeptOut(token, policy, cash) == [r0] + ([r1] + ([r2] + ([r3] + [r4])));
    ListedConcat([r0], [r1] + ([r2] + ([r3] + [r4])), b);
    ListedConcat([r1], [r2] + ([r3] + [r4]), b);
    ListedConcat([r2], [r3] + [r4], b);
    ListedConcat([r3], [r4], b);
    ListedOne(r0, b);
    ListedOne(r1, b);
    ListedOne(r2, b);
    ListedOne(r3, b);
    ListedOne(r4, b);
  }

  lemma KeptLacks(token: AssetId, policy: AssetId, cash: AssetId)
    requires token != policy && token != cash && policy != cash
    ensures Lacks(KeptIn(token, policy), KeptOut(token, policy, cash), cash, 100)
  {
    forall b: AssetId
      ensures Listed(KeptIn(token, policy), b) < U64_LIMIT && Listed(KeptOut(token, policy, cash), b) < U64_LIMIT
      ensures Listed(KeptOut(token, policy, cash), b)
              == Listed(KeptIn(token, policy), b) + if b == cash then 100 else 0
    {
      KeptInListed(token, policy, b);
      KeptOutListed(token, policy, cash, b);
      hide Listed;
    }
  }

  lemma KeptShape(token: AssetId, policy: AssetId, cash: AssetId)
    ensures |KEPT_SCRIPTS| == |KeptOut(token, policy, cash)| == 5 && FeeAt(KEPT_SCRIPTS, 4)
    ensures Declares(KeptIn(token, policy), KeptFunding(token, policy, cash).owned)
    ensures forall i :: 0 <= i < |KeptIn(token, policy)| ==> KeptIn(token, policy)[i].1 > 0
    ensures forall i :: 0 <= i < 5 ==> KeptOut(token, policy, cash)[i].1 > 0 || IsData(KEPT_SCRIPTS[i])
    ensures KeptOut(token, policy, cash)[4].1 == 1 && |KeptIn(token, policy)| == 2 <= Pow256(32)
  {
    assert Pow256(32) == 256 * Pow256(31);
  }

  lemma KeptAccepted(c: Crypto, token: AssetId, policy: AssetId, cash: AssetId)
    requires token != policy && token != cash && policy != cash
    ensures ChainValid(KeptTemplate(token, policy, cash))
    ensures Accepts(c, KeptTemplate(token, policy, cash), cash, 100, KeptFunding(token, policy, cash).owned)
  {
    KeptLacks(token, policy, cash);
    KeptShape(token, policy, cash);
    hide Lacks, Accepts, ChainValid, Build, Pow256, KeptIn, KeptOut, KEPT_SCRIPTS, KeptFunding, Declares, FeeAt;
    BuiltValid(KeptIn(token, policy), KeptOut(token, policy, cash), KEPT_SCRIPTS);
    BuiltAccepted(c, KeptIn(token, policy), KeptOut(token, policy, cash), KEPT_SCRIPTS,
                  KeptFunding(token, policy, cash).owned, 4, cash, 100);
  }

  lemma KeptOutputs(token: AssetId, policy: AssetId, cash: AssetId)
    ensures var outputs := KeptTemplate(token, policy, cash).outputs;
            && |outputs| == 5 && outputs[0] == Paying(BURN, (token, 0)) && outputs[1] == Paying(WALLET, (policy, 5))
            && outputs[3] == Paying(STRANGER, (token, 1))
  {
    hide Spending;
  }

  /** What the check asks of a full exercise. */
  lemma ExercisePasses(h: Hashes, claim: TypedFund, t: Template, q: Funding, token: AssetId)
    requires claim.Exercise? && claim.remaining == 0 && q.owned == [OwnedInput(0, token, 1)]
    requires q.requested == claim.cash && q.amount == claim.pay && t.outputs != []
    requires OpReturnPayload(t.outputs[0].script).Some? && t.outputs[0].asset == Some(token)
    requires BestAtLeast(MinePaying(t.outputs, q.mine, Or(claim.collateral, q.policy)), claim.released).Some?
    ensures VerifyTypedFund(h, claim, t, q).Ok?
  {
    assert Declared(q.owned, 0) == Some(q.owned[0]);
    hide BestAtLeast, MinePaying, OpReturnPayload, Declared;
  }

  /** A template that a chain could hold and both checks accept as a full exercise: output 0 is a data output
      of zero units, and the one unit of the token goes to a stranger at output 3. */
  lemma FullExerciseMayKeepToken(c: Crypto, w: Opening, h: Hashes, token: AssetId, policy: AssetId, cash: AssetId)
    requires token != policy && token != cash && policy != cash
    ensures var claim, t, q := Exercise(100, 5, 0, cash, None), KeptTemplate(token, policy, cash),
                               KeptFunding(token, policy, cash);
            && ChainValid(t) && Accepts(c, t, q.requested, q.amount, q.owned) && VerifyTypedFund(h, claim, t, q).Ok?
            && Burned(w, t, token) == 0 && t.outputs[3] == Paying(STRANGER, (token, 1))
  {
    var t, q := KeptTemplate(token, policy, cash), KeptFunding(token, policy, cash);
    KeptAccepted(c, token, policy, cash);
    KeptOutputs(token, policy, cash);
    hide Accepts, ChainValid, KeptTemplate, VerifyTypedFund;
    assert OpReturnPayload(BURN) == Some([0x00]);
    assert Explicit(t.outputs, 1) == Ok((policy, 5));
    MinePayingFinds(t.outputs, q.mine, policy, 5, 1);
    BestIsBest(MinePaying(t.outputs, q.mine, policy), 5);
    hide MinePaying, BestAtLeast, OpReturnPayload;
    ExercisePasses(h, Exercise(100, 5, 0, cash, None), t, q, token);
  }
}
