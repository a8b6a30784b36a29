/** The fund-template rule over the fields of the rows alone: which rows can be read and what they say,
    which issuances are refused, and the whole acceptance rule without the verifier's own readers. */
module ApprovalFields {
  import opened Common
  import opened Pset
  import opened Approval
  import opened ApprovalTheorems

  // ----- One row -----

  /** The row states `a` and `v` and carries two proofs that verify for them against its commitments. */
  predicate Proven(c: Crypto, asset: Option<AssetId>, amount: Option<u64>, assetProof: Option<Bytes>,
                   valueProof: Option<Bytes>, g: Bytes, k: Bytes, a: AssetId, v: u64)
  {
    && asset == Some(a) && amount == Some(v) && assetProof.Some? && valueProof.Some?
    && c.assetProofVerifies(assetProof.value, a, g) && c.valueProofVerifies(valueProof.value, v, g, k)
  }

  /** The input's coin counts as `v` of `a`: an explicit coin, which a declaration must repeat; a declared
      confidential coin, on the host's word; or an undeclared confidential one, by its proofs. */
  predicate CoinSays(c: Crypto, input: Input, declared: Option<(AssetId, u64)>, a: AssetId, v: u64, proven: bool) {
    input.witnessUtxo.Some? &&
      var utxo := input.witnessUtxo.value;
      || (utxo.asset == ExplicitAsset(a) && utxo.value == ExplicitValue(v) && !proven
          && (declared.None? || declared == Some((a, v))))
      || (utxo.asset.ConfidentialAsset? && utxo.value.ConfidentialValue? && !proven && declared == Some((a, v)))
      || (utxo.asset.ConfidentialAsset? && utxo.value.ConfidentialValue? && proven && declared.None?
          && Proven(c, input.asset, input.amount, input.blindAssetProof, input.blindValueProof,
                    utxo.asset.generator, utxo.value.commitment, a, v))
  }

  /** An issuance the wallet may count: none stated, or a new explicit one without reissuance tokens. */
  predicate IssuanceAllowed(input: Input) {
    input.issuanceValueAmount.Some? ==>
      && (input.blindedIssuance == None || input.blindedIssuance == Some(0))
      && (input.issuanceInflationKeys == None || input.issuanceInflationKeys == Some(0))
      && (input.issuanceBlindingNonce == None || input.issuanceBlindingNonce == Some(Zeros(32)))
      && input.issuanceAssetEntropy.Some?
  }

  /** The output pays `v` of `a`: explicitly, or by its proofs and then not as the fee. */
  predicate OutputSays(c: Crypto, o: Output, a: AssetId, v: u64, proven: bool) {
    || (o.assetComm == None && o.amountComm == None && o.asset == Some(a) && o.amount == Some(v) && !proven)
    || (o.assetComm.Some? && o.amountComm.Some? && o.script != [] && proven
        && Proven(c, o.asset, o.amount, o.blindAssetProof, o.blindValueProof,
                  o.assetComm.value, o.amountComm.value, a, v))
  }

  function Pair(declared: Option<OwnedInput>): Option<(AssetId, u64)> {
    if declared.Some? then Some((declared.value.asset, declared.value.amount)) else None
  }

  /** An input's coin is read exactly when its fields say so. */
  lemma CoinReadIff(c: Crypto, input: Input, declared: Option<OwnedInput>, a: AssetId, v: u64, proven: bool)
    ensures ReadInput(c, input, declared) == Ok(Row(a, v, proven)) <==> CoinSays(c, input, Pair(declared), a, v, proven)
  {
  }

  /** So is an issuance: refused if and only if one is stated that is blinded, that carries inflation keys, that is
      a reissuance or that has no entropy. */
  lemma IssuanceReadIff(c: Crypto, input: Input)
    ensures ReadIssuance(c, input).Ok? <==> IssuanceAllowed(input)
    ensures ReadIssuance(c, input) == Ok(None) <==> input.issuanceValueAmount == None
    ensures IssuanceAllowed(input) && input.issuanceValueAmount.Some? ==>
              ReadIssuance(c, input) == Ok(Some(Row(c.issuedAsset(input.prevout, input.issuanceAssetEntropy.value),
                                                    input.issuanceValueAmount.value, false)))
  {
    assert ZERO_TWEAK == Zeros(32);
  }

  lemma OutputReadIff(c: Crypto, o: Output, a: AssetId, v: u64, proven: bool)
    ensures ReadOutput(c, o) == Ok(Row(a, v, proven)) <==> OutputSays(c, o, a, v, proven)
  {
  }

  /** What each reason for refusing one row means. */
  lemma RefusalsMean(c: Crypto, input: Input, declared: Option<OwnedInput>)
    ensures ReadInput(c, input, declared) == Err(NoWitnessUtxo) <==> input.witnessUtxo == None
    ensures ReadInput(c, input, declared) == Err(OwnedDisagrees) <==>
              && input.witnessUtxo.Some? && declared.Some?
              && input.witnessUtxo.value.asset.ExplicitAsset? && input.witnessUtxo.value.value.ExplicitValue?
              && !(input.witnessUtxo.value.asset == ExplicitAsset(declared.value.asset)
                   && input.witnessUtxo.value.value == ExplicitValue(declared.value.amount))
    ensures ReadInput(c, input, declared) == Err(AssetProofFails) ==>
              input.asset.Some? && input.blindAssetProof.Some? && input.witnessUtxo.value.asset.ConfidentialAsset?
              && !c.assetProofVerifies(input.blindAssetProof.value, input.asset.value,
                                       input.witnessUtxo.value.asset.generator)
    ensures ReadIssuance(c, input) == Err(BlindedIssuance) ==>
              input.blindedIssuance.Some? && input.blindedIssuance != Some(0)
    ensures ReadIssuance(c, input) == Err(InflationKeys) ==>
              input.issuanceInflationKeys.Some? && input.issuanceInflationKeys != Some(0)
    ensures ReadIssuance(c, input) == Err(Reissuance) ==>
              input.issuanceBlindingNonce.Some? && input.issuanceBlindingNonce != Some(Zeros(32))
  {
    assert ZERO_TWEAK == Zeros(32);
  }

  // ----- The whole rule -----

  /** What the host declares of a claimed input. */
  function Word(x: Claimed): Option<(AssetId, u64)> {
    if x.asset.Some? && x.amount.Some? then Some((x.asset.value, x.amount.value)) else None
  }

  /** What an input brings into `a`, by its fields: the coin, taken from the declaration, the coin itself or the
      claim that its proofs support, and the stated issuance. */
  function FieldCredit(c: Crypto, x: Claimed, a: AssetId): nat {
    (match Word(x)
     case Some((b, v)) => if a == b then v else 0
     case None =>
       if x.input.witnessUtxo.Some? && x.input.witnessUtxo.value.asset == ExplicitAsset(a)
       then (match x.input.witnessUtxo.value.value case ExplicitValue(v) => v case _ => 0)
       else if x.input.witnessUtxo.Some? && x.input.witnessUtxo.value.asset.ConfidentialAsset?
               && x.input.asset == Some(a)
       then (if x.input.amount.Some? then x.input.amount.value else 0)
       else 0)
    + (if x.input.issuanceValueAmount.Some? && x.input.issuanceAssetEntropy.Some?
          && c.issuedAsset(x.input.prevout, x.input.issuanceAssetEntropy.value) == a
       then x.input.issuanceValueAmount.value else 0)
  }

  /** What an output states that it pays of `a`. */
  function FieldDebit(o: Output, a: AssetId): nat {
    if o.asset == Some(a) && o.amount.Some? then o.amount.value else 0
  }

  function FieldCreditIn(c: Crypto, a: AssetId): Claimed -> nat { x => FieldCredit(c, x, a) }
  function FieldDebitIn(a: AssetId): Output -> nat { o => FieldDebit(o, a) }

  ghost predicate InputAllowed(c: Crypto, x: Claimed) {
    (exists a, v, proven :: CoinSays(c, x.input, Word(x), a, v, proven)) && IssuanceAllowed(x.input)
  }

  ghost predicate OutputAllowed(c: Crypto, o: Output) { exists a, v, proven :: OutputSays(c, o, a, v, proven) }

  /** The `k`-th output is the fee, stated and not zero, and no other output is without a script. */
  predicate OnlyFee(outputs: seq<Output>, k: nat) {
    && k < |outputs| && outputs[k].script == [] && outputs[k].amount.Some? && outputs[k].amount.value > 0
    && forall i :: 0 <= i < |outputs| && i != k ==> outputs[i].script != []
  }

  /** The acceptance rule over fields. */
  ghost predicate FieldsAccept(c: Crypto, t: Template, want: AssetId, amount: u64, owned: seq<OwnedInput>) {
    var claims := Claims(t.inputs, owned);
    && amount > 0
    && (forall k :: 0 <= k < |owned| ==> owned[k].index < |t.inputs|)
    && (forall j, k :: 0 <= j < k < |owned| ==> owned[j].index != owned[k].index)
    && (forall x :: x in claims ==> InputAllowed(c, x))
    && (forall o :: o in t.outputs ==> OutputAllowed(c, o))
    && (exists k :: OnlyFee(t.outputs, k))
    && (forall a :: Sum(claims, FieldCreditIn(c, a)) < U64_LIMIT && Sum(t.outputs, FieldDebitIn(a)) < U64_LIMIT)
    && Sum(t.outputs, FieldDebitIn(want)) == Sum(claims, FieldCreditIn(c, want)) + amount
    && (forall a :: a != want ==> Sum(t.outputs, FieldDebitIn(a)) <= Sum(claims, FieldCreditIn(c, a)))
  }

  /** A claimed input is the template's input with what some declaration of its index says, if there is one. */
  lemma ClaimsAreDeclared(inputs: seq<Input>, owned: seq<OwnedInput>, i: nat, a: AssetId, v: u64)
    requires OwnedWellFormed(inputs, owned) && i < |inputs|
    ensures Claims(inputs, owned)[i].input == inputs[i]
    ensures Word(Claims(inputs, owned)[i]) == Some((a, v)) <==>
            exists k :: 0 <= k < |owned| && owned[k] == OwnedInput(i, a, v)
    ensures Word(Claims(inputs, owned)[i]) == None <==> forall k :: 0 <= k < |owned| ==> owned[k].index != i
  {
    hide Declared;
    DeclaredIff(owned, i);
    if Declared(owned, i).Some? {
      var k :| 0 <= k < |owned| && owned[k] == Declared(owned, i).value;
    }
  }

  lemma InputAllowedIff(c: Crypto, x: Claimed)
    ensures InputAllowed(c, x) <==> InputReadable(c, x)
  {
    hide ReadInput, ReadIssuance, CoinSays, IssuanceAllowed;
    IssuanceReadIff(c, x.input);
    var declared := if Word(x).Some? then Some(OwnedInput(0, x.asset.value, x.amount.value)) else None;
    assert Pair(declared) == Word(x) && ReadClaimed(c, x) == ReadInput(c, x.input, declared);
    if ReadClaimed(c, x).Ok? {
      var row := ReadClaimed(c, x).value;
      CoinReadIff(c, x.input, declared, row.asset, row.amount, row.proven);
    }
    if a, v, proven :| CoinSays(c, x.input, Word(x), a, v, proven) {
      CoinReadIff(c, x.input, declared, a, v, proven);
    }
  }

  lemma OutputAllowedIff(c: Crypto, o: Output)
    ensures OutputAllowed(c, o) <==> ReadOutput(c, o).Ok?
  {
    hide ReadOutput, OutputSays;
    if ReadOutput(c, o).Ok? {
      OutputReadIff(c, o, ReadOutput(c, o).value.asset, ReadOutput(c, o).value.amount, ReadOutput(c, o).value.proven);
    }
    if a, v, proven :| OutputSays(c, o, a, v, proven) {
      OutputReadIff(c, o, a, v, proven);
    }
  }

  lemma CreditIsField(c: Crypto, x: Claimed, a: AssetId)
    requires InputReadable(c, x)
    ensures Credit(c, x, a) == FieldCredit(c, x, a)
  {
  }

  lemma DebitIsField(c: Crypto, o: Output, a: AssetId)
    requires ReadOutput(c, o).Ok?
    ensures Debit(c, o, a) == FieldDebit(o, a)
    ensures o.amount.Some? && FeeValue(c, o) == if o.script == [] then o.amount.value else 0
  {
  }

  lemma TotalsAreFields(c: Crypto, claims: seq<Claimed>, outputs: seq<Output>, a: AssetId)
    requires forall x :: x in claims ==> InputReadable(c, x)
    requires forall o :: o in outputs ==> ReadOutput(c, o).Ok?
    ensures InTotal(c, claims, a) == Sum(claims, FieldCreditIn(c, a))
    ensures OutTotal(c, outputs, a) == Sum(outputs, FieldDebitIn(a))
  {
    hide Credit, FieldCredit, Debit, FieldDebit, InputReadable, ReadOutput, Sum;
    forall x | x in claims ensures CreditIn(c, a)(x) == FieldCreditIn(c, a)(x) { CreditIsField(c, x, a); }
    forall o | o in outputs ensures DebitIn(c, a)(o) == FieldDebitIn(a)(o) { DebitIsField(c, o, a); }
    SumAgrees(claims, CreditIn(c, a), FieldCreditIn(c, a));
    SumAgrees(outputs, DebitIn(c, a), FieldDebitIn(a));
  }

  /** A sum of zeros and ones is one exactly when one term is. */
  lemma OneFeeIff(c: Crypto, outputs: seq<Output>)
    requires forall o :: o in outputs ==> ReadOutput(c, o).Ok?
    ensures FeeCount(outputs) == 1 && FeeTotal(c, outputs) > 0 <==> exists k :: OnlyFee(outputs, k)
  {
    hide ReadOutput, FeeValue;
    if k :| OnlyFee(outputs, k) {
      FeeIsAt(c, outputs, k);
    }
    if FeeCount(outputs) == 1 && FeeTotal(c, outputs) > 0 {
      var k := SomeFee(outputs);
      OthersHaveScripts(outputs, k);
      FeeIsAt(c, outputs, k);
      assert OnlyFee(outputs, k);
    }
  }

  lemma {:induction false} SomeFee(outputs: seq<Output>) returns (k: nat)
    requires FeeCount(outputs) > 0
    ensures k < |outputs| && outputs[k].script == []
  {
    var n := |outputs| - 1;
    if outputs[n].script == [] {
      k := n;
    } else {
      k := SomeFee(outputs[..n]);
    }
  }

  lemma OthersHaveScripts(outputs: seq<Output>, k: nat)
    requires FeeCount(outputs) == 1 && k < |outputs| && outputs[k].script == []
    ensures forall i :: 0 <= i < |outputs| && i != k ==> outputs[i].script != []
  {
    SumPick(outputs, IsFee(), k);
    var rest := outputs[..k] + outputs[k + 1..];
    hide Sum;
    forall i | 0 <= i < |outputs| && i != k ensures outputs[i].script != [] {
      var j := if i < k then i else i - 1;
      assert rest[j] == outputs[i];
      SumPick(rest, IsFee(), j);
    }
  }

  lemma FeeIsAt(c: Crypto, outputs: seq<Output>, k: nat)
    requires forall o :: o in outputs ==> ReadOutput(c, o).Ok?
    requires k < |outputs| && outputs[k].script == []
    requires forall i :: 0 <= i < |outputs| && i != k ==> outputs[i].script != []
    ensures FeeCount(outputs) == 1 && outputs[k].amount.Some? && FeeTotal(c, outputs) == outputs[k].amount.value
  {
    hide ReadOutput, FeeValue, Sum;
    var rest := outputs[..k] + outputs[k + 1..];
    forall i | 0 <= i < |rest| ensures IsFee()(rest[i]) == 0 && FeeIn(c)(rest[i]) == 0 {
      var j := if i < k then i else i + 1;
      assert rest[i] == outputs[j] && outputs[j] in outputs;
      DebitIsField(c, outputs[j], Zeros(32));
    }
    SumZero(rest, IsFee());
    SumZero(rest, FeeIn(c));
    SumPick(outputs, IsFee(), k);
    SumPick(outputs, FeeIn(c), k);
    assert outputs[k] in outputs;
    DebitIsField(c, outputs[k], Zeros(32));
  }

  /** The verifier accepts exactly when the fields of the rows satisfy the rule. */
  lemma AcceptsIffFields(c: Crypto, t: Template, want: AssetId, amount: u64, owned: seq<OwnedInput>)
    ensures Accepts(c, t, want, amount, owned) <==> FieldsAccept(c, t, want, amount, owned)
  {
    hide InputReadable, InputAllowed, ReadOutput, OutputAllowed, InTotal, OutTotal, Sum, Claims, FeeCount, FeeTotal,
      OnlyFee, FieldCreditIn, FieldDebitIn;
    var claims := Claims(t.inputs, owned);
    forall x | x in claims ensures InputAllowed(c, x) <==> InputReadable(c, x) { InputAllowedIff(c, x); }
    forall o | o in t.outputs ensures OutputAllowed(c, o) <==> ReadOutput(c, o).Ok? { OutputAllowedIff(c, o); }
    if (forall x :: x in claims ==> InputReadable(c, x)) && (forall o :: o in t.outputs ==> ReadOutput(c, o).Ok?) {
      OneFeeIff(c, t.outputs);
      SomeFeeMeansOutputs(t.outputs);
      forall a
        ensures InTotal(c, claims, a) == Sum(claims, FieldCreditIn(c, a))
                && OutTotal(c, t.outputs, a) == Sum(t.outputs, FieldDebitIn(a))
      {
        TotalsAreFields(c, claims, t.outputs, a);
      }
    }
  }

  lemma SomeFeeMeansOutputs(outputs: seq<Output>)
    ensures (exists k :: OnlyFee(outputs, k)) ==> outputs != []
  {
  }
}
