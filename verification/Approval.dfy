/** The fund-template verifier (`approval.rs`): what each row says, the declarative
    acceptance rule, and the checked-arithmetic loop that decides it. */
module Approval {
  import opened Common
  import opened Pset

  datatype OwnedInput = OwnedInput(index: nat, asset: AssetId, amount: u64)

  datatype Summary = Summary(
    inputCount: nat,
    outputCount: nat,
    fee: u64,
    deficit: u64,
    provenRows: nat,
    ownedInputs: nat)

  datatype Refusal =
    | ZeroAmount
    | NoOutputs
    | OwnedOutside(index: nat)
    | OwnedTwice(index: nat)
    | NoWitnessUtxo
    | OwnedDisagrees
    | OwnedHalfBlinded
    | Unverifiable
    | AssetProofFails
    | ValueProofFails
    | BlindedIssuance
    | InflationKeys
    | Reissuance
    | IssuanceWithoutEntropy
    | InputSumOverflow
    | OutputSumOverflow
    | FeeMustBeExplicit
    | FeeOutputCount(count: nat)
    | ZeroFee
    | Surplus
    | DeficitMismatch(deficit: u64)
    | Undeclared(asset: AssetId)

  /** An amount of an asset, and whether a blind proof had to establish it. */
  datatype Row = Row(asset: AssetId, amount: u64, proven: bool)

  // ----- What one row says -----

  /** The first declaration naming input `i` (`owned.iter().find(..)`). */
  function Declared(owned: seq<OwnedInput>, i: nat): Option<OwnedInput> {
    if owned == [] then None
    else if owned[0].index == i then Some(owned[0])
    else Declared(owned[1..], i)
  }

  function ReadProven(c: Crypto, asset: Option<AssetId>, amount: Option<u64>, assetProof: Option<Bytes>,
                      valueProof: Option<Bytes>, generator: Bytes, commitment: Bytes): Result<Row, Refusal>
  {
    if asset.None? || amount.None? || assetProof.None? || valueProof.None? then Err(Unverifiable)
    else if !c.assetProofVerifies(assetProof.value, asset.value, generator) then Err(AssetProofFails)
    else if !c.valueProofVerifies(valueProof.value, amount.value, generator, commitment) then Err(ValueProofFails)
    else Ok(Row(asset.value, amount.value, true))
  }

  function ReadInput(c: Crypto, input: Input, declared: Option<OwnedInput>): Result<Row, Refusal> {
    if input.witnessUtxo.None? then Err(NoWitnessUtxo)
    else
      var utxo := input.witnessUtxo.value;
      match (utxo.asset, utxo.value, declared)
      case (ExplicitAsset(asset), ExplicitValue(value), Some(o)) =>
        if asset == o.asset && value == o.amount then Ok(Row(asset, value, false)) else Err(OwnedDisagrees)
      case (ConfidentialAsset(_), ConfidentialValue(_), Some(o)) => Ok(Row(o.asset, o.amount, false))
      case (_, _, Some(_)) => Err(OwnedHalfBlinded)
      case (ExplicitAsset(asset), ExplicitValue(value), None) => Ok(Row(asset, value, false))
      case (ConfidentialAsset(g), ConfidentialValue(v), None) =>
        ReadProven(c, input.asset, input.amount, input.blindAssetProof, input.blindValueProof, g, v)
      case _ => Err(Unverifiable)
  }

  /** The explicit new issuance on an input, if it has one. */
  function ReadIssuance(c: Crypto, input: Input): Result<Option<Row>, Refusal> {
    if input.issuanceValueAmount.None? then Ok(None)
    else if input.blindedIssuance.Some? && input.blindedIssuance.value != 0 then Err(BlindedIssuance)
    else if input.issuanceInflationKeys.Some? && input.issuanceInflationKeys.value != 0 then Err(InflationKeys)
    else if input.issuanceBlindingNonce.Some? && input.issuanceBlindingNonce.value != ZERO_TWEAK then Err(Reissuance)
    else if input.issuanceAssetEntropy.None? then Err(IssuanceWithoutEntropy)
    else Ok(Some(Row(c.issuedAsset(input.prevout, input.issuanceAssetEntropy.value), input.issuanceValueAmount.value,
        false)))
  }

  function ReadOutput(c: Crypto, output: Output): Result<Row, Refusal> {
    match (output.assetComm, output.amountComm)
    case (None, None) =>
      if output.asset.None? || output.amount.None? then Err(Unverifiable)
      else Ok(Row(output.asset.value, output.amount.value, false))
    case (Some(g), Some(v)) =>
      if output.asset.None? || output.amount.None? || output.blindAssetProof.None? || output.blindValueProof.None?
      then Err(Unverifiable)
      else if output.script == [] then Err(FeeMustBeExplicit)
      else ReadProven(c, output.asset, output.amount, output.blindAssetProof, output.blindValueProof, g, v)
    case _ => Err(Unverifiable)
  }

  // ----- The declarative rule: per-asset totals over unordered rows -----

  /** A template input together with what the host declared about it. */
  datatype Claimed = Claimed(input: Input, asset: Option<AssetId>, amount: Option<u64>)

  function ClaimAt(inputs: seq<Input>, owned: seq<OwnedInput>, i: nat): Claimed
    requires i < |inputs|
  {
    match Declared(owned, i)
    case None => Claimed(inputs[i], None, None)
    case Some(o) => Claimed(inputs[i], Some(o.asset), Some(o.amount))
  }

  function Claims(inputs: seq<Input>, owned: seq<OwnedInput>): (s: seq<Claimed>)
    ensures |s| == |inputs|
  {
    seq(|inputs|, i requires 0 <= i < |inputs| => ClaimAt(inputs, owned, i))
  }

  function ReadClaimed(c: Crypto, x: Claimed): Result<Row, Refusal> {
    ReadInput(c, x.input,
              if x.asset.Some? && x.amount.Some? then Some(OwnedInput(0, x.asset.value, x.amount.value)) else None)
  }

  predicate InputReadable(c: Crypto, x: Claimed) {
    ReadClaimed(c, x).Ok? && ReadIssuance(c, x.input).Ok?
  }

  function AmountOf(r: Row, a: AssetId): nat {
    if r.asset == a then r.amount else 0
  }

  /** What a readable input puts into asset `a`: its coin and its new issuance. */
  function Credit(c: Crypto, x: Claimed, a: AssetId): nat {
    (if ReadClaimed(c, x).Ok? then AmountOf(ReadClaimed(c, x).value, a) else 0)
    + (if ReadIssuance(c, x.input).Ok? && ReadIssuance(c, x.input).value.Some?
       then AmountOf(ReadIssuance(c, x.input).value.value, a) else 0)
  }

  function Debit(c: Crypto, o: Output, a: AssetId): nat {
    if ReadOutput(c, o).Ok? then AmountOf(ReadOutput(c, o).value, a) else 0
  }

  function FeeValue(c: Crypto, o: Output): nat {
    if o.script == [] && ReadOutput(c, o).Ok? then ReadOutput(c, o).value.amount else 0
  }

  function CreditIn(c: Crypto, a: AssetId): Claimed -> nat { x => Credit(c, x, a) }
  function DebitIn(c: Crypto, a: AssetId): Output -> nat { o => Debit(c, o, a) }
  function IsFee(): Output -> nat { (o: Output) => if o.script == [] then 1 else 0 }
  function FeeIn(c: Crypto): Output -> nat { o => FeeValue(c, o) }
  function ProvenIn(c: Crypto): Claimed -> nat
  { x => if ReadClaimed(c, x).Ok? && ReadClaimed(c, x).value.proven then 1 else 0 }
  function ProvenOut(c: Crypto): Output -> nat
  { o => if ReadOutput(c, o).Ok? && ReadOutput(c, o).value.proven then 1 else 0 }

  function InTotal(c: Crypto, claims: seq<Claimed>, a: AssetId): nat { Sum(claims, CreditIn(c, a)) }
  function OutTotal(c: Crypto, outputs: seq<Output>, a: AssetId): nat { Sum(outputs, DebitIn(c, a)) }
  function FeeCount(outputs: seq<Output>): nat { Sum(outputs, IsFee()) }
  function FeeTotal(c: Crypto, outputs: seq<Output>): nat { Sum(outputs, FeeIn(c)) }
  function ProvenRows(c: Crypto, claims: seq<Claimed>, outputs: seq<Output>): nat {
    Sum(claims, ProvenIn(c)) + Sum(outputs, ProvenOut(c))
  }

  predicate OwnedWellFormed(inputs: seq<Input>, owned: seq<OwnedInput>) {
    && (forall k :: 0 <= k < |owned| ==> owned[k].index < |inputs|)
    && (forall j, k :: 0 <= j < k < |owned| ==> owned[j].index != owned[k].index)
  }

  /** The rule over claimed inputs and outputs; it never mentions an index. */
  ghost predicate Balanced(c: Crypto, claims: seq<Claimed>, outputs: seq<Output>, want: AssetId, amount: u64) {
    && amount > 0
    && outputs != []
    && (forall x :: x in claims ==> InputReadable(c, x))
    && (forall o :: o in outputs ==> ReadOutput(c, o).Ok?)
    && (forall a :: InTotal(c, claims, a) < U64_LIMIT)
    && (forall a :: OutTotal(c, outputs, a) < U64_LIMIT)
    && FeeCount(outputs) == 1
    && FeeTotal(c, outputs) > 0
    && OutTotal(c, outputs, want) == InTotal(c, claims, want) + amount
    && (forall a :: a != want ==> OutTotal(c, outputs, a) <= InTotal(c, claims, a))
  }

  ghost predicate Accepts(c: Crypto, t: Template, want: AssetId, amount: u64, owned: seq<OwnedInput>) {
    OwnedWellFormed(t.inputs, owned) && Balanced(c, Claims(t.inputs, owned), t.outputs, want, amount)
  }

  /** Each refusal names a fact about the template that really holds. */
  ghost predicate Justified(r: Refusal, c: Crypto, t: Template, want: AssetId, amount: u64, owned: seq<OwnedInput>) {
    var claims := Claims(t.inputs, owned);
    match r
    case ZeroAmount => amount == 0
    case NoOutputs => t.outputs == []
    case OwnedOutside(i) => i >= |t.inputs| && exists k :: 0 <= k < |owned| && owned[k].index == i
    case OwnedTwice(i) => exists j, k :: 0 <= j < k < |owned| && owned[j].index == owned[k].index == i
    case InputSumOverflow => exists a :: InTotal(c, claims, a) >= U64_LIMIT
    case OutputSumOverflow => exists a :: OutTotal(c, t.outputs, a) >= U64_LIMIT
    case FeeOutputCount(n) => n == FeeCount(t.outputs) && n != 1
    case ZeroFee => FeeCount(t.outputs) == 1 && FeeTotal(c, t.outputs) == 0
    case Surplus => InTotal(c, claims, want) > OutTotal(c, t.outputs, want)
    case DeficitMismatch(d) => d != amount && OutTotal(c, t.outputs, want) == InTotal(c, claims, want) + d
    case Undeclared(a) => a != want && OutTotal(c, t.outputs, a) > InTotal(c, claims, a)
    case _ =>
      || (exists x :: x in claims && RefusesInput(c, x, r))
      || (exists o :: o in t.outputs && ReadOutput(c, o) == Err(r))
  }

  // ----- The loop -----

  type Sums = map<AssetId, (u64, u64)>

  function InOf(sums: Sums, a: AssetId): nat { if a in sums then sums[a].0 else 0 }
  function OutOf(sums: Sums, a: AssetId): nat { if a in sums then sums[a].1 else 0 }

  /** `sums.entry(asset).or_default()` followed by a checked addition on the input side. */
  function AddIn(sums: Sums, a: AssetId, v: u64): Option<Sums> {
    if InOf(sums, a) + v >= U64_LIMIT then None else Some(sums[a := (InOf(sums, a) + v, OutOf(sums, a))])
  }

  function AddOut(sums: Sums, a: AssetId, v: u64): Option<Sums> {
    if OutOf(sums, a) + v >= U64_LIMIT then None else Some(sums[a := (InOf(sums, a), OutOf(sums, a) + v)])
  }

  method CheckOwned(inputs: seq<Input>, owned: seq<OwnedInput>) returns (r: Option<Refusal>)
    ensures r.None? <==> OwnedWellFormed(inputs, owned)
    ensures r.Some? ==> r.value.OwnedOutside? || r.value.OwnedTwice?
    ensures r.Some? && r.value.OwnedOutside? ==>
              r.value.index >= |inputs| && exists k :: 0 <= k < |owned| && owned[k].index == r.value.index
    ensures r.Some? && r.value.OwnedTwice? ==>
              exists j, k :: 0 <= j < k < |owned| && owned[j].index == owned[k].index == r.value.index
  {
    for n := 0 to |owned|
      invariant OwnedWellFormed(inputs, owned[..n])
    {
      if owned[n].index >= |inputs| {
        return Some(OwnedOutside(owned[n].index));
      }
      for m := 0 to n
        invariant forall j :: 0 <= j < m ==> owned[j].index != owned[n].index
      {
        if owned[m].index == owned[n].index {
          return Some(OwnedTwice(owned[n].index));
        }
      }
      assert owned[..n + 1] == owned[..n] + [owned[n]];
    }
    assert owned[..|owned|] == owned;
    return None;
  }

  lemma ReadClaimedIsReadInput(c: Crypto, inputs: seq<Input>, owned: seq<OwnedInput>, i: nat)
    requires i < |inputs|
    ensures ReadClaimed(c, Claims(inputs, owned)[i]) == ReadInput(c, inputs[i], Declared(owned, i))
    ensures Claims(inputs, owned)[i].input == inputs[i]
  {
  }

  /** The sums hold the input totals of these claims, and nothing on the output side. */
  ghost predicate InFolded(c: Crypto, claims: seq<Claimed>, sums: Sums) {
    forall a :: InOf(sums, a) == InTotal(c, claims, a) && OutOf(sums, a) == 0
  }

  /** The sums hold `sums0`'s input side and the output totals of these outputs. */
  ghost predicate OutFolded(c: Crypto, outputs: seq<Output>, sums0: Sums, sums: Sums) {
    forall a :: InOf(sums, a) == InOf(sums0, a) && OutOf(sums, a) == OutTotal(c, outputs, a)
  }

  lemma CreditStep(c: Crypto, claims: seq<Claimed>, i: nat, a: AssetId)
    requires i < |claims|
    ensures InTotal(c, claims[..i + 1], a) == InTotal(c, claims[..i], a) + Credit(c, claims[i], a)
    ensures InTotal(c, claims[..i + 1], a) <= InTotal(c, claims, a)
  {
    SumStep(claims, CreditIn(c, a), i);
    SumPrefix(claims, CreditIn(c, a), i + 1);
  }

  lemma DebitStep(c: Crypto, outputs: seq<Output>, i: nat, a: AssetId)
    requires i < |outputs|
    ensures OutTotal(c, outputs[..i + 1], a) == OutTotal(c, outputs[..i], a) + Debit(c, outputs[i], a)
    ensures OutTotal(c, outputs[..i + 1], a) <= OutTotal(c, outputs, a)
  {
    SumStep(outputs, DebitIn(c, a), i);
    SumPrefix(outputs, DebitIn(c, a), i + 1);
  }

  lemma AddInFacts(sums: Sums, b: AssetId, v: u64, a: AssetId)
    requires AddIn(sums, b, v).Some?
    ensures InOf(AddIn(sums, b, v).value, a) == InOf(sums, a) + (if a == b then v else 0)
    ensures OutOf(AddIn(sums, b, v).value, a) == OutOf(sums, a)
  {
  }

  lemma AddOutFacts(sums: Sums, b: AssetId, v: u64, a: AssetId)
    requires AddOut(sums, b, v).Some?
    ensures OutOf(AddOut(sums, b, v).value, a) == OutOf(sums, a) + (if a == b then v else 0)
    ensures InOf(AddOut(sums, b, v).value, a) == InOf(sums, a)
  {
  }

  /** One input without an issuance, folded into the sums. */
  lemma FoldPlainInput(c: Crypto, claims: seq<Claimed>, i: nat, sums: Sums, row: Row)
    requires i < |claims| && InFolded(c, claims[..i], sums)
    requires ReadClaimed(c, claims[i]) == Ok(row)
    ensures AddIn(sums, row.asset, row.amount).None? ==> InTotal(c, claims, row.asset) >= U64_LIMIT
    ensures AddIn(sums, row.asset, row.amount).Some? && ReadIssuance(c, claims[i].input) == Ok(None)
            ==> InFolded(c, claims[..i + 1], AddIn(sums, row.asset, row.amount).value)
  {
    hide ReadClaimed, ReadIssuance, InTotal;
    CreditStep(c, claims, i, row.asset);
    assert InOf(sums, row.asset) == InTotal(c, claims[..i], row.asset);
    var added := AddIn(sums, row.asset, row.amount);
    if added.Some? && ReadIssuance(c, claims[i].input) == Ok(None) {
      forall a
        ensures InOf(added.value, a) == InTotal(c, claims[..i + 1], a) && OutOf(added.value, a) == 0
      {
        CreditStep(c, claims, i, a);
        AddInFacts(sums, row.asset, row.amount, a);
        assert InOf(sums, a) == InTotal(c, claims[..i], a);
      }
    }
  }

  /** One input that also issues a new asset, folded into the sums. */
  lemma FoldIssuingInput(c: Crypto, claims: seq<Claimed>, i: nat, sums: Sums, row: Row, issued: Row)
    requires i < |claims| && InFolded(c, claims[..i], sums)
    requires ReadClaimed(c, claims[i]) == Ok(row) && ReadIssuance(c, claims[i].input) == Ok(Some(issued))
    requires AddIn(sums, row.asset, row.amount).Some?
    ensures var added := AddIn(AddIn(sums, row.asset, row.amount).value, issued.asset, issued.amount);
            && (added.None? ==> InTotal(c, claims, issued.asset) >= U64_LIMIT)
            && (added.Some? ==> InFolded(c, claims[..i + 1], added.value))
  {
    hide ReadClaimed, ReadIssuance, InTotal;
    var first := AddIn(sums, row.asset, row.amount).value;
    CreditStep(c, claims, i, issued.asset);
    AddInFacts(sums, row.asset, row.amount, issued.asset);
    assert InOf(sums, issued.asset) == InTotal(c, claims[..i], issued.asset);
    var added := AddIn(first, issued.asset, issued.amount);
    if added.Some? {
      forall a
        ensures InOf(added.value, a) == InTotal(c, claims[..i + 1], a) && OutOf(added.value, a) == 0
      {
        CreditStep(c, claims, i, a);
        AddInFacts(sums, row.asset, row.amount, a);
        AddInFacts(first, issued.asset, issued.amount, a);
        assert InOf(sums, a) == InTotal(c, claims[..i], a);
      }
    }
  }

  lemma FoldOutput(c: Crypto, outputs: seq<Output>, i: nat, sums0: Sums, sums: Sums, row: Row)
    requires i < |outputs| && OutFolded(c, outputs[..i], sums0, sums)
    requires ReadOutput(c, outputs[i]) == Ok(row)
    ensures var added := AddOut(sums, row.asset, row.amount);
            && (added.None? ==> OutTotal(c, outputs, row.asset) >= U64_LIMIT)
            && (added.Some? ==> OutFolded(c, outputs[..i + 1], sums0, added.value))
  {
    hide ReadOutput, OutTotal;
    DebitStep(c, outputs, i, row.asset);
    assert OutOf(sums, row.asset) == OutTotal(c, outputs[..i], row.asset);
    var added := AddOut(sums, row.asset, row.amount);
    if added.Some? {
      forall a
        ensures InOf(added.value, a) == InOf(sums0, a) && OutOf(added.value, a) == OutTotal(c, outputs[..i + 1], a)
      {
        DebitStep(c, outputs, i, a);
        AddOutFacts(sums, row.asset, row.amount, a);
        assert OutOf(sums, a) == OutTotal(c, outputs[..i], a);
      }
    }
  }

  ghost predicate RefusesInput(c: Crypto, x: Claimed, e: Refusal) {
    ReadClaimed(c, x) == Err(e) || (ReadIssuance(c, x.input).Err? && ReadIssuance(c, x.input).error == e)
  }

  /** Fold every input row and every explicit issuance into the sums. */
  method SumInputs(c: Crypto, inputs: seq<Input>, owned: seq<OwnedInput>)
    returns (r: Result<(Sums, nat), Refusal>)
    ensures r.Ok? ==>
              && (forall x :: x in Claims(inputs, owned) ==> InputReadable(c, x))
              && InFolded(c, Claims(inputs, owned), r.value.0)
              && r.value.1 == Sum(Claims(inputs, owned), ProvenIn(c))
    ensures r.Err? && r.error == InputSumOverflow ==> exists a :: InTotal(c, Claims(inputs, owned), a) >= U64_LIMIT
    ensures r.Err? && r.error != InputSumOverflow ==>
              RowRefusal(r.error) && exists x :: x in Claims(inputs, owned) && RefusesInput(c, x, r.error)
  {
    hide ReadInput, ReadIssuance, Credit, InFolded, Claims, AddIn, Declared, InTotal;
    var sums: Sums := map[];
    var proven: nat := 0;
    ghost var claims := Claims(inputs, owned);
    EmptyFold(c);
    for i := 0 to |inputs|
      invariant forall j :: 0 <= j < i ==> InputReadable(c, claims[j])
      invariant InFolded(c, claims[..i], sums)
      invariant proven == Sum(claims[..i], ProvenIn(c))
    {
      ReadClaimedIsReadInput(c, inputs, owned, i);
      assert claims[i] in claims;
      var read := ReadInput(c, inputs[i], Declared(owned, i));
      if read.Err? {
        InputErrorKinds(c, claims[i]);
        assert RefusesInput(c, claims[i], read.error);
        return Err(read.error);
      }
      var row := read.value;
      FoldPlainInput(c, claims, i, sums, row);
      SumStep(claims, ProvenIn(c), i);
      var added := AddIn(sums, row.asset, row.amount);
      if added.None? {
        return Err(InputSumOverflow);
      }
      var issuance := ReadIssuance(c, inputs[i]);
      if issuance.Err? {
        InputErrorKinds(c, claims[i]);
        assert RefusesInput(c, claims[i], issuance.error);
        return Err(issuance.error);
      }
      if issuance.value.Some? {
        var issued := issuance.value.value;
        FoldIssuingInput(c, claims, i, sums, row, issued);
        added := AddIn(added.value, issued.asset, issued.amount);
        if added.None? {
          return Err(InputSumOverflow);
        }
      }
      sums := added.value;
      proven := proven + if row.proven then 1 else 0;
    }
    assert claims[..|inputs|] == claims;
    return Ok((sums, proven));
  }

  lemma EmptyFold(c: Crypto)
    ensures InFolded(c, [], map[])
  {
  }

  /** The refusals that name one unreadable row. */
  predicate RowRefusal(e: Refusal) {
    || e.NoWitnessUtxo? || e.OwnedDisagrees? || e.OwnedHalfBlinded? || e.Unverifiable?
    || e.AssetProofFails? || e.ValueProofFails? || e.BlindedIssuance? || e.InflationKeys? || e.Reissuance?
    || e.IssuanceWithoutEntropy? || e.FeeMustBeExplicit?
  }

  lemma InputErrorKinds(c: Crypto, x: Claimed)
    ensures ReadClaimed(c, x).Err? ==> RowRefusal(ReadClaimed(c, x).error)
    ensures ReadIssuance(c, x.input).Err? ==> RowRefusal(ReadIssuance(c, x.input).error)
  {
  }

  lemma OutputErrorKinds(c: Crypto, o: Output)
    ensures ReadOutput(c, o).Err? ==> RowRefusal(ReadOutput(c, o).error)
  {
  }

  /** Fold every output row into the sums, counting fee outputs. */
  method SumOutputs(c: Crypto, outputs: seq<Output>, sums0: Sums)
    returns (r: Result<(Sums, nat, Option<u64>, nat), Refusal>)
    requires OutFolded(c, [], sums0, sums0)
    ensures r.Ok? ==>
              && (forall o :: o in outputs ==> ReadOutput(c, o).Ok?)
              && OutFolded(c, outputs, sums0, r.value.0)
              && r.value.1 == Sum(outputs, ProvenOut(c))
              && r.value.3 == FeeCount(outputs)
              && (r.value.3 == 1 ==> r.value.2.Some? && r.value.2.value == FeeTotal(c, outputs))
    ensures r.Err? && r.error == OutputSumOverflow ==> exists a :: OutTotal(c, outputs, a) >= U64_LIMIT
    ensures r.Err? && r.error != OutputSumOverflow ==>
              RowRefusal(r.error) && exists o :: o in outputs && ReadOutput(c, o) == Err(r.error)
  {
    hide ReadOutput, Debit, OutFolded, AddOut, OutTotal;
    var sums := sums0;
    var proven: nat := 0;
    var fee: Option<u64> := None;
    var feeOutputs: nat := 0;
    assert outputs[..0] == [];
    for i := 0 to |outputs|
      invariant forall j :: 0 <= j < i ==> ReadOutput(c, outputs[j]).Ok?
      invariant OutFolded(c, outputs[..i], sums0, sums)
      invariant proven == Sum(outputs[..i], ProvenOut(c))
      invariant feeOutputs == FeeCount(outputs[..i])
      invariant feeOutputs == 0 ==> FeeTotal(c, outputs[..i]) == 0
      invariant feeOutputs == 1 ==> fee.Some? && fee.value == FeeTotal(c, outputs[..i])
    {
      assert outputs[i] in outputs;
      var read := ReadOutput(c, outputs[i]);
      if read.Err? {
        OutputErrorKinds(c, outputs[i]);
        return Err(read.error);
      }
      var row := read.value;
      FoldOutput(c, outputs, i, sums0, sums, row);
      SumStep(outputs, ProvenOut(c), i);
      SumStep(outputs, IsFee(), i);
      SumStep(outputs, FeeIn(c), i);
      if outputs[i].script == [] {
        feeOutputs := feeOutputs + 1;
        fee := Some(row.amount);
      }
      var added := AddOut(sums, row.asset, row.amount);
      if added.None? {
        return Err(OutputSumOverflow);
      }
      sums := added.value;
      proven := proven + if row.proven then 1 else 0;
    }
    assert outputs[..|outputs|] == outputs;
    return Ok((sums, proven, fee, feeOutputs));
  }

  /** The deficit must be the stated amount, and every other asset must cover itself. */
  method CheckDeficit(sums: Sums, want: AssetId, amount: u64) returns (r: Result<u64, Refusal>)
    ensures r.Ok? <==> OutOf(sums, want) == InOf(sums, want) + amount
                       && forall a :: a != want ==> OutOf(sums, a) <= InOf(sums, a)
    ensures match r
            case Ok(d) => d == amount
            case Err(Surplus) => InOf(sums, want) > OutOf(sums, want)
            case Err(DeficitMismatch(d)) => d != amount && OutOf(sums, want) == InOf(sums, want) + d
            case Err(Undeclared(a)) => a != want && OutOf(sums, a) > InOf(sums, a)
            case Err(_) => false
  {
    var assetIn, assetOut := InOf(sums, want), OutOf(sums, want);
    if assetOut < assetIn {
      return Err(Surplus);
    }
    var deficit := assetOut - assetIn;
    if deficit != amount {
      return Err(DeficitMismatch(deficit));
    }
    var rest := sums.Keys - {want};
    while rest != {}
      invariant rest <= sums.Keys - {want}
      invariant forall a :: a in sums.Keys - {want} - rest ==> OutOf(sums, a) <= InOf(sums, a)
    {
      var a :| a in rest;
      if OutOf(sums, a) > InOf(sums, a) {
        return Err(Undeclared(a));
      }
      rest := rest - {a};
    }
    return Ok(deficit);
  }

  /** One explicit non-zero fee, and then the deficit. */
  method CheckTotals(sums: Sums, fee: Option<u64>, feeOutputs: nat, want: AssetId, amount: u64)
    returns (r: Result<(u64, u64), Refusal>)
    requires feeOutputs == 1 ==> fee.Some?
    ensures r.Ok? <==> feeOutputs == 1 && fee.value > 0 && OutOf(sums, want) == InOf(sums, want) + amount
                       && forall a :: a != want ==> OutOf(sums, a) <= InOf(sums, a)
    ensures match r
            case Ok((f, d)) => f == fee.value && d == amount
            case Err(FeeOutputCount(n)) => n == feeOutputs != 1
            case Err(ZeroFee) => feeOutputs == 1 && fee.value == 0
            case Err(Surplus) => InOf(sums, want) > OutOf(sums, want)
            case Err(DeficitMismatch(d)) => d != amount && OutOf(sums, want) == InOf(sums, want) + d
            case Err(Undeclared(a)) => a != want && OutOf(sums, a) > InOf(sums, a)
            case Err(_) => false
  {
    hide InOf, OutOf;
    if feeOutputs != 1 {
      return Err(FeeOutputCount(feeOutputs));
    }
    if fee.value == 0 {
      return Err(ZeroFee);
    }
    var deficit := CheckDeficit(sums, want, amount);
    if deficit.Err? {
      return Err(deficit.error);
    }
    return Ok((fee.value, deficit.value));
  }

  /** The verifier accepts exactly when the declarative rule holds, and every refusal is justified. */
  method VerifyFundTemplateOwned(c: Crypto, t: Template, want: AssetId, amount: u64, owned: seq<OwnedInput>)
    returns (r: Result<Summary, Refusal>)
    ensures r.Ok? <==> Accepts(c, t, want, amount, owned)
    ensures r.Ok? ==>
              && r.value.inputCount == |t.inputs| && r.value.outputCount == |t.outputs|
              && r.value.fee == FeeTotal(c, t.outputs) && r.value.deficit == amount
              && r.value.provenRows == ProvenRows(c, Claims(t.inputs, owned), t.outputs)
              && r.value.ownedInputs == |owned|
    ensures r.Err? ==> Justified(r.error, c, t, want, amount, owned)
  {
    hide Claims, InFolded, OutFolded, InTotal, OutTotal, InputReadable, ReadOutput, RefusesInput, ProvenIn, ProvenOut,
        FeeIn, IsFee, InOf, OutOf, OwnedWellFormed, FeeCount, FeeTotal, Sum, ReadInput, ReadIssuance, ReadClaimed,
        Declared;
    if amount == 0 {
      return Err(ZeroAmount);
    }
    if t.outputs == [] {
      return Err(NoOutputs);
    }
    ghost var claims := Claims(t.inputs, owned);
    var badOwned := CheckOwned(t.inputs, owned);
    if badOwned.Some? {
      return Err(badOwned.value);
    }
    var ins := SumInputs(c, t.inputs, owned);
    if ins.Err? {
      UnreadableInput(c, claims, ins.error);
      return Err(ins.error);
    }
    NoOutputsYet(c, claims, ins.value.0);
    var outs := SumOutputs(c, t.outputs, ins.value.0);
    if outs.Err? {
      return Err(outs.error);
    }
    var (sums, provenOut, feeSeen, feeOutputs) := outs.value;
    TotalsRead(c, claims, t.outputs, ins.value.0, sums);
    var totals := CheckTotals(sums, feeSeen, feeOutputs, want, amount);
    if totals.Err? {
      return Err(totals.error);
    }
    return Ok(Summary(|t.inputs|, |t.outputs|, totals.value.0, totals.value.1, ins.value.1 + provenOut, |owned|));
  }

  lemma UnreadableInput(c: Crypto, claims: seq<Claimed>, e: Refusal)
    ensures (exists x :: x in claims && RefusesInput(c, x, e)) ==> exists x :: x in claims && !InputReadable(c, x)
  {
    if x :| x in claims && RefusesInput(c, x, e) {
      assert !InputReadable(c, x);
    }
  }

  lemma NoOutputsYet(c: Crypto, claims: seq<Claimed>, sums: Sums)
    requires InFolded(c, claims, sums)
    ensures OutFolded(c, [], sums, sums)
  {
  }

  lemma TotalsRead(c: Crypto, claims: seq<Claimed>, outputs: seq<Output>, ins: Sums, sums: Sums)
    requires InFolded(c, claims, ins) && OutFolded(c, outputs, ins, sums)
    ensures forall a :: InTotal(c, claims, a) == InOf(sums, a) && OutTotal(c, outputs, a) == OutOf(sums, a)
    ensures forall a :: InTotal(c, claims, a) < U64_LIMIT
    ensures forall a :: OutTotal(c, outputs, a) < U64_LIMIT
  {
    hide InTotal, OutTotal;
  }
}
