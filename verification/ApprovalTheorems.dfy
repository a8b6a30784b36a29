/** What an accepted template means for the wallet's money: conservation over the true
    committed amounts, independence from row order, and coverage by declarations. */
module ApprovalTheorems {
  import opened Common
  import opened Pset
  import opened Approval

  /** What commitments really hold: the asset behind a generator and the amount behind a
      value commitment. Nobody in the protocol sees it; the theorems quantify over it. */
  datatype Opening = Opening(asset: Bytes -> AssetId, amount: (Bytes, Bytes) -> u64)

  /** The proofs attached to one row, where they verify for what the row claims, claim the truth. Nothing is
      said of any other proof: the commitments hide perfectly, so that for every claim some proof verifies. */
  predicate RowBinds(c: Crypto, w: Opening, asset: Option<AssetId>, amount: Option<u64>, assetProof: Option<Bytes>,
                     valueProof: Option<Bytes>, g: Bytes, k: Bytes)
  {
    && (asset.Some? && assetProof.Some? && c.assetProofVerifies(assetProof.value, asset.value, g) ==>
          w.asset(g) == asset.value)
    && (amount.Some? && valueProof.Some? && c.valueProofVerifies(valueProof.value, amount.value, g, k) ==>
          w.amount(g, k) == amount.value)
  }

  /** An undeclared confidential input's own proofs bind. */
  predicate InBinds(c: Crypto, w: Opening, x: Claimed) {
    !(x.asset.Some? && x.amount.Some?) && x.input.witnessUtxo.Some? ==>
      match (x.input.witnessUtxo.value.asset, x.input.witnessUtxo.value.value)
      case (ConfidentialAsset(g), ConfidentialValue(k)) =>
        RowBinds(c, w, x.input.asset, x.input.amount, x.input.blindAssetProof, x.input.blindValueProof, g, k)
      case _ => true
  }

  /** A confidential output's own proofs bind. */
  predicate OutBinds(c: Crypto, w: Opening, o: Output) {
    o.assetComm.Some? && o.amountComm.Some? ==>
      RowBinds(c, w, o.asset, o.amount, o.blindAssetProof, o.blindValueProof, o.assetComm.value, o.amountComm.value)
  }

  /** No row of the template carries a proof that verifies for something false, and the host's declarations
      about its own confidential coins are true. */
  ghost predicate Truthful(c: Crypto, w: Opening, t: Template, owned: seq<OwnedInput>) {
    && (forall x :: x in Claims(t.inputs, owned) ==> InBinds(c, w, x) && Honest(w, x))
    && (forall o :: o in t.outputs ==> OutBinds(c, w, o))
  }

  function TrueCoin(w: Opening, asset: AssetField, value: ValueField, a: AssetId): nat {
    match (asset, value)
    case (ExplicitAsset(id), ExplicitValue(v)) => if id == a then v else 0
    case (ConfidentialAsset(g), ConfidentialValue(k)) => if w.asset(g) == a then w.amount(g, k) else 0
    case _ => 0
  }

  /** What an input truly brings into asset `a`: the coin it spends and what it issues. */
  function TrueCredit(c: Crypto, w: Opening, input: Input, a: AssetId): nat {
    (if input.witnessUtxo.Some? then TrueCoin(w, input.witnessUtxo.value.asset, input.witnessUtxo.value.value, a)
        else 0)
    + (if input.issuanceValueAmount.Some? && input.issuanceAssetEntropy.Some?
          && c.issuedAsset(input.prevout, input.issuanceAssetEntropy.value) == a
       then input.issuanceValueAmount.value else 0)
  }

  /** What an output truly carries of asset `a`. */
  function TrueDebit(w: Opening, o: Output, a: AssetId): nat {
    match (o.assetComm, o.amountComm)
    case (Some(g), Some(k)) => if w.asset(g) == a then w.amount(g, k) else 0
    case (None, None) => if o.asset == Some(a) && o.amount.Some? then o.amount.value else 0
    case _ => 0
  }

  function TrueCreditIn(c: Crypto, w: Opening, a: AssetId): Claimed -> nat {
    (x: Claimed) => TrueCredit(c, w, x.input, a)
  }
  function TrueDebitIn(w: Opening, a: AssetId): Output -> nat { o => TrueDebit(w, o, a) }

  function TrueIn(c: Crypto, w: Opening, t: Template, owned: seq<OwnedInput>, a: AssetId): nat {
    Sum(Claims(t.inputs, owned), TrueCreditIn(c, w, a))
  }

  function TrueOut(w: Opening, t: Template, a: AssetId): nat {
    Sum(t.outputs, TrueDebitIn(w, a))
  }

  /** The host's declarations about its own confidential coins are true. */
  ghost predicate Honest(w: Opening, x: Claimed) {
    x.asset.Some? && x.amount.Some? && x.input.witnessUtxo.Some? ==>
      match (x.input.witnessUtxo.value.asset, x.input.witnessUtxo.value.value)
      case (ConfidentialAsset(g), ConfidentialValue(k)) =>
          w.asset(g) == x.asset.value && w.amount(g, k) == x.amount.value
      case _ => true
  }

  lemma CreditIsTrue(c: Crypto, w: Opening, x: Claimed, a: AssetId)
    requires InBinds(c, w, x) && Honest(w, x) && InputReadable(c, x)
    ensures Credit(c, x, a) == TrueCredit(c, w, x.input, a)
  {
  }

  lemma DebitIsTrue(c: Crypto, w: Opening, o: Output, a: AssetId)
    requires OutBinds(c, w, o) && ReadOutput(c, o).Ok?
    ensures Debit(c, o, a) == TrueDebit(w, o, a)
  {
  }

  /** On an accepted template the verifier's totals are the true committed totals. */
  lemma TotalsAreTrue(c: Crypto, w: Opening, t: Template, want: AssetId, amount: u64, owned: seq<OwnedInput>,
      a: AssetId)
    requires Accepts(c, t, want, amount, owned)
    requires Truthful(c, w, t, owned)
    ensures InTotal(c, Claims(t.inputs, owned), a) == TrueIn(c, w, t, owned, a)
    ensures OutTotal(c, t.outputs, a) == TrueOut(w, t, a)
  {
    hide Credit, TrueCredit, Debit, TrueDebit, InputReadable, ReadOutput, Honest, InBinds, OutBinds, Claims;
    var claims := Claims(t.inputs, owned);
    forall x | x in claims ensures CreditIn(c, a)(x) == TrueCreditIn(c, w, a)(x) { CreditIsTrue(c, w, x, a); }
    forall o | o in t.outputs ensures DebitIn(c, a)(o) == TrueDebitIn(w, a)(o) { DebitIsTrue(c, w, o, a); }
    SumAgrees(claims, CreditIn(c, a), TrueCreditIn(c, w, a));
    SumAgrees(t.outputs, DebitIn(c, a), TrueDebitIn(w, a));
  }

  datatype Coin = Coin(asset: AssetId, amount: nat)

  function CoinsIn(a: AssetId): Coin -> nat { (k: Coin) => if k.asset == a then k.amount else 0 }
  function CoinTotal(coins: seq<Coin>, a: AssetId): nat { Sum(coins, CoinsIn(a)) }

  /** The completed transaction moves no value: per asset, true inputs equal true outputs. `unread` is what
      the inputs mint that neither check looks at, such as an issuance given only by a commitment, or
      inflation keys without an amount. */
  ghost predicate Completes(c: Crypto, w: Opening, t: Template, owned: seq<OwnedInput>, unread: AssetId -> nat,
                            hostIn: seq<Coin>, hostOut: seq<Coin>)
  {
    forall a: AssetId ::
      TrueIn(c, w, t, owned, a) + unread(a) + CoinTotal(hostIn, a) == TrueOut(w, t, a) + CoinTotal(hostOut, a)
  }

  /** The theorem of the fund-template check. If it accepts, and the host completes the
      template with only its own inputs and outputs into a balanced transaction, then over the
      true committed amounts what the host adds flows out by exactly `amount` of the requested
      asset, less what the inputs mint of it unread, and by nothing in any other asset. */
  lemma NetOutflowIsExactlyAmount(c: Crypto, w: Opening, t: Template, want: AssetId, amount: u64,
                                  owned: seq<OwnedInput>, unread: AssetId -> nat, hostIn: seq<Coin>, hostOut: seq<Coin>)
    requires Accepts(c, t, want, amount, owned)
    requires Truthful(c, w, t, owned)
    requires Completes(c, w, t, owned, unread, hostIn, hostOut)
    ensures CoinTotal(hostIn, want) + unread(want) == CoinTotal(hostOut, want) + amount
    ensures CoinTotal(hostIn, want) <= CoinTotal(hostOut, want) + amount
    ensures CoinTotal(hostIn, want) == CoinTotal(hostOut, want) + amount <==> unread(want) == 0
    ensures forall a :: a != want ==> CoinTotal(hostIn, a) + unread(a) <= CoinTotal(hostOut, a)
  {
    hide InTotal, OutTotal, CoinTotal, TrueIn, TrueOut, Claims, Truthful;
    forall a: AssetId
      ensures InTotal(c, Claims(t.inputs, owned), a) + unread(a) + CoinTotal(hostIn, a)
              == OutTotal(c, t.outputs, a) + CoinTotal(hostOut, a)
    {
      TotalsAreTrue(c, w, t, want, amount, owned, a);
      assert TrueIn(c, w, t, owned, a) + unread(a) + CoinTotal(hostIn, a) == TrueOut(w, t, a) + CoinTotal(hostOut, a);
    }
  }

  /** Row order does not matter: any reordering of the inputs (with the owned indexes following
      their rows) and of the outputs gets the same verdict. */
  lemma RowOrderIrrelevant(c: Crypto, t: Template, owned: seq<OwnedInput>, t': Template, owned': seq<OwnedInput>,
                           want: AssetId, amount: u64)
    requires OwnedWellFormed(t.inputs, owned) && OwnedWellFormed(t'.inputs, owned')
    requires multiset(Claims(t.inputs, owned)) == multiset(Claims(t'.inputs, owned'))
    requires multiset(t.outputs) == multiset(t'.outputs)
    ensures Accepts(c, t, want, amount, owned) <==> Accepts(c, t', want, amount, owned')
  {
    if Accepts(c, t, want, amount, owned) {
      BalancedUnordered(c, Claims(t.inputs, owned), t.outputs, Claims(t'.inputs, owned'), t'.outputs, want, amount);
    }
    if Accepts(c, t', want, amount, owned') {
      BalancedUnordered(c, Claims(t'.inputs, owned'), t'.outputs, Claims(t.inputs, owned), t.outputs, want, amount);
    }
  }

  lemma BalancedUnordered(c: Crypto, ins: seq<Claimed>, outs: seq<Output>, ins': seq<Claimed>, outs': seq<Output>,
                          want: AssetId, amount: u64)
    requires multiset(ins) == multiset(ins') && multiset(outs) == multiset(outs')
    requires Balanced(c, ins, outs, want, amount)
    ensures Balanced(c, ins', outs', want, amount)
  {
    hide InputReadable, ReadOutput, FeeValue, Sum;
    forall a ensures InTotal(c, ins', a) == InTotal(c, ins, a) { SumUnordered(ins, ins', CreditIn(c, a)); }
    forall a ensures OutTotal(c, outs', a) == OutTotal(c, outs, a) { SumUnordered(outs, outs', DebitIn(c, a)); }
    SumUnordered(outs, outs', IsFee());
    SumUnordered(outs, outs', FeeIn(c));
    forall x | x in ins' ensures InputReadable(c, x) { assert x in multiset(ins'); assert x in ins; }
    forall o | o in outs' ensures ReadOutput(c, o).Ok? { assert o in multiset(outs'); assert o in outs; }
    assert |outs'| == |multiset(outs')| == |outs|;
  }

  lemma {:induction false} DeclaredIff(owned: seq<OwnedInput>, i: nat)
    ensures Declared(owned, i).Some? <==> exists k :: 0 <= k < |owned| && owned[k].index == i
    ensures Declared(owned, i).Some? ==> Declared(owned, i).value in owned && Declared(owned, i).value.index == i
  {
    if owned != [] {
      DeclaredIff(owned[1..], i);
      if owned[0].index == i {
        assert owned[0] in owned;
      } else {
        forall k | 0 <= k < |owned| && owned[k].index == i ensures owned[1..][k - 1].index == i { }
        if Declared(owned[1..], i).Some? {
          var j :| 0 <= j < |owned[1..]| && owned[1..][j].index == i;
          assert owned[j + 1].index == i;
        }
      }
    }
  }

  function CoveredRows(t: Template, owned: seq<OwnedInput>): set<nat> {
    set i: nat | 0 <= i < |t.inputs| && Declared(owned, i).Some?
  }

  lemma {:induction false} IndexSetSize(owned: seq<OwnedInput>)
    requires forall j, k :: 0 <= j < k < |owned| ==> owned[j].index != owned[k].index
    ensures |set o | o in owned :: o.index| == |owned|
  {
    if owned != [] {
      var n := |owned| - 1;
      IndexSetSize(owned[..n]);
      assert owned == owned[..n] + [owned[n]];
      assert (set o | o in owned :: o.index) == (set o | o in owned[..n] :: o.index) + {owned[n].index};
    }
  }

  /** Exactly as many input rows rest on the host's word as the host declared. */
  lemma DeclarationsCoverExactly(c: Crypto, t: Template, want: AssetId, amount: u64, owned: seq<OwnedInput>)
    requires Accepts(c, t, want, amount, owned)
    ensures |CoveredRows(t, owned)| == |owned|
    ensures forall i :: 0 <= i < |t.inputs| && i !in CoveredRows(t, owned) ==>
              Claims(t.inputs, owned)[i] == Claimed(t.inputs[i], None, None)
  {
    hide Balanced;
    IndexSetSize(owned);
    forall i: nat ensures Declared(owned, i).Some? <==> exists k :: 0 <= k < |owned| && owned[k].index == i {
      DeclaredIff(owned, i);
    }
    var indexes := set o | o in owned :: o.index;
    forall i ensures i in indexes <==> i in CoveredRows(t, owned) {
      if i in indexes {
        var o :| o in owned && o.index == i;
        var k :| 0 <= k < |owned| && owned[k] == o;
        assert owned[k].index == i;
      }
    }
    assert indexes == CoveredRows(t, owned);
  }

  // ----- The wallet's own template inputs -----

  /** The true coin behind an input the host declared. */
  function OwnCoin(w: Opening, x: Claimed, a: AssetId): nat {
    if x.asset.Some? && x.input.witnessUtxo.Some?
    then TrueCoin(w, x.input.witnessUtxo.value.asset, x.input.witnessUtxo.value.value, a)
    else 0
  }

  function OwnCoinIn(w: Opening, a: AssetId): Claimed -> nat { (x: Claimed) => OwnCoin(w, x, a) }

  /** What the wallet's own template inputs truly hold of `a`. */
  function OwnCoins(w: Opening, t: Template, owned: seq<OwnedInput>, a: AssetId): nat {
    Sum(Claims(t.inputs, owned), OwnCoinIn(w, a))
  }

  function DeclaredAmount(o: OwnedInput, a: AssetId): nat { if o.asset == a then o.amount else 0 }
  function DeclaredFor(a: AssetId): OwnedInput -> nat { o => DeclaredAmount(o, a) }

  /** What the host declared of `a`. */
  function OwnedTotal(owned: seq<OwnedInput>, a: AssetId): nat { Sum(owned, DeclaredFor(a)) }

  function AmountDeclaredAt(owned: seq<OwnedInput>, a: AssetId, i: nat): nat {
    if Declared(owned, i).Some? then DeclaredAmount(Declared(owned, i).value, a) else 0
  }

  function DeclaredAt(owned: seq<OwnedInput>, a: AssetId): nat -> nat { (i: nat) => AmountDeclaredAt(owned, a, i) }

  lemma OwnCoinIsDeclared(c: Crypto, w: Opening, t: Template, owned: seq<OwnedInput>, a: AssetId, i: nat)
    requires i < |t.inputs| && InputReadable(c, Claims(t.inputs, owned)[i]) && Honest(w, Claims(t.inputs, owned)[i])
    ensures OwnCoinIn(w, a)(Claims(t.inputs, owned)[i]) == DeclaredAt(owned, a)(i)
  {
    hide Declared;
  }

  lemma {:induction false} OneMoreAt(n: nat, k: nat, f: nat -> nat, g: nat -> nat, v: nat)
    requires forall i: nat :: i < n ==> f(i) == g(i) + if i == k then v else 0
    ensures Sum(Upto(n), f) == Sum(Upto(n), g) + if k < n then v else 0
  {
    if n > 0 {
      assert Upto(n)[..n - 1] == Upto(n - 1);
      OneMoreAt(n - 1, k, f, g, v);
    }
  }

  /** Row by row or declaration by declaration, the declared amounts add up to the same. */
  lemma {:induction false} DeclaredByRow(owned: seq<OwnedInput>, n: nat, a: AssetId)
    requires forall k :: 0 <= k < |owned| ==> owned[k].index < n
    requires forall j, k :: 0 <= j < k < |owned| ==> owned[j].index != owned[k].index
    ensures Sum(Upto(n), DeclaredAt(owned, a)) == OwnedTotal(owned, a)
  {
    if owned == [] {
      SumZero(Upto(n), DeclaredAt(owned, a));
    } else {
      var o, rest := owned[0], owned[1..];
      DeclaredByRow(rest, n, a);
      DeclaredIff(rest, o.index);
      OneMoreAt(n, o.index, DeclaredAt(owned, a), DeclaredAt(rest, a), DeclaredFor(a)(o));
      SumPick(owned, DeclaredFor(a), 0);
      assert owned[..0] + owned[1..] == rest;
    }
  }

  /** On an accepted template the host's declarations add up to what its inputs truly hold: explicit
      rows were compared with them, confidential ones rest on the host's honesty. */
  lemma OwnCoinsAreDeclared(c: Crypto, w: Opening, t: Template, want: AssetId, amount: u64, owned: seq<OwnedInput>,
      a: AssetId)
    requires Accepts(c, t, want, amount, owned) && forall x :: x in Claims(t.inputs, owned) ==> Honest(w, x)
    ensures OwnCoins(w, t, owned, a) == OwnedTotal(owned, a)
  {
    hide InTotal, OutTotal, InputReadable, Honest, Claims, OwnCoinIn, DeclaredAt;
    var claims := Claims(t.inputs, owned);
    forall i: nat | i < |claims| ensures OwnCoinIn(w, a)(claims[i]) == DeclaredAt(owned, a)(Upto(|claims|)[i]) {
      assert claims[i] in claims;
      OwnCoinIsDeclared(c, w, t, owned, a, i);
    }
    SumMap(claims, OwnCoinIn(w, a), Upto(|claims|), DeclaredAt(owned, a));
    DeclaredByRow(owned, |t.inputs|, a);
  }
}
