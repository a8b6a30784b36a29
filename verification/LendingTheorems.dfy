/** What an accepted typed claim means: the amounts it reads are the verified ones, the wallet's
    outputs pay the claim's money and its token, and the wallet nets at least that. */
module LendingTheorems {
  import opened Common
  import opened Pset
  import opened Covenant
  import opened Approval
  import opened ApprovalTheorems
  import opened Lending

  // ----- The rows the lending check reads are the rows the template check verified -----

  /** What an output's plain fields say it pays of `a`. */
  function PlainPaid(o: Output, a: AssetId): nat {
    if o.asset == Some(a) && o.amount.Some? then o.amount.value else 0
  }

  function PlainIn(a: AssetId): Output -> nat { o => PlainPaid(o, a) }

  /** On an accepted template an output's plain fields are the row the template check verified. */
  lemma ExplicitIsVerified(c: Crypto, o: Output, a: AssetId)
    requires ReadOutput(c, o).Ok?
    ensures o.asset == Some(ReadOutput(c, o).value.asset) && o.amount == Some(ReadOutput(c, o).value.amount)
    ensures Debit(c, o, a) == PlainPaid(o, a)
  {
  }

  /** And its true committed contents. */
  lemma ExplicitIsTrue(c: Crypto, w: Opening, o: Output, a: AssetId)
    requires OutBinds(c, w, o) && ReadOutput(c, o).Ok?
    ensures TrueDebit(w, o, a) == PlainPaid(o, a)
  {
    hide ReadOutput, Debit, TrueDebit, OutBinds;
    ExplicitIsVerified(c, o, a);
    DebitIsTrue(c, w, o, a);
  }

  // ----- What the wallet's outputs pay -----

  /** The sum of `f` over the outputs listed in `mine`, each output counted once. */
  function MineSum(outputs: seq<Output>, mine: seq<nat>, f: Output -> nat): nat {
    if outputs == [] then 0
    else
      var n := |outputs| - 1;
      MineSum(outputs[..n], mine, f) + if n in mine then f(outputs[n]) else 0
  }

  /** What the wallet's outputs pay of `a` by their plain fields. */
  function MinePaid(outputs: seq<Output>, mine: seq<nat>, a: AssetId): nat { MineSum(outputs, mine, PlainIn(a)) }

  /** What they truly pay. */
  function MineTotal(w: Opening, outputs: seq<Output>, mine: seq<nat>, a: AssetId): nat {
    MineSum(outputs, mine, TrueDebitIn(w, a))
  }

  lemma {:induction false} MineSumHas(outputs: seq<Output>, mine: seq<nat>, f: Output -> nat, i: nat)
    requires i < |outputs| && i in mine
    ensures MineSum(outputs, mine, f) >= f(outputs[i])
  {
    var n := |outputs| - 1;
    if i < n {
      MineSumHas(outputs[..n], mine, f, i);
    }
  }

  lemma {:induction false} MineSumHasBoth(outputs: seq<Output>, mine: seq<nat>, f: Output -> nat, i: nat, j: nat)
    requires i < j < |outputs| && i in mine && j in mine
    ensures MineSum(outputs, mine, f) >= f(outputs[i]) + f(outputs[j])
  {
    var n := |outputs| - 1;
    if j < n {
      MineSumHasBoth(outputs[..n], mine, f, i, j);
    } else {
      MineSumHas(outputs[..n], mine, f, i);
    }
  }

  lemma {:induction false} MineSumAgrees(outputs: seq<Output>, mine: seq<nat>, f: Output -> nat, g: Output -> nat)
    requires forall o :: o in outputs ==> f(o) == g(o)
    ensures MineSum(outputs, mine, f) == MineSum(outputs, mine, g)
  {
    if outputs != [] {
      MineSumAgrees(outputs[..|outputs| - 1], mine, f, g);
    }
  }

  lemma {:induction false} MineSumWithin(outputs: seq<Output>, mine: seq<nat>, f: Output -> nat)
    ensures MineSum(outputs, mine, f) <= Sum(outputs, f)
  {
    if outputs != [] {
      MineSumWithin(outputs[..|outputs| - 1], mine, f);
    }
  }

  /** A payment the checker finds is one of the wallet's outputs. */
  lemma {:induction false} MinePayingHas(outputs: seq<Output>, mine: seq<nat>, a: AssetId, v: u64) returns (i: nat)
    requires v in MinePaying(outputs, mine, a)
    ensures i in mine && Explicit(outputs, i) == Ok((a, v))
  {
    var e := Explicit(outputs, mine[0]);
    if e.Ok? && e.value == (a, v) {
      i := mine[0];
    } else {
      i := MinePayingHas(outputs, mine[1..], a, v);
    }
  }

  lemma {:induction false} MinePayingFinds(outputs: seq<Output>, mine: seq<nat>, a: AssetId, v: u64, i: nat)
    requires i in mine && Explicit(outputs, i) == Ok((a, v))
    ensures v in MinePaying(outputs, mine, a)
  {
    if mine[0] != i {
      MinePayingFinds(outputs, mine[1..], a, v, i);
    }
  }

  lemma {:induction false} BestIsBest(values: seq<u64>, floor: u64)
    ensures BestAtLeast(values, floor).None? <==> forall v :: v in values ==> v < floor
    ensures var b := BestAtLeast(values, floor);
            b.Some? ==> b.value in values && b.value >= floor && forall v :: v in values ==> v <= b.value
  {
    if values != [] {
      BestIsBest(values[1..], floor);
      assert values[0] in values && forall v :: v in values <==> v == values[0] || v in values[1..];
    }
  }

  // ----- What each claim promises, per asset -----

  /** The largest amount of `a` listed by a collection. */
  function LargestOf(receives: seq<(AssetId, u64)>, a: AssetId): u64 {
    if receives == [] then 0
    else
      var rest := LargestOf(receives[1..], a);
      if receives[0].0 == a && receives[0].1 > rest then receives[0].1 else rest
  }

  /** The money a claim says the wallet receives in asset `a`. */
  function Money(claim: TypedFund, policy: AssetId, a: AssetId): nat {
    match claim
    case Offer(_, _, _) => 0
    case OfferCancel(cash, back, _, _) => if a == cash then back else 0
    case Claim(_, _, receives) => LargestOf(receives, a)
    case SellRight(price, cash, _) => if a == cash then price else 0
    case Exercise(_, released, _, _, collateral) => if a == Or(collateral, policy) then released else 0
    case _ => if a == claim.s.cash && claim.s.fee <= claim.s.sale then claim.s.sale - claim.s.fee else 0
  }

  function AssetAt(t: Template, i: nat): AssetId {
    if i < |t.outputs| && t.outputs[i].asset.Some? then t.outputs[i].asset.value else Zeros(32)
  }

  /** The one-unit token a claim leaves with the wallet, and the output it is at: a fill's position token,
      a first offer's lender token, and the token a cancel, a collection or a partial exercise spends. */
  function TokenOf(claim: TypedFund, t: Template, q: Funding): Option<(nat, AssetId)> {
    match claim
    case Offer(terms, _, tokenOutput) =>
        if tokenOutput.Some? then Some((tokenOutput.value, terms.lenderToken)) else None
    case OfferCancel(_, _, _, lenderToken) => Some((0, lenderToken))
    case Claim(lenderToken, _, _) => Some((0, lenderToken))
    case SellRight(_, _, _) => None
    case Exercise(_, _, remaining, _, _) =>
      if remaining > 0 && Declared(q.owned, 0).Some? then Some((0, Declared(q.owned, 0).value.asset)) else None
    case _ => Some((BORROWER_NFT_OUTPUT, AssetAt(t, BORROWER_NFT_OUTPUT)))
  }

  /** A token beside `m` of the same asset: the token's output pays one, so it serves an amount of at
      most one and never more. */
  function WithToken(m: nat): nat { if m > 1 then m + 1 else 1 }

  /** What a claim promises the wallet in asset `a`: its money and its token. */
  function Promised(claim: TypedFund, t: Template, q: Funding, a: AssetId): nat {
    var m, token := Money(claim, q.policy, a), TokenOf(claim, t, q);
    if token.Some? && token.value.1 == a then WithToken(m) else m
  }

  // ----- And pays -----

  ghost predicate MoneyFound(outputs: seq<Output>, mine: seq<nat>, a: AssetId, m: nat) {
    exists v :: v in MinePaying(outputs, mine, a) && v >= m
  }

  lemma MoneyPaid(outputs: seq<Output>, mine: seq<nat>, a: AssetId, m: nat)
    requires m == 0 || MoneyFound(outputs, mine, a, m)
    ensures MinePaid(outputs, mine, a) >= m
  {
    if m > 0 {
      var v :| v in MinePaying(outputs, mine, a) && v >= m;
      var i := MinePayingHas(outputs, mine, a, v);
      MineSumHas(outputs, mine, PlainIn(a), i);
    }
  }

  lemma TokenAndMoneyPaid(outputs: seq<Output>, mine: seq<nat>, a: AssetId, k: nat, m: nat)
    requires k in mine && Explicit(outputs, k) == Ok((a, 1))
    requires m == 0 || MoneyFound(outputs, mine, a, m)
    ensures MinePaid(outputs, mine, a) >= WithToken(m)
  {
    MineSumHas(outputs, mine, PlainIn(a), k);
    if m > 1 {
      var v :| v in MinePaying(outputs, mine, a) && v >= m;
      var i := MinePayingHas(outputs, mine, a, v);
      MineSumHasBoth(outputs, mine, PlainIn(a), if i < k then i else k, if i < k then k else i);
    }
  }

  lemma {:induction false} ReceivesPaid(t: Template, q: Funding, receives: seq<(AssetId, u64)>, a: AssetId)
    requires ReceivesAll(t, q, receives).Ok?
    ensures LargestOf(receives, a) == 0 || MoneyFound(t.outputs, q.mine, a, LargestOf(receives, a))
  {
    if receives != [] {
      ReceivesPaid(t, q, receives[1..], a);
      var v :| v in MinePaying(t.outputs, q.mine, receives[0].0) && v >= receives[0].1;
      if receives[0].0 == a {
        assert v in MinePaying(t.outputs, q.mine, a);
      }
    }
  }

  lemma ProceedsPaid(t: Template, q: Funding, s: Sale)
    requires Proceeds(t, q, s).Ok?
    ensures s.sale >= s.fee && Proceeds(t, q, s).value == s.sale - s.fee
    ensures MoneyFound(t.outputs, q.mine, s.cash, s.sale - s.fee)
  {
    assert Proceeds(t, q, s).value in MinePaying(t.outputs, q.mine, s.cash);
  }

  predicate IsFill(claim: TypedFund) {
    claim.Fill? || claim.FillV2? || claim.FillV3? || claim.FillV4? || claim.FillV5? || claim.FillV6?
  }

  /** Every accepted fill ends with the proceeds check and pins size, asset and position output. */
  lemma AcceptedFill(h: Hashes, claim: TypedFund, t: Template, q: Funding)
    requires IsFill(claim) && VerifyTypedFund(h, claim, t, q).Ok?
    ensures Proceeds(t, q, claim.s).Ok? && VerifyTypedFund(h, claim, t, q) == Proceeds(t, q, claim.s)
    ensures q.requested == Or(claim.s.collateral, q.policy) && q.amount == claim.s.size
            && claim.s.buyback > claim.s.sale
    ensures Explicit(t.outputs, POSITION_OUTPUT) == Ok((q.requested, q.amount))
    ensures BORROWER_NFT_OUTPUT in q.mine && Explicit(t.outputs, BORROWER_NFT_OUTPUT).Ok?
            && Explicit(t.outputs, BORROWER_NFT_OUTPUT).value.1 == 1
  {
    hide Proceeds, PositionScript, ClaimScript, EncodeV2, EncodeV4, Metadata;
  }

  lemma BestFound(outputs: seq<Output>, mine: seq<nat>, a: AssetId, floor: u64)
    requires BestAtLeast(MinePaying(outputs, mine, a), floor).Some?
    ensures MoneyFound(outputs, mine, a, floor)
  {
    BestIsBest(MinePaying(outputs, mine, a), floor);
  }

  /** An accepted claim's money is found among the wallet's outputs. */
  lemma MoneyIsFound(h: Hashes, t: Template, claim: TypedFund, q: Funding, a: AssetId)
    requires VerifyTypedFund(h, claim, t, q).Ok?
    ensures Money(claim, q.policy, a) == 0 || MoneyFound(t.outputs, q.mine, a, Money(claim, q.policy, a))
  {
    hide MinePaying, ExerciseToken, MoneyFound, LargestOf;
    if IsFill(claim) {
      AcceptedFill(h, claim, t, q);
      ProceedsPaid(t, q, claim.s);
    } else {
      match claim
      case OfferCancel(cash, back, _, _) => BestFound(t.outputs, q.mine, cash, back);
      case Claim(_, _, receives) => ReceivesPaid(t, q, receives, a);
      case SellRight(price, cash, _) => BestFound(t.outputs, q.mine, cash, price);
      case Exercise(_, released, _, _, collateral) => BestFound(t.outputs, q.mine, Or(collateral, q.policy), released);
      case Offer(_, _, _) =>
    }
  }

  /** An accepted claim's token is at its output, alone, and that output is the wallet's. */
  lemma TokenIsFound(h: Hashes, t: Template, claim: TypedFund, q: Funding)
    requires VerifyTypedFund(h, claim, t, q).Ok? && TokenOf(claim, t, q).Some?
    ensures var (k, token) := TokenOf(claim, t, q).value; k in q.mine && Explicit(t.outputs, k) == Ok((token, 1))
  {
    hide MinePaying, OfferCoins, ReceivesAll, PositionScript, ClaimScript, Declared;
    if IsFill(claim) {
      AcceptedFill(h, claim, t, q);
      hide VerifyTypedFund;
    }
  }

  /** By their plain fields the wallet's outputs pay what an accepted claim promises. */
  lemma PromiseIsPlain(h: Hashes, t: Template, claim: TypedFund, q: Funding, a: AssetId)
    requires VerifyTypedFund(h, claim, t, q).Ok?
    ensures MinePaid(t.outputs, q.mine, a) >= Promised(claim, t, q, a)
  {
    MoneyIsFound(h, t, claim, q, a);
    if TokenOf(claim, t, q).Some? {
      TokenIsFound(h, t, claim, q);
    }
    hide VerifyTypedFund, Money, TokenOf, MinePaid, MoneyFound, WithToken;
    var m := Money(claim, q.policy, a);
    if TokenOf(claim, t, q).Some? && TokenOf(claim, t, q).value.1 == a {
      TokenAndMoneyPaid(t.outputs, q.mine, a, TokenOf(claim, t, q).value.0, m);
    } else {
      MoneyPaid(t.outputs, q.mine, a, m);
    }
  }

  ghost predicate BothAccept(c: Crypto, w: Opening, h: Hashes, t: Template, claim: TypedFund, q: Funding) {
    && Accepts(c, t, q.requested, q.amount, q.owned)
    && Truthful(c, w, t, q.owned)
    && VerifyTypedFund(h, claim, t, q).Ok?
  }

  /** What the wallet's outputs pay by their plain fields they truly pay. */
  lemma PlainIsTrue(c: Crypto, w: Opening, outputs: seq<Output>, mine: seq<nat>, a: AssetId)
    requires forall o :: o in outputs ==> OutBinds(c, w, o) && ReadOutput(c, o).Ok?
    ensures MinePaid(outputs, mine, a) == MineTotal(w, outputs, mine, a)
  {
    hide ReadOutput, TrueDebit, PlainPaid, OutBinds;
    forall o | o in outputs ensures PlainIn(a)(o) == TrueDebitIn(w, a)(o) { ExplicitIsTrue(c, w, o, a); }
    MineSumAgrees(outputs, mine, PlainIn(a), TrueDebitIn(w, a));
  }

  /** A payment the checker found is really there, over the true committed amounts. */
  lemma PaidForReal(c: Crypto, w: Opening, h: Hashes, t: Template, claim: TypedFund, q: Funding, a: AssetId, v: u64)
    requires BothAccept(c, w, h, t, claim, q)
    requires v in MinePaying(t.outputs, q.mine, a)
    ensures MineTotal(w, t.outputs, q.mine, a) >= v
  {
    hide VerifyTypedFund, MinePaid, MineTotal, ReadOutput, Claims, Honest, InBinds, OutBinds, InTotal, OutTotal;
    MoneyPaid(t.outputs, q.mine, a, v);
    PlainIsTrue(c, w, t.outputs, q.mine, a);
  }

  /** Whatever a claim promises in an asset, its token included, the wallet's outputs truly pay it. */
  lemma PromiseIsPaid(c: Crypto, w: Opening, h: Hashes, t: Template, claim: TypedFund, q: Funding, a: AssetId)
    requires BothAccept(c, w, h, t, claim, q)
    ensures MineTotal(w, t.outputs, q.mine, a) >= Promised(claim, t, q, a)
  {
    hide VerifyTypedFund, Promised, MinePaid, MineTotal, ReadOutput, Claims, Honest, InBinds, OutBinds, InTotal,
      OutTotal;
    PromiseIsPlain(h, t, claim, q, a);
    PlainIsTrue(c, w, t.outputs, q.mine, a);
  }

  /** The wallet's net change in asset `a` over the completed transaction, all in true committed amounts:
      its template outputs and what it added back, less its template inputs and what it added. */
  function WalletNet(w: Opening, t: Template, q: Funding, hostIn: seq<Coin>, hostOut: seq<Coin>, a: AssetId): int {
    MineTotal(w, t.outputs, q.mine, a) + CoinTotal(hostOut, a) - OwnCoins(w, t, q.owned, a) - CoinTotal(hostIn, a)
  }

  lemma OwnIsDeclared(c: Crypto, w: Opening, h: Hashes, t: Template, claim: TypedFund, q: Funding, a: AssetId)
    requires BothAccept(c, w, h, t, claim, q)
    ensures OwnCoins(w, t, q.owned, a) == OwnedTotal(q.owned, a)
  {
    hide VerifyTypedFund, Accepts, Claims, Honest, InBinds, OutBinds, OwnCoins, OwnedTotal;
    OwnCoinsAreDeclared(c, w, t, q.requested, q.amount, q.owned, a);
  }

  /** Both checks together: in every asset the wallet nets at least what the claim promises, its token
      included, less what it declared it owns and, in the requested asset only, less `amount`. */
  lemma WalletNetsThePromise(c: Crypto, w: Opening, h: Hashes, t: Template, claim: TypedFund, q: Funding,
                             unread: AssetId -> nat, hostIn: seq<Coin>, hostOut: seq<Coin>, a: AssetId)
    requires BothAccept(c, w, h, t, claim, q)
    requires Completes(c, w, t, q.owned, unread, hostIn, hostOut)
    ensures WalletNet(w, t, q, hostIn, hostOut, a)
            >= Promised(claim, t, q, a) - OwnedTotal(q.owned, a) - (if a == q.requested then q.amount else 0)
  {
    PromiseIsPaid(c, w, h, t, claim, q, a);
    hide VerifyTypedFund, Promised, Accepts, Completes, CoinTotal, OwnedTotal, OwnCoins, MineTotal, Claims, Truthful;
    OwnIsDeclared(c, w, h, t, claim, q, a);
    NetOutflowIsExactlyAmount(c, w, t, q.requested, q.amount, q.owned, unread, hostIn, hostOut);
  }

  /** The spent token comes back: a wallet whose only template input is the token it gave up nets no
      loss of it, unless that very asset is the one it was asked to fund. */
  lemma TokenComesBack(c: Crypto, w: Opening, h: Hashes, t: Template, claim: TypedFund, q: Funding,
                       unread: AssetId -> nat, hostIn: seq<Coin>, hostOut: seq<Coin>)
    requires BothAccept(c, w, h, t, claim, q)
    requires Completes(c, w, t, q.owned, unread, hostIn, hostOut)
    requires claim.OfferCancel? || claim.Claim? || (claim.Exercise? && claim.remaining > 0)
    requires |q.owned| == 1 && q.owned[0].asset != q.requested
    ensures WalletNet(w, t, q, hostIn, hostOut, q.owned[0].asset) >= 0
  {
    hide BothAccept, Completes, WalletNet, Money, OwnedTotal, VerifyTypedFund, TokenOf;
    var token := q.owned[0].asset;
    VerifiedByBoth(c, w, h, t, claim, q);
    WalletNetsThePromise(c, w, h, t, claim, q, unread, hostIn, hostOut, token);
    SpentToken(h, t, claim, q);
    OneDeclared(q.owned);
  }

  lemma VerifiedByBoth(c: Crypto, w: Opening, h: Hashes, t: Template, claim: TypedFund, q: Funding)
    requires BothAccept(c, w, h, t, claim, q)
    ensures VerifyTypedFund(h, claim, t, q).Ok?
  {
    hide VerifyTypedFund;
  }

  lemma OneDeclared(owned: seq<OwnedInput>)
    requires |owned| == 1
    ensures OwnedTotal(owned, owned[0].asset) == owned[0].amount
  {
    var f := DeclaredFor(owned[0].asset);
    assert owned[..|owned| - 1] == [] && Sum([], f) == 0;
    assert Sum(owned, f) == Sum(owned[..|owned| - 1], f) + f(owned[0]);
  }

  lemma SpentToken(h: Hashes, t: Template, claim: TypedFund, q: Funding)
    requires VerifyTypedFund(h, claim, t, q).Ok? && |q.owned| == 1
    requires claim.OfferCancel? || claim.Claim? || (claim.Exercise? && claim.remaining > 0)
    ensures q.owned[0].amount == 1 && TokenOf(claim, t, q) == Some((0, q.owned[0].asset))
  {
    hide MinePaying, ReceivesAll, ExerciseToken, BestAtLeast;
    assert q.owned[1..] == [];
    assert Declared(q.owned, 0).Some? ==> Declared(q.owned, 0).value == q.owned[0];
  }

  /** The reported receipt: a fill's proceeds, the best single payment of a cancel, sale or exercise, the
      first listed amount of a collection, and nothing for an offer. */
  lemma ReportedReceipt(h: Hashes, t: Template, claim: TypedFund, q: Funding)
    requires VerifyTypedFund(h, claim, t, q).Ok?
    ensures var r := VerifyTypedFund(h, claim, t, q).value;
            match claim
            case Offer(_, _, _) => r == 0
            case Claim(_, _, receives) => r == receives[0].1
            case OfferCancel(cash, back, _, _) => IsBest(r, MinePaying(t.outputs, q.mine, cash), back)
            case SellRight(price, cash, _) => IsBest(r, MinePaying(t.outputs, q.mine, cash), price)
            case Exercise(_, released, _, _, collateral) =>
              IsBest(r, MinePaying(t.outputs, q.mine, Or(collateral, q.policy)), released)
            case _ => r == claim.s.sale - claim.s.fee
  {
    hide MinePaying, ExerciseToken, OfferCoins, ReceivesAll;
    if IsFill(claim) {
      AcceptedFill(h, claim, t, q);
      ProceedsPaid(t, q, claim.s);
    } else {
      match claim
      case OfferCancel(cash, back, _, _) => BestIsBest(MinePaying(t.outputs, q.mine, cash), back);
      case SellRight(price, cash, _) => BestIsBest(MinePaying(t.outputs, q.mine, cash), price);
      case Exercise(_, released, _, _, collateral) =>
        BestIsBest(MinePaying(t.outputs, q.mine, Or(collateral, q.policy)), released);
      case _ =>
    }
  }

  predicate IsBest(v: u64, values: seq<u64>, floor: u64) {
    v in values && v >= floor && forall u :: u in values ==> u <= v
  }
}
