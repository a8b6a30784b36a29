/** Exactly when the listed total of a collection claim is guaranteed: its entries are checked one by
    one, so one output can serve several. */
module LendingCollections {
  import opened Common
  import opened Pset
  import opened Covenant
  import opened Approval
  import opened ExplicitTemplates
  import opened Lending
  import opened LendingTheorems

  predicate Names(entries: seq<Entry>, a: AssetId) { exists i :: 0 <= i < |entries| && entries[i].0 == a }

  lemma NamesHead(entries: seq<Entry>, a: AssetId)
    requires entries != []
    ensures Names(entries, a) <==> entries[0].0 == a || Names(entries[1..], a)
  {
    if Names(entries[1..], a) {
      var i :| 0 <= i < |entries[1..]| && entries[1..][i].0 == a;
      assert entries[i + 1].0 == a;
    }
    if Names(entries, a) {
      var i :| 0 <= i < |entries| && entries[i].0 == a;
      assert i > 0 ==> entries[1..][i - 1].0 == a;
    }
  }

  // ----- The total against the largest entry -----

  /** At most one entry of `a` is not zero. */
  predicate OneEntry(entries: seq<Entry>, a: AssetId) {
    forall j, k :: 0 <= j < k < |entries| && entries[j].0 == a && entries[k].0 == a ==>
      entries[j].1 == 0 || entries[k].1 == 0
  }

  lemma OneEntryHead(entries: seq<Entry>, a: AssetId)
    requires entries != []
    ensures OneEntry(entries, a) <==>
            OneEntry(entries[1..], a) && (EntryFor(entries[0], a) == 0 || NoEntry(entries[1..], a))
  {
    var rest := entries[1..];
    if OneEntry(entries, a) {
      forall j, k | 0 <= j < k < |rest| && rest[j].0 == a && rest[k].0 == a ensures rest[j].1 == 0 || rest[k].1 == 0 {
        assert entries[j + 1] == rest[j] && entries[k + 1] == rest[k];
      }
      forall k | 0 <= k < |rest| ensures EntryFor(entries[0], a) == 0 || EntryFor(rest[k], a) == 0 {
        assert entries[k + 1] == rest[k];
      }
    }
    if OneEntry(rest, a) && (EntryFor(entries[0], a) == 0 || NoEntry(rest, a)) {
      forall j, k | 0 <= j < k < |entries| && entries[j].0 == a && entries[k].0 == a
        ensures entries[j].1 == 0 || entries[k].1 == 0
      {
        assert entries[k] == rest[k - 1];
        assert j > 0 ==> entries[j] == rest[j - 1];
        assert EntryFor(rest[k - 1], a) == entries[k].1;
      }
    }
  }

  predicate NoEntry(entries: seq<Entry>, a: AssetId) { forall k :: 0 <= k < |entries| ==> EntryFor(entries[k], a) == 0 }

  lemma {:induction false} NoEntryIsNothing(entries: seq<Entry>, a: AssetId)
    ensures NoEntry(entries, a) <==> Listed(entries, a) == 0
  {
    if entries != [] {
      var rest := entries[1..];
      NoEntryIsNothing(rest, a);
      ListedHead(entries, a);
      assert NoEntry(entries, a) <==> EntryFor(entries[0], a) == 0 && NoEntry(rest, a) by {
        if EntryFor(entries[0], a) == 0 && NoEntry(rest, a) {
          forall k | 0 <= k < |entries| ensures EntryFor(entries[k], a) == 0 {
            assert k > 0 ==> entries[k] == rest[k - 1];
          }
        }
        if NoEntry(entries, a) {
          forall k | 0 <= k < |rest| ensures EntryFor(rest[k], a) == 0 { assert rest[k] == entries[k + 1]; }
        }
      }
    }
  }

  /** The total is the largest entry when at most one is not zero, and more otherwise. */
  lemma {:induction false} TotalIsLargestIff(entries: seq<Entry>, a: AssetId)
    ensures LargestOf(entries, a) <= Listed(entries, a)
    ensures Listed(entries, a) == LargestOf(entries, a) <==> OneEntry(entries, a)
  {
    if entries != [] {
      TotalIsLargestIff(entries[1..], a);
      ListedHead(entries, a);
      OneEntryHead(entries, a);
      NoEntryIsNothing(entries[1..], a);
      hide OneEntry, NoEntry, Listed;
    }
  }

  // ----- What every accepted collection pays -----

  /** The least an accepted collection pays the wallet of `a`: the largest entry, beside the token that
      output 0 returns, which can itself serve an entry of one and never a larger one. */
  function LeastPaid(claim: TypedFund, a: AssetId): nat
    requires claim.Claim?
  {
    var largest := LargestOf(claim.receives, a);
    if a == claim.lenderToken then WithToken(largest) else largest
  }

  /** The wallet funds a positive fee that the claim check allows, and the returned token fits a u64 beside
      what else is listed of it. No other collection passes both checks. */
  predicate Passable(claim: TypedFund)
    requires claim.Claim?
  {
    0 < claim.fee <= 20000 && claim.receives != [] && LeastPaid(claim, claim.lenderToken) < U64_LIMIT
  }

  /** A template a chain could hold that passes both checks, the template check first, on a network with this
      policy asset. */
  ghost predicate Passes(c: Crypto, h: Hashes, claim: TypedFund, policy: AssetId, t: Template, q: Funding) {
    && ChainValid(t) && q.policy == policy
    && Accepts(c, t, q.requested, q.amount, q.owned) && VerifyTypedFund(h, claim, t, q).Ok?
  }

  /** Every collection that passes both checks pays the wallet the listed total of `a`. */
  ghost predicate AlwaysPaysTotal(c: Crypto, h: Hashes, claim: TypedFund, policy: AssetId, a: AssetId)
    requires claim.Claim?
  {
    forall t, q :: Passes(c, h, claim, policy, t, q) ==> MinePaid(t.outputs, q.mine, a) >= Listed(claim.receives, a)
  }

  lemma LeastIsPromised(claim: TypedFund, t: Template, q: Funding, a: AssetId)
    requires claim.Claim?
    ensures LeastPaid(claim, a) == Promised(claim, t, q, a)
  {
  }

  lemma PaidWithinOutputs(c: Crypto, outputs: seq<Output>, mine: seq<nat>, a: AssetId)
    requires forall o :: o in outputs ==> ReadOutput(c, o).Ok?
    ensures MinePaid(outputs, mine, a) <= OutTotal(c, outputs, a)
  {
    hide ReadOutput, Debit, PlainPaid;
    forall o | o in outputs ensures PlainIn(a)(o) == DebitIn(c, a)(o) { ExplicitIsVerified(c, o, a); }
    MineSumAgrees(outputs, mine, PlainIn(a), DebitIn(c, a));
    MineSumWithin(outputs, mine, DebitIn(c, a));
  }

  lemma LeastIsPaid(c: Crypto, h: Hashes, claim: TypedFund, policy: AssetId, t: Template, q: Funding, a: AssetId)
    requires claim.Claim? && Passes(c, h, claim, policy, t, q)
    ensures MinePaid(t.outputs, q.mine, a) >= LeastPaid(claim, a)
  {
    hide VerifyTypedFund, Accepts, Promised, LeastPaid, MinePaid;
    PromiseIsPlain(h, t, claim, q, a);
    LeastIsPromised(claim, t, q, a);
  }

  lemma ClaimFacts(h: Hashes, claim: TypedFund, t: Template, q: Funding)
    requires claim.Claim? && VerifyTypedFund(h, claim, t, q).Ok?
    ensures q.amount == claim.fee <= 20000 && claim.receives != []
  {
    hide ReceivesAll, Explicit, Declared;
  }

  lemma OnlyPassablePasses(c: Crypto, h: Hashes, claim: TypedFund, policy: AssetId, t: Template, q: Funding)
    requires claim.Claim? && Passes(c, h, claim, policy, t, q)
    ensures Passable(claim)
  {
    ClaimFacts(h, claim, t, q);
    LeastIsPaid(c, h, claim, policy, t, q, claim.lenderToken);
    hide VerifyTypedFund, LeastPaid, MinePaid, OutTotal, InTotal, ReadOutput, Claims;
    PaidWithinOutputs(c, t.outputs, q.mine, claim.lenderToken);
  }

  // ----- The template that pays no more than the least -----

  /** What an asset's payment amounts to: its largest entry, or one where all its entries are zero. */
  function Payment(all: seq<Entry>, b: AssetId): u64 { if LargestOf(all, b) == 0 then 1 else LargestOf(all, b) }

  /** One payment per listed asset; none of the token when output 0 serves it. */
  function Payments(all: seq<Entry>, rs: seq<Entry>, token: AssetId): seq<Entry> {
    if rs == [] then []
    else
      var rest, b := Payments(all, rs[1..], token), rs[0].0;
      if Names(rs[1..], b) || ServedByToken(all, token, b) then rest else [(b, Payment(all, b))] + rest
  }

  predicate ServedByToken(all: seq<Entry>, token: AssetId, b: AssetId) { b == token && LargestOf(all, b) <= 1 }

  lemma {:induction false} PaymentsListed(all: seq<Entry>, rs: seq<Entry>, token: AssetId, b: AssetId)
    ensures Listed(Payments(all, rs, token), b)
            == if Names(rs, b) && !ServedByToken(all, token, b) then Payment(all, b) else 0
  {
    if rs != [] {
      var rest := Payments(all, rs[1..], token);
      PaymentsListed(all, rs[1..], token, b);
      NamesHead(rs, b);
      hide Names, ServedByToken, Payment, Listed;
      var head: Entry := (rs[0].0, Payment(all, rs[0].0));
      ListedConcat([head], rest, b);
      ListedOne(head, b);
    }
  }

  lemma {:induction false} PaymentFor(all: seq<Entry>, rs: seq<Entry>, token: AssetId, b: AssetId)
    requires Names(rs, b) && !ServedByToken(all, token, b)
    ensures (b, Payment(all, b)) in Payments(all, rs, token)
  {
    NamesHead(rs, b);
    if Names(rs[1..], b) {
      PaymentFor(all, rs[1..], token, b);
    }
  }

  lemma {:induction false} PaymentsAreCoins(all: seq<Entry>, rs: seq<Entry>, token: AssetId)
    ensures |Payments(all, rs, token)| <= |rs|
    ensures forall i :: 0 <= i < |Payments(all, rs, token)| ==> Payments(all, rs, token)[i].1 > 0
  {
    if rs != [] {
      PaymentsAreCoins(all, rs[1..], token);
      hide Names, ServedByToken, LargestOf;
    }
  }

  lemma {:induction false} NotNamedIsZero(entries: seq<Entry>, b: AssetId)
    requires !Names(entries, b)
    ensures LargestOf(entries, b) == 0
  {
    if entries != [] {
      NamesHead(entries, b);
      NotNamedIsZero(entries[1..], b);
    }
  }

  lemma {:induction false} LargestCovers(entries: seq<Entry>, i: nat)
    requires i < |entries|
    ensures entries[i].1 <= LargestOf(entries, entries[i].0)
  {
    if i > 0 {
      LargestCovers(entries[1..], i - 1);
    }
  }

  /** The entries of other assets. */
  function Others(entries: seq<Entry>, policy: AssetId): seq<Entry> {
    if entries == [] then []
    else if entries[0].0 == policy then Others(entries[1..], policy)
    else [entries[0]] + Others(entries[1..], policy)
  }

  lemma {:induction false} OthersAreCoins(entries: seq<Entry>, policy: AssetId)
    requires forall i :: 0 <= i < |entries| ==> entries[i].1 > 0
    ensures |Others(entries, policy)| <= |entries|
    ensures forall i :: 0 <= i < |Others(entries, policy)| ==> Others(entries, policy)[i].1 > 0
  {
    if entries != [] {
      OthersAreCoins(entries[1..], policy);
    }
  }

  lemma {:induction false} OthersListed(entries: seq<Entry>, policy: AssetId, b: AssetId)
    ensures Listed(Others(entries, policy), b) == if b == policy then 0 else Listed(entries, b)
  {
    if entries != [] {
      OthersListed(entries[1..], policy, b);
      ListedHead(entries, b);
      hide Listed;
      ListedConcat([entries[0]], Others(entries[1..], policy), b);
      ListedOne(entries[0], b);
    }
  }

  /** What the wallet is paid: the token at output 0, then the payments. */
  function Front(claim: TypedFund): seq<Entry>
    requires claim.Claim?
  {
    [(claim.lenderToken, 1)] + Payments(claim.receives, claim.receives, claim.lenderToken)
  }

  /** What the wallet is then paid of `b`: the least, but a unit for an asset listed with zeros alone, as no
      coin is empty. */
  function Reached(claim: TypedFund, b: AssetId): nat
    requires claim.Claim?
  {
    if Names(claim.receives, b) && LeastPaid(claim, b) == 0 then 1 else LeastPaid(claim, b)
  }

  lemma FrontListed(claim: TypedFund, b: AssetId)
    requires claim.Claim?
    ensures Listed(Front(claim), b) == Reached(claim, b)
  {
    var rs, token := claim.receives, claim.lenderToken;
    PaymentsListed(rs, rs, token, b);
    if !Names(rs, b) { NotNamedIsZero(rs, b); }
    hide Names, LargestOf, Listed, Payments;
    ListedConcat([(token, 1)], Payments(rs, rs, token), b);
    ListedOne((token, 1), b);
  }

  /** A passable collection, and an asset in which a fee of one still fits. */
  predicate Payable(claim: TypedFund, f: AssetId)
    requires claim.Claim?
  {
    Passable(claim) && Reached(claim, f) + 1 < U64_LIMIT
  }

  /** The policy asset that goes to the wallet's payments and to the fee. */
  function PolicyPaid(claim: TypedFund, policy: AssetId, f: AssetId): u64
    requires claim.Claim? && Payable(claim, f)
  {
    Reached(claim, policy) - (if policy == claim.lenderToken then 1 else 0) + (if f == policy then 1 else 0)
  }

  /** How much policy asset a third party is paid so that the template lacks what the wallet funds. */
  function Extra(claim: TypedFund, policy: AssetId, f: AssetId): u64
    requires claim.Claim? && Payable(claim, f)
  {
    if PolicyPaid(claim, policy, f) < claim.fee then claim.fee - PolicyPaid(claim, policy, f) else 0
  }

  /** And how much is put in. */
  function PutIn(claim: TypedFund, policy: AssetId, f: AssetId): u64
    requires claim.Claim? && Payable(claim, f)
  {
    if PolicyPaid(claim, policy, f) < claim.fee then 0 else PolicyPaid(claim, policy, f) - claim.fee
  }

  /** A coin, unless it would be empty. */
  function IfAny(a: AssetId, v: u64): seq<Entry> { if v == 0 then [] else [(a, v)] }

  lemma IfAnyListed(a: AssetId, v: u64, b: AssetId)
    ensures Listed(IfAny(a, v), b) == EntryFor((a, v), b)
  {
    ListedOne((a, v), b);
  }

  function CoinsOut(claim: TypedFund, policy: AssetId, f: AssetId): seq<Entry>
    requires claim.Claim? && Payable(claim, f)
  {
    Front(claim) + ([(f, 1)] + IfAny(policy, Extra(claim, policy, f)))
  }

  function CoinsIn(claim: TypedFund, policy: AssetId, f: AssetId): seq<Entry>
    requires claim.Claim? && Payable(claim, f)
  {
    [(claim.lenderToken, 1)]
    + (Others(Payments(claim.receives, claim.receives, claim.lenderToken) + [(f, 1)], policy)
       + IfAny(policy, PutIn(claim, policy, f)))
  }

  lemma CoinsOutListed(claim: TypedFund, policy: AssetId, f: AssetId, b: AssetId)
    requires claim.Claim? && Payable(claim, f)
    ensures Listed(CoinsOut(claim, policy, f), b)
            == Reached(claim, b) + EntryFor((f, 1), b) + EntryFor((policy, Extra(claim, policy, f)), b)
  {
    hide Listed, Reached, Front, Extra, Payable, IfAny;
    FrontListed(claim, b);
    ListedConcat(Front(claim), [(f, 1)] + IfAny(policy, Extra(claim, policy, f)), b);
    ListedConcat([(f, 1)], IfAny(policy, Extra(claim, policy, f)), b);
    ListedOne((f, 1), b);
    IfAnyListed(policy, Extra(claim, policy, f), b);
  }

  lemma CoinsInListed(claim: TypedFund, policy: AssetId, f: AssetId, b: AssetId)
    requires claim.Claim? && Payable(claim, f)
    ensures var token := EntryFor((claim.lenderToken, 1), b);
            Listed(CoinsIn(claim, policy, f), b)
            == token + (if b == policy then 0 else Reached(claim, b) - token + EntryFor((f, 1), b))
               + EntryFor((policy, PutIn(claim, policy, f)), b)
  {
    var rs, token := claim.receives, claim.lenderToken;
    var paid := Payments(rs, rs, token) + [(f, 1)];
    FrontListed(claim, b);
    ListedConcat([(token, 1)], Payments(rs, rs, token), b);
    ListedOne((token, 1), b);
    hide Listed, Reached, Payments, PutIn, Others, Payable, IfAny;
    ListedConcat(Payments(rs, rs, token), [(f, 1)], b);
    ListedOne((f, 1), b);
    OthersListed(paid, policy, b);
    ListedConcat([(token, 1)], Others(paid, policy) + IfAny(policy, PutIn(claim, policy, f)), b);
    ListedConcat(Others(paid, policy), IfAny(policy, PutIn(claim, policy, f)), b);
    IfAnyListed(policy, PutIn(claim, policy, f), b);
  }

  /** The assets balance, but for the fee that the wallet is asked to fund. */
  lemma CoinsBalance(claim: TypedFund, policy: AssetId, f: AssetId)
    requires claim.Claim? && Payable(claim, f)
    ensures Lacks(CoinsIn(claim, policy, f), CoinsOut(claim, policy, f), policy, claim.fee)
  {
    forall b: AssetId
      ensures Listed(CoinsOut(claim, policy, f), b) < U64_LIMIT
      ensures Listed(CoinsOut(claim, policy, f), b)
              == Listed(CoinsIn(claim, policy, f), b) + if b == policy then claim.fee else 0
    {
      CoinsOutListed(claim, policy, f, b);
      CoinsInListed(claim, policy, f, b);
      hide Listed, LargestOf, Names;
    }
  }

  // ----- As rows of a template -----

  /** Every output has a script but the one after the wallet's payments, which is the fee. */
  function Scripts(claim: TypedFund, n: nat): (s: seq<Script>)
    requires claim.Claim?
    ensures |s| == n
  {
    seq(n, i => if i == |Front(claim)| then [] else [0x51])
  }

  function LeastTemplate(claim: TypedFund, policy: AssetId, f: AssetId): Template
    requires claim.Claim? && Payable(claim, f)
  {
    var outs := CoinsOut(claim, policy, f);
    Build(CoinsIn(claim, policy, f), outs, Scripts(claim, |outs|))
  }

  function LeastFunding(claim: TypedFund, policy: AssetId): Funding
    requires claim.Claim?
  {
    Funding(policy, claim.fee, policy, Upto(|Front(claim)|), [OwnedInput(0, claim.lenderToken, 1)])
  }

  /** The template check accepts it. */
  lemma TemplateAccepted(c: Crypto, claim: TypedFund, policy: AssetId, f: AssetId)
    requires claim.Claim? && Payable(claim, f)
    ensures var t, q := LeastTemplate(claim, policy, f), LeastFunding(claim, policy);
            Accepts(c, t, q.requested, q.amount, q.owned)
  {
    var ins, outs, q := CoinsIn(claim, policy, f), CoinsOut(claim, policy, f), LeastFunding(claim, policy);
    var k := |Front(claim)|;
    assert 0 < claim.fee && outs[k] == (f, 1) && ins[0] == (claim.lenderToken, 1);
    CoinsBalance(claim, policy, f);
    hide CoinsIn, CoinsOut, Accepts, Lacks, Payable, Front;
    BuiltAccepted(c, ins, outs, Scripts(claim, |outs|), q.owned, k, policy, claim.fee);
  }

  lemma {:induction false} PowGrows(m: nat, n: nat)
    requires m <= n
    ensures Pow256(m) <= Pow256(n)
  {
    if m < n {
      PowGrows(m, n - 1);
    }
  }

  lemma ManyNumbers()
    ensures U64_LIMIT + 4 < Pow256(32)
  {
    assert Pow256(4) == U32_LIMIT;
    assert Pow256(8) == U64_LIMIT && 256 * Pow256(8) == Pow256(9);
    PowGrows(9, 32);
  }

  predicate Coins(entries: seq<Entry>) { forall i :: 0 <= i < |entries| ==> entries[i].1 > 0 }

  lemma CoinsConcat(x: seq<Entry>, y: seq<Entry>)
    requires Coins(x) && Coins(y)
    ensures Coins(x + y)
  {
  }

  lemma IfAnyIsCoin(a: AssetId, v: u64)
    ensures Coins(IfAny(a, v)) && |IfAny(a, v)| <= 1
  {
  }

  lemma PaidAreCoins(claim: TypedFund, policy: AssetId, f: AssetId)
    requires claim.Claim?
    ensures Coins(Front(claim))
    ensures var others := Others(Payments(claim.receives, claim.receives, claim.lenderToken) + [(f, 1)], policy);
            Coins(others) && |others| <= |claim.receives| + 1
  {
    var rs, token := claim.receives, claim.lenderToken;
    PaymentsAreCoins(rs, rs, token);
    OthersAreCoins(Payments(rs, rs, token) + [(f, 1)], policy);
    hide Payments, Others;
  }

  lemma AllAreCoins(claim: TypedFund, policy: AssetId, f: AssetId)
    requires claim.Claim? && Payable(claim, f)
    ensures Coins(CoinsOut(claim, policy, f))
    ensures Coins(CoinsIn(claim, policy, f)) && |CoinsIn(claim, policy, f)| <= |claim.receives| + 3
  {
    hide Payments, Others, Front, Coins, IfAny, Extra, PutIn, Payable;
    var others := Others(Payments(claim.receives, claim.receives, claim.lenderToken) + [(f, 1)], policy);
    PaidAreCoins(claim, policy, f);
    IfAnyIsCoin(policy, Extra(claim, policy, f));
    IfAnyIsCoin(policy, PutIn(claim, policy, f));
    OneCoin(f);
    OneCoin(claim.lenderToken);
    CoinsConcat([(f, 1)], IfAny(policy, Extra(claim, policy, f)));
    CoinsConcat(Front(claim), [(f, 1)] + IfAny(policy, Extra(claim, policy, f)));
    CoinsConcat(others, IfAny(policy, PutIn(claim, policy, f)));
    CoinsConcat([(claim.lenderToken, 1)], others + IfAny(policy, PutIn(claim, policy, f)));
  }

  lemma OneCoin(a: AssetId)
    ensures Coins([(a, 1)])
  {
  }

  /** A chain could hold it. */
  lemma TemplateValid(claim: TypedFund, policy: AssetId, f: AssetId)
    requires claim.Claim? && Payable(claim, f) && |claim.receives| < U64_LIMIT
    ensures ChainValid(LeastTemplate(claim, policy, f))
  {
    AllAreCoins(claim, policy, f);
    ManyNumbers();
    hide CoinsIn, CoinsOut, Pow256, ChainValid, Payable, Build, Scripts;
    var outs := CoinsOut(claim, policy, f);
    BuiltValid(CoinsIn(claim, policy, f), outs, Scripts(claim, |outs|));
  }

  /** Every entry is served, by the token or by its asset's payment. */
  lemma EntryServed(claim: TypedFund, policy: AssetId, f: AssetId, i: nat)
    requires claim.Claim? && Payable(claim, f) && i < |claim.receives|
    ensures MoneyFound(LeastTemplate(claim, policy, f).outputs, LeastFunding(claim, policy).mine,
                       claim.receives[i].0, claim.receives[i].1)
  {
    var rs, token, front, outs := claim.receives, claim.lenderToken, Front(claim), CoinsOut(claim, policy, f);
    var (b, v) := rs[i];
    LargestCovers(rs, i);
    var k: nat := 0;
    if !ServedByToken(rs, token, b) {
      PaymentFor(rs, rs, token, b);
      var j :| 0 <= j < |front| - 1 && Payments(rs, rs, token)[j] == (b, Payment(rs, b));
      k := j + 1;
    }
    hide LargestOf, Payments, Names, MinePaying, Build, Payable;
    assert outs[k] == front[k] && front[k].0 == b && front[k].1 >= v;
    BuiltFinds(CoinsIn(claim, policy, f), outs, Scripts(claim, |outs|), |front|, k);
  }

  lemma {:induction false} AllServed(t: Template, q: Funding, receives: seq<Entry>)
    requires forall i :: 0 <= i < |receives| ==> MoneyFound(t.outputs, q.mine, receives[i].0, receives[i].1)
    ensures ReceivesAll(t, q, receives).Ok?
  {
    hide MinePaying;
    if receives != [] {
      assert MoneyFound(t.outputs, q.mine, receives[0].0, receives[0].1);
      forall i | 0 <= i < |receives[1..]|
        ensures MoneyFound(t.outputs, q.mine, receives[1..][i].0, receives[1..][i].1)
      {
        assert receives[1..][i] == receives[i + 1];
      }
      AllServed(t, q, receives[1..]);
    }
  }

  lemma ClaimPasses(h: Hashes, claim: TypedFund, t: Template, q: Funding)
    requires claim.Claim? && q.owned == [OwnedInput(0, claim.lenderToken, 1)]
    requires q.requested == q.policy && q.amount == claim.fee <= 20000 && claim.receives != []
    requires Explicit(t.outputs, 0) == Ok((claim.lenderToken, 1)) && 0 in q.mine
    requires ReceivesAll(t, q, claim.receives).Ok?
    ensures VerifyTypedFund(h, claim, t, q).Ok?
  {
    assert Declared(q.owned, 0) == Some(q.owned[0]);
    hide ReceivesAll, Explicit, Declared;
  }

  /** The claim check accepts it. */
  lemma ClaimAccepted(h: Hashes, claim: TypedFund, policy: AssetId, f: AssetId)
    requires claim.Claim? && Payable(claim, f)
    ensures VerifyTypedFund(h, claim, LeastTemplate(claim, policy, f), LeastFunding(claim, policy)).Ok?
  {
    var t, q, outs := LeastTemplate(claim, policy, f), LeastFunding(claim, policy), CoinsOut(claim, policy, f);
    assert outs[0] == (claim.lenderToken, 1);
    hide ReceivesAll, Payments, Reached, MoneyFound, Build, MinePaying, CoinsIn, CoinsOut, VerifyTypedFund, Explicit,
      LeastPaid;
    forall i | 0 <= i < |claim.receives|
      ensures MoneyFound(t.outputs, q.mine, claim.receives[i].0, claim.receives[i].1)
    {
      EntryServed(claim, policy, f, i);
    }
    AllServed(t, q, claim.receives);
    FrontFits(claim, policy, f);
    BuiltFinds(CoinsIn(claim, policy, f), outs, Scripts(claim, |outs|), |Front(claim)|, 0);
    ClaimPasses(h, claim, t, q);
  }

  lemma FrontFits(claim: TypedFund, policy: AssetId, f: AssetId)
    requires claim.Claim? && Payable(claim, f)
    ensures 0 < |Front(claim)| <= |CoinsOut(claim, policy, f)|
  {
  }

  /** And it pays the wallet exactly that. */
  lemma TemplatePays(claim: TypedFund, policy: AssetId, f: AssetId, b: AssetId)
    requires claim.Claim? && Payable(claim, f)
    ensures MinePaid(LeastTemplate(claim, policy, f).outputs, LeastFunding(claim, policy).mine, b) == Reached(claim, b)
  {
    hide MinePaid, Reached, Payments, CoinsIn, Listed, Build, Payable;
    var outs, front := CoinsOut(claim, policy, f), Front(claim);
    BuiltMine(CoinsIn(claim, policy, f), outs, Scripts(claim, |outs|), |front|, b);
    assert outs[..|front|] == front;
    FrontListed(claim, b);
  }

  // ----- A fee asset that the claim does not name -----

  function Numbers(n: nat): set<AssetId> {
    set k | 0 <= k < n :: BigEndian(k, 32)
  }

  lemma {:induction false} NumbersSize(n: nat)
    requires n <= Pow256(32)
    ensures |Numbers(n)| == n
  {
    hide BigEndian, Pow256;
    if n == 0 {
      assert Numbers(0) == {};
    } else {
      NumbersSize(n - 1);
      forall k: nat | k < n - 1 ensures BigEndian(k, 32) != BigEndian(n - 1, 32) { DistinctNumbers(k, n - 1); }
      assert Numbers(n) == Numbers(n - 1) + {BigEndian(n - 1, 32)};
    }
  }

  lemma {:induction false} FewElements(s: seq<AssetId>)
    ensures |set x | x in s| <= |s|
  {
    if s != [] {
      var n := |s| - 1;
      FewElements(s[..n]);
      assert s == s[..n] + [s[n]];
      assert (set x | x in s) == (set x | x in s[..n]) + {s[n]};
    }
  }

  /** There are more asset ids than any list holds. */
  lemma FreshAsset(taken: seq<AssetId>) returns (f: AssetId)
    requires |taken| < Pow256(32)
    ensures f !in taken
  {
    var used, all := (set x | x in taken), Numbers(|taken| + 1);
    FewElements(taken);
    NumbersSize(|taken| + 1);
    if all <= used {
      SubsetSize(all, used);
    }
    f :| f in all && f !in used;
  }

  lemma {:induction false} SubsetSize(a: set<AssetId>, b: set<AssetId>)
    requires a <= b
    ensures |a| <= |b|
  {
    if a != {} {
      var x :| x in a;
      SubsetSize(a - {x}, b - {x});
    }
  }

  lemma UnnamedAsset(claim: TypedFund) returns (f: AssetId)
    requires claim.Claim? && |claim.receives| < U64_LIMIT
    ensures f != claim.lenderToken && !Names(claim.receives, f)
  {
    var rs := claim.receives;
    var listed := seq(|rs|, i requires 0 <= i < |rs| => rs[i].0);
    ManyNumbers();
    hide Pow256;
    f := FreshAsset([claim.lenderToken] + listed);
    forall i | 0 <= i < |rs| ensures rs[i].0 != f {
      assert listed[i] in listed;
    }
  }

  /** The fee is paid in the policy asset, or, when no u64 room is left there, in one the claim does not name. */
  lemma FeeAsset(claim: TypedFund, policy: AssetId) returns (f: AssetId)
    requires claim.Claim? && Passable(claim) && |claim.receives| < U64_LIMIT
    ensures Payable(claim, f) && (Payable(claim, policy) ==> f == policy)
  {
    f := policy;
    if !Payable(claim, policy) {
      f := UnnamedAsset(claim);
      NotNamedIsZero(claim.receives, f);
    }
  }

  // ----- Exactly when the total is guaranteed -----

  /** The fee of a template is paid in `f`. */
  predicate FeeIs(t: Template, f: AssetId) { forall o :: o in t.outputs && o.script == [] ==> o.asset == Some(f) }

  lemma TemplateFeeIs(claim: TypedFund, policy: AssetId, f: AssetId)
    requires claim.Claim? && Payable(claim, f)
    ensures FeeIs(LeastTemplate(claim, policy, f), f)
  {
    hide Payments, Payable;
  }

  /** For every passable collection some template passes both checks and pays no more than the least, or a
      unit of an asset that is listed with zeros alone; its fee is in the policy asset wherever that has
      room for it. */
  lemma LeastIsReached(c: Crypto, h: Hashes, claim: TypedFund, policy: AssetId, a: AssetId)
      returns (t: Template, q: Funding)
    requires claim.Claim? && Passable(claim) && |claim.receives| < U64_LIMIT
    ensures Passes(c, h, claim, policy, t, q) && MinePaid(t.outputs, q.mine, a) == Reached(claim, a)
    ensures Payable(claim, policy) ==> FeeIs(t, policy)
  {
    hide Passable, Payable, Accepts, VerifyTypedFund, LeastTemplate, Reached, MinePaid, FeeIs, ChainValid;
    var f := FeeAsset(claim, policy);
    t, q := LeastTemplate(claim, policy, f), LeastFunding(claim, policy);
    TemplateValid(claim, policy, f);
    TemplateAccepted(c, claim, policy, f);
    ClaimAccepted(h, claim, policy, f);
    TemplatePays(claim, policy, f, a);
    TemplateFeeIs(claim, policy, f);
  }

  /** The entries of `a` add up to no more than the least: at most one is not zero, or they are entries of
      the returned token and exceed the largest by no more than the unit at output 0. */
  predicate Covered(claim: TypedFund, a: AssetId)
    requires claim.Claim?
  {
    if a == claim.lenderToken && LargestOf(claim.receives, a) > 1
    then Listed(claim.receives, a) <= LargestOf(claim.receives, a) + 1
    else OneEntry(claim.receives, a)
  }

  lemma NothingLargeIsOneEntry(entries: seq<Entry>, a: AssetId)
    requires LargestOf(entries, a) == 0
    ensures OneEntry(entries, a)
  {
    forall i | 0 <= i < |entries| && entries[i].0 == a ensures entries[i].1 == 0 { LargestCovers(entries, i); }
  }

  lemma CoveredIffLeast(claim: TypedFund, a: AssetId)
    requires claim.Claim?
    ensures Covered(claim, a) <==> Listed(claim.receives, a) <= LeastPaid(claim, a)
  {
    TotalIsLargestIff(claim.receives, a);
    if LargestOf(claim.receives, a) == 0 {
      NothingLargeIsOneEntry(claim.receives, a);
    }
    hide OneEntry, Listed, LargestOf;
  }

  lemma UncoveredIsReached(claim: TypedFund, a: AssetId)
    requires claim.Claim? && !Covered(claim, a)
    ensures Reached(claim, a) == LeastPaid(claim, a)
  {
    if LargestOf(claim.receives, a) == 0 {
      NothingLargeIsOneEntry(claim.receives, a);
    }
    hide OneEntry, Listed, Names;
  }

  /** Exactly when a collection's listed total of an asset is guaranteed by the two checks: its entries are
      covered, or the claim cannot pass at all. A list is no longer than the source's index type allows. */
  lemma CollectionTotalsExact(c: Crypto, h: Hashes, claim: TypedFund, policy: AssetId, a: AssetId)
    requires claim.Claim? && |claim.receives| < U64_LIMIT
    ensures AlwaysPaysTotal(c, h, claim, policy, a) <==> Covered(claim, a) || !Passable(claim)
  {
    hide Passes, Passable, Covered, LeastPaid, Listed, MinePaid;
    CoveredIffLeast(claim, a);
    forall t, q | Passes(c, h, claim, policy, t, q)
      ensures Passable(claim) && MinePaid(t.outputs, q.mine, a) >= LeastPaid(claim, a)
    {
      OnlyPassablePasses(c, h, claim, policy, t, q);
      LeastIsPaid(c, h, claim, policy, t, q, a);
    }
    if Passable(claim) && !Covered(claim, a) {
      UncoveredIsReached(claim, a);
      var t, q := LeastIsReached(c, h, claim, policy, a);
      assert Passes(c, h, claim, policy, t, q);
    }
  }

  /** For instance, a collection listing 5 and 7 of one asset passes both checks, its fee in the policy asset,
      and pays 7. */
  lemma OneOutputServesTwo(c: Crypto, h: Hashes, token: AssetId, policy: AssetId, a: AssetId)
      returns (t: Template, q: Funding)
    requires a != token
    ensures var claim := Claim(token, 100, [(a, 5), (a, 7)]);
            Passes(c, h, claim, policy, t, q) && MinePaid(t.outputs, q.mine, a) == 7 && Listed(claim.receives, a) == 12
            && FeeIs(t, policy)
  {
    var r5: Entry, r7: Entry := (a, 5), (a, 7);
    var claim := Claim(token, 100, [r5, r7]);
    assert [r5, r7][1..] == [r7] && [r7][1..] == [];
    forall b: AssetId ensures LargestOf(claim.receives, b) == if b == a then 7 else 0 {
      assert LargestOf([], b) == 0;
      assert LargestOf([r7], b) == if b == a then 7 else 0;
    }
    ListedConcat([r5], [r7], a);
    ListedOne(r5, a);
    ListedOne(r7, a);
    assert [r5] + [r7] == claim.receives;
    hide Passes, MinePaid, Listed;
    t, q := LeastIsReached(c, h, claim, policy, a);
  }
}
