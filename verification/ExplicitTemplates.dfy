/** Templates whose every row is explicit, built from lists of coins: what the two checks read in them. */
module ExplicitTemplates {
  import opened Common
  import opened Pset
  import opened Approval
  import opened ApprovalTheorems
  import opened Lending
  import opened LendingTheorems

  type Entry = (AssetId, u64)

  function EntryFor(r: Entry, a: AssetId): nat { if r.0 == a then r.1 else 0 }
  function ListedFor(a: AssetId): Entry -> nat { r => EntryFor(r, a) }

  /** What a list of entries comes to in asset `a`. */
  function Listed(entries: seq<Entry>, a: AssetId): nat { Sum(entries, ListedFor(a)) }

  lemma ListedConcat(x: seq<Entry>, y: seq<Entry>, a: AssetId)
    ensures Listed(x + y, a) == Listed(x, a) + Listed(y, a)
  {
    SumConcat(x, y, ListedFor(a));
  }

  lemma ListedOne(r: Entry, a: AssetId)
    ensures Listed([r], a) == EntryFor(r, a)
  {
    assert [r][..0] == [] && Sum([], ListedFor(a)) == 0;
    assert Sum([r], ListedFor(a)) == Sum([r][..0], ListedFor(a)) + ListedFor(a)(r);
  }

  lemma ListedHead(entries: seq<Entry>, a: AssetId)
    requires entries != []
    ensures Listed(entries, a) == EntryFor(entries[0], a) + Listed(entries[1..], a)
  {
    assert entries == [entries[0]] + entries[1..];
    ListedConcat([entries[0]], entries[1..], a);
    ListedOne(entries[0], a);
  }

  // ----- Rows -----

  function Paying(script: Script, r: Entry): Output { Output(script, Some(r.0), Some(r.1), None, None, None, None) }

  /** The `i`-th input spends an outpoint of its own. */
  function Spending(i: nat, r: Entry): Input {
    Input(OutPoint(BigEndian(i, 32), 0), Some(TxOut(ExplicitAsset(r.0), ExplicitValue(r.1), [])),
          None, None, None, None, None, None, None, None, None, None)
  }

  function Build(ins: seq<Entry>, outs: seq<Entry>, scripts: seq<Script>): (t: Template)
    requires |scripts| == |outs|
    ensures |t.inputs| == |ins| && |t.outputs| == |outs|
  {
    Template(seq(|ins|, i requires 0 <= i < |ins| => Spending(i, ins[i])),
             seq(|outs|, i requires 0 <= i < |outs| => Paying(scripts[i], outs[i])))
  }

  /** The declarations name rows of the list, each once, as they are. */
  predicate Declares(ins: seq<Entry>, owned: seq<OwnedInput>) {
    && (forall k :: 0 <= k < |owned| ==>
          owned[k].index < |ins| && ins[owned[k].index] == (owned[k].asset, owned[k].amount))
    && (forall j, k :: 0 <= j < k < |owned| ==> owned[j].index != owned[k].index)
  }

  /** What a chain asks of the rows beyond both checks: no coin is spent twice, and no coin is empty, but
      for data outputs. */
  predicate ChainValid(t: Template) {
    && (forall i, j :: 0 <= i < j < |t.inputs| ==> t.inputs[i].prevout != t.inputs[j].prevout)
    && (forall i :: 0 <= i < |t.inputs| && t.inputs[i].witnessUtxo.Some? ==>
          t.inputs[i].witnessUtxo.value.value != ExplicitValue(0))
    && (forall i :: 0 <= i < |t.outputs| && t.outputs[i].amount == Some(0) ==> IsData(t.outputs[i].script))
  }

  predicate IsData(script: Script) { script != [] && script[0] == 0x6a }

  lemma PayingRead(c: Crypto, script: Script, r: Entry, b: AssetId)
    ensures ReadOutput(c, Paying(script, r)) == Ok(Row(r.0, r.1, false))
            && Debit(c, Paying(script, r), b) == EntryFor(r, b)
    ensures PlainPaid(Paying(script, r), b) == EntryFor(r, b)
    ensures FeeValue(c, Paying(script, r)) == if script == [] then r.1 else 0
  {
  }

  lemma SpendingRead(c: Crypto, i: nat, r: Entry, x: Claimed, b: AssetId)
    requires x == Claimed(Spending(i, r), None, None) || x == Claimed(Spending(i, r), Some(r.0), Some(r.1))
    ensures InputReadable(c, x) && Credit(c, x, b) == EntryFor(r, b)
  {
    hide BigEndian;
  }

  lemma BuiltClaim(ins: seq<Entry>, outs: seq<Entry>, scripts: seq<Script>, owned: seq<OwnedInput>, i: nat)
    requires |scripts| == |outs| && Declares(ins, owned) && i < |ins|
    ensures var x := Claims(Build(ins, outs, scripts).inputs, owned)[i];
            || x == Claimed(Spending(i, ins[i]), None, None)
            || x == Claimed(Spending(i, ins[i]), Some(ins[i].0), Some(ins[i].1))
  {
    hide Spending, Declared;
    DeclaredIff(owned, i);
    if Declared(owned, i).Some? {
      var k :| 0 <= k < |owned| && owned[k] == Declared(owned, i).value;
    }
  }

  lemma BuiltReadable(c: Crypto, ins: seq<Entry>, outs: seq<Entry>, scripts: seq<Script>, owned: seq<OwnedInput>)
    requires |scripts| == |outs| && Declares(ins, owned)
    ensures var t := Build(ins, outs, scripts);
            && OwnedWellFormed(t.inputs, owned)
            && (forall x :: x in Claims(t.inputs, owned) ==> InputReadable(c, x))
            && (forall o :: o in t.outputs ==> ReadOutput(c, o).Ok?)
  {
    hide InputReadable, ReadOutput, Spending, Claims;
    var t := Build(ins, outs, scripts);
    forall x | x in Claims(t.inputs, owned) ensures InputReadable(c, x) {
      var i :| 0 <= i < |t.inputs| && Claims(t.inputs, owned)[i] == x;
      BuiltClaim(ins, outs, scripts, owned, i);
      SpendingRead(c, i, ins[i], x, ins[i].0);
    }
    forall o | o in t.outputs ensures ReadOutput(c, o).Ok? {
      var i :| 0 <= i < |t.outputs| && t.outputs[i] == o;
      PayingRead(c, scripts[i], outs[i], outs[i].0);
    }
  }

  lemma BuiltTotals(c: Crypto, ins: seq<Entry>, outs: seq<Entry>, scripts: seq<Script>, owned: seq<OwnedInput>,
                    b: AssetId)
    requires |scripts| == |outs| && Declares(ins, owned)
    ensures var t := Build(ins, outs, scripts);
            && InTotal(c, Claims(t.inputs, owned), b) == Listed(ins, b)
            && OutTotal(c, t.outputs, b) == Listed(outs, b)
  {
    hide Credit, Debit, Sum, Spending, Claims, InputReadable, Paying;
    var t := Build(ins, outs, scripts);
    var claims := Claims(t.inputs, owned);
    forall i | 0 <= i < |ins| ensures CreditIn(c, b)(claims[i]) == ListedFor(b)(ins[i]) {
      BuiltClaim(ins, outs, scripts, owned, i);
      SpendingRead(c, i, ins[i], claims[i], b);
    }
    SumMap(claims, CreditIn(c, b), ins, ListedFor(b));
    forall i | 0 <= i < |outs| ensures DebitIn(c, b)(t.outputs[i]) == ListedFor(b)(outs[i]) {
      PayingRead(c, scripts[i], outs[i], b);
    }
    SumMap(t.outputs, DebitIn(c, b), outs, ListedFor(b));
  }

  /** Only the `k`-th output has no script. */
  predicate FeeAt(scripts: seq<Script>, k: nat) {
    k < |scripts| && scripts[k] == [] && forall i :: 0 <= i < |scripts| && i != k ==> scripts[i] != []
  }

  lemma BuiltFee(c: Crypto, ins: seq<Entry>, outs: seq<Entry>, scripts: seq<Script>, k: nat)
    requires |scripts| == |outs| && FeeAt(scripts, k)
    ensures FeeCount(Build(ins, outs, scripts).outputs) == 1
    ensures FeeTotal(c, Build(ins, outs, scripts).outputs) == outs[k].1
  {
    hide FeeValue, Sum, Spending;
    var outputs := Build(ins, outs, scripts).outputs;
    var rest := outputs[..k] + outputs[k + 1..];
    forall i | 0 <= i < |rest| ensures IsFee()(rest[i]) == 0 && FeeIn(c)(rest[i]) == 0 {
      var j := if i < k then i else i + 1;
      assert rest[i] == outputs[j];
      PayingRead(c, scripts[j], outs[j], outs[j].0);
    }
    SumZero(rest, IsFee());
    SumZero(rest, FeeIn(c));
    SumPick(outputs, IsFee(), k);
    SumPick(outputs, FeeIn(c), k);
    PayingRead(c, [], outs[k], outs[k].0);
  }

  /** The coins balance, but for `amount` of the asset `want` that is asked for. */
  ghost predicate Lacks(ins: seq<Entry>, outs: seq<Entry>, want: AssetId, amount: u64) {
    forall b: AssetId ::
      && Listed(ins, b) < U64_LIMIT && Listed(outs, b) < U64_LIMIT
      && (b == want ==> Listed(outs, b) == Listed(ins, b) + amount)
      && (b != want ==> Listed(outs, b) <= Listed(ins, b))
  }

  /** The template check accepts such a template. */
  lemma BuiltAccepted(c: Crypto, ins: seq<Entry>, outs: seq<Entry>, scripts: seq<Script>, owned: seq<OwnedInput>,
                      k: nat, want: AssetId, amount: u64)
    requires |scripts| == |outs| && Declares(ins, owned) && FeeAt(scripts, k) && outs[k].1 > 0
    requires amount > 0 && Lacks(ins, outs, want, amount)
    ensures Accepts(c, Build(ins, outs, scripts), want, amount, owned)
  {
    var t := Build(ins, outs, scripts);
    assert t.outputs != [];
    hide InputReadable, ReadOutput, OwnedWellFormed, InTotal, OutTotal, FeeCount, FeeTotal, Claims, Listed, Build;
    BuiltReadable(c, ins, outs, scripts, owned);
    BuiltFee(c, ins, outs, scripts, k);
    forall b: AssetId
      ensures InTotal(c, Claims(t.inputs, owned), b) == Listed(ins, b) && OutTotal(c, t.outputs, b) == Listed(outs, b)
    {
      BuiltTotals(c, ins, outs, scripts, owned, b);
    }
  }

  lemma DistinctNumbers(k: nat, n: nat)
    requires k < n < Pow256(32)
    ensures BigEndian(k, 32) != BigEndian(n, 32)
  {
    hide BigEndian, FromBigEndian, Pow256;
    BigEndianRoundTrip(k, 32);
    BigEndianRoundTrip(n, 32);
  }

  lemma BuiltValid(ins: seq<Entry>, outs: seq<Entry>, scripts: seq<Script>)
    requires |scripts| == |outs| && |ins| <= Pow256(32)
    requires forall i :: 0 <= i < |ins| ==> ins[i].1 > 0
    requires forall i :: 0 <= i < |outs| ==> outs[i].1 > 0 || IsData(scripts[i])
    ensures ChainValid(Build(ins, outs, scripts))
  {
    hide BigEndian, Pow256;
    var t := Build(ins, outs, scripts);
    forall i, j | 0 <= i < j < |ins| ensures t.inputs[i].prevout != t.inputs[j].prevout {
      DistinctNumbers(i, j);
    }
  }

  // ----- The wallet's outputs, when they come first -----

  lemma {:induction false} MineFirst(outputs: seq<Output>, k: nat, f: Output -> nat)
    requires k <= |outputs|
    ensures MineSum(outputs, Upto(k), f) == Sum(outputs[..k], f)
  {
    if outputs != [] {
      var n := |outputs| - 1;
      UptoHas(k, n);
      if k <= n {
        MineFirst(outputs[..n], k, f);
        assert outputs[..n][..k] == outputs[..k];
      } else {
        MineAll(outputs[..n], k, f);
        assert outputs[..k] == outputs;
      }
    }
  }

  lemma {:induction false} MineAll(outputs: seq<Output>, k: nat, f: Output -> nat)
    requires |outputs| <= k
    ensures MineSum(outputs, Upto(k), f) == Sum(outputs, f)
  {
    if outputs != [] {
      UptoHas(k, |outputs| - 1);
      MineAll(outputs[..|outputs| - 1], k, f);
    }
  }

  lemma BuiltMine(ins: seq<Entry>, outs: seq<Entry>, scripts: seq<Script>, k: nat, b: AssetId)
    requires |scripts| == |outs| && k <= |outs|
    ensures MinePaid(Build(ins, outs, scripts).outputs, Upto(k), b) == Listed(outs[..k], b)
  {
    hide Sum, PlainPaid, Spending, Paying;
    var outputs := Build(ins, outs, scripts).outputs;
    MineFirst(outputs, k, PlainIn(b));
    forall i | 0 <= i < k ensures PlainIn(b)(outputs[..k][i]) == ListedFor(b)(outs[..k][i]) {
      PayingRead(Crypto((_, _, _) => false, (_, _, _, _) => false, (_, _) => Zeros(32)), scripts[i], outs[i], b);
    }
    SumMap(outputs[..k], PlainIn(b), outs[..k], ListedFor(b));
  }

  /** The wallet finds each of its coins. */
  lemma BuiltFinds(ins: seq<Entry>, outs: seq<Entry>, scripts: seq<Script>, k: nat, i: nat)
    requires |scripts| == |outs| && i < k <= |outs|
    ensures Explicit(Build(ins, outs, scripts).outputs, i) == Ok(outs[i]) && i in Upto(k)
    ensures outs[i].1 in MinePaying(Build(ins, outs, scripts).outputs, Upto(k), outs[i].0)
  {
    hide Spending, MinePaying;
    UptoHas(k, i);
    MinePayingFinds(Build(ins, outs, scripts).outputs, Upto(k), outs[i].0, outs[i].1, i);
  }
}
