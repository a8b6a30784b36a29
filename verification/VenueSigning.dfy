/** The in-place key-spend signer of the venue key (`venue.rs`, `sign_pset_keyspend_inputs`). */
module VenueSigning {
  import opened Common
  import opened Pset

  type Keypair = Bytes

  /** The key's two scripts and keypairs, and the foreign transaction code it calls. */
  datatype Signer<!Tx> = Signer(
    rawScript: Script,
    tweakedScript: Script,
    raw: Keypair,
    tweaked: Keypair,
    extractTx: seq<Input> -> Option<Tx>,
    sign: (Keypair, Tx, nat, seq<TxOut>, Bytes32) -> Bytes)

  datatype SignError = MissingUtxo(index: nat) | CannotExtract

  /** The keypair an input demands, if it is ours and not final. */
  function KeyFor<Tx>(k: Signer<Tx>, input: Input): Option<Keypair> {
    if input.finalScriptWitness.Some? || input.witnessUtxo.None? then None
    else if input.witnessUtxo.value.script == k.rawScript then Some(k.raw)
    else if input.witnessUtxo.value.script == k.tweakedScript then Some(k.tweaked)
    else None
  }

  /** The indexes of the inputs to sign, in order. */
  function Mine<Tx>(k: Signer<Tx>, inputs: seq<Input>): (s: seq<nat>)
    ensures forall j :: 0 <= j < |s| ==> s[j] < |inputs| && KeyFor(k, inputs[s[j]]).Some?
    ensures forall i, j :: 0 <= i < j < |s| ==> s[i] < s[j]
    ensures forall i :: 0 <= i < |inputs| && KeyFor(k, inputs[i]).Some? ==> i in s
  {
    if inputs == [] then []
    else
      var n := |inputs| - 1;
      var s := Mine(k, inputs[..n]);
      if KeyFor(k, inputs[n]).Some? then s + [n] else s
  }

  predicate AllFunded(inputs: seq<Input>) {
    forall i :: 0 <= i < |inputs| ==> inputs[i].witnessUtxo.Some?
  }

  function Prevouts(inputs: seq<Input>): (s: seq<TxOut>)
    requires AllFunded(inputs)
    ensures |s| == |inputs| && forall i :: 0 <= i < |s| ==> Some(s[i]) == inputs[i].witnessUtxo
  {
    seq(|inputs|, i requires 0 <= i < |inputs| => inputs[i].witnessUtxo.value)
  }

  /** The PSET with each of our inputs satisfied over the transaction extracted from `inputs`. */
  function Signed<Tx>(k: Signer<Tx>, inputs: seq<Input>, genesis: Bytes32): (s: seq<Input>)
    requires AllFunded(inputs) && k.extractTx(inputs).Some?
    ensures |s| == |inputs|
  {
    var tx := k.extractTx(inputs).value;
    var prevouts := Prevouts(inputs);
    seq(|inputs|, i requires 0 <= i < |inputs| =>
      if KeyFor(k, inputs[i]).Some?
      then inputs[i].(finalScriptWitness := Some([k.sign(KeyFor(k, inputs[i]).value, tx, i, prevouts, genesis)]))
      else inputs[i])
  }

  /** The outcome as a function of the PSET before the call. */
  function Outcome<Tx>(k: Signer<Tx>, inputs: seq<Input>): Result<nat, SignError> {
    if Mine(k, inputs) == [] then Ok(0)
    else if !AllFunded(inputs) then Err(MissingUtxo(FirstUnfunded(inputs)))
    else if k.extractTx(inputs).None? then Err(CannotExtract)
    else Ok(|Mine(k, inputs)|)
  }

  function FirstUnfunded(inputs: seq<Input>): nat {
    if inputs == [] || inputs[0].witnessUtxo.None? then 0 else 1 + FirstUnfunded(inputs[1..])
  }

  lemma {:induction false} FirstUnfundedAt(inputs: seq<Input>, i: nat)
    requires i < |inputs| && inputs[i].witnessUtxo.None? && forall j :: 0 <= j < i ==> inputs[j].witnessUtxo.Some?
    ensures FirstUnfunded(inputs) == i
  {
    if i > 0 {
      FirstUnfundedAt(inputs[1..], i - 1);
    }
  }

  /** After `n` rounds the first `n` of our inputs are signed and the rest is as before. */
  ghost function PartlySigned(was: seq<Input>, signed: seq<Input>, mine: seq<nat>, n: nat): (s: seq<Input>)
    requires |was| == |signed| && n <= |mine|
    ensures |s| == |was|
  {
    seq(|was|, i requires 0 <= i < |was| => if i in mine[..n] then signed[i] else was[i])
  }

  /** The filter over the inputs. */
  method FindMine<Tx>(k: Signer<Tx>, pset: array<Input>) returns (mine: seq<nat>)
    ensures mine == Mine(k, pset[..])
  {
    hide KeyFor;
    mine := [];
    for i := 0 to pset.Length
      invariant mine == Mine(k, pset[..i])
    {
      assert pset[..i + 1][..i] == pset[..i];
      if KeyFor(k, pset[i]).Some? {
        mine := mine + [i];
      }
    }
    assert pset[..pset.Length] == pset[..];
  }

  /** Every prevout, or the first input that has none. */
  method CollectPrevouts(pset: array<Input>) returns (r: Result<seq<TxOut>, SignError>)
    ensures r.Ok? <==> AllFunded(pset[..])
    ensures r.Ok? ==> r.value == Prevouts(pset[..])
    ensures r.Err? ==> r.error == MissingUtxo(FirstUnfunded(pset[..]))
  {
    var prevouts: seq<TxOut> := [];
    for i := 0 to pset.Length
      invariant |prevouts| == i
      invariant forall j :: 0 <= j < i ==> pset[j].witnessUtxo.Some? && prevouts[j] == pset[j].witnessUtxo.value
    {
      if pset[i].witnessUtxo.None? {
        FirstUnfundedAt(pset[..], i);
        return Err(MissingUtxo(i));
      }
      prevouts := prevouts + [pset[i].witnessUtxo.value];
    }
    return Ok(prevouts);
  }

  lemma SignedAt<Tx>(k: Signer<Tx>, was: seq<Input>, genesis: Bytes32, i: nat)
    requires AllFunded(was) && k.extractTx(was).Some? && i < |was| && KeyFor(k, was[i]).Some?
    ensures Signed(k, was, genesis)[i]
            == was[i].(finalScriptWitness := Some([k.sign(KeyFor(k, was[i]).value, k.extractTx(was).value, i,
                Prevouts(was), genesis)]))
  {
  }

  lemma AllSigned<Tx>(k: Signer<Tx>, was: seq<Input>, genesis: Bytes32)
    requires AllFunded(was) && k.extractTx(was).Some?
    ensures PartlySigned(was, Signed(k, was, genesis), Mine(k, was), |Mine(k, was)|) == Signed(k, was, genesis)
    ensures PartlySigned(was, Signed(k, was, genesis), Mine(k, was), 0) == was
  {
    assert Mine(k, was)[..|Mine(k, was)|] == Mine(k, was);
  }

  /** The signing loop, in place. */
  method SignMine<Tx>(k: Signer<Tx>, pset: array<Input>, genesis: Bytes32, mine: seq<nat>, prevouts: seq<TxOut>, tx: Tx)
    requires mine == Mine(k, pset[..]) && AllFunded(pset[..]) && prevouts == Prevouts(pset[..])
             && k.extractTx(pset[..]) == Some(tx)
    modifies pset
    ensures pset[..] == Signed(k, old(pset[..]), genesis) && SignedAs(k, old(pset[..]), pset[..], genesis)
  {
    hide Signed, KeyFor, SignedAs;
    ghost var was := pset[..];
    ghost var signed := Signed(k, was, genesis);
    AllSigned(k, was, genesis);
    for n := 0 to |mine|
      invariant pset[..] == PartlySigned(was, signed, mine, n)
    {
      var i := mine[n];
      assert pset[..][i] == was[i] by { assert i !in mine[..n]; }
      SignedAt(k, was, genesis, i);
      var key := KeyFor(k, pset[i]).value;
      pset[i] := pset[i].(finalScriptWitness := Some([k.sign(key, tx, i, prevouts, genesis)]));
      assert mine[..n + 1] == mine[..n] + [i];
      assert pset[..] == PartlySigned(was, signed, mine, n + 1);
    }
    assert pset[..] == signed;
    SignedIs(k, was, genesis);
  }

  // ----- Which input gets which key's signature -----

  /** An input to sign: not final, and its coin pays one of the key's two scripts. */
  predicate Ours<Tx>(k: Signer<Tx>, input: Input) {
    input.finalScriptWitness == None && input.witnessUtxo.Some?
    && (input.witnessUtxo.value.script == k.rawScript || input.witnessUtxo.value.script == k.tweakedScript)
  }

  /** Input `i` is now satisfied by one signature of `key`, and otherwise as it was. */
  predicate SatisfiedWith<Tx>(k: Signer<Tx>, was: seq<Input>, now: seq<Input>, genesis: Bytes32, i: nat, key: Keypair)
    requires i < |was| == |now| && AllFunded(was) && k.extractTx(was).Some?
  {
    now[i] == was[i].(finalScriptWitness := Some([k.sign(key, k.extractTx(was).value, i, Prevouts(was), genesis)]))
  }

  /** The whole result: the untweaked keypair signs for its own script, the tweaked one for the other, over the
      transaction and all the prevouts of the PSET before the call; every other input is as it was. */
  predicate SignedAs<Tx>(k: Signer<Tx>, was: seq<Input>, now: seq<Input>, genesis: Bytes32)
    requires AllFunded(was) && k.extractTx(was).Some?
  {
    |now| == |was| && forall i :: 0 <= i < |was| ==> SignedRow(k, was, now, genesis, i)
  }

  predicate SignedRow<Tx>(k: Signer<Tx>, was: seq<Input>, now: seq<Input>, genesis: Bytes32, i: nat)
    requires AllFunded(was) && k.extractTx(was).Some? && i < |was| == |now|
  {
    && (!Ours(k, was[i]) ==> now[i] == was[i])
    && (Ours(k, was[i]) && was[i].witnessUtxo.value.script == k.rawScript ==>
          SatisfiedWith(k, was, now, genesis, i, k.raw))
    && (Ours(k, was[i]) && was[i].witnessUtxo.value.script != k.rawScript ==>
          SatisfiedWith(k, was, now, genesis, i, k.tweaked))
  }

  lemma SignedExactly<Tx>(k: Signer<Tx>, was: seq<Input>, genesis: Bytes32)
    requires AllFunded(was) && k.extractTx(was).Some?
    ensures forall now :: SignedAs(k, was, now, genesis) <==> now == Signed(k, was, genesis)
  {
    forall now ensures SignedAs(k, was, now, genesis) <==> now == Signed(k, was, genesis) {
      if |now| == |was| {
        forall i | 0 <= i < |was| ensures SignedRow(k, was, now, genesis, i) <==> now[i] == Signed(k, was, genesis)[i] {
          RowExactly(k, was, now, genesis, i);
        }
        hide SignedRow, Signed;
      }
    }
  }

  lemma SignedIs<Tx>(k: Signer<Tx>, was: seq<Input>, genesis: Bytes32)
    requires AllFunded(was) && k.extractTx(was).Some?
    ensures SignedAs(k, was, Signed(k, was, genesis), genesis)
  {
    hide SignedAs, Signed;
    SignedExactly(k, was, genesis);
  }

  lemma RowExactly<Tx>(k: Signer<Tx>, was: seq<Input>, now: seq<Input>, genesis: Bytes32, i: nat)
    requires AllFunded(was) && k.extractTx(was).Some? && i < |was| == |now|
    ensures SignedRow(k, was, now, genesis, i) <==> now[i] == Signed(k, was, genesis)[i]
  {
    OursHaveKeys(k, was[i]);
    if Ours(k, was[i]) {
      SignedAt(k, was, genesis, i);
      var key := if was[i].witnessUtxo.value.script == k.rawScript then k.raw else k.tweaked;
      assert KeyFor(k, was[i]).value == key;
      assert SignedRow(k, was, now, genesis, i) <==> SatisfiedWith(k, was, now, genesis, i, key);
    } else {
      assert Signed(k, was, genesis)[i] == was[i];
    }
  }

  /** The indexes of the inputs to sign. */
  function OursAt<Tx>(k: Signer<Tx>, inputs: seq<Input>): set<nat> {
    set i: nat | i < |inputs| && Ours(k, inputs[i])
  }

  lemma OursHaveKeys<Tx>(k: Signer<Tx>, input: Input)
    ensures Ours(k, input) <==> KeyFor(k, input).Some?
  {
  }

  lemma OneMoreOurs<Tx>(k: Signer<Tx>, inputs: seq<Input>)
    requires inputs != []
    ensures OursAt(k, inputs)
            == OursAt(k, inputs[..|inputs| - 1]) + if Ours(k, inputs[|inputs| - 1]) then {|inputs| - 1} else {}
  {
    hide Ours;
  }

  lemma {:induction false} MineIsOurs<Tx>(k: Signer<Tx>, inputs: seq<Input>)
    ensures |Mine(k, inputs)| == |OursAt(k, inputs)|
    ensures forall i :: i in Mine(k, inputs) <==> i in OursAt(k, inputs)
  {
    hide Ours, KeyFor;
    if inputs != [] {
      var n := |inputs| - 1;
      MineIsOurs(k, inputs[..n]);
      OursHaveKeys(k, inputs[n]);
      OneMoreOurs(k, inputs);
    }
  }

  /** What the call returns: nothing to sign is no error, whatever the PSET lacks; else the first input without a
      coin, else a transaction that cannot be extracted, else how many inputs are signed. */
  lemma OutcomeExactly<Tx>(k: Signer<Tx>, inputs: seq<Input>)
    ensures (forall i :: 0 <= i < |inputs| ==> !Ours(k, inputs[i])) <==> Outcome(k, inputs) == Ok(0)
    ensures Outcome(k, inputs).Ok? ==> Outcome(k, inputs).value == |OursAt(k, inputs)|
    ensures forall i: nat :: Outcome(k, inputs) == Err(MissingUtxo(i)) <==>
              && OursAt(k, inputs) != {} && i < |inputs| && inputs[i].witnessUtxo == None
              && forall j :: 0 <= j < i ==> inputs[j].witnessUtxo.Some?
    ensures Outcome(k, inputs) == Err(CannotExtract) <==>
            OursAt(k, inputs) != {} && AllFunded(inputs) && k.extractTx(inputs) == None
  {
    hide Ours, KeyFor;
    MineIsOurs(k, inputs);
    assert (forall i :: 0 <= i < |inputs| ==> !Ours(k, inputs[i])) <==> OursAt(k, inputs) == {} by {
      if forall i :: 0 <= i < |inputs| ==> !Ours(k, inputs[i]) { assert OursAt(k, inputs) == {}; }
      if i: nat :| i < |inputs| && Ours(k, inputs[i]) { assert i in OursAt(k, inputs); }
    }
    assert OursAt(k, inputs) == {} <==> Mine(k, inputs) == [] by {
      if Mine(k, inputs) != [] { assert Mine(k, inputs)[0] in OursAt(k, inputs); }
    }
    FirstUnfundedIs(inputs);
  }

  lemma {:induction false} FirstUnfundedIs(inputs: seq<Input>)
    ensures !AllFunded(inputs) ==>
              FirstUnfunded(inputs) < |inputs| && inputs[FirstUnfunded(inputs)].witnessUtxo.None?
    ensures forall j :: 0 <= j < FirstUnfunded(inputs) && j < |inputs| ==> inputs[j].witnessUtxo.Some?
  {
    if inputs != [] && inputs[0].witnessUtxo.Some? {
      FirstUnfundedIs(inputs[1..]);
      assert forall j :: 1 <= j < |inputs| ==> inputs[j] == inputs[1..][j - 1];
    }
  }

  /** The PSET afterwards and the count returned; on an error, or with nothing to sign, it is untouched. */
  method SignKeyspendInputs<Tx>(k: Signer<Tx>, pset: array<Input>, genesis: Bytes32) returns (r: Result<nat, SignError>)
    modifies pset
    ensures r == Outcome(k, old(pset[..]))
    ensures r.Err? || r == Ok(0) ==> pset[..] == old(pset[..])
    ensures r.Ok? && r.value > 0 ==>
              AllFunded(old(pset[..])) && k.extractTx(old(pset[..])).Some?
                  && pset[..] == Signed(k, old(pset[..]), genesis)
                  && SignedAs(k, old(pset[..]), pset[..], genesis)
  {
    hide Mine, Signed, Prevouts, AllFunded, SignedAs;
    var mine := FindMine(k, pset);
    if mine == [] {
      return Ok(0);
    }
    var prevouts :- CollectPrevouts(pset);
    var extracted := k.extractTx(pset[..]);
    if extracted.None? {
      return Err(CannotExtract);
    }
    SignMine(k, pset, genesis, mine, prevouts, extracted.value);
    return Ok(|mine|);
  }

  /** Only the witness changes, and only on inputs that were ours and not final. */
  lemma SignedChangesOnlyOurs<Tx>(k: Signer<Tx>, inputs: seq<Input>, genesis: Bytes32, i: nat)
    requires AllFunded(inputs) && k.extractTx(inputs).Some? && i < |inputs|
    ensures var after := Signed(k, inputs, genesis)[i];
            && (KeyFor(k, inputs[i]).None? ==> after == inputs[i])
            && after.(finalScriptWitness := inputs[i].finalScriptWitness) == inputs[i]
            && (KeyFor(k, inputs[i]).Some? ==> after.finalScriptWitness.Some? && |after.finalScriptWitness.value| == 1)
  {
  }

  /** A second call signs nothing and leaves the PSET alone. */
  lemma SecondCallSignsNothing<Tx>(k: Signer<Tx>, inputs: seq<Input>, genesis: Bytes32)
    requires AllFunded(inputs) && k.extractTx(inputs).Some?
    ensures Mine(k, Signed(k, inputs, genesis)) == [] && Outcome(k, Signed(k, inputs, genesis)) == Ok(0)
  {
    NoneMine(k, Signed(k, inputs, genesis));
  }

  lemma {:induction false} NoneMine<Tx>(k: Signer<Tx>, inputs: seq<Input>)
    requires forall i :: 0 <= i < |inputs| ==> KeyFor(k, inputs[i]).None?
    ensures Mine(k, inputs) == []
  {
    if inputs != [] {
      NoneMine(k, inputs[..|inputs| - 1]);
    }
  }
}
