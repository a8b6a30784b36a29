/** The short wallet id (`short_id.rs`): the streaming bit packer and the forgiving normaliser. */
module ShortId {
  import opened Common

  /** Crockford's base32 alphabet. */
  const ALPHABET: string := "0123456789ABCDEFGHJKMNPQRSTVWXYZ"
  const SHORT_ID_LEN: nat := 8

  // ----- The specification: base-32 digits of the 40-bit number -----

  /** The `width` base-32 digits of `n`, most significant first. */
  function Base32(n: nat, width: nat): (s: string)
    ensures |s| == width
  {
    if width == 0 then [] else Base32(n / 32, width - 1) + [ALPHABET[n % 32]]
  }

  function Group(raw: string): string
    requires |raw| == SHORT_ID_LEN
  {
    raw[..4] + ['-'] + raw[4..]
  }

  /** The id of a digest: its first five bytes as one big-endian number, in base 32. */
  function IdOf(digest: Bytes): string
    requires |digest| >= 5
  {
    Group(Base32(FromBigEndian(digest[..5]), SHORT_ID_LEN))
  }

  // ----- The streaming packer -----

  /** `v >> bits`. */
  function ShiftRight(v: nat, bits: nat): nat {
    if bits == 0 then v else ShiftRight(v / 2, bits - 1)
  }

  /** `v & ((1 << bits) - 1)`. */
  function LowBits(v: nat, bits: nat): nat {
    if bits == 0 then 0 else LowBits(v / 2, bits - 1) * 2 + v % 2
  }

  /** `acc << 8 | byte` in 32 bits: whatever passes bit 31 is lost. */
  function ShiftIn(acc: nat, b: byte): nat { (acc * 256) % U32_LIMIT + b }

  lemma {:induction false} ShiftTwice(v: nat, m: nat, n: nat)
    ensures ShiftRight(v, m + n) == ShiftRight(ShiftRight(v, m), n)
  {
    if m > 0 {
      ShiftTwice(v / 2, m - 1, n);
    }
  }

  lemma {:induction false} ShiftMasked(v: nat, held: nat, low: nat)
    requires low <= held
    ensures ShiftRight(LowBits(v, held), low) == LowBits(ShiftRight(v, low), held - low)
  {
    if low > 0 {
      ShiftMasked(v / 2, held - 1, low - 1);
      assert LowBits(v, held) / 2 == LowBits(v / 2, held - 1);
    }
  }

  lemma {:induction false} MaskTwice(v: nat, held: nat, bits: nat)
    requires bits <= held
    ensures LowBits(LowBits(v, held), bits) == LowBits(v, bits)
  {
    if bits > 0 {
      MaskTwice(v / 2, held - 1, bits - 1);
      assert LowBits(v, held) / 2 == LowBits(v / 2, held - 1);
    }
  }

  lemma BitStep(v: nat, bits: nat)
    requires bits > 0
    ensures LowBits(v, bits) == LowBits(v / 2, bits - 1) * 2 + v % 2
    ensures ShiftRight(v, bits) == ShiftRight(v / 2, bits - 1)
  {
  }

  lemma FiveSteps(v: nat, bits: nat)
    requires bits >= 5
    ensures LowBits(v, bits) == LowBits(v / 32, bits - 5) * 32 + v % 32
    ensures ShiftRight(v, bits) == ShiftRight(v / 32, bits - 5)
  {
    hide LowBits, ShiftRight;
    var b1, b2, b3, b4 := v / 2, v / 4, v / 8, v / 16;
    BitStep(v, bits);
    BitStep(b1, bits - 1);
    BitStep(b2, bits - 2);
    BitStep(b3, bits - 3);
    BitStep(b4, bits - 4);
  }

  lemma LowBitsSmall(v: nat, bits: nat)
    requires bits < 5
    ensures LowBits(v, bits) < 16
  {
    Below(v, bits);
  }

  lemma {:induction false} Below(v: nat, bits: nat)
    requires bits <= 4
    ensures LowBits(v, bits) < [1, 2, 4, 8, 16][bits]
  {
    if bits > 0 {
      Below(v / 2, bits - 1);
    }
  }

  lemma PushByte(v: nat, b: byte, bits: nat)
    ensures ShiftRight(v * 256 + b, bits + 8) == ShiftRight(v, bits)
    ensures LowBits(v * 256 + b, bits + 8) == LowBits(v, bits) * 256 + b
  {
    hide LowBits, ShiftRight;
    var x := v * 256 + b;
    FiveSteps(x, bits + 8);
    BitStep(x / 32, bits + 3);
    BitStep(x / 64, bits + 2);
    BitStep(x / 128, bits + 1);
    assert x / 32 / 2 == x / 64 && x / 64 / 2 == x / 128 && x / 128 / 2 == v;
  }

  /** A new byte: the bits not yet emitted move up by eight, and nothing passes bit 31. */
  lemma TakeByte(value: nat, b: byte, bits: nat)
    requires bits < 5
    ensures ShiftRight(value * 256 + b, bits + 8) == ShiftRight(value, bits)
    ensures ShiftIn(LowBits(value, bits), b) == LowBits(value * 256 + b, bits + 8)
  {
    hide ShiftRight, LowBits;
    PushByte(value, b, bits);
    LowBitsSmall(value, bits);
  }

  /** One digit out: the accumulator, which keeps only the low `held` bits, still has it. */
  lemma EmitDigit(value: nat, held: nat, low: nat)
    requires low + 5 <= held
    ensures ShiftRight(LowBits(value, held), low) % 32 == ShiftRight(value, low) % 32
    ensures ShiftRight(value, low) / 32 == ShiftRight(value, low + 5)
  {
    hide ShiftRight, LowBits;
    ShiftMasked(value, held, low);
    var rest := ShiftRight(value, low);
    FiveSteps(rest, held - low);
    FiveSteps(rest, 5);
    NothingHeld(rest / 32);
    ShiftTwice(value, low, 5);
  }

  lemma Base32Step(n: nat, width: nat)
    ensures Base32(n, width + 1) == Base32(n / 32, width) + [ALPHABET[n % 32]]
  {
  }

  lemma ByteStep(digest: Bytes, i: nat)
    requires i < |digest|
    ensures FromBigEndian(digest[..i + 1]) == FromBigEndian(digest[..i]) * 256 + digest[i]
  {
    assert digest[..i + 1][..i] == digest[..i];
  }

  /** The inner loop: while five bits are held, the next digit goes out. */
  method EmitDigits(ghost value: nat, acc: nat, held: nat, raw: string) returns (raw': string, bits: nat)
    requires acc == LowBits(value, held) && raw == Base32(ShiftRight(value, held), |raw|)
    ensures bits < 5 && bits <= held && 5 * |raw| + held == 5 * |raw'| + bits
    ensures raw' == Base32(ShiftRight(value, bits), |raw'|)
  {
    assert |ALPHABET| == 32;
    hide ShiftRight, LowBits, Base32, ALPHABET;
    raw', bits := raw, held;
    while bits >= 5
      invariant bits <= held && 5 * |raw| + held == 5 * |raw'| + bits
      invariant raw' == Base32(ShiftRight(value, bits), |raw'|)
    {
      EmitDigit(value, held, bits - 5);
      Base32Step(ShiftRight(value, bits - 5), |raw'|);
      bits := bits - 5;
      raw' := raw' + [ALPHABET[ShiftRight(acc, bits) % 32]];
    }
  }

  /** The loop of the source computes the base-32 digits of the first forty bits. */
  method ShortWalletId(digest: Bytes32) returns (id: string)
    ensures id == IdOf(digest)
  {
    hide ShiftRight, LowBits, ShiftIn, Base32, ALPHABET, Group, FromBigEndian;
    var raw: string := [];
    var acc: nat := 0;
    var bits: nat := 0;
    NothingHeld(0);
    StartsEmpty(digest);
    for i := 0 to 5
      invariant bits < 5 && 8 * i == 5 * |raw| + bits
      invariant acc == LowBits(FromBigEndian(digest[..i]), bits)
      invariant raw == Base32(ShiftRight(FromBigEndian(digest[..i]), bits), |raw|)
    {
      ghost var value := FromBigEndian(digest[..i + 1]);
      ByteStep(digest, i);
      TakeByte(FromBigEndian(digest[..i]), digest[i], bits);
      acc := ShiftIn(acc, digest[i]);
      ghost var held := bits + 8;
      raw, bits := EmitDigits(value, acc, bits + 8, raw);
      MaskTwice(value, held, bits);
      acc := LowBits(acc, bits);
    }
    NothingHeld(FromBigEndian(digest[..5]));
    id := Group(raw);
  }

  lemma StartsEmpty(digest: Bytes)
    ensures FromBigEndian(digest[..0]) == 0 && forall n: nat :: Base32(n, 0) == []
  {
  }

  lemma NothingHeld(v: nat)
    ensures LowBits(v, 0) == 0 && ShiftRight(v, 0) == v
  {
  }

  // ----- The normaliser -----

  datatype Folded = Skip | Reject | Keep(c: char)

  function ToAsciiUppercase(c: char): char {
    if 'a' <= c <= 'z' then 'A' + (c - 'a') else c
  }

  /** What one typed character means. */
  function Fold(c: char): Folded {
    var u := ToAsciiUppercase(c);
    if u == '-' || u == ' ' then Skip
    else
      var v := if u == 'I' || u == 'L' then '1' else if u == 'O' then '0' else u;
      if v in ALPHABET then Keep(v) else Reject
  }

  /** The kept characters of the input, unless one is rejected. */
  function Kept(input: string): Option<string> {
    if input == [] then Some([])
    else
      var rest := Kept(input[..|input| - 1]);
      match Fold(input[|input| - 1])
      case Skip => rest
      case Reject => None
      case Keep(c) => if rest.Some? then Some(rest.value + [c]) else None
  }

  function Normalized(input: string): Option<string> {
    var kept := Kept(input);
    if kept.Some? && |kept.value| == SHORT_ID_LEN then Some(Group(kept.value)) else None
  }

  method Normalize(input: string) returns (r: Option<string>)
    ensures r == Normalized(input)
  {
    hide Fold;
    var raw: string := [];
    for i := 0 to |input|
      invariant Kept(input[..i]) == Some(raw)
    {
      assert input[..i + 1][..i] == input[..i];
      match Fold(input[i])
      case Skip =>
      case Reject =>
        RejectedForGood(input, i + 1);
        return None;
      case Keep(c) =>
        raw := raw + [c];
    }
    assert input[..|input|] == input;
    r := if |raw| == SHORT_ID_LEN then Some(Group(raw)) else None;
  }

  lemma {:induction false} RejectedForGood(input: string, i: nat)
    requires i <= |input| && Kept(input[..i]).None?
    ensures Kept(input).None?
    decreases |input| - i
  {
    hide Fold;
    if i == |input| {
      assert input[..i] == input;
    } else {
      assert input[..i + 1][..i] == input[..i];
      RejectedForGood(input, i + 1);
    }
  }

  /** `matches`: whether a typed id names the key with this digest. */
  predicate Matches(input: string, digest: Bytes32) {
    Normalized(input) == Some(IdOf(digest))
  }

  // ----- What the ids are worth -----

  function IndexOf(c: char): nat {
    if '0' <= c <= '9' then (c - '0') as nat
    else if 'A' <= c <= 'H' then 10 + (c - 'A') as nat
    else if 'J' <= c <= 'K' then 18 + (c - 'J') as nat
    else if 'M' <= c <= 'N' then 20 + (c - 'M') as nat
    else if 'P' <= c <= 'T' then 22 + (c - 'P') as nat
    else if 'V' <= c <= 'Z' then 27 + (c - 'V') as nat
    else 0
  }

  lemma AlphabetIndex(n: nat)
    requires n < 32
    ensures IndexOf(ALPHABET[n]) == n
  {
  }

  lemma AlphabetFolds(n: nat)
    requires n < 32
    ensures Fold(ALPHABET[n]) == Keep(ALPHABET[n])
  {
    AlphabetShape(n);
    hide ALPHABET;
  }

  lemma AlphabetShape(n: nat)
    requires n < 32
    ensures var c := ALPHABET[n];
            c in ALPHABET && ('0' <= c <= '9' || 'A' <= c <= 'Z') && c != 'I' && c != 'L' && c != 'O'
  {
    assert ALPHABET[n] in ALPHABET;
  }

  function FromBase32(s: string): nat {
    if s == [] then 0 else FromBase32(s[..|s| - 1]) * 32 + IndexOf(s[|s| - 1])
  }

  function Pow32(w: nat): (r: nat)
    ensures r > 0
  {
    if w == 0 then 1 else 32 * Pow32(w - 1)
  }

  lemma {:induction false} Base32RoundTrip(n: nat, width: nat)
    requires n < Pow32(width)
    ensures FromBase32(Base32(n, width)) == n
  {
    if width > 0 {
      Base32RoundTrip(n / 32, width - 1);
      AlphabetIndex(n % 32);
      assert Base32(n, width)[..width - 1] == Base32(n / 32, width - 1);
    }
  }

  lemma {:induction false} FromBigEndianBound(b: Bytes)
    ensures FromBigEndian(b) < Pow256(|b|)
    ensures BigEndian(FromBigEndian(b), |b|) == b
  {
    if b != [] {
      FromBigEndianBound(b[..|b| - 1]);
      assert b == b[..|b| - 1] + [b[|b| - 1]];
    }
  }

  /** Forty bits, no fewer: two digests have the same id only if their first five bytes agree. */
  lemma IdsInjective(d: Bytes32, d': Bytes32)
    requires IdOf(d) == IdOf(d')
    ensures d[..5] == d'[..5]
  {
    var n, n' := FromBigEndian(d[..5]), FromBigEndian(d'[..5]);
    FromBigEndianBound(d[..5]);
    FromBigEndianBound(d'[..5]);
    assert Pow256(5) == Pow32(8);
    Base32RoundTrip(n, 8);
    Base32RoundTrip(n', 8);
    var r, r' := Base32(n, 8), Base32(n', 8);
    assert r == IdOf(d)[..4] + IdOf(d)[5..] && r' == IdOf(d')[..4] + IdOf(d')[5..];
  }

  lemma {:induction false} KeptConcat(a: string, b: string)
    ensures Kept(a + b) == if Kept(a).Some? && Kept(b).Some? then Some(Kept(a).value + Kept(b).value) else None
  {
    hide Fold;
    if b == [] {
      assert a + b == a && forall k: string :: k + [] == k;
    } else {
      var n := |b| - 1;
      KeptConcat(a, b[..n]);
      assert (a + b)[..|a + b| - 1] == a + b[..n] && (a + b)[|a + b| - 1] == b[n];
      if Kept(a).Some? && Kept(b).Some? && Fold(b[n]).Keep? {
        assert Kept(a).value + Kept(b).value == Kept(a).value + Kept(b[..n]).value + [Fold(b[n]).c];
      }
    }
  }

  lemma {:induction false} AlphabetKept(s: string)
    requires forall c :: c in s ==> Fold(c) == Keep(c)
    ensures Kept(s) == Some(s)
  {
    hide Fold;
    if s != [] {
      AlphabetKept(s[..|s| - 1]);
      assert s == s[..|s| - 1] + [s[|s| - 1]];
    }
  }

  lemma KeptIsFolded(x: char, c: char)
    requires Fold(x) == Keep(c)
    ensures c in ALPHABET && Fold(c) == Keep(c)
  {
    assert c in ALPHABET;
    var n :| 0 <= n < |ALPHABET| && ALPHABET[n] == c;
    AlphabetFolds(n);
  }

  lemma {:induction false} KeptAreFolded(s: string, c: char)
    requires Kept(s).Some? && c in Kept(s).value
    ensures c in ALPHABET && Fold(c) == Keep(c)
  {
    hide Fold, ALPHABET;
    var n := |s| - 1;
    if Kept(s[..n]).Some? && c in Kept(s[..n]).value {
      KeptAreFolded(s[..n], c);
    } else {
      KeptIsFolded(s[n], c);
    }
  }

  lemma GroupKept(raw: string)
    requires |raw| == SHORT_ID_LEN && forall c :: c in raw ==> Fold(c) == Keep(c)
    ensures Normalized(Group(raw)) == Some(Group(raw))
  {
    hide Fold, Kept, Group;
    AlphabetKept(raw[..4]);
    AlphabetKept(raw[4..]);
    KeptConcat(raw[..4], ['-'] + raw[4..]);
    KeptConcat(['-'], raw[4..]);
    DashSkipped();
    GroupShape(raw);
  }

  lemma GroupShape(raw: string)
    requires |raw| == SHORT_ID_LEN
    ensures raw[..4] + (['-'] + raw[4..]) == Group(raw)
    ensures [] + raw[4..] == raw[4..] && raw[..4] + raw[4..] == raw
  {
  }

  lemma DashSkipped()
    ensures Kept(['-']) == Some([]) && Kept([' ']) == Some([])
  {
    assert ['-'][..0] == [] && [' '][..0] == [];
  }

  /** Normalising twice is normalising once. */
  lemma NormalizeIdempotent(input: string)
    requires Normalized(input).Some?
    ensures Normalized(Normalized(input).value) == Normalized(input)
  {
    hide Fold;
    var raw := Kept(input).value;
    forall c | c in raw ensures Fold(c) == Keep(c) { KeptAreFolded(input, c); }
    GroupKept(raw);
  }

  lemma {:induction false} Base32Folds(n: nat, width: nat)
    ensures forall c :: c in Base32(n, width) ==> Fold(c) == Keep(c)
  {
    hide Fold;
    if width > 0 {
      Base32Folds(n / 32, width - 1);
      AlphabetFolds(n % 32);
    }
  }

  /** Every generated id is already normal, so a key matches its own id. */
  lemma {:induction false} GeneratedIdsAreNormal(digest: Bytes32)
    ensures Normalized(IdOf(digest)) == Some(IdOf(digest)) && Matches(IdOf(digest), digest)
  {
    hide Fold;
    var raw := Base32(FromBigEndian(digest[..5]), SHORT_ID_LEN);
    Base32Folds(FromBigEndian(digest[..5]), SHORT_ID_LEN);
    GroupKept(raw);
  }

  /** Characters a person may confuse: case, and I and L with 1, O with 0. */
  predicate Confusable(c: char, c': char) {
    || ToAsciiUppercase(c) == ToAsciiUppercase(c')
    || (c in "1iIlL" && c' in "1iIlL")
    || (c in "0oO" && c' in "0oO")
  }

  lemma OneLike(c: char)
    requires c in "1iIlL"
    ensures Fold(c) == Keep('1')
  {
    assert ALPHABET[1] == '1';
  }

  lemma ZeroLike(c: char)
    requires c in "0oO"
    ensures Fold(c) == Keep('0')
  {
    assert ALPHABET[0] == '0';
  }

  lemma ConfusableFolds(c: char, c': char)
    requires Confusable(c, c')
    ensures Fold(c) == Fold(c')
  {
    if c in "1iIlL" && c' in "1iIlL" {
      OneLike(c);
      OneLike(c');
    } else if c in "0oO" && c' in "0oO" {
      ZeroLike(c);
      ZeroLike(c');
    } else {
      hide ToAsciiUppercase;
    }
  }

  /** Dashes and spaces may be typed or dropped anywhere. */
  lemma SeparatorsIgnored(a: string, c: char, b: string)
    requires c == '-' || c == ' '
    ensures Normalized(a + [c] + b) == Normalized(a + b)
  {
    hide Fold;
    KeptConcat(a + [c], b);
    KeptConcat(a, [c]);
    KeptConcat(a, b);
    DashSkipped();
  }

  /** Any one character may be replaced by one it is confused with. */
  lemma ConfusablesIgnored(a: string, c: char, c': char, b: string)
    requires Confusable(c, c')
    ensures Normalized(a + [c] + b) == Normalized(a + [c'] + b)
  {
    ConfusableFolds(c, c');
    hide Fold, Confusable;
    KeptConcat(a + [c], b);
    KeptConcat(a, [c]);
    KeptConcat(a + [c'], b);
    KeptConcat(a, [c']);
    assert [c][..0] == [] && [c'][..0] == [];
  }

  lemma IndexIn(c: char) returns (n: nat)
    requires c in ALPHABET
    ensures n < 32 && ALPHABET[n] == c && IndexOf(c) == n
  {
    n :| 0 <= n < |ALPHABET| && ALPHABET[n] == c;
    AlphabetIndex(n);
  }

  lemma {:induction false} FromBase32RoundTrip(s: string)
    requires forall c :: c in s ==> c in ALPHABET
    ensures FromBase32(s) < Pow32(|s|) && Base32(FromBase32(s), |s|) == s
  {
    hide IndexOf, ALPHABET;
    if s != [] {
      var init, c := s[..|s| - 1], s[|s| - 1];
      assert c in ALPHABET;
      FromBase32RoundTrip(init);
      var n := IndexIn(c);
      assert s == init + [c];
    }
  }

  /** Every normal form is the id of some digest: the normaliser accepts exactly spellings of ids. */
  lemma NormalFormsAreIds(input: string) returns (digest: Bytes32)
    requires Normalized(input).Some?
    ensures Matches(input, digest)
  {
    hide Fold;
    var raw := Kept(input).value;
    forall c | c in raw ensures c in ALPHABET { KeptAreFolded(input, c); }
    FromBase32RoundTrip(raw);
    var n := FromBase32(raw);
    assert Pow256(5) == Pow32(8);
    digest := BigEndian(n, 5) + seq(27, _ => 0);
    assert digest[..5] == BigEndian(n, 5);
    BigEndianRoundTrip(n, 5);
  }

  // ----- What may be typed -----

  predicate Separator(c: char) { c == '-' || c == ' ' }

  /** `c` may be typed for the digit `v`: as it is, in lower case, or as a letter it is confused with. */
  predicate Means(c: char, v: char) {
    v in "0123456789ABCDEFGHJKMNPQRSTVWXYZ"
    && (c == v || ('A' <= v && 'a' <= c && c as int == v as int + 32) || (v == '1' && c in "iIlL")
        || (v == '0' && c in "oO"))
  }

  /** The characters of the input that are not separators. */
  function Typed(input: string): string {
    if input == [] then []
    else Typed(input[..|input| - 1]) + if Separator(input[|input| - 1]) then [] else [input[|input| - 1]]
  }

  lemma FoldMeans(c: char, v: char)
    ensures Fold(c) == Keep(v) <==> Means(c, v)
    ensures Fold(c) == Skip <==> Separator(c)
    ensures Means(c, v) ==> !Separator(c)
  {
    MeansIff(c, v);
    InAlphabet(v);
    InAlphabet(c);
    InAlphabet('0');
    InAlphabet('1');
    InAlphabet(ToAsciiUppercase(c));
    hide ALPHABET, Means;
  }

  lemma MeansIff(c: char, v: char)
    ensures Means(c, v) <==>
            v in ALPHABET && (c == v || ('A' <= v && 'a' <= c && c as int == v as int + 32)
                              || (v == '1' && (c == 'i' || c == 'I' || c == 'l' || c == 'L'))
                              || (v == '0' && (c == 'o' || c == 'O')))
  {
  }

  lemma InAlphabet(v: char)
    ensures v in ALPHABET <==>
            '0' <= v <= '9' || 'A' <= v <= 'H' || 'J' <= v <= 'K' || 'M' <= v <= 'N' || 'P' <= v <= 'T'
            || 'V' <= v <= 'Z'
  {
  }


  /** `out` is the digits that the typed characters mean, one for one. */
  predicate Spells(typed: string, out: string) {
    |typed| == |out| && forall i :: 0 <= i < |typed| ==> Means(typed[i], out[i])
  }

  lemma {:induction false} KeptExactly(input: string, out: string)
    ensures Kept(input) == Some(out) <==> Spells(Typed(input), out)
  {
    hide Fold, Means, Separator;
    if input != [] {
      var n := |input| - 1;
      var c, typed := input[n], Typed(input[..n]);
      FoldMeans(c, c);
      if Separator(c) {
        KeptExactly(input[..n], out);
      } else if out != [] {
        var init, v := out[..|out| - 1], out[|out| - 1];
        KeptExactly(input[..n], init);
        FoldMeans(c, v);
        assert out == init + [v];
        assert Spells(typed + [c], out) <==> Spells(typed, init) && Means(c, v) by {
          if Spells(typed + [c], out) {
            forall i | 0 <= i < |typed| ensures Means(typed[i], init[i]) {
              assert (typed + [c])[i] == typed[i];
            }
            assert Means((typed + [c])[|typed|], out[|typed|]);
          }
        }
        if Kept(input) == Some(out) {
          assert Fold(c).Keep? && Kept(input[..n]).Some?;
          assert Kept(input).value == Kept(input[..n]).value + [Fold(c).c];
        }
      }
    }
  }

  /** A typed text has a normal form if and only if, apart from dashes and spaces, it is eight characters that each
      mean a digit; and the form is those digits, a dash in the middle. One character of any other kind, anywhere,
      is enough to have none. */
  lemma NormalizedExactly(input: string, out: string)
    ensures Normalized(input) == Some(out)
            <==>
            && |Typed(input)| == 8 && |out| == 9 && out[4] == '-'
            && forall i :: 0 <= i < 8 ==> Means(Typed(input)[i], out[if i < 4 then i else i + 1])
    ensures (exists i :: 0 <= i < |input| && !Separator(input[i]) && forall v :: !Means(input[i], v)) ==>
              Normalized(input) == None
  {
    hide Means, Separator, Typed, Kept;
    if |out| == 9 {
      var raw := out[..4] + out[5..];
      KeptExactly(input, raw);
      assert out[4] == '-' ==> out == raw[..4] + ['-'] + raw[4..];
      forall i | 0 <= i < 8 ensures raw[i] == out[if i < 4 then i else i + 1] { }
      if Normalized(input) == Some(out) {
        assert Kept(input).value == raw;
      }
    }
    if i :| 0 <= i < |input| && !Separator(input[i]) && forall v :: !Means(input[i], v) {
      StrangerRejected(input, i);
    }
  }

  lemma StrangerFolds(c: char)
    requires !Separator(c) && forall v :: !Means(c, v)
    ensures Fold(c) == Reject
  {
    hide Means, Separator;
    FoldMeans(c, c);
    if Fold(c).Keep? {
      FoldMeans(c, Fold(c).c);
    }
  }

  lemma {:induction false} StrangerRejected(input: string, i: nat)
    requires i < |input| && !Separator(input[i]) && forall v :: !Means(input[i], v)
    ensures Kept(input) == None
  {
    hide Fold, Means, Separator;
    var n := |input| - 1;
    if i < n {
      StrangerRejected(input[..n], i);
    } else {
      StrangerFolds(input[n]);
    }
  }

  lemma DigitLast(n: nat, width: nat)
    requires width > 0
    ensures Base32(n, width) == Base32(n / 32, width - 1) + ["0123456789ABCDEFGHJKMNPQRSTVWXYZ"[n % 32]]
    ensures Pow32(0) == 1 && (width > 1 ==> Pow32(width - 1) == 32 * Pow32(width - 2))
  {
  }

  lemma {:induction false} DigitAt(n: nat, width: nat, i: nat)
    requires i < width
    ensures Base32(n, width)[i] == "0123456789ABCDEFGHJKMNPQRSTVWXYZ"[n / Pow32(width - 1 - i) % 32]
  {
    hide ALPHABET, Pow32;
    DigitLast(n, width);
    DigitLast(n, width - i);
    if i < width - 1 {
      DigitAt(n / 32, width - 1, i);
      DivideTwice(n, 32, Pow32(width - 2 - i));
    }
  }

  /** Each digit of an id, by its place in the alphabet: the `i`-th five bits of the first five bytes. */
  lemma IdExact(digest: Bytes32, i: nat)
    requires i < 8
    ensures IdOf(digest)[if i < 4 then i else i + 1]
            == "0123456789ABCDEFGHJKMNPQRSTVWXYZ"[FromBigEndian(digest[..5]) / Pow32(7 - i) % 32]
    ensures |IdOf(digest)| == 9 && IdOf(digest)[4] == '-'
  {
    DigitAt(FromBigEndian(digest[..5]), 8, i);
    hide Base32, FromBigEndian, Pow32;
  }
}
