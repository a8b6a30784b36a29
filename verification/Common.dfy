/** Shared vocabulary: options and results, machine-width integers, byte strings,
    big-endian encodings, and sums over sequences that do not depend on order. */
module Common {

  datatype Option<+T> = None | Some(value: T)

  /** A failure-compatible result: the source's `anyhow::Result` and `Result<_, String>`. */
  datatype Result<+T, +E> = Ok(value: T) | Err(error: E) {
    predicate IsFailure() {
      Err?
    }

    function PropagateFailure<U>(): Result<U, E>
      requires Err?
    {
      Err(error)
    }

    function Extract(): T
      requires Ok?
    {
      value
    }
  }

  /** `anyhow::ensure!`: used as `:- Ensure(condition, refusal)`. */
  datatype Outcome<+E> = Pass | Fail(error: E) {
    predicate IsFailure() {
      Fail?
    }

    function PropagateFailure<U>(): Result<U, E>
      requires Fail?
    {
      Err(error)
    }
  }

  function Ensure<E>(condition: bool, error: E): Outcome<E> {
    if condition then Pass else Fail(error)
  }

  const U32_LIMIT: int := 0x1_0000_0000
  const U64_LIMIT: int := 0x1_0000_0000_0000_0000

  type byte = n: int | 0 <= n < 0x100
  type u32 = n: int | 0 <= n < 0x1_0000_0000
  type u64 = n: int | 0 <= n < 0x1_0000_0000_0000_0000
  type Bytes = seq<byte>
  type Bytes32 = b: seq<byte> | |b| == 32 witness seq(32, _ => 0)

  // ----- Big-endian integers (`to_be_bytes`) -----

  function Pow256(width: nat): (r: nat)
    ensures r > 0
  {
    if width == 0 then 1 else 256 * Pow256(width - 1)
  }

  function BigEndian(n: nat, width: nat): (r: Bytes)
    ensures |r| == width
  {
    if width == 0 then [] else BigEndian(n / 256, width - 1) + [n % 256]
  }

  function FromBigEndian(b: Bytes): nat {
    if b == [] then 0 else FromBigEndian(b[..|b| - 1]) * 256 + b[|b| - 1]
  }

  /** `from_le_bytes`. */
  function FromLittleEndian(b: Bytes): nat {
    if b == [] then 0 else b[0] + 256 * FromLittleEndian(b[1..])
  }

  lemma {:induction false} BigEndianRoundTrip(n: nat, width: nat)
    requires n < Pow256(width)
    ensures FromBigEndian(BigEndian(n, width)) == n
  {
    if width > 0 {
      BigEndianRoundTrip(n / 256, width - 1);
      var b := BigEndian(n, width);
      assert b[..|b| - 1] == BigEndian(n / 256, width - 1);
    }
  }

  lemma DivideTwice(n: nat, b: nat, p: nat)
    requires b > 0 && p > 0
    ensures b * p > 0 && n / b / p == n / (b * p)
  {
    Divided(n, b);
    Divided(n / b, p);
    Combined(n, b, p, n / b, n % b, n / b / p, n / b % p);
    Quotient(n, b * p, n / b / p, b * (n / b % p) + n % b);
  }

  lemma Divided(n: nat, d: nat)
    requires d > 0
    ensures n == d * (n / d) + n % d && n % d < d
  {
  }

  lemma Combined(n: nat, b: nat, p: nat, m: nat, x: nat, q: nat, r: nat)
    requires x < b && r < p && n == b * m + x && m == p * q + r
    ensures b * p > 0 && b * r + x < b * p && n == (b * p) * q + (b * r + x)
  {
    Scaled(b, r + 1, p);
    Factored(b, p, q, r);
  }

  lemma Factored(b: nat, p: nat, q: nat, r: nat)
    ensures b * (p * q + r) == (b * p) * q + b * r
  {
  }

  lemma Scaled(d: nat, a: nat, b: nat)
    requires a <= b
    ensures d * a <= d * b
  {
  }

  lemma Quotient(n: nat, d: nat, q: nat, r: nat)
    requires d > 0 && r < d && n == d * q + r
    ensures n / d == q
  {
    Divided(n, d);
    Unique(d, n / d, n % d, q, r);
  }

  lemma Unique(d: nat, q: nat, r: nat, q': nat, r': nat)
    requires r < d && r' < d && d * q + r == d * q' + r'
    ensures q == q'
  {
    if q < q' {
      Scaled(d, q + 1, q');
    } else if q' < q {
      Scaled(d, q' + 1, q);
    }
  }

  lemma U64RoundTrip(n: u64)
    ensures FromBigEndian(BigEndian(n, 8)) == n
  {
    assert Pow256(4) == U32_LIMIT;
    assert Pow256(8) == U64_LIMIT;
    BigEndianRoundTrip(n, 8);
  }

  lemma U32RoundTrip(n: u32)
    ensures FromBigEndian(BigEndian(n, 4)) == n
  {
    assert Pow256(4) == U32_LIMIT;
    BigEndianRoundTrip(n, 4);
  }

  lemma U64Injective(m: u64, n: u64)
    requires BigEndian(m, 8) == BigEndian(n, 8)
    ensures m == n
  {
    U64RoundTrip(m);
    U64RoundTrip(n);
  }

  lemma U32Injective(m: u32, n: u32)
    requires BigEndian(m, 4) == BigEndian(n, 4)
    ensures m == n
  {
    U32RoundTrip(m);
    U32RoundTrip(n);
  }

  // ----- Byte strings -----

  /** The bytes of an ASCII literal. */
  function Ascii(s: string): (b: Bytes)
    ensures |b| == |s|
  {
    seq(|s|, i requires 0 <= i < |s| => s[i] as int % 256)
  }

  function Zeros(n: nat): (b: Bytes)
    ensures |b| == n
  {
    seq(n, _ => 0)
  }

  /** Fields of known width can be taken apart again. */
  lemma Split(a: Bytes, b: Bytes, a': Bytes, b': Bytes)
    requires |a| == |a'| && a + b == a' + b'
    ensures a == a' && b == b'
  {
    assert a == (a + b)[..|a|] && a' == (a' + b')[..|a|];
    assert b == (a + b)[|a|..] && b' == (a' + b')[|a|..];
  }

  /** Two of these listed strings differ and hash alike. The lists are strings a proof names, so this
      is a concrete collision, not its mere existence. */
  ghost predicate Collides(sha: Bytes -> Bytes32, qs: seq<Bytes>, qs': seq<Bytes>) {
    exists q, q' :: q in qs && q' in qs' && q != q' && sha(q) == sha(q')
  }

  // ----- Sums over sequences -----

  function Sum<T>(s: seq<T>, f: T -> nat): nat {
    if s == [] then 0 else Sum(s[..|s| - 1], f) + f(s[|s| - 1])
  }

  lemma SumStep<T>(s: seq<T>, f: T -> nat, i: nat)
    requires i < |s|
    ensures Sum(s[..i + 1], f) == Sum(s[..i], f) + f(s[i])
  {
    assert s[..i + 1][..i] == s[..i];
  }

  lemma {:induction false} SumConcat<T>(s: seq<T>, t: seq<T>, f: T -> nat)
    ensures Sum(s + t, f) == Sum(s, f) + Sum(t, f)
  {
    if t == [] {
      assert s + t == s;
    } else {
      var n := |t| - 1;
      SumConcat(s, t[..n], f);
      assert (s + t)[..|s + t| - 1] == s + t[..n];
    }
  }

  lemma SumPrefix<T>(s: seq<T>, f: T -> nat, i: nat)
    requires i <= |s|
    ensures Sum(s[..i], f) <= Sum(s, f)
  {
    SumConcat(s[..i], s[i..], f);
    assert s[..i] + s[i..] == s;
  }

  lemma Parts<T>(s: seq<T>, i: nat)
    requires i < |s|
    ensures s[..i + 1] + s[i + 1..] == s
  {
  }

  lemma SumPick<T>(s: seq<T>, f: T -> nat, i: nat)
    requires i < |s|
    ensures Sum(s, f) == Sum(s[..i] + s[i + 1..], f) + f(s[i])
    ensures f(s[i]) <= Sum(s, f)
  {
    hide Sum;
    SumStep(s, f, i);
    SumConcat(s[..i], s[i + 1..], f);
    SumConcat(s[..i + 1], s[i + 1..], f);
    Parts(s, i);
  }

  lemma {:induction false} SumAgrees<T>(s: seq<T>, f: T -> nat, g: T -> nat)
    requires forall x :: x in s ==> f(x) == g(x)
    ensures Sum(s, f) == Sum(s, g)
  {
    if s != [] {
      SumAgrees(s[..|s| - 1], f, g);
    }
  }

  /** A sum depends only on the multiset of its terms. */
  lemma {:induction false} SumUnordered<T>(s: seq<T>, t: seq<T>, f: T -> nat)
    requires multiset(s) == multiset(t)
    ensures Sum(s, f) == Sum(t, f)
    decreases |s|
  {
    if s == [] {
      assert |t| == |multiset(t)| == 0;
    } else {
      var n := |s| - 1;
      var x := s[n];
      assert x in multiset(t);
      var i :| 0 <= i < |t| && t[i] == x;
      var rest := t[..i] + t[i + 1..];
      assert s == s[..n] + [x];
      assert t == t[..i] + [x] + t[i + 1..];
      assert multiset(s[..n]) == multiset(s) - multiset{x};
      assert multiset(rest) == multiset(t) - multiset{x};
      SumUnordered(s[..n], rest, f);
      SumPick(t, f, i);
    }
  }

  lemma {:induction false} SumZero<T>(s: seq<T>, f: T -> nat)
    requires forall k :: 0 <= k < |s| ==> f(s[k]) == 0
    ensures Sum(s, f) == 0
  {
    if s != [] {
      SumZero(s[..|s| - 1], f);
    }
  }

  /** Sequences whose terms agree position by position have the same sum. */
  lemma {:induction false} SumMap<T, U>(s: seq<T>, f: T -> nat, t: seq<U>, g: U -> nat)
    requires |s| == |t| && forall i :: 0 <= i < |s| ==> f(s[i]) == g(t[i])
    ensures Sum(s, f) == Sum(t, g)
  {
    if s != [] {
      SumMap(s[..|s| - 1], f, t[..|t| - 1], g);
    }
  }

  /** The numbers below `n`. */
  function Upto(n: nat): (s: seq<nat>)
    ensures |s| == n && forall i :: 0 <= i < n ==> s[i] == i
  {
    seq(n, i => i)
  }

  lemma UptoHas(n: nat, i: nat)
    ensures i in Upto(n) <==> i < n
  {
    if i < n {
      assert Upto(n)[i] == i;
    }
  }
}
