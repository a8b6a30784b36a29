/** The login form body built inside `sdk_login` (`venue.rs`): percent-encoded values joined
    by `&` and `=`, and the decoder a server applies to it. */
module LoginForm {
  import opened Common

  const AMP: byte := 0x26
  const EQUALS: byte := 0x3d
  const PERCENT: byte := 0x25
  const PLUS: byte := 0x2b
  const SPACE: byte := 0x20

  /** The unreserved characters of section 2.3 of RFC 3986. */
  predicate Unreserved(b: byte) {
    || 0x41 <= b <= 0x5a || 0x61 <= b <= 0x7a || 0x30 <= b <= 0x39
    || b == 0x2d || b == 0x5f || b == 0x2e || b == 0x7e
  }

  /** One upper-case hexadecimal digit. */
  function Hex(n: nat): byte
    requires n < 16
  {
    if n < 10 then 0x30 + n else 0x41 + (n - 10)
  }

  function EncodeByte(b: byte): (e: Bytes)
    ensures e != []
  {
    if Unreserved(b) then [b] else [PERCENT, Hex(b / 16), Hex(b % 16)]
  }

  function EncodeValue(v: Bytes): Bytes {
    if v == [] then [] else EncodeByte(v[0]) + EncodeValue(v[1..])
  }

  type Pair = (Bytes, Bytes)

  function EncodePair(p: Pair): Bytes {
    p.0 + ([EQUALS] + EncodeValue(p.1))
  }

  /** `pairs.map(..).join("&")`. */
  function FormBody(pairs: seq<Pair>): Bytes {
    if pairs == [] then []
    else if |pairs| == 1 then EncodePair(pairs[0])
    else EncodePair(pairs[0]) + ([AMP] + FormBody(pairs[1..]))
  }

  /** The pairs `sdk_login` sends: three always, identity and link code if given. */
  function LoginPairs(pk: Bytes, sig: Bytes, challenge: Bytes, identity: Option<Bytes>,
      link: Option<Bytes>): seq<Pair> {
    [(Ascii("pk"), pk), (Ascii("sig"), sig), (Ascii("challenge"), challenge)]
    + (if identity.Some? then [(Ascii("identity"), identity.value)] else [])
    + (if link.Some? then [(Ascii("link"), link.value)] else [])
  }

  // ----- The decoder -----

  function Unhex(b: byte): Option<nat> {
    if 0x30 <= b <= 0x39 then Some(b - 0x30)
    else if 0x41 <= b <= 0x46 then Some(b - 0x41 + 10)
    else if 0x61 <= b <= 0x66 then Some(b - 0x61 + 10)
    else None
  }

  /** Percent-decoding (section 2.1 of RFC 3986); `+` stands for a space, as form servers read it. */
  function DecodeValue(b: Bytes): Option<Bytes> {
    if b == [] then Some([])
    else if b[0] != PERCENT then
      var rest := DecodeValue(b[1..]);
      if rest.Some? then Some([if b[0] == PLUS then SPACE else b[0]] + rest.value) else None
    else if |b| < 3 || Unhex(b[1]).None? || Unhex(b[2]).None? then None
    else
      var rest := DecodeValue(b[3..]);
      if rest.Some? then Some([(Unhex(b[1]).value * 16 + Unhex(b[2]).value) % 256] + rest.value) else None
  }

  /** Position of the first `c`, or the length. */
  function Find(b: Bytes, c: byte): (i: nat)
    ensures i <= |b|
  {
    if b == [] || b[0] == c then 0 else 1 + Find(b[1..], c)
  }

  function DecodePair(b: Bytes): Option<Pair> {
    var i := Find(b, EQUALS);
    if i == |b| || DecodeValue(b[i + 1..]).None? then None
    else Some((b[..i], DecodeValue(b[i + 1..]).value))
  }

  function ParseForm(b: Bytes): Option<seq<Pair>>
    decreases |b|
  {
    var i := Find(b, AMP);
    if i == |b| then
      if DecodePair(b).Some? then Some([DecodePair(b).value]) else None
    else
      var rest := ParseForm(b[i + 1..]);
      if DecodePair(b[..i]).Some? && rest.Some? then Some([DecodePair(b[..i]).value] + rest.value) else None
  }

  // ----- Nothing is lost -----

  lemma HexRoundTrip(n: nat)
    requires n < 16
    ensures Unhex(Hex(n)) == Some(n) && Unreserved(Hex(n))
  {
  }

  lemma ByteRoundTrip(b: byte, rest: Bytes)
    requires DecodeValue(rest).Some?
    ensures DecodeValue(EncodeByte(b) + rest) == Some([b] + DecodeValue(rest).value)
    ensures AMP !in EncodeByte(b) && EQUALS !in EncodeByte(b)
  {
    var e := EncodeByte(b) + rest;
    if Unreserved(b) {
      assert e[1..] == rest;
    } else {
      HexRoundTrip(b / 16);
      HexRoundTrip(b % 16);
      assert e[3..] == rest;
    }
  }

  lemma {:induction false} ValueRoundTrip(v: Bytes)
    ensures DecodeValue(EncodeValue(v)) == Some(v)
    ensures AMP !in EncodeValue(v) && EQUALS !in EncodeValue(v)
  {
    if v != [] {
      ValueRoundTrip(v[1..]);
      ByteRoundTrip(v[0], EncodeValue(v[1..]));
      assert v == [v[0]] + v[1..];
    }
  }

  lemma {:induction false} FindAt(a: Bytes, c: byte, b: Bytes)
    requires c !in a
    ensures Find(a + ([c] + b), c) == |a| && Find(a, c) == |a|
  {
    if a == [] {
      assert (a + ([c] + b))[0] == c;
    } else {
      FindAt(a[1..], c, b);
      assert (a + ([c] + b))[1..] == a[1..] + ([c] + b);
    }
  }

  /** Keys are sent as they are, so they must not contain the separators; the login keys do not. */
  predicate PlainKey(k: Bytes) { AMP !in k && EQUALS !in k }

  lemma PairRoundTrip(p: Pair)
    requires PlainKey(p.0)
    ensures DecodePair(EncodePair(p)) == Some(p) && AMP !in EncodePair(p)
  {
    ValueRoundTrip(p.1);
    FindAt(p.0, EQUALS, EncodeValue(p.1));
    var e := EncodePair(p);
    assert e[..|p.0|] == p.0 && e[|p.0| + 1..] == EncodeValue(p.1);
  }

  /** The body is unambiguous: for all values, splitting and decoding gives back the pairs. */
  lemma {:induction false} FormRoundTrip(pairs: seq<Pair>)
    requires pairs != [] && forall p :: p in pairs ==> PlainKey(p.0)
    ensures ParseForm(FormBody(pairs)) == Some(pairs)
  {
    hide DecodePair, EncodePair;
    PairRoundTrip(pairs[0]);
    var first := EncodePair(pairs[0]);
    if |pairs| == 1 {
      FindAt(first, AMP, []);
      assert pairs == [pairs[0]];
    } else {
      FormRoundTrip(pairs[1..]);
      FindAt(first, AMP, FormBody(pairs[1..]));
      var body := FormBody(pairs);
      assert body[..|first|] == first && body[|first| + 1..] == FormBody(pairs[1..]);
      assert pairs == [pairs[0]] + pairs[1..];
    }
  }

  /** Every login body parses back to exactly the values it was built from. */
  lemma LoginBodyRoundTrip(pk: Bytes, sig: Bytes, challenge: Bytes, identity: Option<Bytes>, link: Option<Bytes>)
    ensures var pairs := LoginPairs(pk, sig, challenge, identity, link); ParseForm(FormBody(pairs)) == Some(pairs)
  {
    hide FormBody, ParseForm;
    var pairs := LoginPairs(pk, sig, challenge, identity, link);
    forall p | p in pairs ensures PlainKey(p.0) { }
    FormRoundTrip(pairs);
  }

  /** Two logins with the same body are the same login. */
  lemma LoginBodyInjective(pk: Bytes, sig: Bytes, challenge: Bytes, identity: Option<Bytes>, link: Option<Bytes>,
                           pk': Bytes, sig': Bytes, challenge': Bytes, identity': Option<Bytes>, link': Option<Bytes>)
    requires FormBody(LoginPairs(pk, sig, challenge, identity, link))
             == FormBody(LoginPairs(pk', sig', challenge', identity', link'))
    ensures pk == pk' && sig == sig' && challenge == challenge' && identity == identity' && link == link'
  {
    LoginBodyRoundTrip(pk, sig, challenge, identity, link);
    LoginBodyRoundTrip(pk', sig', challenge', identity', link');
    hide FormBody, ParseForm;
    var a, b := LoginPairs(pk, sig, challenge, identity, link), LoginPairs(pk', sig', challenge', identity', link');
    assert a == b && a[0] == b[0] && a[1] == b[1] && a[2] == b[2];
    KeyNames();
    if |a| > 3 {
      assert a[3] == b[3];
    }
    if |a| > 4 {
      assert a[4] == b[4];
    }
  }

  lemma KeyNames()
    ensures Ascii("identity") != Ascii("link")
  {
    assert |Ascii("identity")| == 8 && |Ascii("link")| == 4;
  }

  // ----- What is sent, byte by byte -----

  /** A byte that is sent as itself. */
  predicate Plain(c: char) {
    c in "ABCDEFGHIJKLMNOPQRSTUVWXYZ" || c in "abcdefghijklmnopqrstuvwxyz" || c in "0123456789-_.~"
  }

  const HEX_DIGITS: string := "0123456789ABCDEF"

  /** A byte is sent as itself exactly when it is one of those characters, else as a percent sign and its two
      upper-case digits. */
  lemma ByteExact(b: byte)
    ensures Plain(b as char) ==> EncodeByte(b) == [b]
    ensures !Plain(b as char) ==>
              EncodeByte(b) == [37, HEX_DIGITS[b / 16] as int, HEX_DIGITS[b % 16] as int]
  {
    PlainIff(b);
    HexExact(b / 16);
    HexExact(b % 16);
    hide Plain, HEX_DIGITS, Hex, Unreserved;
  }

  lemma HexExact(n: nat)
    requires n < 16
    ensures Hex(n) == HEX_DIGITS[n] as int
  {
  }

  lemma PlainIff(b: byte)
    ensures Unreserved(b) <==> Plain(b as char)
  {
    UpperIff(b as char);
    LowerIff(b as char);
    OtherIff(b as char);
  }

  lemma UpperIff(c: char)
    ensures c in "ABCDEFGHIJKLMNOPQRSTUVWXYZ" <==> 'A' <= c <= 'Z'
  {
  }

  lemma LowerIff(c: char)
    ensures c in "abcdefghijklmnopqrstuvwxyz" <==> 'a' <= c <= 'z'
  {
  }

  lemma OtherIff(c: char)
    ensures c in "0123456789-_.~" <==> '0' <= c <= '9' || c == '-' || c == '_' || c == '.' || c == '~'
  {
  }

  /** The text of a field: a separator, its name, an equals sign and its value. */
  function Field(name: string, v: Bytes): Bytes { Ascii(name) + ([0x3d] + EncodeValue(v)) }

  /** The body: key, signature and challenge in that order, then the identity and the link code if given. */
  lemma BodyExact(pk: Bytes, sig: Bytes, challenge: Bytes, identity: Option<Bytes>, link: Option<Bytes>)
    ensures FormBody(LoginPairs(pk, sig, challenge, identity, link))
            == Field("pk", pk) + ([0x26] + (Field("sig", sig) + ([0x26] + (Field("challenge", challenge)
               + ((if identity.Some? then [0x26] + Field("identity", identity.value) else [])
                  + (if link.Some? then [0x26] + Field("link", link.value) else []))))))
  {
    hide FormBody, Ascii, EncodeValue;
    var ends := (if identity.Some? then [(Ascii("identity"), identity.value)] else [])
    + (if link.Some? then [(Ascii("link"), link.value)] else []);
    var last := [(Ascii("challenge"), challenge)] + ends;
    var pairs := LoginPairs(pk, sig, challenge, identity, link);
    assert pairs == [(Ascii("pk"), pk)] + ([(Ascii("sig"), sig)] + last);
    BodyStep((Ascii("pk"), pk), [(Ascii("sig"), sig)] + last);
    BodyStep((Ascii("sig"), sig), last);
    BodyStep((Ascii("challenge"), challenge), ends);
    EndsBody(identity, link);
  }

  lemma EndsBody(identity: Option<Bytes>, link: Option<Bytes>)
    ensures var ends := (if identity.Some? then [(Ascii("identity"), identity.value)] else [])
                        + (if link.Some? then [(Ascii("link"), link.value)] else []);
            (if ends == [] then [] else [0x26] + FormBody(ends))
            == (if identity.Some? then [0x26] + Field("identity", identity.value) else [])
               + (if link.Some? then [0x26] + Field("link", link.value) else [])
  {
    hide FormBody, Ascii, EncodeValue;
    if link.Some? {
      var l := (Ascii("link"), link.value);
      BodyStep(l, []);
      assert [l] + [] == [l] && [] + [l] == [l];
      if identity.Some? {
        BodyStep((Ascii("identity"), identity.value), [l]);
      }
    } else if identity.Some? {
      BodyStep((Ascii("identity"), identity.value), []);
    }
  }

  lemma BodyStep(p: Pair, rest: seq<Pair>)
    ensures FormBody([p] + rest) == EncodePair(p) + if rest == [] then [] else [0x26] + FormBody(rest)
  {
    assert ([p] + rest)[1..] == rest;
  }

  /** The value of the first pair with this name. */
  function Lookup(pairs: seq<Pair>, name: Bytes): Option<Bytes> {
    if pairs == [] then None else if pairs[0].0 == name then Some(pairs[0].1) else Lookup(pairs[1..], name)
  }

  /** A server that reads the body finds each value under its own name, and nothing under a name not given. */
  lemma ServerReads(pk: Bytes, sig: Bytes, challenge: Bytes, identity: Option<Bytes>, link: Option<Bytes>)
    ensures var form := ParseForm(FormBody(LoginPairs(pk, sig, challenge, identity, link)));
            && form.Some?
            && Lookup(form.value, Ascii("pk")) == Some(pk) && Lookup(form.value, Ascii("sig")) == Some(sig)
            && Lookup(form.value, Ascii("challenge")) == Some(challenge)
            && Lookup(form.value, Ascii("identity")) == identity && Lookup(form.value, Ascii("link")) == link
            && |form.value| == 3 + (if identity.Some? then 1 else 0) + (if link.Some? then 1 else 0)
  {
    LoginBodyRoundTrip(pk, sig, challenge, identity, link);
    NamesDiffer();
    hide FormBody, ParseForm, Ascii, Lookup;
    var pairs := LoginPairs(pk, sig, challenge, identity, link);
    var last := pairs[3..];
    forall name
      ensures Lookup(pairs, name) == if name == Ascii("pk") then Some(pk) else if name == Ascii("sig") then Some(sig)
                                     else if name == Ascii("challenge") then Some(challenge) else Lookup(last, name)
    {
      LookupStep(pairs, name);
      LookupStep(pairs[1..], name);
      LookupStep(pairs[2..], name);
      assert pairs[1..][1..] == pairs[2..] && pairs[2..][1..] == last;
    }
    forall name ensures Lookup(last, name) == LookupEnds(identity, link, name) {
      EndsFound(identity, link, last, name);
    }
  }

  function LookupEnds(identity: Option<Bytes>, link: Option<Bytes>, name: Bytes): Option<Bytes> {
    if identity.Some? && name == Ascii("identity") then identity
    else if link.Some? && name == Ascii("link") then link
    else None
  }

  lemma EndsFound(identity: Option<Bytes>, link: Option<Bytes>, last: seq<Pair>, name: Bytes)
    requires last == (if identity.Some? then [(Ascii("identity"), identity.value)] else [])
                     + (if link.Some? then [(Ascii("link"), link.value)] else [])
    ensures Lookup(last, name) == LookupEnds(identity, link, name)
  {
    hide Lookup, Ascii;
    LookupNothing(name);
    if last != [] {
      LookupStep(last, name);
      if |last| == 2 {
        LookupStep(last[1..], name);
        assert last[1..][1..] == [];
      } else {
        assert last[1..] == [];
      }
    }
  }

  lemma LookupStep(pairs: seq<Pair>, name: Bytes)
    requires pairs != []
    ensures Lookup(pairs, name) == if pairs[0].0 == name then Some(pairs[0].1) else Lookup(pairs[1..], name)
  {
  }

  lemma LookupNothing(name: Bytes)
    ensures Lookup([], name) == None
  {
  }

  lemma NamesDiffer()
    ensures Ascii("pk") !in [Ascii("sig"), Ascii("challenge")] && Ascii("sig") != Ascii("challenge")
    ensures Ascii("identity") !in [Ascii("pk"), Ascii("sig"), Ascii("challenge"), Ascii("link")]
    ensures Ascii("link") !in [Ascii("pk"), Ascii("sig"), Ascii("challenge")]
  {
    assert |Ascii("pk")| == 2 && |Ascii("sig")| == 3 && |Ascii("challenge")| == 9;
    assert |Ascii("identity")| == 8 && |Ascii("link")| == 4;
  }
}
