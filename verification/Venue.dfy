/** Venue clear-signing (`venue.rs`): the domain-tagged preimages, and what a digest rebuilt
    from typed fields commits to. Text is its UTF-8 bytes. */
module Venue {
  import opened Common
  import opened Pset

  datatype OrderSide = Buy | Sell
  datatype FeeCaps = FeeCaps(maxBps: u64, maxChain: u64)

  const ORDER_TAG: Bytes := Ascii("rf/order/v2")
  const ORDER_TAG_V1: Bytes := Ascii("rf/order/v1")
  const WITHDRAW_TAG: Bytes := Ascii("rf/withdraw/v1")
  const LOGIN_TAG: Bytes := Ascii("rf/login/v1")
  const DELEGATE_TAG: Bytes := Ascii("rf/delegate/v1")
  const SERVICE_LOGIN_TAG: Bytes := Ascii("lc/service-login/v1")
  const PRODUCT: Bytes := Ascii("RF-BTC-USDT")

  /** Everything the venue key, or a service key, ever signs a digest of. */
  datatype Message =
    | Order(pk: Bytes32, side: OrderSide, price: u64, qty: u64, expiry: u32, nonce: u64, caps: Option<FeeCaps>)
    | Withdraw(pk: Bytes32, amt: u64, destHash: Bytes32, root: Bytes32)
    | Delegate(owner: Bytes32, trade: Bytes32, domain: Bytes)
    | Login(pk: Bytes32, challenge: Bytes)
    | ServiceLogin(pk: Bytes32, domain: Bytes, challenge: Bytes)

  function SideByte(s: OrderSide): byte {
    match s
    case Buy => 0
    case Sell => 1
  }

  function EncodeCaps(caps: Option<FeeCaps>): Bytes {
    match caps
    case None => []
    case Some(f) => BigEndian(f.maxBps, 8) + BigEndian(f.maxChain, 8)
  }

  function Tag(m: Message): Bytes {
    match m
    case Order(_, _, _, _, _, _, caps) => if caps.Some? then ORDER_TAG else ORDER_TAG_V1
    case Withdraw(_, _, _, _) => WITHDRAW_TAG
    case Delegate(_, _, _) => DELEGATE_TAG
    case Login(_, _) => LOGIN_TAG
    case ServiceLogin(_, _, _) => SERVICE_LOGIN_TAG
  }

  /** What follows the tag. */
  function Body(m: Message): Bytes {
    match m
    case Order(pk, side, price, qty, expiry, nonce, caps) =>
      pk + (PRODUCT + ([SideByte(side)] + (BigEndian(price, 8) + (BigEndian(qty, 8)
      + (BigEndian(expiry, 4) + (BigEndian(nonce, 8) + EncodeCaps(caps)))))))
    case Withdraw(pk, amt, destHash, root) => pk + (BigEndian(amt, 8) + (destHash + root))
    case Delegate(owner, trade, domain) => owner + (trade + domain)
    case Login(pk, challenge) => pk + challenge
    case ServiceLogin(pk, domain, challenge) => pk + (domain + ([0] + challenge))
  }

  function Preimage(m: Message): Bytes {
    Tag(m) + Body(m)
  }

  // ----- The builders, which append to one buffer -----

  lemma Regroup(m: Bytes, field: Bytes, rest: Bytes)
    ensures (m + field) + rest == m + (field + rest)
  {
  }

  method OrderPreimage(pk: Bytes32, side: OrderSide, price: u64, qty: u64, expiry: u32, nonce: u64,
      caps: Option<FeeCaps>)
      returns (m: Bytes)
    ensures m == Preimage(Order(pk, side, price, qty, expiry, nonce, caps))
  {
    hide BigEndian, Ascii, EncodeCaps;
    ghost var r7 := EncodeCaps(caps);
    ghost var r6 := BigEndian(nonce, 8) + r7;
    ghost var r5 := BigEndian(expiry, 4) + r6;
    ghost var r4 := BigEndian(qty, 8) + r5;
    ghost var r3 := BigEndian(price, 8) + r4;
    ghost var r2 := [SideByte(side)] + r3;
    ghost var r1 := PRODUCT + r2;
    m := if caps.Some? then ORDER_TAG else ORDER_TAG_V1;
    assert Preimage(Order(pk, side, price, qty, expiry, nonce, caps)) == m + (pk + r1);
    Regroup(m, pk, r1);
    m := m + pk;
    Regroup(m, PRODUCT, r2);
    m := m + PRODUCT;
    Regroup(m, [SideByte(side)], r3);
    m := m + [match side case Buy => 0 case Sell => 1];
    Regroup(m, BigEndian(price, 8), r4);
    m := m + BigEndian(price, 8);
    Regroup(m, BigEndian(qty, 8), r5);
    m := m + BigEndian(qty, 8);
    Regroup(m, BigEndian(expiry, 4), r6);
    m := m + BigEndian(expiry, 4);
    Regroup(m, BigEndian(nonce, 8), r7);
    m := m + BigEndian(nonce, 8);
    m := AppendCaps(m, caps);
  }

  method AppendCaps(m0: Bytes, caps: Option<FeeCaps>) returns (m: Bytes)
    ensures m == m0 + EncodeCaps(caps)
  {
    hide BigEndian;
    m := m0;
    if caps.Some? {
      m := m + BigEndian(caps.value.maxBps, 8);
      m := m + BigEndian(caps.value.maxChain, 8);
    }
  }

  method WithdrawPreimage(pk: Bytes32, amt: u64, destHash: Bytes32, root: Bytes32) returns (m: Bytes)
    ensures m == Preimage(Withdraw(pk, amt, destHash, root))
  {
    hide BigEndian, Ascii;
    m := WITHDRAW_TAG;
    m := m + pk;
    m := m + BigEndian(amt, 8);
    m := m + destHash;
    m := m + root;
  }

  method DelegatePreimage(owner: Bytes32, trade: Bytes32, domain: Bytes) returns (m: Bytes)
    ensures m == Preimage(Delegate(owner, trade, domain))
  {
    hide Ascii;
    m := DELEGATE_TAG;
    m := m + owner;
    m := m + trade;
    m := m + domain;
  }

  method LoginPreimage(pk: Bytes32, challenge: Bytes) returns (m: Bytes)
    ensures m == Preimage(Login(pk, challenge))
  {
    hide Ascii;
    m := LOGIN_TAG;
    m := m + pk;
    m := m + challenge;
  }

  method ServiceLoginPreimage(pk: Bytes32, domain: Bytes, challenge: Bytes) returns (m: Bytes)
    ensures m == Preimage(ServiceLogin(pk, domain, challenge))
  {
    hide Ascii;
    m := SERVICE_LOGIN_TAG;
    m := m + pk;
    m := m + domain;
    m := m + [0];
    m := m + challenge;
  }

  // ----- Pairwise disjoint tags -----

  /** No tag is a prefix of another, so the first eleven bytes tell the kinds apart. */
  lemma TagsTellApart(m: Message, m': Message)
    requires Preimage(m) == Preimage(m')
    ensures Tag(m) == Tag(m') && Body(m) == Body(m')
  {
    hide Body;
    TagBytes(m);
    TagBytes(m');
    var p := Preimage(m);
    assert p[0] == Tag(m)[0] == Tag(m')[0] && p[3] == Tag(m)[3] == Tag(m')[3] && p[10] == Tag(m)[10] == Tag(m')[10];
    assert Tag(m) == Tag(m');
    Split(Tag(m), Body(m), Tag(m'), Body(m'));
  }

  lemma TagBytes(m: Message)
    ensures |Tag(m)| > 10
    ensures Tag(m)[0] == (if m.ServiceLogin? then 108 else 114)
    ensures Tag(m)[3] == match m
                         case Order(_, _, _, _, _, _, _) => 111
                         case Withdraw(_, _, _, _) => 119
                         case Delegate(_, _, _) => 100
                         case Login(_, _) => 108
                         case ServiceLogin(_, _, _) => 115
    ensures m.Order? ==> Tag(m)[10] == if m.caps.Some? then 50 else 49
  {
  }

  // ----- Injective bodies -----

  lemma OrderBodyInjective(m: Message, m': Message)
    requires m.Order? && m'.Order? && Body(m) == Body(m') && (m.caps.Some? <==> m'.caps.Some?)
    ensures m == m'
  {
    hide BigEndian;
    var e6 := BigEndian(m.nonce, 8) + EncodeCaps(m.caps);
    var e6' := BigEndian(m'.nonce, 8) + EncodeCaps(m'.caps);
    var e5 := BigEndian(m.expiry, 4) + e6;
    var e5' := BigEndian(m'.expiry, 4) + e6';
    var e4 := BigEndian(m.qty, 8) + e5;
    var e4' := BigEndian(m'.qty, 8) + e5';
    var e3 := BigEndian(m.price, 8) + e4;
    var e3' := BigEndian(m'.price, 8) + e4';
    Split(m.pk, PRODUCT + ([SideByte(m.side)] + e3), m'.pk, PRODUCT + ([SideByte(m'.side)] + e3'));
    Split(PRODUCT, [SideByte(m.side)] + e3, PRODUCT, [SideByte(m'.side)] + e3');
    Split([SideByte(m.side)], e3, [SideByte(m'.side)], e3');
    assert [SideByte(m.side)][0] == [SideByte(m'.side)][0];
    Split(BigEndian(m.price, 8), e4, BigEndian(m'.price, 8), e4');
    Split(BigEndian(m.qty, 8), e5, BigEndian(m'.qty, 8), e5');
    Split(BigEndian(m.expiry, 4), e6, BigEndian(m'.expiry, 4), e6');
    Split(BigEndian(m.nonce, 8), EncodeCaps(m.caps), BigEndian(m'.nonce, 8), EncodeCaps(m'.caps));
    U64Injective(m.price, m'.price);
    U64Injective(m.qty, m'.qty);
    U32Injective(m.expiry, m'.expiry);
    U64Injective(m.nonce, m'.nonce);
    CapsInjective(m.caps, m'.caps);
  }

  lemma CapsInjective(a: Option<FeeCaps>, b: Option<FeeCaps>)
    requires EncodeCaps(a) == EncodeCaps(b) && (a.Some? <==> b.Some?)
    ensures a == b
  {
    hide BigEndian;
    if a.Some? {
      Split(BigEndian(a.value.maxBps, 8), BigEndian(a.value.maxChain, 8), BigEndian(b.value.maxBps, 8),
          BigEndian(b.value.maxChain, 8));
      U64Injective(a.value.maxBps, b.value.maxBps);
      U64Injective(a.value.maxChain, b.value.maxChain);
    }
  }

  lemma WithdrawBodyInjective(m: Message, m': Message)
    requires m.Withdraw? && m'.Withdraw? && Body(m) == Body(m')
    ensures m == m'
  {
    hide BigEndian;
    Split(m.pk, BigEndian(m.amt, 8) + (m.destHash + m.root), m'.pk, BigEndian(m'.amt, 8) + (m'.destHash + m'.root));
    Split(BigEndian(m.amt, 8), m.destHash + m.root, BigEndian(m'.amt, 8), m'.destHash + m'.root);
    Split(m.destHash, m.root, m'.destHash, m'.root);
    U64Injective(m.amt, m'.amt);
  }

  /** The first NUL of `d + [0] + c` ends `d`, when `d` has none. */
  lemma NulSplits(d: Bytes, c: Bytes, d': Bytes, c': Bytes)
    requires 0 !in d && 0 !in d' && d + ([0] + c) == d' + ([0] + c')
    ensures d == d' && c == c'
  {
    var s, s' := d + ([0] + c), d' + ([0] + c');
    assert s[|d|] == 0 && s'[|d'|] == 0;
    assert forall i :: 0 <= i < |d| ==> s[i] == d[i] && s[i] != 0;
    assert forall i :: 0 <= i < |d'| ==> s'[i] == d'[i] && s'[i] != 0;
    Split(d, [0] + c, d', [0] + c');
    Split([0], c, [0], c');
  }

  /** All preimages the keys sign are pairwise distinct: equal preimages are the same message,
      kind and version included, provided service-login domains hold no NUL. */
  lemma PreimagesBind(m: Message, m': Message)
    requires Preimage(m) == Preimage(m')
    requires (m.ServiceLogin? ==> 0 !in m.domain) && (m'.ServiceLogin? ==> 0 !in m'.domain)
    ensures m == m'
  {
    TagsTellApart(m, m');
    TagBytes(m);
    TagBytes(m');
    match m
    case Order(_, _, _, _, _, _, _) => OrderBodyInjective(m, m');
    case Withdraw(_, _, _, _) => WithdrawBodyInjective(m, m');
    case Delegate(owner, trade, domain) =>
      Split(owner, trade + domain, m'.owner, m'.trade + m'.domain);
      Split(trade, domain, m'.trade, m'.domain);
    case Login(pk, challenge) =>
      Split(pk, challenge, m'.pk, m'.challenge);
    case ServiceLogin(pk, domain, challenge) =>
      Split(pk, domain + ([0] + challenge), m'.pk, m'.domain + ([0] + m'.challenge));
      NulSplits(domain, challenge, m'.domain, m'.challenge);
  }

  /** A second pair of domain and challenge with the same service-login preimage. */
  ghost predicate Confused(pk: Bytes32, d: Bytes, c: Bytes) {
    exists d', c' :: (d' != d || c' != c) && Preimage(ServiceLogin(pk, d', c')) == Preimage(ServiceLogin(pk, d, c))
  }

  lemma ServicePreimages(pk: Bytes32, d: Bytes, c: Bytes, d': Bytes, c': Bytes)
    ensures Preimage(ServiceLogin(pk, d, c)) == Preimage(ServiceLogin(pk, d', c')) <==> d + ([0] + c) == d' + ([0] + c')
  {
    var m, m' := ServiceLogin(pk, d, c), ServiceLogin(pk, d', c');
    if Preimage(m) == Preimage(m') {
      Split(SERVICE_LOGIN_TAG, Body(m), SERVICE_LOGIN_TAG, Body(m'));
      Split(pk, d + ([0] + c), pk, d' + ([0] + c'));
    }
  }

  /** Exactly when the NUL separator fails: some other pair shares the preimage if and only if
      the domain or the challenge itself contains a NUL. */
  lemma ServiceLoginExact(pk: Bytes32, d: Bytes, c: Bytes)
    ensures Confused(pk, d, c) <==> 0 in d || 0 in c
  {
    hide Preimage;
    if 0 in d {
      var i :| 0 <= i < |d| && d[i] == 0;
      var d', c' := d[..i], d[i + 1..] + ([0] + c);
      assert d' + ([0] + c') == d + ([0] + c);
      ServicePreimages(pk, d, c, d', c');
      assert d' != d;
    } else if 0 in c {
      var i :| 0 <= i < |c| && c[i] == 0;
      var d', c' := d + ([0] + c[..i]), c[i + 1..];
      assert d' + ([0] + c') == d + ([0] + c);
      ServicePreimages(pk, d, c, d', c');
      assert d' != d;
    } else if Confused(pk, d, c) {
      var d', c' :| (d' != d || c' != c) && Preimage(ServiceLogin(pk, d', c')) == Preimage(ServiceLogin(pk, d, c));
      ServicePreimages(pk, d, c, d', c');
      OneNul(d, c, d', c');
    }
  }

  lemma OneNul(d: Bytes, c: Bytes, d': Bytes, c': Bytes)
    requires 0 !in d && 0 !in c && d + ([0] + c) == d' + ([0] + c')
    ensures d == d' && c == c'
  {
    var s := d + ([0] + c);
    assert s[|d'|] == 0;
    assert forall i :: 0 <= i < |s| && s[i] == 0 ==> i == |d|;
    Split(d, [0] + c, d', [0] + c');
    Split([0], c, [0], c');
  }

  // ----- Typed requests -----

  datatype TypedRequest =
    | TypedOrder(product: Bytes, side: OrderSide, price: u64, qty: u64, expiry: u32, nonce: u64, caps: Option<FeeCaps>)
    | TypedWithdraw(amt: u64, dest: Bytes, root: Bytes32)
    | TypedLogin(challenge: Bytes)
    | TypedDelegate(venue: Bytes, owner: Bytes32, tradePk: Bytes32)

  datatype TypedRefusal = UnknownProduct | BadAddress | NotThisAccount | TradeKeyIsOwner

  /** SHA-256, and the script an address string parses to. */
  datatype Env = Env(sha: Bytes -> Bytes32, scriptOf: Bytes -> Option<Script>)

  function TypedMessage(e: Env, r: TypedRequest, pk: Bytes32): Result<Message, TypedRefusal> {
    match r
    case TypedOrder(product, side, price, qty, expiry, nonce, caps) =>
      if product != PRODUCT then Err(UnknownProduct) else Ok(Order(pk, side, price, qty, expiry, nonce, caps))
    case TypedWithdraw(amt, dest, root) =>
      if e.scriptOf(dest).None? then Err(BadAddress) else Ok(Withdraw(pk, amt, e.sha(e.scriptOf(dest).value), root))
    case TypedLogin(challenge) => Ok(Login(pk, challenge))
    case TypedDelegate(venue, owner, tradePk) =>
      if owner != pk then Err(NotThisAccount)
      else if tradePk == owner then Err(TradeKeyIsOwner)
      else Ok(Delegate(owner, tradePk, venue))
  }

  function TypedRequestDigest(e: Env, r: TypedRequest, pk: Bytes32): Result<Bytes32, TypedRefusal> {
    var m :- TypedMessage(e, r, pk);
    Ok(e.sha(Preimage(m)))
  }

  /** Equal requests, where a withdrawal's destination counts as the script it names. */
  predicate SameRequest(e: Env, r: TypedRequest, r': TypedRequest) {
    || r == r'
    || (r.TypedWithdraw? && r'.TypedWithdraw? && r.amt == r'.amt && r.root == r'.root
        && e.scriptOf(r.dest) == e.scriptOf(r'.dest))
  }

  /** The strings hashed while rebuilding a request's digest. */
  function Queries(e: Env, r: TypedRequest, pk: Bytes32): seq<Bytes>
    requires TypedMessage(e, r, pk).Ok?
  {
    [Preimage(TypedMessage(e, r, pk).value)] + if r.TypedWithdraw? then [e.scriptOf(r.dest).value] else []
  }

  /** A rebuilt digest commits to the shown fields: two requests with one digest under one key
      are the same request, or the strings just hashed exhibit a collision. */
  lemma TypedDigestBinds(e: Env, r: TypedRequest, r': TypedRequest, pk: Bytes32)
    requires TypedRequestDigest(e, r, pk).Ok? && TypedRequestDigest(e, r, pk) == TypedRequestDigest(e, r', pk)
    ensures SameRequest(e, r, r') || Collides(e.sha, Queries(e, r, pk), Queries(e, r', pk))
  {
    hide Preimage;
    var m, m' := TypedMessage(e, r, pk).value, TypedMessage(e, r', pk).value;
    var qs, qs' := Queries(e, r, pk), Queries(e, r', pk);
    assert qs[0] == Preimage(m) && qs'[0] == Preimage(m');
    if Preimage(m) == Preimage(m') {
      PreimagesBind(m, m');
      if r.TypedWithdraw? {
        assert qs[1] == e.scriptOf(r.dest).value && qs'[1] == e.scriptOf(r'.dest).value;
      }
    }
  }

  /** A digest the wallet rebuilds is never one a service login, or another key's request, has. */
  lemma TypedNeverService(e: Env, r: TypedRequest, pk: Bytes32, other: Message)
    requires TypedMessage(e, r, pk).Ok? && e.sha(Preimage(TypedMessage(e, r, pk).value)) == e.sha(Preimage(other))
    requires other.ServiceLogin? || (other.Delegate? && other.owner != pk)
             || (!other.Delegate? && !other.ServiceLogin? && other.pk != pk)
    ensures Collides(e.sha, Queries(e, r, pk), [Preimage(other)])
  {
    hide Preimage;
    var m := TypedMessage(e, r, pk).value;
    if Preimage(m) == Preimage(other) {
      TagsTellApart(m, other);
      TagBytes(m);
      TagBytes(other);
      PreimagesBind(m, other);
    }
    assert Queries(e, r, pk)[0] == Preimage(m) && [Preimage(other)][0] == Preimage(other);
  }
}
