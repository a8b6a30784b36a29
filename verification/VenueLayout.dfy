/** Where each field stands in the strings the venue key signs (`venue.rs`), and exactly which typed requests are
    turned into one. */
module VenueLayout {
  import opened Common
  import opened Pset
  import opened Venue

  /** An order: the tag of its version, the key at 11, the product at 43, one byte for the side at 54, then price,
      quantity, expiry and nonce, and the two caps of version 2. */
  lemma OrderLayout(pk: Bytes32, side: OrderSide, price: u64, qty: u64, expiry: u32, nonce: u64, caps: Option<FeeCaps>)
    ensures var p := Preimage(Order(pk, side, price, qty, expiry, nonce, caps));
            && |p| == (if caps.Some? then 99 else 83)
            && p[..11] == Ascii(if caps.Some? then "rf/order/v2" else "rf/order/v1")
            && p[11..43] == pk && p[43..54] == Ascii("RF-BTC-USDT")
            && p[54] == (if side == Buy then 0 else 1)
            && p[55..63] == BigEndian(price, 8) && p[63..71] == BigEndian(qty, 8)
            && p[71..75] == BigEndian(expiry, 4) && p[75..83] == BigEndian(nonce, 8)
            && (caps.Some? ==>
                  p[83..91] == BigEndian(caps.value.maxBps, 8) && p[91..99] == BigEndian(caps.value.maxChain, 8))
  {
    hide BigEndian, Ascii;
    var front := OrderFront(pk, side, caps.Some?);
    var rest := OrderNumbers(price, qty, expiry, nonce);
    OrderParts(pk, side, price, qty, expiry, nonce, caps);
    FrontLayout(pk, side, caps.Some?);
    NumbersLayout(price, qty, expiry, nonce);
    CapsLayout(caps);
    hide Preimage, EncodeCaps, OrderFront, OrderNumbers;
    var tail := rest + EncodeCaps(caps);
    Within(front, tail, 0, 11);
    Within(front, tail, 11, 43);
    Within(front, tail, 43, 54);
    assert (front + tail)[54] == front[54];
    After(front, tail, 0, 8);
    After(front, tail, 8, 16);
    After(front, tail, 16, 20);
    After(front, tail, 20, 28);
    Within(rest, EncodeCaps(caps), 0, 8);
    Within(rest, EncodeCaps(caps), 8, 16);
    Within(rest, EncodeCaps(caps), 16, 20);
    Within(rest, EncodeCaps(caps), 20, 28);
    if caps.Some? {
      After(front, tail, 28, 36);
      After(front, tail, 36, 44);
      After(rest, EncodeCaps(caps), 0, 8);
      After(rest, EncodeCaps(caps), 8, 16);
    }
  }

  function OrderFront(pk: Bytes32, side: OrderSide, capped: bool): Bytes {
    (if capped then ORDER_TAG else ORDER_TAG_V1) + pk + PRODUCT + [SideByte(side)]
  }

  function OrderNumbers(price: u64, qty: u64, expiry: u32, nonce: u64): Bytes {
    BigEndian(price, 8) + BigEndian(qty, 8) + BigEndian(expiry, 4) + BigEndian(nonce, 8)
  }

  lemma OrderParts(pk: Bytes32, side: OrderSide, price: u64, qty: u64, expiry: u32, nonce: u64, caps: Option<FeeCaps>)
    ensures Preimage(Order(pk, side, price, qty, expiry, nonce, caps))
            == OrderFront(pk, side, caps.Some?) + (OrderNumbers(price, qty, expiry, nonce) + EncodeCaps(caps))
  {
    hide BigEndian, Ascii, EncodeCaps;
    var rest := OrderNumbers(price, qty, expiry, nonce) + EncodeCaps(caps);
    Four(BigEndian(price, 8), BigEndian(qty, 8), BigEndian(expiry, 4), BigEndian(nonce, 8), EncodeCaps(caps));
    Four(if caps.Some? then ORDER_TAG else ORDER_TAG_V1, pk, PRODUCT, [SideByte(side)], rest);
  }

  lemma Four(a: Bytes, b: Bytes, c: Bytes, d: Bytes, rest: Bytes)
    ensures a + (b + (c + (d + rest))) == (a + b + c + d) + rest
  {
    Regroup(a, b, c + (d + rest));
    Regroup(a + b, c, d + rest);
    Regroup(a + b + c, d, rest);
  }

  lemma Within(a: Bytes, b: Bytes, x: nat, y: nat)
    requires x <= y <= |a|
    ensures (a + b)[x..y] == a[x..y]
  {
  }

  lemma After(a: Bytes, b: Bytes, x: nat, y: nat)
    requires x <= y <= |b|
    ensures (a + b)[|a| + x..|a| + y] == b[x..y]
  {
  }

  lemma FrontLayout(pk: Bytes32, side: OrderSide, capped: bool)
    ensures var p := OrderFront(pk, side, capped);
            && |p| == 55 && p[..11] == Ascii(if capped then "rf/order/v2" else "rf/order/v1")
            && p[11..43] == pk && p[43..54] == Ascii("RF-BTC-USDT") && p[54] == if side == Buy then 0 else 1
  {
    hide Ascii;
  }

  lemma NumbersLayout(price: u64, qty: u64, expiry: u32, nonce: u64)
    ensures var p := OrderNumbers(price, qty, expiry, nonce);
            && |p| == 28 && p[0..8] == BigEndian(price, 8) && p[8..16] == BigEndian(qty, 8)
            && p[16..20] == BigEndian(expiry, 4) && p[20..28] == BigEndian(nonce, 8)
  {
    hide BigEndian;
  }

  lemma CapsLayout(caps: Option<FeeCaps>)
    ensures caps == None ==> EncodeCaps(caps) == []
    ensures caps.Some? ==>
              && |EncodeCaps(caps)| == 16 && EncodeCaps(caps)[..8] == BigEndian(caps.value.maxBps, 8)
              && EncodeCaps(caps)[8..] == BigEndian(caps.value.maxChain, 8)
  {
    hide BigEndian;
  }

  // ----- The other kinds -----

  lemma TwoFields(a: Bytes, b: Bytes)
    ensures (a + b)[..|a|] == a && (a + b)[|a|..] == b
  {
  }

  lemma ThreeFields(a: Bytes, b: Bytes, c: Bytes)
    ensures var p := a + (b + c);
            && |p| == |a| + |b| + |c| && p[..|a|] == a && p[|a|..|a| + |b|] == b && p[|a| + |b|..] == c
  {
    TwoFields(b, c);
    Within(a, b + c, 0, |a|);
    After(a, b + c, 0, |b|);
    After(a, b + c, |b|, |b + c|);
  }

  lemma FourFields(a: Bytes, b: Bytes, c: Bytes, d: Bytes)
    ensures var p := a + (b + (c + d));
            var (x, y) := (|a| + |b|, |a| + |b| + |c|);
            && |p| == y + |d| && p[..|a|] == a && p[|a|..x] == b && p[x..y] == c && p[y..] == d
  {
    var rest := b + (c + d);
    ThreeFields(b, c, d);
    Within(a, rest, 0, |a|);
    After(a, rest, 0, |b|);
    After(a, rest, |b|, |b| + |c|);
    After(a, rest, |b| + |c|, |rest|);
  }

  lemma FiveFields(a: Bytes, b: Bytes, c: Bytes, d: Bytes, e: Bytes)
    ensures var p := a + (b + (c + (d + e)));
            var (x, y, z) := (|a| + |b|, |a| + |b| + |c|, |a| + |b| + |c| + |d|);
            && |p| == z + |e| && p[..|a|] == a && p[|a|..x] == b && p[x..y] == c && p[y..z] == d && p[z..] == e
  {
    var rest := b + (c + (d + e));
    FourFields(b, c, d, e);
    Within(a, rest, 0, |a|);
    After(a, rest, 0, |b|);
    After(a, rest, |b|, |b| + |c|);
    After(a, rest, |b| + |c|, |b| + |c| + |d|);
    After(a, rest, |b| + |c| + |d|, |rest|);
  }

  lemma Parts(m: Message)
    ensures match m
            case Order(_, _, _, _, _, _, _) => true
            case Withdraw(pk, amt, destHash, root) =>
              Preimage(m) == WITHDRAW_TAG + (pk + (BigEndian(amt, 8) + (destHash + root)))
            case Delegate(owner, trade, domain) => Preimage(m) == DELEGATE_TAG + (owner + (trade + domain))
            case Login(pk, challenge) => Preimage(m) == LOGIN_TAG + (pk + challenge)
            case ServiceLogin(pk, domain, challenge) =>
              Preimage(m) == SERVICE_LOGIN_TAG + (pk + (domain + ([0] + challenge)))
  {
    hide BigEndian, Ascii;
  }

  /** A withdrawal: key, amount, the hash of the destination and the venue's root. */
  lemma WithdrawLayout(pk: Bytes32, amt: u64, destHash: Bytes32, root: Bytes32)
    ensures var p := Preimage(Withdraw(pk, amt, destHash, root));
            && |p| == 118 && p[..14] == Ascii("rf/withdraw/v1") && p[14..46] == pk
            && p[46..54] == BigEndian(amt, 8) && p[54..86] == destHash && p[86..] == root
  {
    Parts(Withdraw(pk, amt, destHash, root));
    hide BigEndian, Ascii, Preimage;
    FiveFields(WITHDRAW_TAG, pk, BigEndian(amt, 8), destHash, root);
  }

  /** A delegation: the owner's key, the trading key, the domain. */
  lemma DelegateLayout(owner: Bytes32, trade: Bytes32, domain: Bytes)
    ensures var p := Preimage(Delegate(owner, trade, domain));
            && |p| == 78 + |domain| && p[..14] == Ascii("rf/delegate/v1") && p[14..46] == owner
            && p[46..78] == trade && p[78..] == domain
  {
    Parts(Delegate(owner, trade, domain));
    hide Ascii, Preimage;
    FourFields(DELEGATE_TAG, owner, trade, domain);
  }

  /** A login. */
  lemma LoginLayout(pk: Bytes32, challenge: Bytes)
    ensures var p := Preimage(Login(pk, challenge));
            && |p| == 43 + |challenge| && p[..11] == Ascii("rf/login/v1") && p[11..43] == pk && p[43..] == challenge
  {
    Parts(Login(pk, challenge));
    hide Ascii, Preimage;
    ThreeFields(LOGIN_TAG, pk, challenge);
  }

  /** A service login: a NUL between the domain and the challenge. */
  lemma ServiceLoginLayout(pk: Bytes32, domain: Bytes, challenge: Bytes)
    ensures var p := Preimage(ServiceLogin(pk, domain, challenge));
            && |p| == 52 + |domain| + |challenge| && p[..19] == Ascii("lc/service-login/v1") && p[19..51] == pk
            && p[51..51 + |domain|] == domain && p[51 + |domain|] == 0 && p[52 + |domain|..] == challenge
  {
    Parts(ServiceLogin(pk, domain, challenge));
    hide Ascii, Preimage;
    FiveFields(SERVICE_LOGIN_TAG, pk, domain, [0], challenge);
    var p := Preimage(ServiceLogin(pk, domain, challenge));
    assert p[51 + |domain|] == p[51 + |domain|..52 + |domain|][0];
  }

  // ----- Which requests are signed -----

  /** The string a request is signed over, if it is one the wallet signs with `pk`. */
  ghost predicate Stands(e: Env, r: TypedRequest, pk: Bytes32, m: Message) {
    match m
    case Order(key, side, price, qty, expiry, nonce, caps) =>
      key == pk && r == TypedOrder(Ascii("RF-BTC-USDT"), side, price, qty, expiry, nonce, caps)
    case Withdraw(key, amt, destHash, root) =>
      key == pk && exists dest, script :: r == TypedWithdraw(amt, dest, root) && e.scriptOf(dest) == Some(script)
                                          && destHash == e.sha(script)
    case Delegate(owner, trade, domain) => owner == pk && trade != pk && r == TypedDelegate(domain, owner, trade)
    case Login(key, challenge) => key == pk && r == TypedLogin(challenge)
    case ServiceLogin(_, _, _) => false
  }

  lemma MessageIff(e: Env, r: TypedRequest, pk: Bytes32, m: Message)
    ensures TypedMessage(e, r, pk) == Ok(m) <==> Stands(e, r, pk, m)
  {
    hide Ascii;
  }

  /** A digest is given exactly for a request of the known product, with a destination that is an address, or with
      this account as the owner and another key to trade; and it is the hash of that request's own string. */
  lemma TypedDigestExact(e: Env, r: TypedRequest, pk: Bytes32, d: Bytes32)
    ensures TypedRequestDigest(e, r, pk) == Ok(d) <==> exists m :: Stands(e, r, pk, m) && d == e.sha(Preimage(m))
    ensures TypedRequestDigest(e, r, pk) == Err(UnknownProduct) <==>
            r.TypedOrder? && r.product != Ascii("RF-BTC-USDT")
    ensures TypedRequestDigest(e, r, pk) == Err(BadAddress) <==> r.TypedWithdraw? && e.scriptOf(r.dest) == None
    ensures TypedRequestDigest(e, r, pk) == Err(NotThisAccount) <==> r.TypedDelegate? && r.owner != pk
    ensures TypedRequestDigest(e, r, pk) == Err(TradeKeyIsOwner) <==>
            r.TypedDelegate? && r.owner == pk && r.tradePk == pk
  {
    forall m ensures TypedMessage(e, r, pk) == Ok(m) <==> Stands(e, r, pk, m) { MessageIff(e, r, pk, m); }
    hide Stands, Preimage, Ascii;
    if TypedMessage(e, r, pk).Ok? {
      assert Stands(e, r, pk, TypedMessage(e, r, pk).value);
    }
  }
}
