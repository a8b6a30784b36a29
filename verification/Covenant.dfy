/** The covenant scripts of the lending products (`lending.rs`): terms encodings, the taproot
    tree over the NUMS key, and what an output script therefore binds. The hash is an
    arbitrary function, so nothing here assumes that it is injective. */
module Covenant {
  import opened Common
  import opened Pset

  /** SHA-256, and the x-only key `NUMS + tweak * G` as a function of the tweak. */
  datatype Hashes = Hashes(sha: Bytes -> Bytes32, tweakedKey: Bytes32 -> Bytes32)

  const NUMS: Bytes32 := [
    0x50, 0x92, 0x9b, 0x74, 0xc1, 0xa0, 0x49, 0x54, 0xb7, 0x8b, 0x4b, 0x60, 0x35, 0xe9, 0x7a, 0x5e,
    0x07, 0x8a, 0x5a, 0x0f, 0x28, 0xec, 0x96, 0xd5, 0x47, 0xbf, 0xee, 0x9a, 0xce, 0x80, 0x3a, 0xc0]
  const LENDING_V2_LEAF: Bytes32 := [
    0x41, 0xd2, 0x18, 0xd4, 0xf2, 0xb4, 0x92, 0xa9, 0xaf, 0xb9, 0xe1, 0x79, 0xab, 0x76, 0xcd, 0x5d,
    0x96, 0xa4, 0x97, 0x7d, 0x2d, 0x26, 0x6d, 0x55, 0x8f, 0x7d, 0xd8, 0x7c, 0x7d, 0xf4, 0x52, 0x2c]
  const LENDING_V3_LEAF: Bytes32 := [
    0x88, 0x0d, 0x44, 0x1e, 0x2d, 0x85, 0x43, 0x31, 0xfd, 0x1d, 0x5c, 0x48, 0xaf, 0xac, 0x9f, 0xd8,
    0xb7, 0x05, 0xc5, 0xc0, 0x01, 0xf4, 0x85, 0x87, 0x32, 0x58, 0x20, 0xdc, 0x10, 0xee, 0x73, 0xa8]
  const LENDING_V4_LEAF: Bytes32 := [
    0x93, 0x9c, 0x23, 0x3f, 0xc8, 0xeb, 0xbd, 0x59, 0xcc, 0xe2, 0xec, 0x10, 0xef, 0x7b, 0xbf, 0x68,
    0x1d, 0xd9, 0x33, 0xfa, 0x64, 0x31, 0xe4, 0xd5, 0x8d, 0xc0, 0x13, 0xb7, 0x28, 0xd9, 0xef, 0x1a]
  const LENDING_V5_LEAF: Bytes32 := [
    0xda, 0x43, 0x15, 0x7b, 0x07, 0x5c, 0x4c, 0x18, 0xc1, 0xf7, 0x35, 0x4a, 0xda, 0x37, 0x45, 0x5f,
    0xdf, 0xbd, 0x7e, 0xb4, 0x81, 0xd6, 0x76, 0x2a, 0x9f, 0x18, 0x43, 0x89, 0x6d, 0x65, 0x97, 0x25]
  const CLAIM_LEAF: Bytes32 := [
    0x51, 0xf9, 0x16, 0x31, 0x0d, 0x38, 0x26, 0x10, 0xbf, 0x7e, 0xfd, 0x7b, 0x34, 0x5d, 0x96, 0x41,
    0xb3, 0xdc, 0x93, 0x91, 0x7d, 0x2a, 0xfb, 0x77, 0x28, 0x9a, 0xdd, 0x91, 0x1f, 0x34, 0x03, 0xe1]
  const OFFER_LEAF: Bytes32 := [
    0x88, 0x1b, 0x14, 0x16, 0xb0, 0x4e, 0x9f, 0xb4, 0x7b, 0x6e, 0xcd, 0xe9, 0x70, 0x18, 0x80, 0x47,
    0x07, 0x13, 0xc3, 0x7b, 0x5b, 0x99, 0x38, 0x8d, 0xa9, 0x73, 0xd4, 0xe0, 0xd5, 0x08, 0xf4, 0x1f]

  // ----- Terms, in the covenants' witness order -----

  datatype PositionTerms = PositionTerms(
    collateral: AssetId, cash: AssetId, collateralAmount: u64, buyback: u64, expiry: u32,
    borrowerNft: AssetId, lenderNft: AssetId, payout: Bytes32)

  datatype LastLook = LastLook(borrowerPayout: Bytes32, script: Bytes32, height: u32)

  datatype OfferRow = OfferRow(
    collateral: AssetId, expiry: u32, priceOut: u64, buyback: u64, feePerUnit: u64, minSize: u64)

  datatype OfferTerms = OfferTerms(
    cash: AssetId, lenderToken: AssetId, claim: Bytes32, feeScript: Bytes32, positionLeaf: Bytes32,
    feeMin: u64, cutoff: u32, rows: seq<OfferRow>)

  const OFFER_ROWS: nat := 4
  const ZERO_ROW: OfferRow := OfferRow(Zeros(32), 0, 0, 0, 0, 0)

  /** The v2 and v3 preimage, followed by `tail` (empty for v2 and v3). */
  function EncodePosition(t: PositionTerms, tail: Bytes): Bytes {
    t.collateral + (t.cash + (BigEndian(t.collateralAmount, 8) + (BigEndian(t.buyback, 8)
    + (BigEndian(t.expiry, 4) + (t.borrowerNft + (t.lenderNft + (t.payout + tail)))))))
  }

  function EncodeLastLook(l: LastLook): Bytes {
    l.borrowerPayout + (l.script + BigEndian(l.height, 4))
  }

  function EncodeV2(t: PositionTerms): Bytes { EncodePosition(t, []) }
  function EncodeV4(t: PositionTerms, l: LastLook): Bytes { EncodePosition(t, EncodeLastLook(l)) }

  function EncodeRow(r: OfferRow): (b: Bytes)
    ensures |b| == 68
  {
    r.collateral + (BigEndian(r.expiry, 4) + (BigEndian(r.priceOut, 8) + (BigEndian(r.buyback, 8)
    + (BigEndian(r.feePerUnit, 8) + BigEndian(r.minSize, 8)))))
  }

  /** The row the covenant sees in slot `i`: rows beyond the fourth are ignored, missing ones are zero. */
  function Slot(rows: seq<OfferRow>, i: nat): OfferRow {
    if i < |rows| then rows[i] else ZERO_ROW
  }

  function EncodeSlots(rows: seq<OfferRow>, i: nat): Bytes
    requires i <= OFFER_ROWS
    decreases OFFER_ROWS - i
  {
    if i == OFFER_ROWS then [] else EncodeRow(Slot(rows, i)) + EncodeSlots(rows, i + 1)
  }

  function EncodeOffer(t: OfferTerms): Bytes {
    t.cash + (t.lenderToken + (t.claim + (t.feeScript + (t.positionLeaf
    + (BigEndian(t.feeMin, 8) + (BigEndian(t.cutoff, 4) + EncodeSlots(t.rows, 0)))))))
  }

  /** The builder appends to one buffer, with a loop over the four row slots. */
  method OfferPreimage(t: OfferTerms) returns (m: Bytes)
    ensures m == EncodeOffer(t)
  {
    hide BigEndian, EncodeOffer, EncodeRow, EncodeSlots;
    m := [];
    m := m + t.cash;
    m := m + t.lenderToken;
    m := m + t.claim;
    m := m + t.feeScript;
    m := m + t.positionLeaf;
    m := m + BigEndian(t.feeMin, 8);
    m := m + BigEndian(t.cutoff, 4);
    HeaderAppended(t, m);
    for i := 0 to OFFER_ROWS
      invariant m + EncodeSlots(t.rows, i) == EncodeOffer(t)
    {
      ghost var before := m;
      if i < |t.rows| {
        var r := t.rows[i];
        m := m + r.collateral;
        m := m + BigEndian(r.expiry, 4);
        m := m + BigEndian(r.priceOut, 8);
        m := m + BigEndian(r.buyback, 8);
        m := m + BigEndian(r.feePerUnit, 8);
        m := m + BigEndian(r.minSize, 8);
        RowAppended(before, r, m);
      } else {
        ZeroRowIsZeros();
        m := m + Zeros(68);
      }
      SlotAppended(before, t.rows, i, m);
    }
    NoSlotsLeft(t.rows);
    assert m + [] == m;
  }

  lemma HeaderAppended(t: OfferTerms, m: Bytes)
    requires m == [] + t.cash + t.lenderToken + t.claim + t.feeScript + t.positionLeaf + BigEndian(t.feeMin, 8)
             + BigEndian(t.cutoff, 4)
    ensures m + EncodeSlots(t.rows, 0) == EncodeOffer(t)
  {
    hide BigEndian, EncodeSlots;
  }

  lemma RowAppended(before: Bytes, r: OfferRow, m: Bytes)
    requires m == before + r.collateral + BigEndian(r.expiry, 4) + BigEndian(r.priceOut, 8) + BigEndian(r.buyback, 8)
                  + BigEndian(r.feePerUnit, 8) + BigEndian(r.minSize, 8)
    ensures m == before + EncodeRow(r)
  {
    hide BigEndian;
  }

  lemma SlotAppended(before: Bytes, rows: seq<OfferRow>, i: nat, m: Bytes)
    requires i < OFFER_ROWS && m == before + EncodeRow(Slot(rows, i))
    ensures m + EncodeSlots(rows, i + 1) == before + EncodeSlots(rows, i)
  {
    hide EncodeRow;
  }

  lemma NoSlotsLeft(rows: seq<OfferRow>)
    ensures EncodeSlots(rows, OFFER_ROWS) == []
  {
  }

  method V2Preimage(t: PositionTerms) returns (m: Bytes)
    ensures m == EncodeV2(t)
  {
    hide BigEndian;
    m := [];
    m := m + t.collateral;
    m := m + t.cash;
    m := m + BigEndian(t.collateralAmount, 8);
    m := m + BigEndian(t.buyback, 8);
    m := m + BigEndian(t.expiry, 4);
    m := m + t.borrowerNft;
    m := m + t.lenderNft;
    m := m + t.payout;
  }

  method V4Preimage(t: PositionTerms, l: LastLook) returns (m: Bytes)
    ensures m == EncodeV4(t, l)
  {
    hide BigEndian, EncodePosition;
    m := V2Preimage(t);
    TailAppended(t, EncodeLastLook(l));
    m := m + l.borrowerPayout;
    m := m + l.script;
    m := m + BigEndian(l.height, 4);
  }

  lemma TailAppended(t: PositionTerms, tail: Bytes)
    ensures EncodePosition(t, []) + tail == EncodePosition(t, tail)
  {
    hide BigEndian;
  }

  // ----- The encodings lose nothing -----

  lemma {:induction false} BigEndianZero(width: nat)
    ensures BigEndian(0, width) == Zeros(width)
  {
    if width > 0 {
      BigEndianZero(width - 1);
    }
  }

  lemma ZeroRowIsZeros()
    ensures EncodeRow(ZERO_ROW) == Zeros(68)
  {
    BigEndianZero(4);
    BigEndianZero(8);
  }

  lemma PositionEncodingInjective(t: PositionTerms, tail: Bytes, t': PositionTerms, tail': Bytes)
    requires EncodePosition(t, tail) == EncodePosition(t', tail')
    ensures t == t' && tail == tail'
  {
    hide BigEndian;
    var e8 := t.payout + tail;
    var e8' := t'.payout + tail';
    var e7 := t.lenderNft + e8;
    var e7' := t'.lenderNft + e8';
    var e6 := t.borrowerNft + e7;
    var e6' := t'.borrowerNft + e7';
    var e5 := BigEndian(t.expiry, 4) + e6;
    var e5' := BigEndian(t'.expiry, 4) + e6';
    var e4 := BigEndian(t.buyback, 8) + e5;
    var e4' := BigEndian(t'.buyback, 8) + e5';
    var e3 := BigEndian(t.collateralAmount, 8) + e4;
    var e3' := BigEndian(t'.collateralAmount, 8) + e4';
    Split(t.collateral, t.cash + e3, t'.collateral, t'.cash + e3');
    Split(t.cash, e3, t'.cash, e3');
    Split(BigEndian(t.collateralAmount, 8), e4, BigEndian(t'.collateralAmount, 8), e4');
    Split(BigEndian(t.buyback, 8), e5, BigEndian(t'.buyback, 8), e5');
    Split(BigEndian(t.expiry, 4), e6, BigEndian(t'.expiry, 4), e6');
    Split(t.borrowerNft, e7, t'.borrowerNft, e7');
    Split(t.lenderNft, e8, t'.lenderNft, e8');
    Split(t.payout, tail, t'.payout, tail');
    U64Injective(t.collateralAmount, t'.collateralAmount);
    U64Injective(t.buyback, t'.buyback);
    U32Injective(t.expiry, t'.expiry);
  }

  lemma LastLookEncodingInjective(l: LastLook, l': LastLook)
    requires EncodeLastLook(l) == EncodeLastLook(l')
    ensures l == l'
  {
    hide BigEndian;
    Split(l.borrowerPayout, l.script + BigEndian(l.height, 4), l'.borrowerPayout, l'.script + BigEndian(l'.height, 4));
    Split(l.script, BigEndian(l.height, 4), l'.script, BigEndian(l'.height, 4));
    U32Injective(l.height, l'.height);
  }

  lemma RowEncodingInjective(r: OfferRow, r': OfferRow)
    requires EncodeRow(r) == EncodeRow(r')
    ensures r == r'
  {
    hide BigEndian;
    var e5 := BigEndian(r.feePerUnit, 8) + BigEndian(r.minSize, 8);
    var e5' := BigEndian(r'.feePerUnit, 8) + BigEndian(r'.minSize, 8);
    var e4 := BigEndian(r.buyback, 8) + e5;
    var e4' := BigEndian(r'.buyback, 8) + e5';
    var e3 := BigEndian(r.priceOut, 8) + e4;
    var e3' := BigEndian(r'.priceOut, 8) + e4';
    Split(r.collateral, BigEndian(r.expiry, 4) + e3, r'.collateral, BigEndian(r'.expiry, 4) + e3');
    Split(BigEndian(r.expiry, 4), e3, BigEndian(r'.expiry, 4), e3');
    Split(BigEndian(r.priceOut, 8), e4, BigEndian(r'.priceOut, 8), e4');
    Split(BigEndian(r.buyback, 8), e5, BigEndian(r'.buyback, 8), e5');
    Split(BigEndian(r.feePerUnit, 8), BigEndian(r.minSize, 8), BigEndian(r'.feePerUnit, 8), BigEndian(r'.minSize, 8));
    U32Injective(r.expiry, r'.expiry);
    U64Injective(r.priceOut, r'.priceOut);
    U64Injective(r.buyback, r'.buyback);
    U64Injective(r.feePerUnit, r'.feePerUnit);
    U64Injective(r.minSize, r'.minSize);
  }

  lemma {:induction false} SlotsEncodingInjective(rows: seq<OfferRow>, rows': seq<OfferRow>, i: nat)
    requires i <= OFFER_ROWS
    ensures EncodeSlots(rows, i) == EncodeSlots(rows', i)
            <==> forall j :: i <= j < OFFER_ROWS ==> Slot(rows, j) == Slot(rows', j)
    decreases OFFER_ROWS - i
  {
    hide EncodeRow;
    if i < OFFER_ROWS {
      SlotsEncodingInjective(rows, rows', i + 1);
      if EncodeSlots(rows, i) == EncodeSlots(rows', i) {
        Split(EncodeRow(Slot(rows, i)), EncodeSlots(rows, i + 1), EncodeRow(Slot(rows', i)), EncodeSlots(rows', i + 1));
        RowEncodingInjective(Slot(rows, i), Slot(rows', i));
      }
    }
  }

  function Header(t: OfferTerms): OfferTerms { t.(rows := []) }

  /** Exactly when two offers share a preimage: equal headers, and equal rows slot by slot. */
  lemma OfferEncodingExact(t: OfferTerms, t': OfferTerms)
    ensures EncodeOffer(t) == EncodeOffer(t') <==>
            Header(t) == Header(t') && forall i :: 0 <= i < OFFER_ROWS ==> Slot(t.rows, i) == Slot(t'.rows, i)
  {
    hide BigEndian, EncodeSlots, Slot;
    SlotsEncodingInjective(t.rows, t'.rows, 0);
    if EncodeOffer(t) == EncodeOffer(t') {
      var e7 := BigEndian(t.cutoff, 4) + EncodeSlots(t.rows, 0);
      var e7' := BigEndian(t'.cutoff, 4) + EncodeSlots(t'.rows, 0);
      var e6 := BigEndian(t.feeMin, 8) + e7;
      var e6' := BigEndian(t'.feeMin, 8) + e7';
      var e5 := t.positionLeaf + e6;
      var e5' := t'.positionLeaf + e6';
      var e4 := t.feeScript + e5;
      var e4' := t'.feeScript + e5';
      var e3 := t.claim + e4;
      var e3' := t'.claim + e4';
      Split(t.cash, t.lenderToken + e3, t'.cash, t'.lenderToken + e3');
      Split(t.lenderToken, e3, t'.lenderToken, e3');
      Split(t.claim, e4, t'.claim, e4');
      Split(t.feeScript, e5, t'.feeScript, e5');
      Split(t.positionLeaf, e6, t'.positionLeaf, e6');
      Split(BigEndian(t.feeMin, 8), e7, BigEndian(t'.feeMin, 8), e7');
      Split(BigEndian(t.cutoff, 4), EncodeSlots(t.rows, 0), BigEndian(t'.cutoff, 4), EncodeSlots(t'.rows, 0));
      U64Injective(t.feeMin, t'.feeMin);
      U32Injective(t.cutoff, t'.cutoff);
    }
  }

  /** The two row checks of an offer claim: one to four rows, and no row with a zero term. */
  predicate RowsWellFormed(rows: seq<OfferRow>) {
    0 < |rows| <= OFFER_ROWS
    && forall r :: r in rows ==> r.expiry > 0 && r.priceOut > 0 && r.buyback > 0 && r.minSize > 0
  }

  /** With the row checks the preimage binds the rows, their number included. */
  lemma WellFormedRowsBind(t: OfferTerms, t': OfferTerms)
    requires RowsWellFormed(t.rows) && RowsWellFormed(t'.rows)
    requires EncodeOffer(t) == EncodeOffer(t')
    ensures t == t'
  {
    OfferEncodingExact(t, t');
    hide EncodeOffer;
    NoMissingRow(t.rows, t'.rows);
    NoMissingRow(t'.rows, t.rows);
    forall i | 0 <= i < |t.rows| ensures t.rows[i] == t'.rows[i] {
      assert Slot(t.rows, i) == Slot(t'.rows, i);
    }
  }

  lemma NoMissingRow(rows: seq<OfferRow>, rows': seq<OfferRow>)
    requires RowsWellFormed(rows') && |rows| <= OFFER_ROWS
    requires forall i :: 0 <= i < OFFER_ROWS ==> Slot(rows, i) == Slot(rows', i)
    ensures |rows'| <= |rows|
  {
    forall i | 0 <= i < |rows'| ensures Slot(rows', i).expiry > 0 { assert rows'[i] in rows'; }
    assert Slot(rows, |rows|).expiry == 0;
  }

  /** Without them it does not: a trailing zero row, or a fifth row, leaves the preimage unchanged. */
  lemma UncheckedRowsDoNotBind(t: OfferTerms, fifth: OfferRow)
    ensures |t.rows| < OFFER_ROWS ==> EncodeOffer(t) == EncodeOffer(t.(rows := t.rows + [ZERO_ROW]))
    ensures |t.rows| == OFFER_ROWS ==> EncodeOffer(t) == EncodeOffer(t.(rows := t.rows + [fifth]))
  {
    OfferEncodingExact(t, t.(rows := t.rows + [ZERO_ROW]));
    OfferEncodingExact(t, t.(rows := t.rows + [fifth]));
  }

  // ----- The taproot tree -----

  const TAP_DATA: Bytes := Ascii("TapData")
  const TAP_BRANCH: Bytes := Ascii("TapBranch/elements")
  const TAP_TWEAK: Bytes := Ascii("TapTweak/elements")

  function Tagged(h: Hashes, tag: Bytes, data: Bytes): Bytes {
    h.sha(tag) + h.sha(tag) + data
  }

  function LexLeq(a: Bytes, b: Bytes): bool {
    if a == [] then true
    else if b == [] then false
    else if a[0] == b[0] then LexLeq(a[1..], b[1..])
    else a[0] < b[0]
  }

  /** What a tree branch hashes: its children in ascending order. */
  function BranchPreimage(h: Hashes, a: Bytes32, b: Bytes32): Bytes {
    Tagged(h, TAP_BRANCH, if LexLeq(a, b) then a + b else b + a)
  }

  function DataPreimage(h: Hashes, slot: Bytes32): Bytes { Tagged(h, TAP_DATA, slot) }

  function DebtSlot(debt: u64): Bytes32 { Zeros(24) + BigEndian(debt, 8) }

  function ProgramPreimage(h: Hashes, leaf: Bytes32, digest: Bytes32): Bytes {
    BranchPreimage(h, leaf, h.sha(DataPreimage(h, digest)))
  }

  function RootPreimage(h: Hashes, leaf: Bytes32, digest: Bytes32, debt: u64): Bytes {
    BranchPreimage(h, h.sha(ProgramPreimage(h, leaf, digest)), h.sha(DataPreimage(h, DebtSlot(debt))))
  }

  function TweakPreimage(h: Hashes, node: Bytes32): Bytes { Tagged(h, TAP_TWEAK, NUMS + node) }

  function NumsScript(h: Hashes, node: Bytes32): Script {
    [0x51, 0x20] + h.tweakedKey(h.sha(TweakPreimage(h, node)))
  }

  /** branch(branch(program, digest), debt) over the NUMS key. */
  function PositionScript(h: Hashes, leaf: Bytes32, digest: Bytes32, debt: u64): Script {
    NumsScript(h, h.sha(RootPreimage(h, leaf, digest, debt)))
  }

  function ClaimRootPreimage(h: Hashes, token: AssetId): Bytes {
    BranchPreimage(h, CLAIM_LEAF, h.sha(DataPreimage(h, token)))
  }

  function ClaimScript(h: Hashes, token: AssetId): Script {
    NumsScript(h, h.sha(ClaimRootPreimage(h, token)))
  }

  // ----- What a script binds, up to a collision that is handed over -----

  /** Two different tweaks give the same x-only output key. */
  predicate TweakClash(h: Hashes, t: Bytes32, t': Bytes32) {
    t != t' && h.tweakedKey(t) == h.tweakedKey(t')
  }

  /** A listed string hashes to a pinned program leaf. */
  ghost predicate HitsLeaf(h: Hashes, qs: seq<Bytes>, leaf: Bytes32) {
    exists q :: q in qs && h.sha(q) == leaf
  }

  /** Every string hashed while building a position or offer script from its terms. */
  function PositionQueries(h: Hashes, leaf: Bytes32, terms: Bytes, debt: u64): seq<Bytes> {
    var digest := h.sha(terms);
    [terms, DataPreimage(h, digest), DataPreimage(h, DebtSlot(debt)), ProgramPreimage(h, leaf, digest),
     RootPreimage(h, leaf, digest, debt), TweakPreimage(h, h.sha(RootPreimage(h, leaf, digest, debt)))]
  }

  function PositionTweak(h: Hashes, leaf: Bytes32, terms: Bytes, debt: u64): Bytes32 {
    h.sha(TweakPreimage(h, h.sha(RootPreimage(h, leaf, h.sha(terms), debt))))
  }

  /** One of the ways the binding can fail, each exhibited by strings the wallet itself hashed. */
  ghost predicate Broken(h: Hashes, leaf: Bytes32, terms: Bytes, debt: u64, leaf': Bytes32, terms': Bytes, debt': u64) {
    var qs, qs' := PositionQueries(h, leaf, terms, debt), PositionQueries(h, leaf', terms', debt');
    || Collides(h.sha, qs, qs')
    || TweakClash(h, PositionTweak(h, leaf, terms, debt), PositionTweak(h, leaf', terms', debt'))
    || (leaf != leaf' && (HitsLeaf(h, qs, leaf') || HitsLeaf(h, qs', leaf)))
  }

  lemma TaggedInjective(h: Hashes, tag: Bytes, d: Bytes, d': Bytes)
    requires Tagged(h, tag, d) == Tagged(h, tag, d')
    ensures d == d'
  {
    Split(h.sha(tag) + h.sha(tag), d, h.sha(tag) + h.sha(tag), d');
  }

  /** Sorting the children keeps them as an unordered pair, and nothing less. */
  lemma BranchInjective(h: Hashes, a: Bytes32, b: Bytes32, a': Bytes32, b': Bytes32)
    requires BranchPreimage(h, a, b) == BranchPreimage(h, a', b')
    ensures (a == a' && b == b') || (a == b' && b == a')
  {
    hide LexLeq;
    var s := if LexLeq(a, b) then a + b else b + a;
    var s' := if LexLeq(a', b') then a' + b' else b' + a';
    TaggedInjective(h, TAP_BRANCH, s, s');
    Split(if LexLeq(a, b) then a else b, if LexLeq(a, b) then b else a,
          if LexLeq(a', b') then a' else b', if LexLeq(a', b') then b' else a');
  }

  /** The order in which a branch's children are given does not matter. */
  lemma BranchSymmetric(h: Hashes, a: Bytes32, b: Bytes32)
    ensures BranchPreimage(h, a, b) == BranchPreimage(h, b, a)
  {
    LexTotal(a, b);
  }

  lemma {:induction false} LexTotal(a: Bytes, b: Bytes)
    requires |a| == |b|
    ensures LexLeq(a, b) || LexLeq(b, a)
    ensures LexLeq(a, b) && LexLeq(b, a) ==> a == b
  {
    if a != [] {
      LexTotal(a[1..], b[1..]);
      assert a == [a[0]] + a[1..] && b == [b[0]] + b[1..];
    }
  }

  lemma NumsScriptBinds(h: Hashes, node: Bytes32, node': Bytes32)
    requires NumsScript(h, node) == NumsScript(h, node')
    ensures || node == node'
            || (TweakPreimage(h, node) != TweakPreimage(h, node')
                && h.sha(TweakPreimage(h, node)) == h.sha(TweakPreimage(h, node')))
            || TweakClash(h, h.sha(TweakPreimage(h, node)), h.sha(TweakPreimage(h, node')))
  {
    Split([0x51, 0x20], h.tweakedKey(h.sha(TweakPreimage(h, node))), [0x51, 0x20],
        h.tweakedKey(h.sha(TweakPreimage(h, node'))));
    if TweakPreimage(h, node) == TweakPreimage(h, node') {
      TaggedInjective(h, TAP_TWEAK, NUMS + node, NUMS + node');
      Split(NUMS, node, NUMS, node');
    }
  }

  lemma NoCollision(h: Hashes, qs: seq<Bytes>, qs': seq<Bytes>, q: Bytes, q': Bytes)
    requires q in qs && q' in qs' && h.sha(q) == h.sha(q')
    ensures q == q' || Collides(h.sha, qs, qs')
  {
  }

  /** Covenant binding: a position or offer script fixes its program, its terms and its debt,
      or the strings hashed to build the two scripts exhibit what went wrong. */
  lemma PositionScriptBinds(h: Hashes, leaf: Bytes32, terms: Bytes, debt: u64, leaf': Bytes32, terms': Bytes,
      debt': u64)
    requires PositionScript(h, leaf, h.sha(terms), debt) == PositionScript(h, leaf', h.sha(terms'), debt')
    ensures (leaf == leaf' && terms == terms' && debt == debt') || Broken(h, leaf, terms, debt, leaf', terms', debt')
  {
    hide LexLeq, BigEndian, Zeros, Ascii, NumsScript, TweakPreimage;
    var digest, digest' := h.sha(terms), h.sha(terms');
    var qs, qs' := PositionQueries(h, leaf, terms, debt), PositionQueries(h, leaf', terms', debt');
    var root, root' := RootPreimage(h, leaf, digest, debt), RootPreimage(h, leaf', digest', debt');
    NumsScriptBinds(h, h.sha(root), h.sha(root'));
    if Broken(h, leaf, terms, debt, leaf', terms', debt') {
      return;
    }
    assert qs[5] == TweakPreimage(h, h.sha(root)) && qs'[5] == TweakPreimage(h, h.sha(root'));
    NoCollision(h, qs, qs', qs[4], qs'[4]);
    ChildrenBind(h, leaf, terms, debt, leaf', terms', debt');
    ProgramBinds(h, leaf, terms, debt, leaf', terms', debt');
    NoCollision(h, qs, qs', qs[2], qs'[2]);
    TaggedInjective(h, TAP_DATA, DebtSlot(debt), DebtSlot(debt'));
    Split(Zeros(24), BigEndian(debt, 8), Zeros(24), BigEndian(debt', 8));
    U64Injective(debt, debt');
  }

  /** Equal roots have equal children in the same roles: the program branch hashes 64 bytes of
      children and the debt leaf 32, so they cannot trade places without a collision. */
  lemma ChildrenBind(h: Hashes, leaf: Bytes32, terms: Bytes, debt: u64, leaf': Bytes32, terms': Bytes, debt': u64)
    requires RootPreimage(h, leaf, h.sha(terms), debt) == RootPreimage(h, leaf', h.sha(terms'), debt')
    ensures || (h.sha(ProgramPreimage(h, leaf, h.sha(terms))) == h.sha(ProgramPreimage(h, leaf', h.sha(terms')))
                && h.sha(DataPreimage(h, DebtSlot(debt))) == h.sha(DataPreimage(h, DebtSlot(debt'))))
            || Collides(h.sha, PositionQueries(h, leaf, terms, debt), PositionQueries(h, leaf', terms', debt'))
  {
    hide LexLeq, BigEndian, Zeros, Ascii, TweakPreimage;
    var qs, qs' := PositionQueries(h, leaf, terms, debt), PositionQueries(h, leaf', terms', debt');
    var p, p' := ProgramPreimage(h, leaf, h.sha(terms)), ProgramPreimage(h, leaf', h.sha(terms'));
    var d, d' := DataPreimage(h, DebtSlot(debt)), DataPreimage(h, DebtSlot(debt'));
    BranchInjective(h, h.sha(p), h.sha(d), h.sha(p'), h.sha(d'));
    assert qs[3] == p && qs'[3] == p' && qs[2] == d && qs'[2] == d';
    assert |p| == 128 && |d| == 96 && |p'| == 128 && |d'| == 96;
    if h.sha(p) == h.sha(d') {
      NoCollision(h, qs, qs', p, d');
    }
  }

  lemma ProgramBinds(h: Hashes, leaf: Bytes32, terms: Bytes, debt: u64, leaf': Bytes32, terms': Bytes, debt': u64)
    requires h.sha(ProgramPreimage(h, leaf, h.sha(terms))) == h.sha(ProgramPreimage(h, leaf', h.sha(terms')))
    ensures (leaf == leaf' && terms == terms') || Broken(h, leaf, terms, debt, leaf', terms', debt')
  {
    hide LexLeq, BigEndian, Zeros, Ascii, TweakPreimage, RootPreimage;
    var qs, qs' := PositionQueries(h, leaf, terms, debt), PositionQueries(h, leaf', terms', debt');
    NoCollision(h, qs, qs', qs[3], qs'[3]);
    if !Collides(h.sha, qs, qs') {
      var d, d' := DataPreimage(h, h.sha(terms)), DataPreimage(h, h.sha(terms'));
      assert qs[1] == d && qs'[1] == d' && qs[0] == terms && qs'[0] == terms';
      BranchInjective(h, leaf, h.sha(d), leaf', h.sha(d'));
      if leaf == leaf' {
        NoCollision(h, qs, qs', d, d');
        TaggedInjective(h, TAP_DATA, h.sha(terms), h.sha(terms'));
        NoCollision(h, qs, qs', terms, terms');
      } else {
        assert h.sha(d) == leaf';
      }
    }
  }

  function ClaimQueries(h: Hashes, token: AssetId): seq<Bytes> {
    [DataPreimage(h, token), ClaimRootPreimage(h, token), TweakPreimage(h, h.sha(ClaimRootPreimage(h, token))),
     ClaimScript(h, token)]
  }

  /** A claim script (and its hash, which is what the covenants carry) fixes the lender token. */
  lemma ClaimScriptBinds(h: Hashes, token: AssetId, token': AssetId)
    requires h.sha(ClaimScript(h, token)) == h.sha(ClaimScript(h, token'))
    ensures || token == token'
            || Collides(h.sha, ClaimQueries(h, token), ClaimQueries(h, token'))
            || TweakClash(h, h.sha(TweakPreimage(h, h.sha(ClaimRootPreimage(h, token)))),
                          h.sha(TweakPreimage(h, h.sha(ClaimRootPreimage(h, token')))))
  {
    hide LexLeq, Ascii, TweakPreimage, NumsScript;
    var qs, qs' := ClaimQueries(h, token), ClaimQueries(h, token');
    var root, root' := ClaimRootPreimage(h, token), ClaimRootPreimage(h, token');
    NoCollision(h, qs, qs', qs[3], qs'[3]);
    if ClaimScript(h, token) == ClaimScript(h, token') {
      NumsScriptBinds(h, h.sha(root), h.sha(root'));
      assert qs[2] == TweakPreimage(h, h.sha(root)) && qs'[2] == TweakPreimage(h, h.sha(root'));
      if h.sha(root) == h.sha(root') {
        NoCollision(h, qs, qs', qs[1], qs'[1]);
        if root == root' {
          var d, d' := DataPreimage(h, token), DataPreimage(h, token');
          BranchInjective(h, CLAIM_LEAF, h.sha(d), CLAIM_LEAF, h.sha(d'));
          NoCollision(h, qs, qs', qs[0], qs'[0]);
          if d == d' {
            TaggedInjective(h, TAP_DATA, token, token');
          }
        }
      }
    }
  }
}
