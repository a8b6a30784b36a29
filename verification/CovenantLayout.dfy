/** The exact bytes the covenant code hashes: which child of a branch comes first, the strings behind the two
    kinds of script, and where each term stands in its preimage. */
module CovenantLayout {
  import opened Common
  import opened Pset
  import opened Covenant

  // ----- The order of a branch's children -----

  lemma {:induction false} FromBigEndianFront(b: Bytes)
    requires b != []
    ensures FromBigEndian(b) == b[0] * Pow256(|b| - 1) + FromBigEndian(b[1..])
  {
    var n := |b| - 1;
    if n == 0 {
      assert b[..0] == [] && b[1..] == [];
    } else {
      FromBigEndianFront(b[..n]);
      assert b[..n][1..] == b[1..][..n - 1] && b[1..][n - 1] == b[n];
      assert FromBigEndian(b[1..]) == FromBigEndian(b[1..][..n - 1]) * 256 + b[n];
      assert Pow256(n) == 256 * Pow256(n - 1);
      Shifted(b[0], Pow256(n - 1));
    }
  }

  lemma Shifted(x: nat, p: nat)
    ensures x * p * 256 == x * (256 * p)
  {
  }

  lemma {:induction false} FromBigEndianBelow(b: Bytes)
    ensures FromBigEndian(b) < Pow256(|b|)
  {
    if b != [] {
      FromBigEndianBelow(b[..|b| - 1]);
    }
  }

  lemma DigitDecides(x: nat, y: nat, p: nat, r: nat, s: nat)
    requires r < p && s < p
    ensures x < y ==> x * p + r < y * p + s
  {
    if x < y {
      assert (x + 1) * p <= y * p;
    }
  }

  /** Comparing byte strings of one length front to back is comparing the numbers they spell. */
  lemma {:induction false} LexIsNumeric(a: Bytes, b: Bytes)
    requires |a| == |b|
    ensures LexLeq(a, b) <==> FromBigEndian(a) <= FromBigEndian(b)
  {
    if a != [] {
      hide FromBigEndian, Pow256;
      LexIsNumeric(a[1..], b[1..]);
      FromBigEndianFront(a);
      FromBigEndianFront(b);
      FromBigEndianBelow(a[1..]);
      FromBigEndianBelow(b[1..]);
      DigitDecides(a[0], b[0], Pow256(|a| - 1), FromBigEndian(a[1..]), FromBigEndian(b[1..]));
      DigitDecides(b[0], a[0], Pow256(|a| - 1), FromBigEndian(b[1..]), FromBigEndian(a[1..]));
    }
  }

  /** Two children, the smaller number first. */
  function Ascending(a: Bytes32, b: Bytes32): Bytes { if FromBigEndian(a) <= FromBigEndian(b) then a + b else b + a }

  /** A tagged string: the tag's hash twice, then the data. */
  function Said(h: Hashes, tag: string, data: Bytes): Bytes { h.sha(Ascii(tag)) + h.sha(Ascii(tag)) + data }

  /** A branch hashes its children in ascending order. */
  lemma BranchExact(h: Hashes, a: Bytes32, b: Bytes32)
    ensures FromBigEndian(a) <= FromBigEndian(b) ==>
              BranchPreimage(h, a, b)
              == h.sha(Ascii("TapBranch/elements")) + h.sha(Ascii("TapBranch/elements")) + (a + b)
    ensures FromBigEndian(b) <= FromBigEndian(a) ==>
              BranchPreimage(h, a, b)
              == h.sha(Ascii("TapBranch/elements")) + h.sha(Ascii("TapBranch/elements")) + (b + a)
    ensures BranchPreimage(h, a, b) == Said(h, "TapBranch/elements", Ascending(a, b))
  {
    hide LexLeq, FromBigEndian, Ascii;
    LexIsNumeric(a, b);
    LexIsNumeric(b, a);
    LexTotal(a, b);
  }

  /** The script of a root, from the tweak down. */
  function ScriptOf(h: Hashes, root: Bytes32): Script {
    [0x51, 0x20] + h.tweakedKey(h.sha(Said(h, "TapTweak/elements", NUMS + root)))
  }

  /** A position or offer script, string by string: branch(branch(program, digest), debt), the debt in the last
      eight bytes of its slot. */
  lemma PositionScriptExact(h: Hashes, leaf: Bytes32, digest: Bytes32, debt: u64)
    ensures var slot: Bytes32 := Zeros(24) + BigEndian(debt, 8);
            var program := h.sha(Said(h, "TapBranch/elements", Ascending(leaf, h.sha(Said(h, "TapData", digest)))));
            var root := Said(h, "TapBranch/elements", Ascending(program, h.sha(Said(h, "TapData", slot))));
            && RootPreimage(h, leaf, digest, debt) == root
            && PositionScript(h, leaf, digest, debt) == ScriptOf(h, h.sha(root))
  {
    hide LexLeq, FromBigEndian, Ascii, BigEndian, Zeros, BranchPreimage, Ascending;
    BranchExact(h, leaf, h.sha(DataPreimage(h, digest)));
    BranchExact(h, h.sha(ProgramPreimage(h, leaf, digest)), h.sha(DataPreimage(h, DebtSlot(debt))));
  }

  /** A claim script, string by string: branch(claim program, token). */
  lemma ClaimScriptExact(h: Hashes, token: AssetId)
    ensures var root := Said(h, "TapBranch/elements", Ascending(CLAIM_LEAF, h.sha(Said(h, "TapData", token))));
            ClaimRootPreimage(h, token) == root && ClaimScript(h, token) == ScriptOf(h, h.sha(root))
  {
    hide LexLeq, FromBigEndian, Ascii, BranchPreimage, Ascending;
    BranchExact(h, CLAIM_LEAF, h.sha(DataPreimage(h, token)));
  }

  // ----- Where each term stands -----

  /** A field that stands after `front`. */
  lemma FieldAt(front: Bytes, field: Bytes, rest: Bytes)
    ensures (front + (field + rest))[|front|..|front| + |field|] == field
    ensures (front + (field + rest))[|front| + |field|..] == rest
  {
  }

  lemma PositionLayout(t: PositionTerms, tail: Bytes)
    ensures var e := EncodePosition(t, tail);
            && |e| == 180 + |tail|
            && e[..32] == t.collateral && e[32..64] == t.cash
            && e[64..72] == BigEndian(t.collateralAmount, 8) && e[72..80] == BigEndian(t.buyback, 8)
            && e[80..84] == BigEndian(t.expiry, 4) && e[84..116] == t.borrowerNft
            && e[116..148] == t.lenderNft && e[148..180] == t.payout && e[180..] == tail
  {
    hide BigEndian;
  }

  lemma LastLookLayout(l: LastLook)
    ensures var e := EncodeLastLook(l);
            |e| == 68 && e[..32] == l.borrowerPayout && e[32..64] == l.script && e[64..] == BigEndian(l.height, 4)
  {
    hide BigEndian;
  }

  lemma RowLayout(r: OfferRow)
    ensures var e := EncodeRow(r);
            && e[..32] == r.collateral && e[32..36] == BigEndian(r.expiry, 4) && e[36..44] == BigEndian(r.priceOut, 8)
            && e[44..52] == BigEndian(r.buyback, 8) && e[52..60] == BigEndian(r.feePerUnit, 8)
            && e[60..68] == BigEndian(r.minSize, 8)
  {
    hide BigEndian;
  }

  lemma {:induction false} SlotsLayout(rows: seq<OfferRow>, i: nat, j: nat)
    requires i <= j < 4
    ensures |EncodeSlots(rows, i)| == 68 * (4 - i)
    ensures EncodeSlots(rows, i)[68 * (j - i)..68 * (j - i) + 68]
            == if j < |rows| then EncodeRow(rows[j]) else Zeros(68)
    decreases 4 - i
  {
    hide EncodeRow, Zeros;
    ZeroRowIsZeros();
    var rest := EncodeSlots(rows, i + 1);
    if i < 3 {
      SlotsLayout(rows, i + 1, if i < j then j else i + 1);
    }
    var e := EncodeRow(Slot(rows, i)) + rest;
    if i < j {
      assert e[68 * (j - i)..68 * (j - i) + 68] == rest[68 * (j - i - 1)..68 * (j - i - 1) + 68];
    }
  }

  function HeaderBytes(t: OfferTerms): Bytes {
    [] + t.cash + t.lenderToken + t.claim + t.feeScript + t.positionLeaf + BigEndian(t.feeMin, 8)
    + BigEndian(t.cutoff, 4)
  }

  lemma HeaderLayout(t: OfferTerms)
    ensures var e := HeaderBytes(t);
            && |e| == 172
            && e[..32] == t.cash && e[32..64] == t.lenderToken && e[64..96] == t.claim && e[96..128] == t.feeScript
            && e[128..160] == t.positionLeaf && e[160..168] == BigEndian(t.feeMin, 8)
            && e[168..172] == BigEndian(t.cutoff, 4)
  {
    hide BigEndian;
  }

  /** An offer's preimage: the header's seven fields, then four rows of 68 bytes, absent ones zero. */
  lemma OfferLayout(t: OfferTerms, j: nat)
    requires j < 4
    ensures var e := EncodeOffer(t);
            && |e| == 444
            && e[..32] == t.cash && e[32..64] == t.lenderToken && e[64..96] == t.claim && e[96..128] == t.feeScript
            && e[128..160] == t.positionLeaf && e[160..168] == BigEndian(t.feeMin, 8)
            && e[168..172] == BigEndian(t.cutoff, 4)
            && e[172 + 68 * j..240 + 68 * j] == if j < |t.rows| then EncodeRow(t.rows[j]) else Zeros(68)
  {
    SlotsLayout(t.rows, 0, j);
    HeaderLayout(t);
    HeaderAppended(t, HeaderBytes(t));
    hide BigEndian, EncodeSlots, EncodeRow, EncodeOffer, Zeros, HeaderBytes;
    var header, slots := HeaderBytes(t), EncodeSlots(t.rows, 0);
    var e := EncodeOffer(t);
    assert e == header + slots;
    assert forall x, y :: 0 <= x <= y <= 172 ==> e[x..y] == header[x..y];
    assert e[172 + 68 * j..240 + 68 * j] == slots[68 * j..68 * j + 68];
  }

  /** A big-endian integer's bytes, from the most significant. */
  lemma {:induction false} BigEndianDigits(n: nat, width: nat, i: nat)
    requires i < width
    ensures BigEndian(n, width)[i] == n / Pow256(width - 1 - i) % 256
  {
    if i < width - 1 {
      BigEndianDigits(n / 256, width - 1, i);
      assert Pow256(width - 1 - i) == 256 * Pow256(width - 2 - i);
      DivideTwice(n, 256, Pow256(width - 2 - i));
    }
  }
}
