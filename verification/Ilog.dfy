/** The integer logarithms of ccan/ilog on 32- and 64-bit words. */
module Ilog {

  /** The documented meaning: 0 for 0, otherwise the number of bits up to the highest one
      set, that is the `k` with `2^(k-1) <= v < 2^k`: dropping `k - 1` bits leaves just 1. */
  predicate IsIlog32(v: bv32, k: bv8) {
    if v == 0 then k == 0 else 0 < k <= 32 && v >> (k - 1) == 1
  }

  predicate IsIlog64(v: bv64, k: bv8) {
    if v == 0 then k == 0 else 0 < k <= 64 && v >> (k - 1) == 1
  }

  /** The meaning determines the result. */
  lemma IlogUnique64(v: bv64, j: bv8, k: bv8)
    requires IsIlog64(v, j) && IsIlog64(v, k)
    ensures j == k
  {
  }

  lemma IlogUnique32(v: bv32, j: bv8, k: bv8)
    requires IsIlog32(v, j) && IsIlog32(v, k)
    ensures j == k
  {
  }

  // ----- the de Bruijn tables

  /** One row of a table, selected by the three low bits of the slot number. */
  function Row(s: bv6, a: bv6, b: bv6, c: bv6, d: bv6, e: bv6, f: bv6, g: bv6, h: bv6): bv6 {
    var i := s & 7;
    if i == 0 then a else if i == 1 then b else if i == 2 then c else if i == 3 then d
    else if i == 4 then e else if i == 5 then f else if i == 6 then g else h
  }

  /** `DEBRUIJN_IDX32` */
  function DebruijnIdx32(s: bv6): bv6 {
    if s < 8 then Row(s, 0, 1, 28, 2, 29, 14, 24, 3) else
    if s < 16 then Row(s, 30, 22, 20, 15, 25, 17, 4, 8) else
    if s < 24 then Row(s, 31, 27, 13, 23, 21, 19, 16, 7) else
    Row(s, 26, 12, 18, 6, 11, 5, 10, 9)
  }

  /** `DEBRUIJN_IDX64` */
  function DebruijnIdx64(s: bv6): bv6 {
    if s < 8 then Row(s, 0, 1, 2, 7, 3, 13, 8, 19) else
    if s < 16 then Row(s, 4, 25, 14, 28, 9, 34, 20, 40) else
    if s < 24 then Row(s, 5, 17, 26, 38, 15, 46, 29, 48) else
    if s < 32 then Row(s, 10, 31, 35, 54, 21, 50, 41, 57) else
    if s < 40 then Row(s, 63, 6, 12, 18, 24, 27, 33, 39) else
    if s < 48 then Row(s, 16, 37, 45, 47, 30, 53, 49, 56) else
    if s < 56 then Row(s, 62, 11, 23, 32, 36, 44, 52, 55) else
    Row(s, 61, 22, 43, 51, 60, 42, 59, 58)
  }

  function Slot32(p: bv32): bv6 {
    (((p * 0x77CB531) >> 27) & 0x1F) as bv6
  }

  function Slot64(p: bv64): bv6 {
    (((p * 0x218A392CD3D5DBF) >> 58) & 0x3F) as bv6
  }

  /** The de Bruijn product sends each power of two to the slot that holds its exponent. */
  lemma TableInverts32(k: bv8)
    requires k < 32
    ensures DebruijnIdx32(Slot32(1 << k)) as bv8 == k
  {
    assert (1 as bv32 << k) * 0x77CB531 == 0x77CB531 as bv32 << k;
  }

  lemma TableInverts64(k: bv8)
    requires k < 64
    ensures DebruijnIdx64(Slot64(1 << k)) as bv8 == k
  {
    assert (1 as bv64 << k) * 0x218A392CD3D5DBF == 0x218A392CD3D5DBF as bv64 << k;
  }

  // ----- the smear

  // After smearing with n shifts, `w` is the union of `v` shifted right by 0, 1, ..., n - 1,
  // which is to say `w | (v >> n) == v | (w >> 1)`. One more round doubles n; when n is the
  // word size, `v >> n` has gone.

  lemma Smear32From8(v: bv32, w: bv32, x: bv32, y: bv32)
    requires w | (v >> 8) == v | (w >> 1) && x == w | (w >> 8) && y == x | (x >> 16)
    ensures y == v | (y >> 1)
  {
  }

  lemma Smear64To8(v: bv64, w: bv64, x: bv64)
    requires w | (v >> 4) == v | (w >> 1) && x == w | (w >> 4)
    ensures x | (v >> 8) == v | (x >> 1)
  {
  }

  lemma Smear64To16(v: bv64, w: bv64, x: bv64)
    requires w | (v >> 8) == v | (w >> 1) && x == w | (w >> 8)
    ensures x | (v >> 16) == v | (x >> 1)
  {
  }

  lemma Smear64From16(v: bv64, w: bv64, x: bv64, y: bv64)
    requires w | (v >> 16) == v | (w >> 1) && x == w | (w >> 16) && y == x | (x >> 32)
    ensures y == v | (y >> 1)
  {
  }

  /** The smear copies the highest one into every lower bit: half of the result plus one is
      the power of two at the highest one. */
  lemma SmearedTop32(v: bv32, w: bv32, k: bv8)
    requires w == v | (w >> 1) && 0 < k <= 32 && v >> (k - 1) == 1
    ensures (w >> 1) + 1 == 1 << (k - 1)
  {
  }

  lemma SmearedTop64(v: bv64, w: bv64, k: bv8)
    requires w == v | (w >> 1) && 0 < k <= 64 && v >> (k - 1) == 1
    ensures (w >> 1) + 1 == 1 << (k - 1)
  {
  }

  // ----- the ladder

  function StaticIlog0(v: bv64): bv8 { if v != 0 then 1 else 0 }

  function StaticIlog1(v: bv64): bv8 { if v & 0x2 != 0 then 2 else StaticIlog0(v) }

  function StaticIlog2(v: bv64): bv8 { if v & 0xC != 0 then 2 + StaticIlog1(v >> 2) else StaticIlog1(v) }

  function StaticIlog3(v: bv64): bv8 { if v & 0xF0 != 0 then 4 + StaticIlog2(v >> 4) else StaticIlog2(v) }

  function StaticIlog4(v: bv64): bv8 { if v & 0xFF00 != 0 then 8 + StaticIlog3(v >> 8) else StaticIlog3(v) }

  function StaticIlog5(v: bv64): bv8 {
    if v & 0xFFFF_0000 != 0 then 16 + StaticIlog4(v >> 16) else StaticIlog4(v)
  }

  function StaticIlog6(v: bv64): bv8 {
    if v & 0xFFFF_FFFF_0000_0000 != 0 then 32 + StaticIlog5(v >> 32) else StaticIlog5(v)
  }

  /** `STATIC_ILOG_32` applies the ladder to a 32-bit word. */
  function StaticIlog32(v: bv32): bv8 { StaticIlog5(v as bv64) }

  /** The high half decides, if it is not zero. */
  lemma HighHalf(v: bv64, k: bv8)
    requires v >> 32 != 0 && IsIlog64(v >> 32, k) && k <= 32
    ensures IsIlog64(v, 32 + k)
  {
  }

  lemma LadderTo32(v: bv64)
    requires v < 0x1_0000_0000
    ensures IsIlog64(v, StaticIlog5(v)) && StaticIlog5(v) <= 32
  {
  }

  lemma TopRung(v: bv64)
    ensures v >> 32 < 0x1_0000_0000
    ensures v < 0x1_0000_0000 ==> StaticIlog6(v) == StaticIlog5(v)
    ensures v >= 0x1_0000_0000 ==> v >> 32 != 0 && StaticIlog6(v) == 32 + StaticIlog5(v >> 32)
  {
    hide StaticIlog5;
  }

  /** The macro ladder has the documented meaning. */
  lemma LadderIsIlog64(v: bv64)
    ensures IsIlog64(v, StaticIlog6(v))
  {
    hide *;
    TopRung(v);
    if v < 0x1_0000_0000 {
      LadderTo32(v);
    } else {
      LadderTo32(v >> 32);
      HighHalf(v, StaticIlog5(v >> 32));
    }
  }

  lemma LadderIsIlog32(v: bv32)
    ensures IsIlog32(v, StaticIlog32(v))
  {
    LadderTo32(v as bv64);
    hide StaticIlog5;
    Widen(v, StaticIlog5(v as bv64));
  }

  lemma Widen(v: bv32, k: bv8)
    requires IsIlog64(v as bv64, k) && k <= 32
    ensures IsIlog32(v, k)
  {
  }

  // ----- powers of two

  function Power32(j: bv8): bv32
    requires j < 32
  {
    1 << j
  }

  function Power64(j: bv8): bv64
    requires j < 64
  {
    if j < 32 then Power32(j) as bv64 else (Power32(j - 32) as bv64) << 32
  }

  /** `Power64(j)` is two to the `j`. */
  lemma PowerDoubles(j: bv8)
    requires j < 63
    ensures Power64(0) == 1 && Power64(j) < 0x8000_0000_0000_0000 && Power64(j + 1) == 2 * Power64(j)
  {
  }

  /** The documented meaning: `2^(k-1) <= v < 2^k` (no word reaches the power past its width). */
  lemma IlogBounds32(v: bv32, k: bv8)
    requires 0 < k <= 32
    ensures IsIlog32(v, k) <==> Power32(k - 1) <= v && (k < 32 ==> v < Power32(k))
  {
  }

  lemma IlogBounds64(v: bv64, k: bv8)
    requires v != 0 && IsIlog64(v, k)
    ensures Bounds64(v, k)
  {
  }

  lemma PowersGrow(i: bv8, j: bv8)
    requires i <= j < 64
    ensures 0 < Power64(i) <= Power64(j)
  {
  }

  predicate Bounds64(v: bv64, k: bv8) {
    0 < k <= 64 && Power64(k - 1) <= v && (k < 64 ==> v < Power64(k))
  }

  lemma NotAbove64(v: bv64, j: bv8, k: bv8)
    requires Bounds64(v, j) && Bounds64(v, k)
    ensures k <= j
  {
    if j < k {
      hide Power64;
      PowersGrow(j, k - 1);
    }
  }

  /** Only one `k` has `2^(k-1) <= v < 2^k`. */
  lemma BoundsUnique64(v: bv64, j: bv8, k: bv8)
    requires Bounds64(v, j) && Bounds64(v, k)
    ensures j == k
  {
    hide *;
    NotAbove64(v, j, k);
    NotAbove64(v, k, j);
  }

  /** The shift form of the meaning and the documented bounds are the same. */
  lemma IlogMeans64(v: bv64, k: bv8)
    requires v != 0
    ensures IsIlog64(v, k) <==> Bounds64(v, k)
  {
    hide *;
    if IsIlog64(v, k) {
      IlogBounds64(v, k);
    }
    if Bounds64(v, k) {
      LadderIsIlog64(v);
      IlogBounds64(v, StaticIlog6(v));
      BoundsUnique64(v, k, StaticIlog6(v));
    }
  }

  // ----- the functions

  /** The smear of `ilog32` */
  method Smear32(v0: bv32) returns (v: bv32)
    ensures v == v0 | (v >> 1)
  {
    v := v0;
    v := v | (v >> 1);
    v := v | (v >> 2);
    v := v | (v >> 4);
    ghost var w := v;
    assert w | (v0 >> 8) == v0 | (w >> 1);
    v := v | (v >> 8);
    ghost var x := v;
    v := v | (v >> 16);
    Smear32From8(v0, w, x, v);
  }

  lemma LookUp32(v0: bv32, v: bv32, k: bv8)
    requires IsIlog32(v0, k) && v == v0 | (v >> 1)
    ensures k == (if v0 > 0 then 1 else 0) + DebruijnIdx32(Slot32((v >> 1) + 1)) as bv8
  {
    if v0 != 0 {
      SmearedTop32(v0, v, k);
      TableInverts32(k - 1);
    } else {
      assert v == 0;
    }
  }

  /** `ilog32`, multiply-and-look-up form */
  method Ilog32(v0: bv32) returns (ret: bv8)
    ensures IsIlog32(v0, ret) && ret == StaticIlog32(v0)
  {
    ret := if v0 > 0 then 1 else 0;
    var v := Smear32(v0);
    LadderIsIlog32(v0);
    hide *;
    LookUp32(v0, v, StaticIlog32(v0));
    v := (v >> 1) + 1;
    ret := ret + DebruijnIdx32(Slot32(v)) as bv8;
  }

  /** The smear of `ilog64` */
  method Smear64(v0: bv64) returns (v: bv64)
    ensures v == v0 | (v >> 1)
  {
    v := v0;
    v := v | (v >> 1);
    v := v | (v >> 2);
    ghost var a := v;
    assert a | (v0 >> 4) == v0 | (a >> 1);
    v := v | (v >> 4);
    Smear64To8(v0, a, v);
    ghost var b := v;
    v := v | (v >> 8);
    Smear64To16(v0, b, v);
    ghost var c := v;
    v := v | (v >> 16);
    ghost var d := v;
    v := v | (v >> 32);
    Smear64From16(v0, c, d, v);
  }

  lemma LookUp64(v0: bv64, v: bv64, k: bv8)
    requires IsIlog64(v0, k) && v == v0 | (v >> 1)
    ensures k == (if v0 > 0 then 1 else 0) + DebruijnIdx64(Slot64((v >> 1) + 1)) as bv8
  {
    if v0 != 0 {
      SmearedTop64(v0, v, k);
      TableInverts64(k - 1);
    } else {
      assert v == 0;
    }
  }

  /** `ilog64`, multiply-and-look-up form on one 64-bit word */
  method Ilog64(v0: bv64) returns (ret: bv8)
    ensures IsIlog64(v0, ret) && ret == StaticIlog6(v0)
  {
    hide *;
    ret := if v0 > 0 then 1 else 0;
    var v := Smear64(v0);
    LadderIsIlog64(v0);
    LookUp64(v0, v, StaticIlog6(v0));
    v := (v >> 1) + 1;
    ret := ret + DebruijnIdx64(Slot64(v)) as bv8;
  }

  /** The steps that both shift-and-compare forms share; `start` is the result so far, and
      `base` the weight of the half. */
  method ShiftHalf(v0: bv32, start: bv8, ghost base: bv8) returns (ret: bv8, ghost k: bv8)
    requires if v0 == 0 then base == 0 && start == 0 else (base == 0 && start == 1) || (base == 32 && start == 33)
    ensures IsIlog32(v0, k) && k <= 32 && ret == base + k
  {
    var v := v0;
    ret := start;
    var m: bv8 := if v > 0xFFFF then 16 else 0;
    v := v >> m;
    ret := ret | m;
    m := if v > 0xFF then 8 else 0;
    v := v >> m;
    ret := ret | m;
    m := if v > 0xF then 4 else 0;
    v := v >> m;
    ret := ret | m;
    m := if v > 3 then 2 else 0;
    v := v >> m;
    ret := ret | m;
    ret := ret + if v > 1 then 1 else 0;
    k := ret - base;
  }

  /** `ilog32`, shift-and-compare form */
  method ShiftIlog32(v0: bv32) returns (ret: bv8)
    ensures IsIlog32(v0, ret)
  {
    hide *;
    ret := if v0 > 0 then 1 else 0;
    ghost var k;
    ret, k := ShiftHalf(v0, ret, 0);
  }

  /** `ilog64`, shift-and-compare form */
  method ShiftIlog64(v0: bv64) returns (ret: bv8)
    ensures IsIlog64(v0, ret)
  {
    hide *;
    ret := if v0 > 0 then 1 else 0;
    var h, m := DecidingHalf(v0);
    ret := ret | m;
    ghost var k;
    ret, k := ShiftHalf(h, ret, m);
    HalfDecides(v0, h, m, k);
  }

  lemma Narrow(v: bv32, k: bv8)
    requires IsIlog32(v, k)
    ensures IsIlog64(v as bv64, k) && k <= 32
  {
  }

  /** The half that decides, and the weight of its place. */
  method DecidingHalf(v: bv64) returns (h: bv32, m: bv8)
    ensures v > 0xFFFF_FFFF ==> m == 32 && h as bv64 == v >> 32 && h != 0 && v >> 32 != 0
    ensures v <= 0xFFFF_FFFF ==> m == 0 && h as bv64 == v && (h == 0 <==> v == 0)
  {
    m := if v > 0xFFFF_FFFF then 32 else 0;
    h := (v >> m) as bv32;
  }

  /** The logarithm of the half that decides, and the weight of its place. */
  lemma HalfDecides(v: bv64, h: bv32, m: bv8, k: bv8)
    requires v > 0xFFFF_FFFF ==> m == 32 && h as bv64 == v >> 32 && h != 0 && v >> 32 != 0
    requires v <= 0xFFFF_FFFF ==> m == 0 && h as bv64 == v && (h == 0 <==> v == 0)
    requires IsIlog32(h, k)
    ensures IsIlog64(v, m + k)
  {
    hide *;
    Narrow(h, k);
    if v > 0xFFFF_FFFF {
      HighHalf(v, k);
    }
  }

  /** `ilog64`, multiply-and-look-up form on two 32-bit halves */
  method SplitIlog64(v0: bv64) returns (ret: bv8)
    ensures IsIlog64(v0, ret)
  {
    hide *;
    ret := if v0 > 0 then 1 else 0;
    var h, m := DecidingHalf(v0);
    ret := ret | m;
    var v := Smear32(h);
    ghost var k := StaticIlog32(h);
    LadderIsIlog32(h);
    LookUp32(h, v, k);
    HalfDecides(v0, h, m, k);
    v := (v >> 1) + 1;
    ret := ret + DebruijnIdx32(Slot32(v)) as bv8;
  }
}
