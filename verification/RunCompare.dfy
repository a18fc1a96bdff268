/** How far a run of one repeated byte reaches (compare256_rle.h): the comparison byte by
    byte and by 16-, 32- and 64-bit little-endian words. */
module RunCompare {

  const MAX: nat := 256

  /** Bytes and words alike are held in 64 bits. */
  type Byte = b: bv64 | b <= 0xff

  /** The byte that a run of the two-byte pattern p0 p1 has at position i. */
  function Pattern(p0: Byte, p1: Byte, i: nat): Byte {
    if i % 2 == 0 then p0 else p1
  }

  /** len is the length, at most 256, of the longest prefix of src1 that follows the pattern. */
  ghost predicate Reach(p0: Byte, p1: Byte, src1: seq<Byte>, len: nat) {
    && len <= MAX <= |src1|
    && Follows(p0, p1, src1, len)
    && (len < MAX ==> src1[len] != Pattern(p0, p1, len))
  }

  ghost predicate Follows(p0: Byte, p1: Byte, src1: seq<Byte>, len: nat) {
    len <= |src1| && forall i :: 0 <= i < len ==> src1[i] == Pattern(p0, p1, i)
  }

  /** There is only one such length. */
  lemma ReachUnique(p0: Byte, p1: Byte, src1: seq<Byte>, a: nat, b: nat)
    requires Reach(p0, p1, src1, a) && Reach(p0, p1, src1, b)
    ensures a == b
  {
  }

  /** One of the eight comparisons of the unrolled loop. */
  method Compare1(src0: Byte, src1: seq<Byte>, len0: nat) returns (done: bool, len: nat)
    requires |src1| >= MAX && len0 < MAX && Follows(src0, src0, src1, len0)
    ensures done ==> Reach(src0, src0, src1, len)
    ensures !done ==> len == len0 + 1 && Follows(src0, src0, src1, len)
  {
    if src0 != src1[len0] {
      return true, len0;
    }
    return false, len0 + 1;
  }

  /** compare256_rle_c: the run of the first byte of src0. */
  method CompareBytes(src0: seq<Byte>, src1: seq<Byte>) returns (len: nat)
    requires |src0| >= 1 && |src1| >= MAX
    ensures Reach(src0[0], src0[0], src1, len)
  {
    len := 0;
    var done: bool;
    while len < MAX
      invariant len <= MAX && len % 8 == 0 && Follows(src0[0], src0[0], src1, len)
      decreases MAX - len
    {
      ghost var start := len;
      for k := 0 to 8
        invariant len == start + k && start + 8 <= MAX && Follows(src0[0], src0[0], src1, len)
      {
        done, len := Compare1(src0[0], src1, len);
        if done {
          return;
        }
      }
    }
  }

  // ----- words -----

  function Word16(b0: Byte, b1: Byte): bv64 {
    b0 | (b1 << 8)
  }

  function Word32(lo: bv64, hi: bv64): bv64 {
    lo | (hi << 16)
  }

  function Word64(lo: bv64, hi: bv64): bv64 {
    lo | (hi << 32)
  }

  /** memcpy of two, four or eight bytes. */
  function Load16(s: seq<Byte>, i: nat): bv64
    requires i + 2 <= |s|
  {
    Word16(s[i], s[i + 1])
  }

  function Load32(s: seq<Byte>, i: nat): bv64
    requires i + 4 <= |s|
  {
    Word32(Load16(s, i), Load16(s, i + 2))
  }

  function Load64(s: seq<Byte>, i: nat): bv64
    requires i + 8 <= |s|
  {
    Word64(Load32(s, i), Load32(s, i + 4))
  }

  /** The trailing zero bits among the low n bits. */
  function Ctz(x: bv64, n: nat): nat {
    if n == 0 || x & 1 == 1 then 0 else 1 + Ctz(x >> 1, n - 1)
  }

  lemma Ctz2(x: bv64, n: nat)
    requires n >= 2
    ensures if x & 0x3 == 0 then Ctz(x, n) == 2 + Ctz(x >> 2, n - 2) else Ctz(x, n) < 2
  {
    assert (x >> 1) >> 1 == x >> 2;
    assert x & 0x3 == 0 <==> x & 1 == 0 && (x >> 1) & 1 == 0;
    assert x & 1 != 1 <==> x & 1 == 0;
    assert (x >> 1) & 1 != 1 <==> (x >> 1) & 1 == 0;
  }

  lemma Ctz4(x: bv64, n: nat)
    requires n >= 4
    ensures if x & 0xf == 0 then Ctz(x, n) == 4 + Ctz(x >> 4, n - 4) else Ctz(x, n) < 4
  {
    assert (x >> 2) >> 2 == x >> 4;
    assert x & 0xf == 0 <==> x & 0x3 == 0 && (x >> 2) & 0x3 == 0;
    Ctz2(x, n);
    Ctz2(x >> 2, n - 2);
  }

  /** Trailing zeros by whole bytes. */
  lemma Ctz8(x: bv64, n: nat)
    requires n >= 8
    ensures if x & 0xff == 0 then Ctz(x, n) == 8 + Ctz(x >> 8, n - 8) else Ctz(x, n) < 8
  {
    assert (x >> 4) >> 4 == x >> 8;
    assert x & 0xff == 0 <==> x & 0xf == 0 && (x >> 4) & 0xf == 0;
    Ctz4(x, n);
    Ctz4(x >> 4, n - 4);
  }

  function ByteOf(d: bv64, k: nat): bv64
    requires k < 8
  {
    match k
    case 0 => d & 0xff
    case 1 => (d >> 8) & 0xff
    case 2 => (d >> 16) & 0xff
    case 3 => (d >> 24) & 0xff
    case 4 => (d >> 32) & 0xff
    case 5 => (d >> 40) & 0xff
    case 6 => (d >> 48) & 0xff
    case _ => (d >> 56) & 0xff
  }

  lemma SomeByte(d: bv64)
    requires d != 0
    ensures exists k :: 0 <= k < 8 && ByteOf(d, k) != 0
  {
    assert !(ByteOf(d, 0) == 0 && ByteOf(d, 1) == 0 && ByteOf(d, 2) == 0 && ByteOf(d, 3) == 0
             && ByteOf(d, 4) == 0 && ByteOf(d, 5) == 0 && ByteOf(d, 6) == 0 && ByteOf(d, 7) == 0);
  }

  lemma {:induction false} ShiftByte(d: bv64, k: nat)
    requires k < 7
    ensures ByteOf(d >> 8, k) == ByteOf(d, k + 1)
  {
  }

  /** Trailing zeros divided by eight count the leading zero bytes of the little-endian word. */
  lemma {:induction false} FirstByte(d: bv64, bytes: nat, k: nat)
    requires k < bytes <= 8 && ByteOf(d, k) != 0 && forall j :: 0 <= j < k ==> ByteOf(d, j) == 0
    ensures Ctz(d, 8 * bytes) / 8 == k
    decreases k
  {
    Ctz8(d, 8 * bytes);
    if k > 0 {
      assert ByteOf(d, 0) == 0;
      ShiftByte(d, k - 1);
      var e := d >> 8;
      forall j | 0 <= j < k - 1 ensures ByteOf(e, j) == 0 {
        ShiftByte(d, j);
        assert ByteOf(d, j + 1) == 0;
      }
      FirstByte(e, bytes - 1, k - 1);
    } else {
      assert ByteOf(d, 0) == d & 0xff;
    }
  }

  // ----- loads and the repeated pattern, byte by byte -----

  lemma XorLow(a: bv64, b: bv64)
    ensures (a ^ b) & 0xff == 0 <==> a & 0xff == b & 0xff
  {
  }

  lemma XorShift8(a: bv64, b: bv64)
    ensures (a ^ b) >> 8 == (a >> 8) ^ (b >> 8)
  {
  }

  lemma XorShift16(a: bv64, b: bv64)
    ensures (a ^ b) >> 16 == (a >> 16) ^ (b >> 16)
  {
  }

  lemma XorShift24(a: bv64, b: bv64)
    ensures (a ^ b) >> 24 == (a >> 24) ^ (b >> 24)
  {
  }

  lemma XorShift32(a: bv64, b: bv64)
    ensures (a ^ b) >> 32 == (a >> 32) ^ (b >> 32)
  {
  }

  lemma XorShift40(a: bv64, b: bv64)
    ensures (a ^ b) >> 40 == (a >> 40) ^ (b >> 40)
  {
  }

  lemma XorShift48(a: bv64, b: bv64)
    ensures (a ^ b) >> 48 == (a >> 48) ^ (b >> 48)
  {
  }

  lemma XorShift56(a: bv64, b: bv64)
    ensures (a ^ b) >> 56 == (a >> 56) ^ (b >> 56)
  {
  }

  lemma XorBytes(a: bv64, b: bv64, k: nat)
    requires k < 8
    ensures ByteOf(a ^ b, k) == 0 <==> ByteOf(a, k) == ByteOf(b, k)
  {
    match k {
      case 0 => XorLow(a, b);
      case 1 => XorShift8(a, b); XorLow(a >> 8, b >> 8);
      case 2 => XorShift16(a, b); XorLow(a >> 16, b >> 16);
      case 3 => XorShift24(a, b); XorLow(a >> 24, b >> 24);
      case 4 => XorShift32(a, b); XorLow(a >> 32, b >> 32);
      case 5 => XorShift40(a, b); XorLow(a >> 40, b >> 40);
      case 6 => XorShift48(a, b); XorLow(a >> 48, b >> 48);
      case _ => XorShift56(a, b); XorLow(a >> 56, b >> 56);
    }
  }

  lemma Bytes16(b0: Byte, b1: Byte)
    ensures var w := Word16(b0, b1); w <= 0xffff && ByteOf(w, 0) == b0 && ByteOf(w, 1) == b1
  {
  }

  lemma Bytes32(lo: bv64, hi: bv64)
    requires lo <= 0xffff && hi <= 0xffff
    ensures var w := Word32(lo, hi);
            && w <= 0xffff_ffff && ByteOf(w, 0) == ByteOf(lo, 0) && ByteOf(w, 1) == ByteOf(lo, 1)
            && ByteOf(w, 2) == ByteOf(hi, 0) && ByteOf(w, 3) == ByteOf(hi, 1)
  {
  }

  lemma Bytes64(lo: bv64, hi: bv64)
    requires lo <= 0xffff_ffff && hi <= 0xffff_ffff
    ensures var w := Word64(lo, hi);
            && ByteOf(w, 0) == ByteOf(lo, 0) && ByteOf(w, 1) == ByteOf(lo, 1)
            && ByteOf(w, 2) == ByteOf(lo, 2) && ByteOf(w, 3) == ByteOf(lo, 3)
            && ByteOf(w, 4) == ByteOf(hi, 0) && ByteOf(w, 5) == ByteOf(hi, 1)
            && ByteOf(w, 6) == ByteOf(hi, 2) && ByteOf(w, 7) == ByteOf(hi, 3)
  {
  }

  lemma Loaded32(s: seq<Byte>, i: nat)
    requires i + 4 <= |s|
    ensures Load32(s, i) <= 0xffff_ffff && forall k :: 0 <= k < 4 ==> ByteOf(Load32(s, i), k) == s[i + k]
  {
    Bytes16(s[i], s[i + 1]);
    Bytes16(s[i + 2], s[i + 3]);
    Bytes32(Load16(s, i), Load16(s, i + 2));
  }

  lemma Loaded64(s: seq<Byte>, i: nat)
    requires i + 8 <= |s|
    ensures forall k :: 0 <= k < 8 ==> ByteOf(Load64(s, i), k) == s[i + k]
  {
    Loaded32(s, i);
    Loaded32(s, i + 4);
    Bytes64(Load32(s, i), Load32(s, i + 4));
    forall k | 0 <= k < 8 ensures ByteOf(Load64(s, i), k) == s[i + k] {
      if k >= 4 {
        assert ByteOf(Load32(s, i + 4), k - 4) == s[i + k];
      }
    }
  }

  lemma Repeated32(p0: Byte, p1: Byte)
    ensures var w := Word32(Word16(p0, p1), Word16(p0, p1));
            w <= 0xffff_ffff && forall k :: 0 <= k < 4 ==> ByteOf(w, k) == Pattern(p0, p1, k)
  {
    Bytes16(p0, p1);
    Bytes32(Word16(p0, p1), Word16(p0, p1));
  }

  lemma Repeated64(p0: Byte, p1: Byte)
    ensures var w := Word32(Word16(p0, p1), Word16(p0, p1));
            forall k :: 0 <= k < 8 ==> ByteOf(Word64(w, w), k) == Pattern(p0, p1, k)
  {
    var w := Word32(Word16(p0, p1), Word16(p0, p1));
    Repeated32(p0, p1);
    Bytes64(w, w);
    forall k | 0 <= k < 8 ensures ByteOf(Word64(w, w), k) == Pattern(p0, p1, k) {
      if k >= 4 {
        assert ByteOf(w, k - 4) == Pattern(p0, p1, k - 4);
      }
    }
  }

  lemma HighBytes(w: bv64, k: nat)
    requires w <= 0xffff_ffff && 4 <= k < 8
    ensures ByteOf(w, k) == 0
  {
  }

  lemma Xor32(a: bv64, b: bv64)
    requires a <= 0xffff_ffff && b <= 0xffff_ffff
    ensures a ^ b <= 0xffff_ffff
  {
  }

  /** Equal words have equal bytes; otherwise the first different byte is where the trailing
      zeros of the exclusive or say. */
  lemma {:induction false} FirstDifference(sv: bv64, mv: bv64, d: bv64, bytes: nat) returns (k: nat)
    requires bytes <= 8 && d == sv ^ mv && d != 0 && forall j :: bytes <= j < 8 ==> ByteOf(d, j) == 0
    ensures k < bytes && Ctz(d, 8 * bytes) / 8 == k
    ensures ByteOf(sv, k) != ByteOf(mv, k) && forall j :: 0 <= j < k ==> ByteOf(sv, j) == ByteOf(mv, j)
  {
    SomeByte(d);
    k := 0;
    while ByteOf(d, k) == 0
      invariant k < 8 && forall j :: 0 <= j < k ==> ByteOf(d, j) == 0
      invariant exists j :: k <= j < 8 && ByteOf(d, j) != 0
      decreases 8 - k
    {
      k := k + 1;
    }
    FirstByte(d, bytes, k);
    forall j | 0 <= j <= k ensures ByteOf(d, j) == 0 <==> ByteOf(sv, j) == ByteOf(mv, j) {
      XorBytes(sv, mv, j);
    }
  }

  lemma SameWord(sv: bv64, mv: bv64)
    requires sv ^ mv == 0
    ensures sv == mv
  {
  }

  // ----- the word comparisons -----

  /** One of the four comparisons of compare256_rle_unaligned_16. */
  method Compare2(src0: seq<Byte>, src1: seq<Byte>, len0: nat) returns (done: bool, len: nat)
    requires |src0| >= 2 && |src1| >= MAX && len0 + 2 <= MAX && len0 % 2 == 0 && Follows(src0[0], src0[1], src1, len0)
    ensures done ==> Reach(src0[0], src0[1], src1, len)
    ensures !done ==> len == len0 + 2 && Follows(src0[0], src0[1], src1, len)
  {
    Bytes16(src0[0], src0[1]);
    Bytes16(src1[len0], src1[len0 + 1]);
    if Load16(src0, 0) != Load16(src1, len0) {
      return true, len0 + if src0[0] == src1[len0] then 1 else 0;
    }
    return false, len0 + 2;
  }

  /** compare256_rle_unaligned_16. */
  method Compare16(src0: seq<Byte>, src1: seq<Byte>) returns (len: nat)
    requires |src0| >= 2 && |src1| >= MAX
    ensures Reach(src0[0], src0[1], src1, len)
  {
    len := 0;
    var done: bool;
    while len < MAX
      invariant len <= MAX && len % 8 == 0 && Follows(src0[0], src0[1], src1, len)
      decreases MAX - len
    {
      ghost var start := len;
      for k := 0 to 4
        invariant len == start + 2 * k && start + 8 <= MAX && Follows(src0[0], src0[1], src1, len)
      {
        done, len := Compare2(src0, src1, len);
        if done {
          return;
        }
      }
    }
  }

  /** compare256_rle_unaligned_32. */
  method Compare32(src0: seq<Byte>, src1: seq<Byte>) returns (len: nat)
    requires |src0| >= 2 && |src1| >= MAX
    ensures Reach(src0[0], src0[1], src1, len)
  {
    var cmp := Load16(src0, 0);
    var sv := Word32(cmp, cmp);
    Repeated32(src0[0], src0[1]);
    len := 0;
    while len < MAX
      invariant len <= MAX && len % 4 == 0 && Follows(src0[0], src0[1], src1, len)
      decreases MAX - len
    {
      var mv := Load32(src1, len);
      Loaded32(src1, len);
      if sv ^ mv != 0 {
        Differ32(src0[0], src0[1], src1, len, sv, mv);
        return len + Ctz(sv ^ mv, 32) / 8;
      }
      SameWord(sv, mv);
      Extend(src0[0], src0[1], src1, len, sv, 4);
      len := len + 4;
    }
  }

  lemma Extend(p0: Byte, p1: Byte, src1: seq<Byte>, len: nat, w: bv64, bytes: nat)
    requires bytes <= 8 && len + bytes <= |src1| && len % 2 == 0 && Follows(p0, p1, src1, len)
    requires forall k :: 0 <= k < bytes ==> ByteOf(w, k) == Pattern(p0, p1, k)
    requires forall k :: 0 <= k < bytes ==> ByteOf(w, k) == src1[len + k]
    ensures Follows(p0, p1, src1, len + bytes)
  {
    forall i | 0 <= i < len + bytes ensures src1[i] == Pattern(p0, p1, i) {
      if i >= len {
        assert ByteOf(w, i - len) == src1[len + (i - len)];
      }
    }
  }

  lemma Differ(p0: Byte, p1: Byte, src1: seq<Byte>, len: nat, sv: bv64, mv: bv64, d: bv64, bytes: nat)
    requires bytes <= 8 && len + bytes <= MAX <= |src1| && len % 2 == 0 && Follows(p0, p1, src1, len)
    requires forall k :: 0 <= k < bytes ==> ByteOf(sv, k) == Pattern(p0, p1, k)
    requires forall k :: 0 <= k < bytes ==> ByteOf(mv, k) == src1[len + k]
    requires d == sv ^ mv && d != 0 && forall j :: bytes <= j < 8 ==> ByteOf(d, j) == 0
    ensures Reach(p0, p1, src1, len + Ctz(d, 8 * bytes) / 8)
  {
    var k := FirstDifference(sv, mv, d, bytes);
    Extend(p0, p1, src1, len, sv, k);
    assert src1[len + k] == ByteOf(mv, k);
  }

  lemma Differ32(p0: Byte, p1: Byte, src1: seq<Byte>, len: nat, sv: bv64, mv: bv64)
    requires len + 4 <= MAX <= |src1| && len % 2 == 0 && Follows(p0, p1, src1, len)
    requires forall k :: 0 <= k < 4 ==> ByteOf(sv, k) == Pattern(p0, p1, k)
    requires forall k :: 0 <= k < 4 ==> ByteOf(mv, k) == src1[len + k]
    requires sv <= 0xffff_ffff && mv <= 0xffff_ffff && sv ^ mv != 0
    ensures Reach(p0, p1, src1, len + Ctz(sv ^ mv, 32) / 8)
  {
    var d := sv ^ mv;
    Xor32(sv, mv);
    forall j | 4 <= j < 8 ensures ByteOf(d, j) == 0 {
      HighBytes(d, j);
    }
    Differ(p0, p1, src1, len, sv, mv, d, 4);
  }

  /** compare256_rle_unaligned_64. */
  method Compare64(src0: seq<Byte>, src1: seq<Byte>) returns (len: nat)
    requires |src0| >= 2 && |src1| >= MAX
    ensures Reach(src0[0], src0[1], src1, len)
  {
    var cmp := Load16(src0, 0);
    var cmp32 := Word32(cmp, cmp);
    var sv := Word64(cmp32, cmp32);
    Repeated64(src0[0], src0[1]);
    len := 0;
    while len < MAX
      invariant len <= MAX && len % 8 == 0 && Follows(src0[0], src0[1], src1, len)
      decreases MAX - len
    {
      var mv := Load64(src1, len);
      Loaded64(src1, len);
      if sv ^ mv != 0 {
        Differ(src0[0], src0[1], src1, len, sv, mv, sv ^ mv, 8);
        return len + Ctz(sv ^ mv, 64) / 8;
      }
      SameWord(sv, mv);
      Extend(src0[0], src0[1], src1, len, sv, 8);
      len := len + 8;
    }
  }

  /** When the byte and the word comparisons agree: if the two bytes of src0 are equal, as
      the callers see to, or src1 leaves both patterns at the same place. */
  lemma AgreeIff(p0: Byte, p1: Byte, src1: seq<Byte>, byBytes: nat, byWords: nat)
    requires Reach(p0, p0, src1, byBytes) && Reach(p0, p1, src1, byWords)
    ensures byBytes == byWords <==> p0 == p1 || src1[0] != p0 || (src1[1] != p0 && src1[1] != p1)
  {
    if p0 == p1 {
      ReachUnique(p0, p0, src1, byBytes, byWords);
    } else if src1[0] == p0 {
      assert Pattern(p0, p1, 1) == p1 && Pattern(p0, p0, 1) == p0;
    }
  }
}
