/** The 16-bit gamma tables of png.c: a table is up to 256 rows of 256 entries, the row
    picked by the significant low bits of a sample and the column by its high byte. */
module GammaTables {
  import opened Arith
  import opened Bytes
  import opened FixedPoint

  /** The number of insignificant low bits of a sample. */
  type Shift = s: nat | s <= 8

  const POWERS: seq<nat> := [1, 2, 4, 8, 16, 32, 64, 128, 256]

  /** 1 << shift */
  function Unit(s: Shift): nat { POWERS[s] }

  /** num: 1 << (8 - shift), the rows of the table. */
  function Num(s: Shift): nat { POWERS[8 - s] }

  /** max: (1 << (16 - shift)) - 1, the largest shifted sample. */
  function Max(s: Shift): nat { 256 * Num(s) - 1 }

  type Slot = (nat, nat)

  /** The slot written for a shifted sample v: table[v & (0xff >> shift)][v >> (8 - shift)]. */
  function SlotOf(s: Shift, v: nat): Slot { (v % Num(s), v / Num(s)) }

  /** The slot read for a sample: table[(iv & 0xff) >> shift][iv >> 8]. */
  function Lookup(s: Shift, iv: nat): Slot { ((iv % 256) / Unit(s), iv / 256) }

  /** In the source's own operators: the mask and the shift split a shifted sample into row
      and column, and the two expressions of the lookup find them from the sample. */
  lemma LookupBits(iv: bv16, s: bv16)
    requires s <= 8
    ensures var v := iv >> s;
            && ((v >> (8 - s)) << (8 - s)) + (v & (0xff >> s)) == v
            && (iv & 0xff) >> s == v & (0xff >> s) && iv >> 8 == v >> (8 - s)
  {
  }

  lemma Powers(s: Shift)
    ensures Unit(s) >= 1 && Num(s) >= 1 && Unit(s) * Num(s) == 256
  {
  }

  /** Reading a sample reads the slot that was written for its significant bits. */
  lemma LookupIsSlot(s: Shift, iv: nat)
    requires iv <= 65535
    ensures Lookup(s, iv) == SlotOf(s, iv / Unit(s)) && iv / Unit(s) <= Max(s)
  {
    Powers(s);
    SplitSample(iv, iv / 256, iv % 256, Unit(s), Num(s));
    MulBound(iv / 256, Num(s), 255, Num(s));
  }

  lemma SplitSample(iv: nat, a: nat, b: nat, U: nat, N: nat)
    requires U > 0 && N > 0 && U * N == 256 && iv == 256 * a + b && b < 256
    ensures iv / U == a * N + b / U && b / U < N
    ensures (iv / U) / N == a && (iv / U) % N == b / U
  {
    var c, d := b / U, b % U;
    DivMod(b, U);
    if c >= N {
      MulBound(N, U, c, U);
    }
    MulAdd(a * N, c, U);
    MulAssoc(a, N, U);
    QuotientOf(iv, U, a * N + c, d);
    QuotientOf(a * N + c, N, a, c);
  }

  predicate InTable(s: Shift, p: Slot) {
    p.0 < Num(s) && p.1 < 256
  }

  /** Shifted samples and slots correspond one to one. */
  lemma SlotOfInTable(s: Shift, v: nat)
    requires v <= Max(s)
    ensures InTable(s, SlotOf(s, v)) && SlotOf(s, v).1 * Num(s) + SlotOf(s, v).0 == v
  {
    DivMod(v, Num(s));
    if v / Num(s) >= 256 {
      MulBound(256, Num(s), v / Num(s), Num(s));
    }
  }

  lemma SlotHasSample(s: Shift, p: Slot)
    requires InTable(s, p)
    ensures var v := p.1 * Num(s) + p.0; v <= Max(s) && SlotOf(s, v) == p
  {
    var v := p.1 * Num(s) + p.0;
    MulBound(p.1, Num(s), 255, Num(s));
    QuotientOf(v, Num(s), p.1, p.0);
  }

  lemma SlotsDiffer(s: Shift, v: nat, w: nat)
    requires v < w <= Max(s)
    ensures SlotOf(s, v) != SlotOf(s, w)
  {
    SlotOfInTable(s, v);
    SlotOfInTable(s, w);
  }

  // ----- 16 bits to 8 -----

  /** A gamma correction of 16-bit values; nothing else is known of it. */
  ghost predicate Is16Bit(correct: nat -> nat) {
    forall v :: v <= 65535 ==> correct(v) <= 65535
  }

  /** The first shifted sample beyond 8-bit level i: the corrected middle between levels i
      and i + 1, rounded to 16 - shift bits. */
  function Bound(correct: nat -> nat, s: Shift, i: nat): nat {
    (correct(i * 257 + 128) * Max(s) + 32768) / 65535 + 1
  }

  /** The 32-bit arithmetic is exact and no boundary lies outside the table. */
  lemma BoundFits(correct: nat -> nat, s: Shift, i: nat)
    requires Is16Bit(correct) && i < 255
    ensures correct(i * 257 + 128) * Max(s) + 32768 < TWO_TO_THE_32
    ensures 1 <= Bound(correct, s, i) <= Max(s) + 1
  {
    var b := correct(i * 257 + 128);
    MulBound(b, Max(s), 65535, Max(s));
    MaxRange(s);
    BoundDivide(b * Max(s), Max(s));
  }

  lemma MaxRange(s: Shift)
    ensures 255 <= Max(s) <= 65535 && Max(s) % 2 == 1 && Num(s) >= 1
  {
  }

  lemma BoundDivide(x: nat, m: nat)
    requires x <= 65535 * m && m <= 65535
    ensures (x + 32768) / 65535 <= m
  {
  }

  /** The boundaries of the 255 lower levels. */
  function Bounds(correct: nat -> nat, s: Shift): seq<nat> {
    seq(255, (i: nat) => Bound(correct, s, i))
  }

  /** The first level from i on whose boundary lies beyond v, or one past the last. */
  function LevelFrom(bounds: seq<nat>, v: nat, i: nat): (r: nat)
    requires i <= |bounds|
    ensures i <= r <= |bounds| && (r < |bounds| ==> v < bounds[r])
    ensures forall k :: i <= k < r ==> bounds[k] <= v
    decreases |bounds| - i
  {
    if i == |bounds| || v < bounds[i] then i else LevelFrom(bounds, v, i + 1)
  }

  /** The entry for a shifted sample: its 8-bit level, spread over 16 bits. */
  function Entry(bounds: seq<nat>, v: nat): nat {
    257 * LevelFrom(bounds, v, 0)
  }

  lemma LevelIs(bounds: seq<nat>, v: nat, i: nat)
    requires i <= |bounds| && (i < |bounds| ==> v < bounds[i])
    requires forall k :: 0 <= k < i ==> bounds[k] <= v
    ensures LevelFrom(bounds, v, 0) == i
  {
  }

  /** A brighter sample never gets a darker entry, whatever the correction. */
  lemma EntryMonotone(correct: nat -> nat, s: Shift, v: nat, w: nat)
    requires v <= w
    ensures Entry(Bounds(correct, s), v) <= Entry(Bounds(correct, s), w) <= 65535
  {
    var bounds := Bounds(correct, s);
    var q, r := LevelFrom(bounds, v, 0), LevelFrom(bounds, w, 0);
    assert forall k :: 0 <= k < q ==> bounds[k] <= v;
  }

  /** The level of a sample: the sample lies between the corrected middles below and above its
      level, both scaled to 16 - shift bits. */
  lemma LevelBetween(correct: nat -> nat, s: Shift, v: nat, i: nat)
    requires i == LevelFrom(Bounds(correct, s), v, 0)
    ensures i < 255 ==> 65535 * v <= correct(257 * i + 128) * Max(s) + 32768
    ensures i > 0 ==> 65535 * v > correct(257 * i - 129) * Max(s) + 32768
  {
    var bounds := Bounds(correct, s);
    if i < 255 {
      assert i * 257 + 128 == 257 * i + 128;
      BelowQuotient(correct(257 * i + 128) * Max(s) + 32768, v);
    }
    if i > 0 {
      assert bounds[i - 1] <= v && (i - 1) * 257 + 128 == 257 * i - 129;
      BelowQuotient(correct(257 * i - 129) * Max(s) + 32768, v);
    }
  }

  lemma BelowQuotient(x: nat, v: nat)
    ensures v < x / 65535 + 1 <==> 65535 * v <= x
  {
  }

  /** Without correction every sample gets the 8-bit level closest to it: half a level away at
      most, up to the rounding of the boundaries to 16 - shift bits; exactly so for 16 bits. */
  lemma ClosestLevel(s: Shift, v: nat)
    requires v <= Max(s)
    ensures var e := Entry(Bounds(x => x, s), v);
            -129 * Max(s) < 65535 * v - e * Max(s) <= 128 * Max(s) + 32768 && (s == 0 ==> -128 <= v - e <= 128)
  {
    var i := LevelFrom(Bounds(x => x, s), v, 0);
    LevelBetween(x => x, s, v, i);
    Spread(i, Max(s), v);
    if s == 0 {
      WholeLevels(v - 257 * i);
    }
  }

  lemma Spread(i: nat, m: nat, v: nat)
    requires i <= 255 && v <= m && m >= 1
    requires i < 255 ==> 65535 * v <= (257 * i + 128) * m + 32768
    requires i > 0 ==> 65535 * v > (257 * i - 129) * m + 32768
    ensures -129 * m < 65535 * v - 257 * i * m <= 128 * m + 32768
  {
    assert (257 * i + 128) * m == 257 * i * m + 128 * m;
    assert (257 * i - 129) * m == 257 * i * m - 129 * m;
    if i == 255 {
      assert 257 * i * m == 65535 * m;
    }
  }

  lemma WholeLevels(d: int)
    requires -129 * 65535 < 65535 * d <= 128 * 65535 + 32768
    ensures -128 <= d <= 128
  {
  }

  /** The first `last` shifted samples have their entries. */
  ghost predicate Filled(table: array2<nat>, bounds: seq<nat>, s: Shift, last: nat)
    reads table
  {
    && table.Length0 == Num(s) && table.Length1 == 256 && last <= Max(s) + 1
    && forall v :: 0 <= v < last ==>
         InTable(s, SlotOf(s, v)) && table[SlotOf(s, v).0, SlotOf(s, v).1] == Entry(bounds, v)
  }

  /** One store of the fill loops: the next sample's slot gets its entry. */
  method Put(table: array2<nat>, ghost bounds: seq<nat>, s: Shift, last: nat, value: nat)
    requires Filled(table, bounds, s, last) && last <= Max(s) && value == Entry(bounds, last)
    modifies table
    ensures Filled(table, bounds, s, last + 1)
  {
    SlotOfInTable(s, last);
    table[last % Num(s), last / Num(s)] := value;
    forall v | 0 <= v <= last
      ensures InTable(s, SlotOf(s, v)) && table[SlotOf(s, v).0, SlotOf(s, v).1] == Entry(bounds, v)
    {
      SlotOfInTable(s, v);
      if v < last {
        SlotsDiffer(s, v, last);
      }
    }
  }

  ghost predicate InOrder(s: Shift, writes: seq<Slot>) {
    forall v :: 0 <= v < |writes| ==> writes[v] == SlotOf(s, v)
  }

  /** The inner loop: everything below the boundary of level i gets that level. */
  method FillTo(table: array2<nat>, ghost bounds: seq<nat>, s: Shift, i: nat, bound: nat, last0: nat,
                ghost writes0: seq<Slot>)
    returns (last: nat, ghost writes: seq<Slot>)
    requires Filled(table, bounds, s, last0) && i <= |bounds| && bound <= Max(s) + 1
    requires i < |bounds| ==> bound == bounds[i]
    requires forall k :: 0 <= k < i ==> bounds[k] <= last0
    requires |writes0| == last0 && InOrder(s, writes0)
    modifies table
    ensures Filled(table, bounds, s, last) && last == (if last0 < bound then bound else last0)
    ensures |writes| == last && InOrder(s, writes)
  {
    last, writes := last0, writes0;
    while last < bound
      invariant Filled(table, bounds, s, last) && last0 <= last && (last0 < last ==> last <= bound)
      invariant |writes| == last && InOrder(s, writes)
    {
      LevelIs(bounds, last, i);
      Put(table, bounds, s, last, i * 257);
      writes := writes + [SlotOf(s, last)];
      last := last + 1;
    }
  }

  /** png_build_16to8_table.  `writes` lists the stores in order: every slot of the table is
      written, once. */
  method Build16To8(s: Shift, correct: nat -> nat) returns (table: array2<nat>, ghost writes: seq<Slot>)
    requires Is16Bit(correct)
    ensures Filled(table, Bounds(correct, s), s, Max(s) + 1)
    ensures |writes| == Max(s) + 1 && InOrder(s, writes)
  {
    table := new nat[Num(s), 256];
    writes := [];
    ghost var bounds := Bounds(correct, s);
    var last, i := 0, 0;
    while i < 255
      invariant i <= 255 && Filled(table, bounds, s, last) && fresh(table)
      invariant forall k :: 0 <= k < i ==> bounds[k] <= last
      invariant |writes| == last && InOrder(s, writes)
    {
      BoundFits(correct, s, i);
      var bound := (correct(i * 257 + 128) * Max(s) + 32768) / 65535 + 1;
      last, writes := FillTo(table, bounds, s, i, bound, last, writes);
      i := i + 1;
    }
    last, writes := FillTo(table, bounds, s, 255, Num(s) * 256, last, writes);
  }

  /** What the reader sees: the entry of the sample's significant bits. */
  lemma ReadBack16To8(table: array2<nat>, bounds: seq<nat>, s: Shift, iv: nat)
    requires Filled(table, bounds, s, Max(s) + 1) && iv <= 65535
    ensures InTable(s, Lookup(s, iv)) && table[Lookup(s, iv).0, Lookup(s, iv).1] == Entry(bounds, iv / Unit(s))
  {
    LookupIsSlot(s, iv);
  }

  // ----- 16 bits to 16 -----

  /** The sample for shifted value ig scaled back to 16 bits, rounded. */
  function Rescale(s: Shift, ig: nat): nat {
    if s == 0 then ig else (ig * 65535 + 128 * Num(s)) / Max(s)
  }

  lemma RescaleFits(s: Shift, ig: nat)
    requires ig <= Max(s)
    ensures s > 0 ==> ig * 65535 + 128 * Num(s) < TWO_TO_THE_32
    ensures Rescale(s, ig) <= 65535
  {
    if s > 0 {
      RescaleQuotient(ig * 65535 + 128 * Num(s), Max(s));
    }
  }

  lemma RescaleQuotient(x: nat, m: nat)
    requires m > 0 && 2 * x <= 2 * (m * 65535) + m + 1 && m > 1
    ensures x / m <= 65535
  {
    DivMod(x, m);
    if x / m > 65535 {
      MulBound(65536, m, x / m, m);
    }
  }

  lemma RescaleIsHalfUp(s: Shift, ig: nat)
    requires 1 <= s && ig <= Max(s)
    ensures Rescale(s, ig) == HalfUp(ig * 65535, Max(s))
  {
    MaxRange(s);
    HalfUpByAdding(ig * 65535, Max(s), 128 * Num(s));
  }

  lemma HalfUpByAdding(P: nat, D: nat, h: nat)
    requires D > 1 && 2 * h == D + 1
    ensures (P + h) / D == HalfUp(P, D)
  {
    var q, m := P / D, P % D;
    DivMod(P, D);
    MulAdd(q, 1, D);
    if m >= D / 2 {
      QuotientOf(P + h, D, q + 1, m + h - D);
    } else {
      QuotientOf(P + h, D, q, m + h);
    }
  }

  /** The one sample at each odd shift for which the rounding goes the wrong way. */
  const MISROUNDED: seq<nat> := [65536, 16383, 65536, 585, 65536, 33, 65536, 171, 65536]

  lemma MisroundedAt1(ig: nat)
    requires ig <= 32767
    ensures ig * 65535 % 32767 == 16383 <==> ig == 16383
  {
    if ig * 65535 % 32767 == 16383 {
      var k := ig * 65535 / 32767 - 2 * ig;
      assert 1 * ig == 32767 * k + 16383;
      assert ig == 16383 + 32767 * (1 * k - 0 * ig + 0);
    }
  }

  lemma MisroundedAt3(ig: nat)
    requires ig <= 8191
    ensures ig * 65535 % 8191 == 4095 <==> ig == 585
  {
    if ig * 65535 % 8191 == 4095 {
      var k := ig * 65535 / 8191 - 8 * ig;
      assert 7 * ig == 8191 * k + 4095;
      assert ig == 585 + 8191 * (7021 * k - 6 * ig + 3510);
    }
  }

  lemma MisroundedAt5(ig: nat)
    requires ig <= 2047
    ensures ig * 65535 % 2047 == 1023 <==> ig == 33
  {
    if ig * 65535 % 2047 == 1023 {
      var k := ig * 65535 / 2047 - 32 * ig;
      assert 31 * ig == 2047 * k + 1023;
      assert ig == 33 + 2047 * (1981 * k - 30 * ig + 990);
    }
  }

  lemma MisroundedAt7(ig: nat)
    requires ig <= 511
    ensures ig * 65535 % 511 == 255 <==> ig == 171
  {
    if ig * 65535 % 511 == 255 {
      var k := ig * 65535 / 511 - 128 * ig;
      assert 127 * ig == 511 * k + 255;
      assert ig == 171 + 511 * (169 * k - 42 * ig + 84);
    }
  }

  lemma NeverMisrounded(ig: nat)
    ensures ig * 65535 % 16383 != 8191 && ig * 65535 % 4095 != 2047 && ig * 65535 % 1023 != 511
            && ig * 65535 % 255 != 127
  {
    var k2, k4, k6 := ig * 65535 / 16383, ig * 65535 / 4095, ig * 65535 / 1023;
    assert ig * 65535 % 16383 == 3 * (21845 * ig - 5461 * k2);
    assert ig * 65535 % 4095 == 15 * (4369 * ig - 273 * k4);
    assert ig * 65535 % 1023 == 3 * (21845 * ig - 341 * k6);
    assert ig * 65535 == 255 * (257 * ig);
  }

  /** Whether ig * 65535 leaves the remainder just below one half of max. */
  lemma MisroundedIff(s: Shift, ig: nat)
    requires 1 <= s && ig <= Max(s)
    ensures ig * 65535 % Max(s) == Max(s) / 2 <==> ig == MISROUNDED[s]
  {
    match s {
      case 1 => MisroundedAt1(ig);
      case 3 => MisroundedAt3(ig);
      case 5 => MisroundedAt5(ig);
      case 7 => MisroundedAt7(ig);
      case _ => NeverMisrounded(ig);
    }
  }

  /** The scaling is to the nearest 16-bit value, but for one sample at each odd shift. */
  lemma RescaleNearestIff(s: Shift, ig: nat)
    requires ig <= Max(s)
    ensures 2 * Abs(Rescale(s, ig) * Max(s) - ig * 65535) <= Max(s) <==> ig != MISROUNDED[s]
  {
    if s > 0 {
      MaxRange(s);
      RescaleIsHalfUp(s, ig);
      HalfUpNearestIff(ig * 65535, Max(s));
      MisroundedIff(s, ig);
    }
  }

  /** The entry for shifted sample ig: its correction, or just the rescaled sample when
      the gamma is not significant. */
  function Entry16(correct: nat -> nat, significant: bool, s: Shift, ig: nat): nat {
    if significant then correct(ig) else Rescale(s, ig)
  }

  /** png_build_16bit_table. */
  method Build16(s: Shift, significant: bool, correct: nat -> nat) returns (table: array2<nat>)
    ensures table.Length0 == Num(s) && table.Length1 == 256
    ensures forall v :: 0 <= v <= Max(s) ==>
              InTable(s, SlotOf(s, v)) && table[SlotOf(s, v).0, SlotOf(s, v).1] == Entry16(correct, significant, s, v)
  {
    table := new nat[Num(s), 256];
    var i := 0;
    while i < Num(s)
      invariant i <= Num(s) && fresh(table)
      invariant forall a, b :: 0 <= a < i && 0 <= b < 256 ==>
                table[a, b] == Entry16(correct, significant, s, b * Num(s) + a)
    {
      var j := 0;
      while j < 256
        invariant j <= 256 && fresh(table)
        invariant forall a, b :: 0 <= a < i && 0 <= b < 256 ==>
                  table[a, b] == Entry16(correct, significant, s, b * Num(s) + a)
        invariant forall b :: 0 <= b < j ==> table[i, b] == Entry16(correct, significant, s, b * Num(s) + i)
      {
        var ig := j * Num(s) + i;
        table[i, j] := if significant then correct(ig) else Rescale(s, ig);
        j := j + 1;
      }
      i := i + 1;
    }
    forall v | 0 <= v <= Max(s)
      ensures InTable(s, SlotOf(s, v)) && table[SlotOf(s, v).0, SlotOf(s, v).1] == Entry16(correct, significant, s, v)
    {
      SlotOfInTable(s, v);
    }
  }

  lemma ReadBack16(table: array2<nat>, correct: nat -> nat, significant: bool, s: Shift, iv: nat)
    requires table.Length0 == Num(s) && table.Length1 == 256 && iv <= 65535
    requires forall v :: 0 <= v <= Max(s) ==>
               InTable(s, SlotOf(s, v)) && table[SlotOf(s, v).0, SlotOf(s, v).1] == Entry16(correct, significant, s, v)
    ensures InTable(s, Lookup(s, iv))
    ensures table[Lookup(s, iv).0, Lookup(s, iv).1] == Entry16(correct, significant, s, iv / Unit(s))
  {
    LookupIsSlot(s, iv);
  }
}
