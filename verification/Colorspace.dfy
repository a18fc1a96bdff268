/** The colour space of a PNG as png.c accumulates it from gAMA, cHRM, sRGB and iCCP:
    a record of values and flags that the setters keep consistent. */
module Colorspace {
  import opened Arith
  import opened Bytes
  import opened FixedPoint
  import opened Chromaticity

  const GAMMA_SRGB_INVERSE: int := 45455
  const GAMMA_THRESHOLD: int := 5000
  const INTENT_LAST: int := 4

  const SRGB_XY := BT709
  const SRGB_XYZ := Xyz(Point(41239, 21264, 1933), Point(35758, 71517, 11919), Point(18048, 7219, 95053))

  /** One boolean for each flag of png_colorspace that the setters use. */
  datatype Space = Space(
    gamma: int,
    xy: Xy,
    xyz: Xyz,
    intent: int,
    haveGamma: bool,
    haveEndpoints: bool,
    haveIntent: bool,
    fromGama: bool,
    fromSrgb: bool,
    endpointsMatchSrgb: bool,
    matchesSrgb: bool,
    invalid: bool)

  /** Whether the struct is a read struct, and whether errors that a decoder may survive
      are fatal, that is, jump out of the setter. */
  datatype Host = Host(read: bool, fatal: bool)

  /** png_gamma_significant. */
  predicate Significant(g: int) {
    g < FP_1 - GAMMA_THRESHOLD || g > FP_1 + GAMMA_THRESHOLD
  }

  /** The two gammas are the same to within the threshold. */
  predicate SameGamma(old_: int, g: int) {
    match MulDiv(old_, FP_1, g)
    case Some(ratio) => !Significant(ratio)
    case None => false
  }

  datatype From = Estimate | Gama | Srgb

  /** png_colorspace_check_gamma: may the new value be written?  The second result is the
      report of an error. */
  function CheckGamma(c: Space, g: int, from: From): (bool, bool) {
    if c.haveGamma && !SameGamma(c.gamma, g) then
      if c.fromSrgb || from.Srgb? then (from.Srgb?, true) else (from.Gama?, false)
    else (true, false)
  }

  datatype Op =
    | SetGamma(g: int)
    | SetChromaticities(xy: Xy, preferred: int)
    | SetEndpoints(xyz: Xyz, preferred: int)
    | SetSrgb(intent: int)
    | SetIcc(profileOk: bool, srgbIntent: Option<int>)  // the checks; the intent of a known sRGB profile

  function Invalidate(c: Space): Space {
    c.(invalid := true)
  }

  function AfterGamma(c: Space, h: Host, g: int): Space {
    if g < 16 || g > 625000000 || (h.read && c.fromGama) then Invalidate(c)
    else if c.invalid || !CheckGamma(c, g, Gama).0 then c
    else c.(gamma := g, haveGamma := true, fromGama := true)
  }

  function AfterXyXyz(c: Space, xy: Xy, xyz: Xyz, preferred: int): Space {
    if c.invalid then c
    else if preferred < 2 && c.haveEndpoints && !EndpointsMatch(xy, c.xy, 100) then Invalidate(c)
    else if preferred == 0 && c.haveEndpoints then c
    else c.(xy := xy, xyz := xyz, haveEndpoints := true, endpointsMatchSrgb := EndpointsMatch(xy, SRGB_XY, 1000))
  }

  function AfterChromaticities(c: Space, xy: Xy, preferred: int): Space {
    match CheckXy(xy)
    case Good(xyz) => AfterXyXyz(c, xy, xyz, preferred)
    case _ => Invalidate(c)
  }

  /** End points on which the check overflows are counted as rejected here; `Defined` says
      which operations are free of that. */
  function AfterEndpoints(c: Space, v: Xyz, preferred: int): Space {
    match CheckXyz(v)
    case Good(p) => AfterXyXyz(c, p.0, p.1, preferred)
    case _ => Invalidate(c)
  }

  /** A rendering intent that does not exist, or is not the one already stored. */
  predicate IntentClashes(c: Space, intent: int) {
    intent < 0 || intent >= INTENT_LAST || (c.haveIntent && c.intent != intent)
  }

  /** An existing value differs from sRGB's, which is reported as an error. */
  predicate Clashes(c: Space) {
    (c.haveEndpoints && !EndpointsMatch(SRGB_XY, c.xy, 100)) || CheckGamma(c, GAMMA_SRGB_INVERSE, Srgb).1
  }

  function AfterSrgb(c: Space, h: Host, intent: int): Space {
    if c.invalid then c
    else if IntentClashes(c, intent) then Invalidate(c)
    else if c.fromSrgb || (h.fatal && Clashes(c)) then c
    else Space(GAMMA_SRGB_INVERSE, SRGB_XY, SRGB_XYZ, intent, true, true, true, c.fromGama, true, true, true, false)
  }

  function AfterIcc(c: Space, h: Host, profileOk: bool, srgbIntent: Option<int>): Space {
    if c.invalid then c
    else if !profileOk then Invalidate(c)
    else match srgbIntent case Some(intent) => AfterSrgb(c, h, intent) case None => c
  }

  function After(c: Space, h: Host, op: Op): Space {
    match op
    case SetGamma(g) => AfterGamma(c, h, g)
    case SetChromaticities(xy, preferred) => AfterChromaticities(c, xy, preferred)
    case SetEndpoints(v, preferred) => AfterEndpoints(c, v, preferred)
    case SetSrgb(intent) => AfterSrgb(c, h, intent)
    case SetIcc(ok, srgb) => AfterIcc(c, h, ok, srgb)
  }

  function AfterAll(c: Space, h: Host, ops: seq<Op>): Space {
    if ops == [] then c else After(AfterAll(c, h, ops[..|ops| - 1]), h, ops[|ops| - 1])
  }

  /** No signed addition of the operation overflows. */
  predicate Defined(op: Op) {
    op.SetEndpoints? ==> !EndpointsOverflow(op.xyz)
  }

  // ----- the setters -----

  class Holder {
    var c: Space

    /** A colour space as png_struct starts with it. */
    constructor ()
      ensures Empty(c)
    {
      c := Space(0, Xy(0, 0, 0, 0, 0, 0, 0, 0), Xyz(Point(0, 0, 0), Point(0, 0, 0), Point(0, 0, 0)), 0,
                 false, false, false, false, false, false, false, false);
    }

    /** A value out of range, or a second gAMA chunk in a read struct, invalidates the record
        and changes nothing else.  Any other value is stored in a valid record, unless the
        record is sRGB's and the value is not the same as the stored one to within the
        threshold.  Only the gamma and its flags change. */
    method StoreGamma(h: Host, g: int)
      modifies this
      ensures c == AfterGamma(old(c), h, g)
      ensures c == old(c).(gamma := c.gamma, haveGamma := c.haveGamma, fromGama := c.fromGama, invalid := c.invalid)
      ensures c.invalid <==> old(c).invalid || !(16 <= g <= 625000000) || (h.read && old(c).fromGama)
      ensures c.invalid ==> c == Invalidate(old(c))
      ensures !c.invalid && c != old(c) ==> c.gamma == g && c.haveGamma && c.fromGama
      ensures !c.invalid && !c.fromSrgb ==> c.gamma == g && c.haveGamma && c.fromGama
      ensures !c.invalid && old(c).haveGamma && c.fromSrgb ==>
                c.gamma == if SameGamma(old(c).gamma, g) then g else old(c).gamma
    {
      if g < 16 || g > 625000000 || (h.read && c.fromGama) {
        c := c.(invalid := true);
        return;
      }
      if c.invalid {
        return;
      }
      var write := CheckGamma(c, g, Gama).0;
      if write {
        c := c.(gamma := g);
        c := c.(haveGamma := true, fromGama := true);
      }
    }

    /** 0 for failure, 1 for no change, 2 for a change. */
    method StoreXyXyz(xy: Xy, xyz: Xyz, preferred: int) returns (r: int)
      modifies this
      ensures c == AfterXyXyz(old(c), xy, xyz, preferred)
      ensures r == 0 <==> c.invalid
      ensures r == 1 ==> c == old(c) && EndpointsMatch(xy, c.xy, 100)
      ensures r == 0 ==> c == Invalidate(old(c))
      ensures !old(c).invalid && (preferred >= 2 || !old(c).haveEndpoints) ==> r == 2
      ensures r != 0 && preferred == 0 && old(c).haveEndpoints ==> c.xy == old(c).xy && c.xyz == old(c).xyz
      ensures r != 0 && preferred < 2 && old(c).haveEndpoints ==> EndpointsMatch(xy, old(c).xy, 100)
      ensures r == 0 && !old(c).invalid ==> old(c).haveEndpoints && !EndpointsMatch(xy, old(c).xy, 100)
      ensures r == 2 ==> c.haveEndpoints && c.xy == xy && c.xyz == xyz
      ensures 0 <= r <= 2
    {
      if c.invalid {
        return 0;
      }
      if preferred < 2 && c.haveEndpoints {
        if !EndpointsMatch(xy, c.xy, 100) {
          c := c.(invalid := true);
          return 0;
        }
        if preferred == 0 {
          return 1;
        }
      }
      c := c.(xy := xy, xyz := xyz, haveEndpoints := true);
      var srgb := EndpointsMatch(xy, SRGB_XY, 1000);
      c := c.(endpointsMatchSrgb := srgb);
      return 2;
    }

    method StoreChromaticities(xy: Xy, preferred: int) returns (r: int)
      modifies this
      ensures c == AfterChromaticities(old(c), xy, preferred)
      ensures r == 0 <==> c.invalid
      ensures r == 0 ==> c == Invalidate(old(c))
      ensures r == 0 && !old(c).invalid && CheckXy(xy).Good? ==>
        preferred < 2 && old(c).haveEndpoints && !EndpointsMatch(xy, old(c).xy, 100)
      ensures r == 1 ==> c == old(c) && EndpointsMatch(xy, c.xy, 100)
      ensures r == 2 ==> c.haveEndpoints && c.xy == xy && CheckXy(xy) == Good(c.xyz)
    {
      match CheckXy(xy) {
        case Good(xyz) =>
          r := StoreXyXyz(xy, xyz, preferred);
        case Rejected =>
          c := c.(invalid := true);
          r := 0;
        case _ =>
          CheckXySafe(xy);
          assert false;
      }
    }

    /** Signed overflow in the check is excluded: the C language does not define what follows. */
    method StoreEndpoints(v: Xyz, preferred: int) returns (r: int)
      requires !EndpointsOverflow(v)
      modifies this
      ensures c == AfterEndpoints(old(c), v, preferred)
      ensures r == 0 <==> c.invalid
    {
      match CheckXyz(v) {
        case Good(p) =>
          r := StoreXyXyz(p.0, p.1, preferred);
        case Rejected =>
          c := c.(invalid := true);
          r := 0;
        case InternalError =>
          CheckXyzNeverInternal(v);
          assert false;
        case SignedOverflow =>
          CheckXyzOverflowsIff(v);
          assert false;
      }
    }

    /** The result says whether the setter stored sRGB's values. */
    method StoreSrgb(h: Host, intent: int) returns (stored: bool)
      modifies this
      ensures c == AfterSrgb(old(c), h, intent)
      ensures c.invalid <==> old(c).invalid || IntentClashes(old(c), intent)
      ensures stored <==> !c.invalid && !old(c).fromSrgb
                          && (h.fatal && old(c).haveEndpoints ==> EndpointsMatch(SRGB_XY, old(c).xy, 100))
                          && (h.fatal && old(c).haveGamma ==> SameGamma(old(c).gamma, GAMMA_SRGB_INVERSE))
      ensures stored ==> c.fromSrgb && !c.invalid && c.intent == intent
      ensures stored ==> c.gamma == GAMMA_SRGB_INVERSE && c.xy == SRGB_XY && c.xyz == SRGB_XYZ
      ensures !stored ==> c == old(c) || c == Invalidate(old(c))
    {
      stored := false;
      if c.invalid {
        return;
      }
      if intent < 0 || intent >= INTENT_LAST || (c.haveIntent && c.intent != intent) {
        c := c.(invalid := true);
        return;
      }
      if c.fromSrgb {
        return;
      }
      if c.haveEndpoints && !EndpointsMatch(SRGB_XY, c.xy, 100) && h.fatal {
        return;
      }
      var report := CheckGamma(c, GAMMA_SRGB_INVERSE, Srgb).1;
      if report && h.fatal {
        return;
      }
      c := c.(intent := intent, haveIntent := true);
      c := c.(xy := SRGB_XY, xyz := SRGB_XYZ);
      c := c.(haveEndpoints := true, endpointsMatchSrgb := true);
      c := c.(gamma := GAMMA_SRGB_INVERSE, haveGamma := true);
      c := c.(matchesSrgb := true, fromSrgb := true);
      stored := true;
    }

    /** The result says that the record was valid and the profile sound, not that the record
        is still valid: a known sRGB profile whose intent is out of range or disagrees with the
        stored one invalidates it, and the result is true all the same.  Only such a profile
        changes any value, and what it stores is all of sRGB. */
    method StoreIcc(h: Host, profileOk: bool, srgbIntent: Option<int>) returns (ok: bool)
      modifies this
      ensures c == AfterIcc(old(c), h, profileOk, srgbIntent)
      ensures ok <==> !old(c).invalid && profileOk
      ensures !ok ==> c == Invalidate(old(c))
      ensures ok ==> (c.invalid <==> srgbIntent.Some? && IntentClashes(old(c), srgbIntent.value))
      ensures c != old(c) && !c.invalid ==>
                && srgbIntent.Some? && c.intent == srgbIntent.value && c.fromSrgb
                && c.gamma == GAMMA_SRGB_INVERSE && c.xy == SRGB_XY && c.xyz == SRGB_XYZ
    {
      if c.invalid {
        return false;
      }
      if !profileOk {
        c := c.(invalid := true);
        return false;
      }
      if srgbIntent.Some? {
        var _ := StoreSrgb(h, srgbIntent.value);
      }
      return true;
    }

    /** One chunk. */
    method Apply(h: Host, op: Op)
      requires Defined(op)
      modifies this
      ensures c == After(old(c), h, op)
    {
      match op {
        case SetGamma(g) => StoreGamma(h, g);
        case SetChromaticities(xy, preferred) => var _ := StoreChromaticities(xy, preferred);
        case SetEndpoints(v, preferred) => var _ := StoreEndpoints(v, preferred);
        case SetSrgb(intent) => var _ := StoreSrgb(h, intent);
        case SetIcc(ok, srgb) => var _ := StoreIcc(h, ok, srgb);
      }
    }

    /** Any sequence of setters, on the record itself: it stays consistent, an invalid record
        stays as it is, and a record that was ever invalid stays invalid. */
    method Run(h: Host, ops: seq<Op>)
      requires forall k :: 0 <= k < |ops| ==> Defined(ops[k])
      modifies this
      ensures c == AfterAll(old(c), h, ops)
      ensures Consistent(old(c), h) ==> Consistent(c, h)
      ensures old(c).invalid ==> c == old(c)
    {
      ghost var start := c;
      var k := 0;
      while k < |ops|
        invariant k <= |ops| && c == AfterAll(start, h, ops[..k])
        invariant Consistent(start, h) ==> Consistent(c, h)
      {
        if Consistent(start, h) {
          StepKeeps(c, h, ops[k]);
        }
        Apply(h, ops[k]);
        k := k + 1;
        assert ops[..k][..k - 1] == ops[..k - 1];
      }
      assert ops[..k] == ops;
      if start.invalid {
        InvalidFreezes(start, h, ops);
      }
    }
  }

  // ----- what every run keeps -----

  /** Gammas that libpng takes to be sRGB's. */
  predicate NearSrgb(g: int) {
    43291 <= g <= 47847
  }

  /** The range is exactly what the ratio test accepts. */
  lemma NearSrgbIff(g: int)
    requires g >= 16
    ensures SameGamma(GAMMA_SRGB_INVERSE, g) <==> NearSrgb(g)
  {
    var n := GAMMA_SRGB_INVERSE * FP_1;
    var q := RoundDiv(n, g);
    RatioBounds(n, g, q);
  }

  lemma RatioBounds(n: int, g: int, q: int)
    requires n == 4545500000 && g >= 16 && 2 * (q * g) <= 2 * n + g < 2 * (q * g) + 2 * g
    ensures 95000 <= q <= 105000 <==> 43291 <= g <= 47847
    ensures 0 <= q <= 0x7FFF_FFFF
  {
    Bracket(q, g, 95000);
    Bracket(q, g, 105001);
    Bracket(q, g, 0);
    Bracket(q, g, 0x8000_0000);
  }

  predicate EndpointsAgree(xy: Xy, xyz: Xyz) {
    XyFromXyz(xyz).Good? && EndpointsMatch(xy, XyFromXyz(xyz).value, 5)
  }

  predicate Consistent(c: Space, h: Host) {
    && (c.endpointsMatchSrgb <==> c.haveEndpoints && EndpointsMatch(c.xy, SRGB_XY, 1000))
    && (c.haveEndpoints ==> EndpointsAgree(c.xy, c.xyz) && Sound(c.xyz))
    && (c.haveGamma ==> 16 <= c.gamma <= 625000000)
    && (c.haveIntent ==> 0 <= c.intent < INTENT_LAST)
    && (c.fromGama ==> c.haveGamma)
    && (c.fromSrgb <==> c.matchesSrgb)
    && (c.fromSrgb ==> c.haveGamma && c.haveEndpoints && c.haveIntent)
    && (c.fromSrgb && h.read ==> NearSrgb(c.gamma) && (!c.fromGama ==> c.gamma == GAMMA_SRGB_INVERSE))
  }

  lemma SrgbChroma(p: Point, x: int, y: int, d: int)
    requires d == p.X + p.Y + p.Z && 0 <= p.X < 1000000 && 0 <= p.Y < 1000000 && 0 <= p.Z < 1000000 && d > 0
    requires 2 * (x * d) <= 2 * (p.X * FP_1) + d < 2 * (x * d) + 2 * d && Int32(x)
    requires 2 * (y * d) <= 2 * (p.Y * FP_1) + d < 2 * (y * d) + 2 * d && Int32(y)
    ensures PointChroma(p) == Good(Chroma(x, y, d))
  {
    RoundDivIs(p.X * FP_1, d, x);
    RoundDivIs(p.Y * FP_1, d, y);
  }

  lemma FreshStored(c: Space, xy: Xy, xyz: Xyz, preferred: int)
    requires !c.invalid && !c.haveEndpoints && CheckXy(xy) == Good(xyz)
    ensures AfterChromaticities(c, xy, preferred)
         == c.(xy := xy, xyz := xyz, haveEndpoints := true, endpointsMatchSrgb := EndpointsMatch(xy, SRGB_XY, 1000))
  {
  }

  lemma MatchesItself(xy: Xy)
    ensures EndpointsMatch(xy, xy, 1000)
  {
  }

  /** A cHRM chunk with the primaries of sRGB gives a fresh colour space the end points of ITU-R
      BT.709, and the colour space is known to match sRGB. */
  lemma SrgbChromaticities(c: Space, preferred: int)
    requires !c.invalid && !c.haveEndpoints
    ensures AfterChromaticities(c, SRGB_XY, preferred)
         == c.(xy := SRGB_XY, xyz := BT709_XYZ, haveEndpoints := true, endpointsMatchSrgb := true)
  {
    Bt709Accepted();
    FreshStored(c, BT709, BT709_XYZ, preferred);
    MatchesItself(BT709);
  }

  /** sRGB's two forms of the end points agree. */
  lemma SrgbAgrees()
    ensures EndpointsAgree(SRGB_XY, SRGB_XYZ)
  {
    SrgbChroma(SRGB_XYZ.red, 64000, 33000, 64436);
    SrgbChroma(SRGB_XYZ.green, 30000, 60001, 119194);
    SrgbChroma(SRGB_XYZ.blue, 15000, 6000, 120320);
    SrgbChroma(Point(95045, 100000, 108905), 31270, 32900, 303950);
    RoundDivIs(95045 * FP_1, 303950, 31270);
    RoundDivIs(100000 * FP_1, 303950, 32900);
  }

  lemma CheckedAgree(xy: Xy)
    requires CheckXy(xy).Good?
    ensures EndpointsAgree(xy, CheckXy(xy).value)
  {
  }

  lemma CheckedXyzAgree(v: Xyz)
    requires CheckXyz(v).Good?
    ensures EndpointsAgree(CheckXyz(v).value.0, CheckXyz(v).value.1)
  {
  }

  lemma XyXyzKeeps(c: Space, h: Host, xy: Xy, xyz: Xyz, preferred: int)
    requires Consistent(c, h) && EndpointsAgree(xy, xyz) && Sound(xyz)
    ensures Consistent(AfterXyXyz(c, xy, xyz, preferred), h)
  {
  }

  lemma GammaKeeps(c: Space, h: Host, g: int)
    requires Consistent(c, h)
    ensures Consistent(AfterGamma(c, h, g), h)
  {
    if g >= 16 {
      NearSrgbIff(g);
    }
  }

  lemma SrgbKeeps(c: Space, h: Host, intent: int)
    requires Consistent(c, h)
    ensures Consistent(AfterSrgb(c, h, intent), h)
  {
    SrgbAgrees();
  }

  /** Every setter keeps the record consistent. */
  lemma StepKeeps(c: Space, h: Host, op: Op)
    requires Consistent(c, h)
    ensures Consistent(After(c, h, op), h)
  {
    match op {
      case SetGamma(g) => GammaKeeps(c, h, g);
      case SetChromaticities(xy, preferred) =>
        if CheckXy(xy).Good? {
          CheckedAgree(xy);
          CheckedXySound(xy);
          XyXyzKeeps(c, h, xy, CheckXy(xy).value, preferred);
        }
      case SetEndpoints(v, preferred) =>
        if CheckXyz(v).Good? {
          CheckedXyzAgree(v);
          CheckedXyzSound(v);
          XyXyzKeeps(c, h, CheckXyz(v).value.0, CheckXyz(v).value.1, preferred);
        }
      case SetSrgb(intent) => SrgbKeeps(c, h, intent);
      case SetIcc(ok, srgb) =>
        if srgb.Some? {
          SrgbKeeps(c, h, srgb.value);
        }
    }
  }

  predicate Empty(c: Space) {
    && !c.haveGamma && !c.haveEndpoints && !c.haveIntent && !c.fromGama && !c.fromSrgb
    && !c.endpointsMatchSrgb && !c.matchesSrgb && !c.invalid
  }

  /** After any sequence of setters (end points on which the check overflows counting as
      rejected) the flags tell the truth about the values: the end
      points match sRGB exactly when flagged, their two forms agree, their colorants add up
      to a white that is not black, and in a read struct
      an sRGB gamma stays within the threshold of sRGB's. */
  lemma {:induction false} RunsStayConsistent(c: Space, h: Host, ops: seq<Op>)
    requires Empty(c)
    ensures Consistent(AfterAll(c, h, ops), h)
    decreases |ops|
  {
    if ops != [] {
      RunsStayConsistent(c, h, ops[..|ops| - 1]);
      StepKeeps(AfterAll(c, h, ops[..|ops| - 1]), h, ops[|ops| - 1]);
    }
  }

  /** An invalid colour space stays as it is, whatever comes. */
  lemma {:induction false} InvalidFreezes(c: Space, h: Host, ops: seq<Op>)
    requires c.invalid
    ensures AfterAll(c, h, ops) == c
    decreases |ops|
  {
    if ops != [] {
      InvalidFreezes(c, h, ops[..|ops| - 1]);
    }
  }

  /** A stored gamma has a reciprocal that fits. */
  lemma GammaInvertible(c: Space, h: Host, ops: seq<Op>)
    requires Empty(c) && AfterAll(c, h, ops).haveGamma
    ensures 16 <= Reciprocal(AfterAll(c, h, ops).gamma) <= 625000000
  {
    RunsStayConsistent(c, h, ops);
    var g := AfterAll(c, h, ops).gamma;
    ReciprocalBounds(g);
    Bracket(Reciprocal(g), g, 16);
    Bracket(Reciprocal(g), g, 625000001);
  }

  /** A struct for writing does not keep the gamma near sRGB's: it may drift in steps. */
  lemma WriteStructDrifts(c: Space)
    requires Empty(c)
    ensures var d := AfterAll(c, Host(false, false), [SetSrgb(0), SetGamma(43291), SetGamma(41230)]);
            d.fromSrgb && !d.invalid && d.gamma == 41230 && !NearSrgb(d.gamma)
  {
    var h := Host(false, false);
    var c1 := After(c, h, SetSrgb(0));
    NearSrgbIff(43291);
    var c2 := After(c1, h, SetGamma(43291));
    RoundDivIs(43291 * FP_1, 41230, 104999);
    var c3 := After(c2, h, SetGamma(41230));
    var ops := [SetSrgb(0), SetGamma(43291), SetGamma(41230)];
    assert ops[..2] == [SetSrgb(0), SetGamma(43291)] && ops[..2][..1] == [SetSrgb(0)] && ops[..1][..0] == [];
    assert AfterAll(c, h, ops[..1]) == c1;
    assert AfterAll(c, h, ops[..2]) == c2;
  }

  /** In a struct for writing a gamma call keeps the gamma near sRGB's exactly when the
      value is refused or itself near. */
  lemma WriteStructKeepsIff(c: Space, fatal: bool, g: int)
    requires Consistent(c, Host(false, fatal)) && c.fromSrgb && !c.invalid && NearSrgb(c.gamma)
    ensures NearSrgb(After(c, Host(false, fatal), SetGamma(g)).gamma)
       <==> !(16 <= g <= 625000000 && SameGamma(c.gamma, g)) || NearSrgb(g)
  {
  }

  /** A gamma that is near sRGB's, or one that no record takes. */
  predicate Tame(op: Op) {
    op.SetGamma? ==> NearSrgb(op.g) || !(16 <= op.g <= 625000000)
  }

  predicate NearGamma(c: Space) {
    c.haveGamma ==> NearSrgb(c.gamma)
  }

  /** End points leave the gamma alone. */
  lemma XyXyzKeepsGamma(c: Space, xy: Xy, xyz: Xyz, preferred: int)
    ensures NearGamma(AfterXyXyz(c, xy, xyz, preferred)) <==> NearGamma(c)
  {
  }

  lemma SrgbNear(c: Space, h: Host, intent: int)
    requires NearGamma(c)
    ensures NearGamma(AfterSrgb(c, h, intent))
  {
  }

  lemma GammaNear(c: Space, h: Host, g: int)
    requires NearGamma(c) && Tame(SetGamma(g))
    ensures NearGamma(AfterGamma(c, h, g))
  {
  }

  lemma TameStep(c: Space, h: Host, op: Op)
    requires Tame(op) && NearGamma(c)
    ensures NearGamma(After(c, h, op))
  {
    match op {
      case SetGamma(g) => GammaNear(c, h, g);
      case SetChromaticities(xy, preferred) =>
        if CheckXy(xy).Good? {
          XyXyzKeepsGamma(c, xy, CheckXy(xy).value, preferred);
        }
      case SetEndpoints(v, preferred) =>
        if CheckXyz(v).Good? {
          XyXyzKeepsGamma(c, CheckXyz(v).value.0, CheckXyz(v).value.1, preferred);
        }
      case SetSrgb(intent) => SrgbNear(c, h, intent);
      case SetIcc(ok, srgb) =>
        if srgb.Some? {
          SrgbNear(c, h, srgb.value);
        }
    }
  }

  /** Over whole runs, in structs for reading and writing alike: when every gamma set is near
      sRGB's or out of range, the gamma of a record from sRGB is near sRGB's. */
  lemma {:induction false} TameRunsStayNear(c: Space, h: Host, ops: seq<Op>)
    requires Empty(c) && forall k :: 0 <= k < |ops| ==> Tame(ops[k])
    ensures NearGamma(AfterAll(c, h, ops))
    decreases |ops|
  {
    if ops != [] {
      TameRunsStayNear(c, h, ops[..|ops| - 1]);
      TameStep(AfterAll(c, h, ops[..|ops| - 1]), h, ops[|ops| - 1]);
    }
  }
}
