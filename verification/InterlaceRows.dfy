/** The row-delivery machine of pngpread.c: which row callbacks an interlaced image
    produces, with the application's PNG_INTERLACE expansion on or off. */
module InterlaceRows {
  import opened Bytes
  import opened Adam7

  /** One row callback: pass, row number, and the decoded row shown (None for NULL). */
  datatype Delivery = Delivery(pass: nat, row: nat, source: Option<nat>)

  // png_pass_start, png_pass_inc, png_pass_ystart, png_pass_yinc
  const PASS_START: seq<nat> := [0, 4, 0, 2, 0, 1, 0]
  const PASS_INC: seq<nat> := [8, 8, 4, 4, 2, 2, 1]
  const PASS_YSTART: seq<nat> := [0, 0, 4, 0, 2, 0, 1]
  const PASS_YINC: seq<nat> := [8, 8, 8, 4, 4, 2, 2]

  /** The arrays of png_read_push_finish_row agree with the macros of png.h. */
  lemma TablesAgree(p: Pass)
    ensures PASS_START[p] == StartCol(p) && PASS_INC[p] == ColOffset(p)
    ensures PASS_YSTART[p] == StartRow(p) && PASS_YINC[p] == RowOffset(p)
  {
    Geometry(p);
  }

  // ----- the promise, with expansion -----

  predicate SkippedForWidth(p: nat, width: nat) {
    (p == 1 && width < 5) || (p == 3 && width < 3) || (p == 5 && width < 2)
  }

  /** Rows painted by one decoded row of the pass. */
  function BlockHeight(p: Pass): nat {
    match p case 0 => 8 case 1 => 8 case 2 => 4 case 3 => 4 case 4 => 2 case 5 => 2 case _ => 1
  }

  predicate Painted(p: Pass, r: nat) {
    r >= YStart(p) && (r - YStart(p)) % YStep(p) < BlockHeight(p)
  }

  /** What row r of pass p must deliver when the pass's decoded rows start at `base`. */
  function Promised(p: Pass, r: nat, base: nat): Delivery {
    Delivery(p, r, Source(p, r, base))
  }

  function Source(p: Pass, r: nat, base: nat): Option<nat> {
    if Painted(p, r) then Some(base + (r - YStart(p)) / YStep(p)) else None
  }

  /** The number of rows the decoder produces for the pass. */
  function RowsIn(height: nat, p: Pass): nat
    requires height >= 1
  {
    Lines(height, YStart(p), YStep(p))
  }

  function ColsIn(width: nat, p: Pass): nat
    requires width >= 1
  {
    Lines(width, XStart(p), XStep(p))
  }

  /** Those are PNG_PASS_ROWS and PNG_PASS_COLS. */
  lemma CountsAreMacros(n: nat, p: Pass)
    requires n >= 1
    ensures RowsIn(n, p) == PassRows(n, p) && ColsIn(n, p) == PassCols(n, p)
  {
    MacrosAreLines(n, p);
  }

  function PassTrace(p: Pass, r: nat, height: nat, base: nat): seq<Delivery>
    requires r <= height
    decreases height - r
  {
    if r == height then [] else [Promised(p, r, base)] + PassTrace(p, r + 1, height, base)
  }

  function NextPass(p: nat, width: nat): nat {
    var q := p + 1;
    var q := if SkippedForWidth(q, width) then q + 1 else q;
    if q > 7 then 7 else q
  }

  /** Everything still owed from row r of pass p on. */
  function Owed(p: nat, r: nat, width: nat, height: nat, base: nat): seq<Delivery>
    requires p <= 7 && r <= height && height >= 1
    decreases 7 - p
  {
    if p == 7 then []
    else PassTrace(p, r, height, base)
         + Owed(NextPass(p, width), 0, width, height, base + RowsIn(height, p))
  }

  /** The number of decoded rows that the passes from p on hold. */
  function RowsFrom(p: nat, width: nat, height: nat): nat
    requires p <= 7 && height >= 1
    decreases 7 - p
  {
    if p == 7 then 0 else RowsIn(height, p) + RowsFrom(NextPass(p, width), width, height)
  }

  /** Between decoded rows the machine stands where the next decoded row belongs. */
  predicate Ready(p: nat, r: nat, height: nat) {
    p == 7 || (p < 7 && r < height && r >= YStart(p) && (r - YStart(p)) % YStep(p) == 0)
  }

  class Rows {
    const width: nat
    const height: nat
    const expand: bool  // (transformations & PNG_INTERLACE) != 0
    var pass: nat
    var rowNumber: nat
    var numRows: nat
    var iwidth: nat
    var trace: seq<Delivery>

    ghost predicate Valid()
      reads this
    {
      && width >= 1 && height >= 1 && pass <= 7 && rowNumber <= numRows
      && (pass < 7 ==> rowNumber < numRows) && (expand ==> numRows == height)
      && (pass < 7 ==> !SkippedForWidth(pass, width))
    }

    constructor (width: nat, height: nat, expand: bool)
      requires width >= 1 && height >= 1
      ensures this.width == width && this.height == height && this.expand == expand
      ensures Valid() && pass == 0 && rowNumber == 0 && trace == []
      ensures iwidth == ColsIn(width, 0) && numRows == if expand then height else RowsIn(height, 0)
    {
      this.width, this.height, this.expand := width, height, expand;
      pass, rowNumber, trace := 0, 0, [];
      numRows := if expand then height else (height + 7) / 8;
      iwidth := (width + 7) / 8;
    }

    /** png_read_push_finish_row of an interlaced image, with expansion. */
    method FinishRow()
      requires Valid() && expand && pass < 7
      modifies this`pass, this`rowNumber, this`iwidth
      ensures Valid()
      ensures if old(rowNumber) + 1 < height then pass == old(pass) && rowNumber == old(rowNumber) + 1
              && iwidth == old(iwidth)
              else pass == NextPass(old(pass), width) && rowNumber == 0
                   && (pass < 7 ==> iwidth == ColsIn(width, pass))
    {
      rowNumber := rowNumber + 1;
      if rowNumber < numRows {
        return;
      }
      rowNumber := 0;
      AdvancePass();
    }

    /** The row count and width of the current pass are those of the pass. */
    ghost predicate Sized()
      reads this
    {
      pass < 7 ==> height >= 1 && width >= 1 && numRows == RowsIn(height, pass) && iwidth == ColsIn(width, pass)
    }

    /** png_read_push_finish_row of an interlaced image, without expansion: the loop
        looks for the next pass that holds pixels. */
    method FinishPlainRow()
      requires Valid() && !expand && pass < 7 && Sized()
      modifies this`pass, this`rowNumber, this`iwidth, this`numRows
      ensures Valid() && Sized()
      ensures if old(rowNumber) + 1 < old(numRows) then pass == old(pass) && rowNumber == old(rowNumber) + 1
              else pass == NextFilled(old(pass), width, height) && rowNumber == 0
    {
      rowNumber := rowNumber + 1;
      if rowNumber < numRows {
        return;
      }
      rowNumber := 0;
      FindFilledPass();
    }

    /** The do-while loop. */
    method FindFilledPass()
      requires width >= 1 && height >= 1 && pass < 7 && !expand
      modifies this`pass, this`iwidth, this`numRows
      ensures pass == NextFilled(old(pass), width, height) && Sized()
      ensures pass < 7 ==> !SkippedForWidth(pass, width)
    {
      var again := true;
      while again
        invariant pass <= 7 && (again || Sized())
        invariant again ==> pass < 7 && NextFilled(pass, width, height) == NextFilled(old(pass), width, height)
        invariant !again ==> pass == NextFilled(old(pass), width, height)
        invariant !again && pass < 7 ==> !SkippedForWidth(pass, width)
        decreases 7 - pass, again
      {
        RoundFinds(pass, width, height);
        AdvancePass();
        if pass >= 7 {
          return;
        }
        numRows := (height + PASS_YINC[pass] - 1 - PASS_YSTART[pass]) / PASS_YINC[pass];
        again := iwidth == 0 || numRows == 0;
      }
    }

    /** One round of the do-while loop, up to the width computation. */
    method AdvancePass()
      requires width >= 1 && pass <= 7
      modifies this`pass, this`iwidth
      ensures pass == NextPass(old(pass), width)
      ensures pass < 7 ==> !SkippedForWidth(pass, width) && iwidth == ColsIn(width, pass)
    {
      pass := pass + 1;
      if (pass == 1 && width < 5) || (pass == 3 && width < 3) || (pass == 5 && width < 2) {
        pass := pass + 1;
      }
      if pass > 7 {
        pass := pass - 1;
      }
      if pass >= 7 {
        return;
      }
      iwidth := (width + PASS_INC[pass] - 1 - PASS_START[pass]) / PASS_INC[pass];
    }

    /** png_push_have_row then png_read_push_finish_row. */
    method Deliver(source: Option<nat>)
      requires Valid() && expand && pass < 7
      modifies this
      ensures Valid() && numRows == old(numRows)
      ensures trace == old(trace) + [Delivery(old(pass), old(rowNumber), source)]
      ensures if old(rowNumber) + 1 < height then pass == old(pass) && rowNumber == old(rowNumber) + 1
              else pass == NextPass(old(pass), width) && rowNumber == 0
    {
      trace := trace + [Delivery(pass, rowNumber, source)];
      FinishRow();
    }

    /** What the callbacks so far and the ones still owed add up to, and the number of
        decoded rows used and still to be used. */
    ghost function Whole(base: nat): (seq<Delivery>, nat)
      requires Valid() && expand
      reads this
    {
      Bill(trace, pass, rowNumber, width, height, base)
    }

    /** One promised callback changes the whole not at all. */
    method DeliverPromised(source: Option<nat>, ghost base: nat) returns (ghost base': nat)
      requires Valid() && expand && pass < 7 && Source(pass, rowNumber, base) == source
      modifies this
      ensures Valid() && numRows == old(numRows) && Whole(base') == old(Whole(base))
      ensures if old(rowNumber) + 1 < height
              then pass == old(pass) && rowNumber == old(rowNumber) + 1 && base' == base
              else pass == NextPass(old(pass), width) && rowNumber == 0 && base' == base + RowsIn(height, old(pass))
    {
      assert Promised(pass, rowNumber, base) == Delivery(pass, rowNumber, source);
      if rowNumber + 1 < height {
        BillWithin(trace, pass, rowNumber, width, height, base);
        base' := base;
      } else {
        BillAcross(trace, pass, rowNumber, width, height, base);
        base' := base + RowsIn(height, pass);
      }
      ghost var was, t := Whole(base), trace + [Delivery(pass, rowNumber, source)];
      Deliver(source);
      assert trace == t;
      assert was == Bill(t, pass, rowNumber, width, height, base');
    }

    /** The loops that send rows until the pass changes: a stretch of rows that all show the
        same source is delivered as promised. */
    method DeliverRun(source: Option<nat>, count: nat, ghost base: nat) returns (ghost base': nat)
      requires Valid() && expand && pass < 7
      requires forall r: nat :: rowNumber <= r < height && r < rowNumber + count ==> Source(pass, r, base) == source
      modifies this
      ensures Valid() && numRows == old(numRows) && Whole(base') == old(Whole(base))
      ensures if old(rowNumber) + count < height
              then pass == old(pass) && rowNumber == old(rowNumber) + count && base' == base
              else pass == NextPass(old(pass), width) && rowNumber == 0 && base' == base + RowsIn(height, old(pass))
    {
      var p := pass;
      base' := base;
      var i := 0;
      while i < count && pass == p
        invariant Valid() && numRows == old(numRows) && i <= count
        invariant Whole(base') == old(Whole(base))
        invariant if old(rowNumber) + i < height
                  then pass == p && rowNumber == old(rowNumber) + i && base' == base
                  else pass == NextPass(p, width) && rowNumber == 0 && base' == base + RowsIn(height, p)
      {
        base' := DeliverPromised(source, base');
        i := i + 1;
      }
    }

    /** The next decoded row is number d and belongs at the current position. */
    ghost predicate Expecting(d: nat, base: nat)
      reads this
    {
      && Valid() && expand && Ready(pass, rowNumber, height)
      && d == if pass == 7 then base else base + (rowNumber - YStart(pass)) / YStep(pass)
    }

    /** The rows painted by decoded row d. */
    method Paint(d: nat, count: nat, ghost base: nat) returns (ghost base': nat)
      requires Expecting(d, base) && pass < 7 && count == BlockHeight(pass)
      modifies this
      ensures Valid() && numRows == old(numRows) && Whole(base') == old(Whole(base))
      ensures if old(rowNumber) + BlockHeight(old(pass)) < height
              then pass == old(pass) && rowNumber == old(rowNumber) + BlockHeight(pass) && base' == base
              else pass == NextPass(old(pass), width) && rowNumber == 0 && base' == d + 1
    {
      PaintedRun(pass, rowNumber, base);
      LastRow(pass, rowNumber, height);
      base' := DeliverRun(Some(d), count, base);
    }

    /** NULL rows between the last painted row and the next line of the pass. */
    method PadGap(count: nat, ghost d: nat, ghost base: nat) returns (ghost base': nat)
      requires Valid() && expand && pass < 7 && rowNumber >= BlockHeight(pass)
      requires var r := rowNumber - BlockHeight(pass);
               r >= YStart(pass) && (r - YStart(pass)) % YStep(pass) == 0
                   && d == base + (r - YStart(pass)) / YStep(pass)
      requires count > 0 && count == YStep(pass) - BlockHeight(pass)
      modifies this
      ensures Valid() && numRows == old(numRows) && Whole(base') == old(Whole(base))
      ensures if pass == old(pass) then Expecting(d + 1, base')
              else pass == NextPass(old(pass), width) && rowNumber == 0 && base' == d + 1
    {
      ghost var r := rowNumber - BlockHeight(pass);
      PaintedRun(pass, r, base);
      LastRow(pass, r, height);
      NextLine(pass, r);
      base' := DeliverRun(None, count, base);
    }

    /** NULL rows above the first line of a pass; an image too low for the pass ends it. */
    method PadHead(count: nat, ghost base: nat) returns (ghost base': nat)
      requires Valid() && expand && pass < 7 && rowNumber == 0 && count > 0 && count == YStart(pass)
      modifies this
      ensures Valid() && numRows == old(numRows) && Whole(base') == old(Whole(base)) && base' == base
      ensures if YStart(old(pass)) < height then pass == old(pass) && Expecting(base, base)
              else pass == NextPass(old(pass), width) && rowNumber == 0
    {
      Unpainted(pass, base, height);
      base' := DeliverRun(None, count, base);
    }

    method ProcessPass0(d: nat, ghost base: nat) returns (ghost base': nat)
      requires Expecting(d, base) && pass == 0
      modifies this
      ensures Expecting(d + 1, base') && Whole(base') == old(Whole(base))
    {
      NextLine(0, rowNumber);
      base' := Paint(d, 8, base);
      base' := AfterPass0(d + 1, base');
    }

    /** A narrow image has no pass 1; a low one may then hold no data before pass 3, 5,
        or the end. */
    method AfterPass0(ghost d: nat, ghost base: nat) returns (ghost base': nat)
      requires Valid() && expand
      requires if pass == 2 then rowNumber == 0 && base == d else pass <= 1 && Expecting(d, base)
      modifies this
      ensures Expecting(d, base') && Whole(base') == old(Whole(base))
    {
      base' := base;
      if pass == 2 {
        base' := PadHead(4, base');
      }
      if pass == 4 && height <= 4 {
        base' := PadHead(2, base');
      }
      if pass == 6 && height <= 4 {
        base' := PadHead(1, base');
      }
    }

    method ProcessPass1(d: nat, ghost base: nat) returns (ghost base': nat)
      requires Expecting(d, base) && pass == 1
      modifies this
      ensures Expecting(d + 1, base') && Whole(base') == old(Whole(base))
    {
      NextLine(1, rowNumber);
      assert width >= 5;
      base' := Paint(d, 8, base);
      if pass == 2 {
        assert NextPass(2, width) == 3;
        base' := PadHead(4, base');
      }
    }

    method ProcessPass2(d: nat, ghost base: nat) returns (ghost base': nat)
      requires Expecting(d, base) && pass == 2
      modifies this
      ensures Expecting(d + 1, base') && Whole(base') == old(Whole(base))
    {
      base' := Paint(d, 4, base);
      if pass == 2 {
        base' := PadGap(4, d, base');
      }
      if pass == 4 {  // pass 3 is empty
        base' := PadHead(2, base');
      }
    }

    method ProcessPass3(d: nat, ghost base: nat) returns (ghost base': nat)
      requires Expecting(d, base) && pass == 3
      modifies this
      ensures Expecting(d + 1, base') && Whole(base') == old(Whole(base))
    {
      NextLine(3, rowNumber);
      base' := Paint(d, 4, base);
      if pass == 4 {
        base' := PadHead(2, base');
      }
    }

    method ProcessPass4(d: nat, ghost base: nat) returns (ghost base': nat)
      requires Expecting(d, base) && pass == 4
      modifies this
      ensures Expecting(d + 1, base') && Whole(base') == old(Whole(base))
    {
      base' := Paint(d, 2, base);
      if pass == 4 {
        base' := PadGap(2, d, base');
      }
      if pass == 6 {  // pass 5 is empty
        base' := PadHead(1, base');
      }
    }

    method ProcessPass5(d: nat, ghost base: nat) returns (ghost base': nat)
      requires Expecting(d, base) && pass == 5
      modifies this
      ensures Expecting(d + 1, base') && Whole(base') == old(Whole(base))
    {
      NextLine(5, rowNumber);
      base' := Paint(d, 2, base);
      if pass == 6 {
        base' := PadHead(1, base');
      }
    }

    method ProcessPass6(d: nat, ghost base: nat) returns (ghost base': nat)
      requires Expecting(d, base) && pass == 6
      modifies this
      ensures Expecting(d + 1, base') && Whole(base') == old(Whole(base))
    {
      base' := Paint(d, 1, base);
      if pass == 6 {
        base' := PadGap(1, d, base');
      }
    }

    /** png_push_process_row: one decoded row, with expansion. */
    method ProcessRow(d: nat, ghost base: nat) returns (ghost base': nat)
      requires Expecting(d, base) && pass < 7
      modifies this
      ensures Expecting(d + 1, base') && Whole(base') == old(Whole(base))
      ensures d < old(Whole(base)).1
    {
      RowsLeft(pass, rowNumber, width, height);
      match pass
      case 0 => base' := ProcessPass0(d, base);
      case 1 => base' := ProcessPass1(d, base);
      case 2 => base' := ProcessPass2(d, base);
      case 3 => base' := ProcessPass3(d, base);
      case 4 => base' := ProcessPass4(d, base);
      case 5 => base' := ProcessPass5(d, base);
      case _ => base' := ProcessPass6(d, base);
    }
  }

  /** Decoded row r of the pass paints BlockHeight rows; the rest of the step is NULL. */
  lemma PaintedRun(p: Pass, r: nat, base: nat)
    requires r >= YStart(p) && (r - YStart(p)) % YStep(p) == 0
    ensures forall k: nat :: r <= k < r + BlockHeight(p) ==>
            Source(p, k, base) == Some(base + (r - YStart(p)) / YStep(p))
    ensures forall k: nat :: r + BlockHeight(p) <= k < r + YStep(p) ==> Source(p, k, base) == None
  {
    forall k: nat | r <= k < r + YStep(p)
      ensures Source(p, k, base) == if k < r + BlockHeight(p) then Some(base + (r - YStart(p)) / YStep(p)) else None
    {
      SameStep(r - YStart(p), k - r, YStep(p));
    }
  }

  lemma SameStep(a: nat, b: nat, step: nat)
    requires step in {2, 4, 8} && a % step == 0 && b < step
    ensures (a + b) % step == b && (a + b) / step == a / step
  {
    if step == 2 {
      SameStep2(a, b);
    } else if step == 4 {
      SameStep4(a, b);
    } else {
      SameStep8(a, b);
    }
  }

  lemma SameStep2(a: nat, b: nat)
    requires a % 2 == 0 && b < 2
    ensures (a + b) % 2 == b && (a + b) / 2 == a / 2
  {
  }

  lemma SameStep4(a: nat, b: nat)
    requires a % 4 == 0 && b < 4
    ensures (a + b) % 4 == b && (a + b) / 4 == a / 4
  {
  }

  lemma SameStep8(a: nat, b: nat)
    requires a % 8 == 0 && b < 8
    ensures (a + b) % 8 == b && (a + b) / 8 == a / 8
  {
  }

  lemma NextLine(p: Pass, r: nat)
    requires r >= YStart(p) && (r - YStart(p)) % YStep(p) == 0
    ensures (r + YStep(p) - YStart(p)) % YStep(p) == 0
    ensures (r + YStep(p) - YStart(p)) / YStep(p) == (r - YStart(p)) / YStep(p) + 1
  {
  }

  /** The last line of a pass is number PassRows - 1. */
  lemma LastRow(p: Pass, r: nat, height: nat)
    requires r < height && r >= YStart(p) && (r - YStart(p)) % YStep(p) == 0
    ensures r + YStep(p) >= height ==> (r - YStart(p)) / YStep(p) + 1 == RowsIn(height, p)
  {
  }

  /** Above its first line a pass paints nothing, and a low image has no lines in it. */
  lemma Unpainted(p: Pass, base: nat, height: nat)
    requires height >= 1
    ensures forall k: nat :: k < YStart(p) ==> Source(p, k, base) == None
    ensures height <= YStart(p) ==> RowsIn(height, p) == 0
  {
  }

  ghost function Bill(trace: seq<Delivery>, p: nat, r: nat, width: nat, height: nat, base: nat): (seq<Delivery>, nat)
    requires p <= 7 && r <= height && height >= 1
  {
    (trace + Owed(p, r, width, height, base), base + RowsFrom(p, width, height))
  }

  /** Delivering what is owed first leaves the bill as it is: within a pass, */
  lemma BillWithin(trace: seq<Delivery>, p: nat, r: nat, width: nat, height: nat, base: nat)
    requires p < 7 && r + 1 < height
    ensures Bill(trace, p, r, width, height, base)
            == Bill(trace + [Promised(p, r, base)], p, r + 1, width, height, base)
  {
    OwedStep(p, r, width, height, base);
    AppendOne(trace, Promised(p, r, base), Owed(p, r + 1, width, height, base));
  }

  /** and at its end. */
  lemma BillAcross(trace: seq<Delivery>, p: nat, r: nat, width: nat, height: nat, base: nat)
    requires p < 7 && r + 1 == height
    ensures Bill(trace, p, r, width, height, base)
         == Bill(trace + [Promised(p, r, base)], NextPass(p, width), 0, width, height, base + RowsIn(height, p))
  {
    OwedStep(p, r, width, height, base);
    AppendOne(trace, Promised(p, r, base), Owed(NextPass(p, width), 0, width, height, base + RowsIn(height, p)));
  }

  lemma AppendOne(t: seq<Delivery>, d: Delivery, rest: seq<Delivery>)
    ensures t + ([d] + rest) == (t + [d]) + rest
  {
  }

  /** The first delivery owed, and what is owed after it. */
  lemma OwedStep(p: nat, r: nat, width: nat, height: nat, base: nat)
    requires p < 7 && r < height
    ensures Owed(p, r, width, height, base)
         == [Promised(p, r, base)]
            + (if r + 1 < height then Owed(p, r + 1, width, height, base)
               else Owed(NextPass(p, width), 0, width, height, base + RowsIn(height, p)))
  {
    if r + 1 == height {
      assert PassTrace(p, height, height, base) == [];
      assert PassTrace(p, r, height, base) == [Promised(p, r, base)];
    }
  }

  /** A whole expanded image: the row callbacks are exactly the promised ones, and the
      run ends at pass 7 having used exactly the decoded rows of its passes. */
  method ReadExpanded(width: nat, height: nat) returns (rows: Rows, used: nat)
    requires width >= 1 && height >= 1
    ensures rows.width == width && rows.height == height && rows.pass == 7
    ensures rows.trace == Owed(0, 0, width, height, 0)
    ensures used == RowsFrom(0, width, height)
    ensures RowsIn(height, 0) > 0 && used == |PlainFrom(0, 0, width, height, 0)|
  {
    rows := new Rows(width, height, true);
    used := 0;
    ghost var base := 0;
    ghost var total := RowsFrom(0, width, height);
    StartBill(width, height);
    while rows.pass < 7
      invariant rows.width == width && rows.height == height && fresh(rows)
      invariant rows.Expecting(used, base) && rows.Whole(base) == (Owed(0, 0, width, height, 0), total)
      decreases total - used
    {
      base := rows.ProcessRow(used, base);
      used := used + 1;
    }
    EndBill(rows.trace, rows.rowNumber, width, height, base);
    SameRows(width, height);
  }

  lemma StartBill(width: nat, height: nat)
    requires height >= 1
    ensures Bill([], 0, 0, width, height, 0) == (Owed(0, 0, width, height, 0), RowsFrom(0, width, height))
  {
    assert [] + Owed(0, 0, width, height, 0) == Owed(0, 0, width, height, 0);
  }

  lemma EndBill(trace: seq<Delivery>, r: nat, width: nat, height: nat, base: nat)
    requires r <= height && height >= 1
    ensures Bill(trace, 7, r, width, height, base) == (trace, base)
  {
    assert trace + [] == trace;
  }

  /** A machine that is not done still has a decoded row to wait for. */
  lemma RowsLeft(p: nat, r: nat, width: nat, height: nat)
    requires p < 7 && r < height && Ready(p, r, height)
    ensures (r - YStart(p)) / YStep(p) < RowsFrom(p, width, height)
  {
  }

  /** A line of pass p. */
  predicate IsLineOf(p: Pass, z: nat) {
    z >= YStart(p) && (z - YStart(p)) % YStep(p) == 0
  }

  /** Line z of pass p is the last line at or above row r that the passes up to p have. */
  ghost predicate Nearest(p: Pass, z: nat, r: nat) {
    z <= r && IsLineOf(p, z) && forall q: Pass, y: nat :: q <= p && z < y <= r ==> !IsLineOf(q, y)
  }

  /** The first line below a block belongs to one of the passes so far. */
  function Below(p: Pass): Pass {
    match p case 2 => 0 case 4 => 3 case 6 => 5 case _ => p
  }

  lemma BlockEnds(p: Pass, z: nat)
    requires IsLineOf(p, z)
    ensures IsLineOf(Below(p), z + BlockHeight(p)) && Below(p) <= p
  {
    match p
    case 0 => Next8(z);
    case 1 => Next8(z);
    case 2 => Next8(z - 4);
    case 3 => Next4(z);
    case 4 => Next4(z - 2);
    case 5 => Next2(z);
    case _ => Next2(z - 1);
  }

  lemma Next8(x: nat)
    ensures (x + 8) % 8 == x % 8
  {
  }

  lemma Next4(x: nat)
    ensures (x + 4) % 4 == x % 4
  {
  }

  lemma Next2(x: nat)
    ensures (x + 2) % 2 == x % 2
  {
  }

  lemma BlockIsClear(p: Pass, z: nat, q: Pass, y: nat)
    requires IsLineOf(p, z) && q <= p && z < y < z + BlockHeight(p)
    ensures !IsLineOf(q, y)
  {
    match p
    case 0 => ClearBy8(z, y);
    case 1 => ClearBy8(z, y);
    case 2 => ClearBy8(z, y);
    case 3 => ClearBy4(z, y);
    case 4 => ClearBy4(z, y);
    case 5 => ClearBy2(z, y);
    case _ =>
  }

  lemma ClearBy8(z: nat, y: nat)
    requires z < y < z + 8
    ensures y % 8 != z % 8
  {
  }

  lemma ClearBy4(z: nat, y: nat)
    requires z < y < z + 4
    ensures y % 4 != z % 4
  {
  }

  lemma ClearBy2(z: nat, y: nat)
    requires z < y < z + 2
    ensures y % 2 != z % 2
  {
  }

  /** What a painted row shows: in pass p, row r shows line z of the pass exactly when z is the
      last line at or above r that the passes up to p hold, and NULL when there is none. */
  lemma PaintedIsNearest(p: Pass, r: nat, z: nat, base: nat)
    ensures Nearest(p, z, r)
       <==> z <= r && IsLineOf(p, z) && Source(p, r, base) == Some(base + (z - YStart(p)) / YStep(p))
  {
    if z <= r && IsLineOf(p, z) {
      if r < z + BlockHeight(p) {
        forall q: Pass, y: nat | q <= p && z < y <= r ensures !IsLineOf(q, y) {
          BlockIsClear(p, z, q, y);
        }
        PaintedRun(p, z, base);
      } else {
        BlockEnds(p, z);
        assert !Nearest(p, z, r);
        LineBelow(p, z, r);
      }
    }
  }

  /** A row past the block of line z does not show line z. */
  lemma LineBelow(p: Pass, z: nat, r: nat)
    requires IsLineOf(p, z) && r >= z + BlockHeight(p)
    ensures Painted(p, r) ==> (r - YStart(p)) / YStep(p) != (z - YStart(p)) / YStep(p)
  {
  }

  // ----- the promise, without expansion -----

  predicate Filled(p: Pass, width: nat, height: nat)
    requires width >= 1 && height >= 1
  {
    ColsIn(width, p) > 0 && RowsIn(height, p) > 0
  }

  /** The first pass after p that holds pixels, or 7. */
  function NextFilled(p: nat, width: nat, height: nat): (q: nat)
    requires width >= 1 && height >= 1 && p < 7
    ensures p < q <= 7 && (q < 7 ==> Filled(q, width, height))
    decreases 7 - p
  {
    if p == 6 then 7
    else if Filled(p + 1, width, height) then p + 1
    else NextFilled(p + 1, width, height)
  }

  /** The passes left out for the width are exactly those without columns. */
  lemma SkippedIffNoColumns(p: Pass, width: nat)
    requires width >= 1
    ensures SkippedForWidth(p, width) <==> ColsIn(width, p) == 0
  {
  }

  /** One round of the loop moves past empty passes only. */
  lemma RoundFinds(p: nat, width: nat, height: nat)
    requires width >= 1 && height >= 1 && p < 7
    ensures var q := NextPass(p, width);
            && p < q <= 7
            && NextFilled(p, width, height)
               == if q == 7 || Filled(q, width, height) then q else NextFilled(q, width, height)
  {
    if SkippedForWidth(p + 1, width) {
      assert !Filled(p + 1, width, height);
    }
  }

  /** The callbacks from row r of pass p on: every row of every filled pass, in order,
      each with the next decoded row. */
  function PlainFrom(p: nat, r: nat, width: nat, height: nat, d: nat): seq<Delivery>
    requires width >= 1 && height >= 1 && p <= 7
    requires p < 7 ==> r < RowsIn(height, p)
    decreases 7 - p, if p < 7 then RowsIn(height, p) - r else 0
  {
    if p == 7 then []
    else [Delivery(p, r, Some(d))]
         + if r + 1 < RowsIn(height, p) then PlainFrom(p, r + 1, width, height, d + 1)
           else PlainFrom(NextFilled(p, width, height), 0, width, height, d + 1)
  }

  /** Counting the rows of every pass that has columns, skipped or not, is counting the rows of
      the filled passes. */
  lemma {:induction false} RowsFromFilled(p: nat, width: nat, height: nat)
    requires width >= 1 && height >= 1 && p < 7
    ensures RowsFrom(NextPass(p, width), width, height) == RowsOfFilled(NextFilled(p, width, height), width, height)
    decreases 7 - p
  {
    RoundFinds(p, width, height);
    var q := NextPass(p, width);
    if q < 7 {
      RowsFromFilled(q, width, height);
      NextPassHasColumns(p, width);
    }
  }

  lemma NextPassHasColumns(p: nat, width: nat)
    requires width >= 1 && p < 7 && NextPass(p, width) < 7
    ensures ColsIn(width, NextPass(p, width)) > 0
  {
    SkippedIffNoColumns(NextPass(p, width), width);
  }

  /** The rows of the filled passes from p on. */
  function RowsOfFilled(p: nat, width: nat, height: nat): nat
    requires width >= 1 && height >= 1 && p <= 7
    decreases 7 - p
  {
    if p == 7 then 0 else RowsIn(height, p) + RowsOfFilled(NextFilled(p, width, height), width, height)
  }

  lemma {:induction false} PlainLength(p: nat, r: nat, width: nat, height: nat, d: nat)
    requires width >= 1 && height >= 1 && p <= 7 && (p < 7 ==> r < RowsIn(height, p))
    ensures |PlainFrom(p, r, width, height, d)| == if p == 7 then 0 else RowsOfFilled(p, width, height) - r
    decreases 7 - p, if p < 7 then RowsIn(height, p) - r else 0
  {
    if p < 7 {
      if r + 1 < RowsIn(height, p) {
        PlainLength(p, r + 1, width, height, d + 1);
      } else {
        PlainLength(NextFilled(p, width, height), 0, width, height, d + 1);
      }
    }
  }

  /** Both modes use the same decoded rows: as many as the passes with pixels have. */
  lemma SameRows(width: nat, height: nat)
    requires width >= 1 && height >= 1
    ensures RowsIn(height, 0) > 0
    ensures RowsFrom(0, width, height) == |PlainFrom(0, 0, width, height, 0)|
  {
    PlainStart(width, height);
    RowsFromFilled(0, width, height);
    PlainLength(0, 0, width, height, 0);
  }

  /** The pixels of the passes from p on. */
  function CellsFrom(p: nat, width: nat, height: nat): int
    requires width >= 1 && height >= 1 && p <= 7
    decreases 7 - p
  {
    if p == 7 then 0 else ColsIn(width, p) * RowsIn(height, p) + CellsFrom(p + 1, width, height)
  }

  lemma {:induction false} CellsArePixels(p: nat, width: nat, height: nat)
    requires width >= 1 && height >= 1 && p <= 7
    ensures CellsFrom(p, width, height) == PixelsFrom(width, height, p)
    decreases 7 - p
  {
    if p < 7 {
      CountsAreMacros(width, p);
      CountsAreMacros(height, p);
      CellsArePixels(p + 1, width, height);
    }
  }

  /** The pixels of the rows from row r of pass p on. */
  function PixelsLeft(p: nat, r: nat, width: nat, height: nat): int
    requires width >= 1 && height >= 1 && p <= 7
  {
    if p == 7 then 0 else (RowsIn(height, p) - r) * ColsIn(width, p) + CellsFrom(p + 1, width, height)
  }

  lemma {:induction false} EmptyPassesHoldNothing(p: nat, width: nat, height: nat)
    requires width >= 1 && height >= 1 && p < 7
    ensures CellsFrom(p + 1, width, height) == PixelsLeft(NextFilled(p, width, height), 0, width, height)
    decreases 7 - p
  {
    if p < 6 {
      var c, n := ColsIn(width, p + 1), RowsIn(height, p + 1);
      if !Filled(p + 1, width, height) {
        assert c * n == 0;
        EmptyPassesHoldNothing(p + 1, width, height);
      } else {
        assert c * n == n * c == (n - 0) * c;
      }
    }
  }

  lemma OneRowLess(p: Pass, r: nat, width: nat, height: nat)
    requires width >= 1 && height >= 1 && r < RowsIn(height, p)
    ensures PixelsLeft(p, r, width, height) == ColsIn(width, p)
              + if r + 1 < RowsIn(height, p) then PixelsLeft(p, r + 1, width, height)
                else PixelsLeft(NextFilled(p, width, height), 0, width, height)
  {
    EmptyPassesHoldNothing(p, width, height);
    var c, n := ColsIn(width, p), RowsIn(height, p) - r;
    assert n * c == c + (n - 1) * c;
  }

  lemma CellsTotal(width: nat, height: nat)
    requires width >= 1 && height >= 1
    ensures CellsFrom(0, width, height) == width * height
  {
    CellsArePixels(0, width, height);
    PixelsConserved(width, height);
  }

  lemma Commute(c: nat, n: nat)
    ensures c * n == (n - 0) * c
  {
  }

  lemma PlainStart(width: nat, height: nat)
    requires width >= 1 && height >= 1
    ensures RowsIn(height, 0) > 0 && PixelsLeft(0, 0, width, height) == width * height
  {
    CellsTotal(width, height);
    Commute(ColsIn(width, 0), RowsIn(height, 0));
  }

  /** A whole image without expansion: exactly the filled passes are visited, each row
      once and in order, and the rows hold every pixel of the image once. */
  method ReadPlain(width: nat, height: nat) returns (rows: Rows, used: nat, pixels: nat)
    requires width >= 1 && height >= 1
    ensures rows.width == width && rows.height == height && rows.pass == 7
    ensures RowsIn(height, 0) > 0 && rows.trace == PlainFrom(0, 0, width, height, 0)
    ensures pixels == width * height && used == |rows.trace|
  {
    PlainStart(width, height);
    rows := new Rows(width, height, false);
    used, pixels := 0, 0;
    ghost var all := PlainFrom(0, 0, width, height, 0);
    while rows.pass < 7
      invariant rows.width == width && rows.height == height && !rows.expand && fresh(rows)
      invariant rows.Valid() && rows.Sized() && used == |rows.trace|
      invariant rows.trace + PlainFrom(rows.pass, rows.rowNumber, width, height, used) == all
      invariant pixels + PixelsLeft(rows.pass, rows.rowNumber, width, height) == width * height
      decreases 7 - rows.pass, rows.numRows - rows.rowNumber
    {
      ghost var p, r, t, d := rows.pass, rows.rowNumber, rows.trace, used;
      OneRowLess(p, r, width, height);
      rows.trace := rows.trace + [Delivery(rows.pass, rows.rowNumber, Some(used))];
      pixels := pixels + rows.iwidth;
      rows.FinishPlainRow();
      used := used + 1;
      AppendOne(t, Delivery(p, r, Some(d)), PlainFrom(rows.pass, rows.rowNumber, width, height, used));
    }
  }
}
