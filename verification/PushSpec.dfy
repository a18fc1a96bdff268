/** What the libpng push reader does with a stream of bytes, as a function of the
    stream: the reference that the buffer-juggling reader is proved against.

    The chunk handlers, the decompressor and the application callbacks are
    arbitrary functions gathered in `Host`. */
module PushSpec {
  import opened Bytes

  const SIGNATURE: seq<byte> := [137, 80, 78, 71, 13, 10, 26, 10]
  const IHDR: nat := 0x49484452
  const PLTE: nat := 0x504C5445
  const IDAT: nat := 0x49444154
  const IEND: nat := 0x49454E44

  datatype ProcessMode = Sig | Chunk | Idat | Done

  /** The mode bits that pngpread.c reads or writes, other than PNG_HAVE_CHUNK_HEADER. */
  datatype Flags = Flags(haveIHDR: bool, havePLTE: bool, haveIDAT: bool, afterIDAT: bool, chunkAfterIDAT: bool)

  datatype Callback = InfoCallback | EndCallback

  /** Everything of png_struct that outlives a call, except the byte queue. */
  datatype Control<Z> = Control(
    process: ProcessMode,
    sigBytes: nat,
    haveHeader: bool,
    pushLength: nat,
    chunkName: nat,
    idatSize: nat,
    flags: Flags,
    callbacks: seq<Callback>,
    sink: seq<byte>,   // every byte handed to the decompressor so far
    app: Z)

  datatype Host<!Z> = Host(
    keep: nat -> bool,                                        // png_chunk_unknown_handling(name) != 0
    benignIsFatal: bool,                                      // png_benign_error configuration
    palette: Z -> bool,                                       // color_type == PNG_COLOR_TYPE_PALETTE
    lengthOk: (Flags, Z, nat, nat) -> bool,                   // png_check_chunk_length
    startChunk: (Z, nat) -> Z,                                // png_reset_crc, then the name's CRC
    handle: (Flags, Z, nat, seq<byte>) -> Option<(Flags, Z)>, // png_handle_*: chunk data and CRC
    inflate: (Z, byte) -> Option<Z>,                          // one IDAT byte: CRC and inflate
    streamEnded: Z -> bool,                                   // PNG_FLAG_ZSTREAM_ENDED
    finishIdat: (Z, seq<byte>) -> Option<Z>,                  // png_crc_finish(0)
    onInfo: Z -> Option<Z>,
    onEnd: Z -> Option<Z>)

  /** The effect of one look at the pending bytes.  `Advance` uses a prefix and goes
      on; `Suspend` uses a prefix, keeps the rest and waits for the next call. */
  datatype Move<Z> =
    | Fail
    | Advance(next: Control<Z>, used: nat)
    | Suspend(next: Control<Z>, used: nat)
  {
    function After(n: nat): Move<Z> {
      match this
      case Fail => Fail
      case Advance(c, u) => Advance(c, u + n)
      case Suspend(c, u) => Suspend(c, u + n)
    }
  }

  predicate LetterByte(x: nat) {
    65 <= x <= 90 || 97 <= x <= 122
  }

  /** png_check_chunk_name. */
  predicate NameOk(name: nat) {
    && LetterByte(name % 0x100)
    && LetterByte(name / 0x100 % 0x100)
    && LetterByte(name / 0x1_0000 % 0x100)
    && LetterByte(name / 0x100_0000 % 0x100)
  }

  /** The eight header bytes: length then name. */
  function ReadHeader<Z>(h: Host<Z>, c: Control<Z>, p: seq<byte>): (r: Option<Control<Z>>)
    requires |p| >= 8
  {
    var length := Be32(p[..4]);
    var name := Be32(p[4..8]);
    if length >= TWO_TO_THE_31 then None
    else Some(c.(haveHeader := true, pushLength := length, chunkName := name, app := h.startChunk(c.app, name)))
  }

  function SigMove<Z>(h: Host<Z>, c: Control<Z>, p: seq<byte>): Move<Z>
    requires |p| > 0
  {
    if c.sigBytes >= 8 || p[0] != SIGNATURE[c.sigBytes] then Fail
    else Advance(c.(sigBytes := c.sigBytes + 1,
                    process := if c.sigBytes == 7 then Chunk else Sig), 1)
  }

  function HandleChunk<Z>(h: Host<Z>, c: Control<Z>, p: seq<byte>): Move<Z> {
    if |p| < c.pushLength + 4 then Suspend(c, 0)
    else
      match h.handle(c.flags, c.app, c.chunkName, p[..c.pushLength + 4])
      case None => Fail
      case Some((flags, app)) =>
        Advance(c.(haveHeader := false, flags := flags, app := app), c.pushLength + 4)
  }

  /** The checks made on meeting an IDAT in chunk mode; `None` is png_error. */
  function EnterIdat<Z>(h: Host<Z>, c: Control<Z>): Option<Control<Z>> {
    var flags := c.flags.(chunkAfterIDAT := c.flags.chunkAfterIDAT || c.flags.afterIDAT);
    if !flags.haveIHDR || (h.palette(c.app) && !flags.havePLTE) then None
    else if flags.haveIDAT && !flags.chunkAfterIDAT && c.pushLength == 0 then
      Some(c.(process := Idat, flags := flags))
    else if flags.afterIDAT && h.benignIsFatal then None
    else Some(c.(process := Idat, flags := flags.(haveIDAT := true)))
  }

  predicate SkipsEmptyIdat<Z>(c: Control<Z>) {
    c.flags.haveIDAT && !c.flags.chunkAfterIDAT && !c.flags.afterIDAT && c.pushLength == 0
  }

  function StartIdat<Z>(h: Host<Z>, c: Control<Z>): Move<Z> {
    match h.onInfo(c.app)
    case None => Fail
    case Some(app) =>
      Advance(c.(idatSize := c.pushLength, process := Idat,
                 callbacks := c.callbacks + [InfoCallback], app := app), 0)
  }

  function IdatChunkMove<Z>(h: Host<Z>, c: Control<Z>, p: seq<byte>): Move<Z> {
    match EnterIdat(h, c)
    case None => Fail
    case Some(d) =>
      if SkipsEmptyIdat(c) then Advance(d, 0)
      else if h.keep(IDAT) then HandleChunk(h, d, p)
      else StartIdat(h, d)
  }

  function EndChunkMove<Z>(h: Host<Z>, c: Control<Z>, p: seq<byte>): Move<Z> {
    match HandleChunk(h, c, p)
    case Advance(d, u) =>
      (match h.onEnd(d.app)
       case None => Fail
       case Some(app) =>
         Advance(d.(process := Done, callbacks := d.callbacks + [EndCallback], app := app), u))
    case m => m
  }

  function PlainChunkMove<Z>(h: Host<Z>, c: Control<Z>, p: seq<byte>): Move<Z> {
    match HandleChunk(h, c, p)
    case Advance(d, u) =>
      if c.chunkName == PLTE && h.keep(PLTE) then Advance(d.(flags := d.flags.(havePLTE := true)), u)
      else Advance(d, u)
    case m => m
  }

  /** png_push_read_chunk once the header is known. */
  function BodyMove<Z>(h: Host<Z>, c: Control<Z>, p: seq<byte>): Move<Z> {
    if c.chunkName == IDAT then IdatChunkMove(h, c, p)
    else if c.chunkName == IHDR then (if c.pushLength != 13 then Fail else HandleChunk(h, c, p))
    else if c.chunkName == IEND then EndChunkMove(h, c, p)
    else PlainChunkMove(h, c, p)
  }

  function ChunkMove<Z>(h: Host<Z>, c: Control<Z>, p: seq<byte>): Move<Z> {
    if c.haveHeader then BodyMove(h, c, p)
    else if |p| < 8 then Suspend(c, 0)
    else
      match ReadHeader(h, c, p)
      case None => Fail
      case Some(d) =>
        if !NameOk(d.chunkName) || !h.lengthOk(d.flags, d.app, d.chunkName, d.pushLength) then Fail
        else BodyMove(h, d, p[8..]).After(8)
  }

  /** png_push_read_IDAT, one byte of image data at a time. */
  function IdatMove<Z>(h: Host<Z>, c: Control<Z>, p: seq<byte>): Move<Z>
    requires |p| > 0
  {
    if !c.haveHeader then
      if |p| < 8 then Suspend(c, 0)
      else
        match ReadHeader(h, c, p)
        case None => Fail
        case Some(d) =>
          if d.chunkName == IDAT then Advance(d.(idatSize := d.pushLength), 8)
          else if !h.streamEnded(d.app) then Fail
          else Advance(d.(process := Chunk), 8)
    else if c.idatSize != 0 then
      match h.inflate(c.app, p[0])
      case None => Fail
      case Some(app) => Advance(c.(idatSize := c.idatSize - 1, sink := c.sink + [p[0]], app := app), 1)
    else if |p| < 4 then Suspend(c, 0)
    else
      match h.finishIdat(c.app, p[..4])
      case None => Fail
      case Some(app) =>
        Advance(c.(haveHeader := false, flags := c.flags.(afterIDAT := true), app := app), 4)
  }

  /** png_process_some_data, before the reader has met IEND. */
  function NextMove<Z>(h: Host<Z>, c: Control<Z>, p: seq<byte>): Move<Z>
    requires |p| > 0 && c.process != Done
  {
    match c.process
    case Sig => SigMove(h, c, p)
    case Chunk => ChunkMove(h, c, p)
    case Idat => IdatMove(h, c, p)
  }

  function Rank<Z>(c: Control<Z>): nat {
    if c.process == Chunk then 1 else 0
  }

  /** Every move that goes on either uses bytes or leaves chunk mode: the loop of
      png_process_data cannot spin. */
  lemma MoveProgresses<Z>(h: Host<Z>, c: Control<Z>, p: seq<byte>)
    requires |p| > 0 && c.process != Done
    ensures var m := NextMove(h, c, p);
            && (m.Advance? ==> m.used <= |p| && (m.used > 0 || Rank(m.next) < Rank(c)))
            && (m.Suspend? ==> m.used <= |p| && m.next.process != Done)
  {
  }

  /** The reader's whole state between calls: control and the bytes kept for later.
      Nothing is kept once IEND has been met. */
  datatype Rest<Z> = Failed | Waiting(control: Control<Z>, pending: seq<byte>)

  /** png_process_data on the queue content p. */
  function Run<Z>(h: Host<Z>, c: Control<Z>, p: seq<byte>): (r: Rest<Z>)
    decreases |p|, Rank(c)
  {
    if c.process == Done || p == [] then Waiting(c, [])
    else
      MoveProgresses(h, c, p);
      match NextMove(h, c, p)
      case Fail => Failed
      case Advance(d, u) => Run(h, d, p[u..])
      case Suspend(d, u) => Waiting(d, p[u..])
  }

  /** One further png_process_data call. */
  function Feed<Z>(h: Host<Z>, r: Rest<Z>, data: seq<byte>): Rest<Z> {
    match r
    case Failed => Failed
    case Waiting(c, kept) => Run(h, c, kept + data)
  }

  function FeedAll<Z>(h: Host<Z>, r: Rest<Z>, pieces: seq<seq<byte>>): Rest<Z>
    decreases |pieces|
  {
    if pieces == [] then r else FeedAll(h, Feed(h, r, pieces[0]), pieces[1..])
  }

  function Concat(pieces: seq<seq<byte>>): seq<byte> {
    if pieces == [] then [] else pieces[0] + Concat(pieces[1..])
  }

  // ----- more input never changes what was already decided -----

  lemma HandleChunkStable<Z>(h: Host<Z>, c: Control<Z>, p: seq<byte>, q: seq<byte>)
    requires !HandleChunk(h, c, p).Suspend?
    ensures HandleChunk(h, c, p + q) == HandleChunk(h, c, p)
  {
    assert (p + q)[..c.pushLength + 4] == p[..c.pushLength + 4];
  }

  lemma BodyStable<Z>(h: Host<Z>, c: Control<Z>, p: seq<byte>, q: seq<byte>)
    ensures var m := BodyMove(h, c, p);
            if m.Suspend? then (h.keep(IDAT) && c.chunkName == IDAT) || m == Suspend(c, 0)
            else BodyMove(h, c, p + q) == m
  {
    if !HandleChunk(h, c, p).Suspend? {
      HandleChunkStable(h, c, p, q);
    }
    if c.chunkName == IDAT && h.keep(IDAT) && EnterIdat(h, c).Some? {
      var d := EnterIdat(h, c).value;
      if !HandleChunk(h, d, p).Suspend? {
        HandleChunkStable(h, d, p, q);
      }
    }
  }

  lemma HeaderStable<Z>(h: Host<Z>, c: Control<Z>, p: seq<byte>, q: seq<byte>)
    requires |p| >= 8
    ensures ReadHeader(h, c, p + q) == ReadHeader(h, c, p)
    ensures (p + q)[8..] == p[8..] + q
  {
    assert (p + q)[..4] == p[..4] && (p + q)[4..8] == p[4..8];
  }

  /** Without IDAT kept as an unknown chunk, extending the input leaves a decided
      move alone, and a suspended reader has at most parsed a header. */
  lemma MoveStable<Z>(h: Host<Z>, c: Control<Z>, p: seq<byte>, q: seq<byte>)
    requires |p| > 0 && c.process != Done && !h.keep(IDAT)
    ensures var m := NextMove(h, c, p);
            if m.Suspend? then
              || (m.next == c && m.used == 0)
              || (c.process == Chunk && !c.haveHeader && m.used == 8 <= |p|
                  && m.next.process == Chunk && m.next.haveHeader
                  && NextMove(h, c, p + q) == BodyMove(h, m.next, p[8..] + q).After(8))
            else NextMove(h, c, p + q) == m
  {
    if c.process == Chunk {
      if c.haveHeader {
        BodyStable(h, c, p, q);
      } else if |p| >= 8 {
        HeaderStable(h, c, p, q);
        if ReadHeader(h, c, p).Some? {
          BodyStable(h, ReadHeader(h, c, p).value, p[8..], q);
        }
      }
    } else if c.process == Idat {
      if |p| >= 8 {
        HeaderStable(h, c, p, q);
      }
      if |p| >= 4 {
        assert (p + q)[..4] == p[..4];
      }
    }
  }

  /** Feeding p and then q is feeding p + q. */
  lemma {:induction false} FeedSplit<Z>(h: Host<Z>, c: Control<Z>, p: seq<byte>, q: seq<byte>)
    requires !h.keep(IDAT)
    ensures Feed(h, Run(h, c, p), q) == Run(h, c, p + q)
    decreases |p|, Rank(c)
  {
    if c.process == Done {
    } else if p == [] {
      assert [] + q == q == p + q;
    } else {
      MoveProgresses(h, c, p);
      MoveStable(h, c, p, q);
      match NextMove(h, c, p)
      case Fail =>
      case Advance(d, u) =>
        assert (p + q)[u..] == p[u..] + q;
        FeedSplit(h, d, p[u..], q);
      case Suspend(d, u) =>
        assert Run(h, c, p) == Waiting(d, p[u..]);
        if u == 0 {
          assert p[u..] == p;
        } else {
          ResumeAfterHeader(h, c, d, p, q);
        }
    }
  }

  /** A call that ended right after a chunk header continues with the chunk body. */
  lemma ResumeAfterHeader<Z>(h: Host<Z>, c: Control<Z>, d: Control<Z>, p: seq<byte>, q: seq<byte>)
    requires c.process == Chunk && d.process == Chunk && d.haveHeader && |p| >= 8
    requires NextMove(h, c, p) == Suspend(d, 8)
    requires NextMove(h, c, p + q) == BodyMove(h, d, p[8..] + q).After(8)
    ensures Run(h, d, p[8..] + q) == Run(h, c, p + q)
  {
    var rest := p[8..] + q;
    assert (p + q)[8..] == rest;
    if rest == [] {
      assert p + q == p;
    } else {
      MoveProgresses(h, d, rest);
      var m := NextMove(h, d, rest);
      if !m.Fail? {
        assert rest[m.used..] == (p + q)[m.used + 8..];
      }
    }
  }

  /** Chunking invariance: however the stream is cut into calls, the reader ends in
      the state that one call with the whole stream reaches. */
  lemma {:induction false} ChunkingInvariance<Z>(h: Host<Z>, c: Control<Z>, kept: seq<byte>, pieces: seq<seq<byte>>)
    requires !h.keep(IDAT)
    ensures FeedAll(h, Run(h, c, kept), pieces) == Run(h, c, kept + Concat(pieces))
    decreases |pieces|
  {
    if pieces == [] {
      assert kept + [] == kept;
    } else {
      FeedSplit(h, c, kept, pieces[0]);
      ChunkingInvariance(h, c, kept + pieces[0], pieces[1..]);
      assert kept + pieces[0] + Concat(pieces[1..]) == kept + Concat(pieces);
    }
  }

  // ----- the exact condition -----

  /** png_create_read_struct, after png_set_sig_bytes(n). */
  function Initial<Z>(n: nat, app: Z): Control<Z> {
    Control(Sig, n, false, 0, 0, 0, Flags(false, false, false, false, false), [], [], app)
  }

  /** For this host, cutting a stream in two never shows. */
  ghost predicate CutInvariant<Z(!new)>(h: Host<Z>) {
    forall n: nat, app: Z, p: seq<byte>, q: seq<byte> {:trigger Run(h, Initial(n, app), p + q)} ::
      Feed(h, Run(h, Initial(n, app), p), q) == Run(h, Initial(n, app), p + q)
  }

  /** A host that accepts everything. */
  function LaxHost(keepIdat: bool): Host<()> {
    Host(name => keepIdat && name == IDAT, false, _ => false, (_, _, _, _) => true, (app, _) => app,
         (flags: Flags, app, _, _) => Some((flags.(haveIHDR := true), app)),
         (app, _) => Some(app), _ => true, (app, _) => Some(app), app => Some(app), app => Some(app))
  }

  const IHDR_HEADER: seq<byte> := [0, 0, 0, 13, 0x49, 0x48, 0x44, 0x52]
  const IHDR_BODY: seq<byte> := seq(17, i => 0)  // the lax host reads nothing from it
  const IDAT_HEADER: seq<byte> := [0, 0, 0, 0, 0x49, 0x44, 0x41, 0x54]
  const IDAT_CRC: seq<byte> := [0, 0, 0, 0]

  function ReadyForChunk(): Control<()> {
    Initial(7, ()).(process := Chunk, sigBytes := 8, pushLength := 13, chunkName := IHDR,
                    flags := Flags(true, false, false, false, false))
  }

  /** An IHDR chunk leaves the reader ready for the next one. */
  lemma IhdrMove(tail: seq<byte>)
    ensures NextMove(LaxHost(true), Initial(7, ()).(process := Chunk, sigBytes := 8), IHDR_HEADER + (IHDR_BODY + tail))
         == Advance(ReadyForChunk(), 25)
  {
    var h, c, q := LaxHost(true), Initial(7, ()).(process := Chunk, sigBytes := 8), IHDR_HEADER + (IHDR_BODY + tail);
    HeaderStable(h, c, IHDR_HEADER, IHDR_BODY + tail);
    var d := ReadHeader(h, c, IHDR_HEADER).value;
    assert d.chunkName == IHDR && d.pushLength == 13;
    assert IHDR_HEADER[8..] == [];
    assert q[8..] == IHDR_BODY + tail;
    assert BodyMove(h, d, IHDR_BODY + tail) == Advance(ReadyForChunk(), 17);
  }

  /** The last signature byte and an IHDR chunk leave the reader ready for a chunk. */
  lemma AfterIhdr(tail: seq<byte>)
    ensures Run(LaxHost(true), Initial(7, ()), [10] + (IHDR_HEADER + (IHDR_BODY + tail)))
         == Run(LaxHost(true), ReadyForChunk(), tail)
  {
    var h, q := LaxHost(true), IHDR_HEADER + (IHDR_BODY + tail);
    var p := [10] + q;
    var c := Initial(7, ()).(process := Chunk, sigBytes := 8);
    assert p[1..] == q && q[25..] == tail;
    assert NextMove(h, Initial(7, ()), p) == Advance(c, 1);
    IhdrMove(tail);
  }

  /** The IDAT header alone: the reader is already in IDAT mode, holding the header. */
  lemma HeaderAlone()
    ensures Run(LaxHost(true), ReadyForChunk(), IDAT_HEADER)
         == Waiting(ReadyForChunk().(process := Idat, haveHeader := true, pushLength := 0, chunkName := IDAT,
                                     flags := Flags(true, false, true, false, false)), [])
  {
    assert IDAT_HEADER[8..] == [];
  }

  /** Header and CRC together: the chunk is skipped as unknown. */
  lemma HeaderAndCrc()
    ensures Run(LaxHost(true), ReadyForChunk(), IDAT_HEADER + IDAT_CRC)
         == Waiting(ReadyForChunk().(process := Idat, haveHeader := false, pushLength := 0, chunkName := IDAT,
                                     flags := Flags(true, false, true, false, false)), [])
  {
    var h, c := LaxHost(true), ReadyForChunk();
    var w := IDAT_HEADER + IDAT_CRC;
    HeaderStable(h, c, IDAT_HEADER, IDAT_CRC);
    assert ReadHeader(h, c, w) == ReadHeader(h, c, IDAT_HEADER);
    assert IDAT_HEADER[8..] + IDAT_CRC == IDAT_CRC;
    assert w[12..] == [];
  }

  /** With IDAT kept as an unknown chunk, stopping between the header and the CRC of
      an IDAT makes the reader finish it as image data. */
  lemma KeptIdatShowsTheCut()
    ensures !CutInvariant(LaxHost(true))
  {
    var h := LaxHost(true);
    var p := [10] + (IHDR_HEADER + (IHDR_BODY + IDAT_HEADER));
    AfterIhdr(IDAT_HEADER);
    AfterIhdr(IDAT_HEADER + IDAT_CRC);
    assert p + IDAT_CRC == [10] + (IHDR_HEADER + (IHDR_BODY + (IDAT_HEADER + IDAT_CRC)));
    HeaderAlone();
    HeaderAndCrc();
    var c := Run(h, Initial(7, ()), p).control;
    assert [] + IDAT_CRC == IDAT_CRC;
    assert IDAT_CRC[4..] == [];
    assert Feed(h, Run(h, Initial(7, ()), p), IDAT_CRC).control.flags.afterIDAT;
    assert !Run(h, Initial(7, ()), p + IDAT_CRC).control.flags.afterIDAT;
  }

  /** Cutting is invisible for every host with a given treatment of IDAT exactly when
      that treatment does not keep IDAT as an unknown chunk. */
  lemma CutInvariantIff(keepIdat: bool)
    ensures (forall h: Host<()> :: h.keep(IDAT) == keepIdat ==> CutInvariant(h)) <==> !keepIdat
  {
    if keepIdat {
      KeptIdatShowsTheCut();
      assert LaxHost(true).keep(IDAT);
    } else {
      forall h: Host<()> | !h.keep(IDAT) ensures CutInvariant(h) {
        forall n: nat, app: (), p: seq<byte>, q: seq<byte>
          ensures Feed(h, Run(h, Initial(n, app), p), q) == Run(h, Initial(n, app), p + q)
        {
          FeedSplit(h, Initial(n, app), p, q);
        }
      }
    }
  }
}
