/** Well-formed datastreams: what the push reader makes of a list of chunks written
    the way PNG lays them out, whatever the host does with them and however the
    stream is cut into calls. */
module PushStream {
  import opened Bytes
  import opened PushSpec
  import opened PushReader

  // ----- the written form -----

  /** One chunk of a datastream: four letters, data, and the CRC that follows the data. */
  datatype Part = Part(name: seq<byte>, data: seq<byte>, crc: seq<byte>) {
    predicate Valid() {
      && |name| == 4 && |crc| == 4 && |data| < TWO_TO_THE_31
      && forall i :: 0 <= i < 4 ==> IsLetter(name[i])
    }

    function Name(): nat
      requires Valid()
    {
      Be32(name)
    }
  }

  predicate IsLetter(b: byte) {
    'A' <= b as char <= 'Z' || 'a' <= b as char <= 'z'
  }

  const IHDR_LETTERS: seq<byte> := [73, 72, 68, 82]
  const PLTE_LETTERS: seq<byte> := [80, 76, 84, 69]
  const IDAT_LETTERS: seq<byte> := [73, 68, 65, 84]
  const IEND_LETTERS: seq<byte> := [73, 69, 78, 68]

  /** A 32-bit number, most significant byte first. */
  function Written(n: nat): (s: seq<byte>)
    requires n < TWO_TO_THE_32
    ensures |s| == 4
  {
    [n / 0x100_0000, n / 0x1_0000 % 0x100, n / 0x100 % 0x100, n % 0x100]
  }

  function Encode(p: Part): seq<byte>
    requires p.Valid()
  {
    Written(|p.data|) + p.name + p.data + p.crc
  }

  function EncodeAll(parts: seq<Part>): seq<byte>
    requires forall i :: 0 <= i < |parts| ==> parts[i].Valid()
  {
    if parts == [] then [] else Encode(parts[0]) + EncodeAll(parts[1..])
  }

  /** IHDR, other chunks, the image data, other chunks, IEND. */
  datatype Datastream = Datastream(header: Part, before: seq<Part>, images: seq<Part>, after: seq<Part>, end: Part) {
    predicate Valid() {
      && header.Valid() && header.name == IHDR_LETTERS && |header.data| == 13
      && Others(before)
      && |images| > 0 && Images(images)
      && Others(after)
      && end.Valid() && end.name == IEND_LETTERS
    }

    function Bytes(): seq<byte>
      requires Valid()
    {
      Encode(header) + (EncodeAll(before) + (EncodeAll(images) + (EncodeAll(after) + Encode(end))))
    }
  }

  predicate Other(p: Part) {
    p.Valid() && p.name != IHDR_LETTERS && p.name != IDAT_LETTERS && p.name != IEND_LETTERS
  }

  predicate Others(parts: seq<Part>) {
    forall i :: 0 <= i < |parts| ==> Other(parts[i])
  }

  predicate Images(parts: seq<Part>) {
    forall i :: 0 <= i < |parts| ==> parts[i].Valid() && parts[i].name == IDAT_LETTERS
  }

  lemma WrittenBack(n: nat)
    requires n < TWO_TO_THE_32
    ensures Be32(Written(n)) == n
  {
    var a, b, c := n / 0x100, n / 0x1_0000, n / 0x100_0000;
    assert a / 0x100 == b && b / 0x100 == c;
    assert n == 0x100 * a + n % 0x100 && a == 0x100 * b + a % 0x100 && b == 0x100 * c + b % 0x100;
  }

  /** The digits of a number in base 256. */
  lemma Digits(n: nat, a: byte, b: byte, c: byte, d: byte)
    requires n == 0x100_0000 * (a as int) + 0x1_0000 * (b as int) + 0x100 * (c as int) + d
    ensures n % 0x100 == d && n / 0x100 % 0x100 == c && n / 0x1_0000 % 0x100 == b
    ensures n / 0x100_0000 == a && n / 0x100_0000 % 0x100 == a
  {
    var high := 0x100 * (a as int) + b;
    assert n == 0x1_0000 * high + (0x100 * (c as int) + d) && n / 0x1_0000 == high;
    assert n == 0x100 * (0x100 * high + c) + d && n / 0x100 == 0x100 * high + c;
  }

  /** Four letters are told apart by their big-endian number, whose bytes they are. */
  lemma NameIs(s: seq<byte>, t: seq<byte>)
    requires |s| == |t| == 4
    ensures Be32(s) == Be32(t) <==> s == t
    ensures (forall i :: 0 <= i < 4 ==> IsLetter(s[i])) <==> NameOk(Be32(s))
  {
    Digits(Be32(s), s[0], s[1], s[2], s[3]);
    Digits(Be32(t), t[0], t[1], t[2], t[3]);
    assert NameOk(Be32(s)) <==> IsLetter(s[3]) && IsLetter(s[2]) && IsLetter(s[1]) && IsLetter(s[0]);
  }

  lemma NamesAre(p: Part)
    requires p.Valid()
    ensures NameOk(p.Name())
    ensures p.Name() == IHDR <==> p.name == IHDR_LETTERS
    ensures p.Name() == PLTE <==> p.name == PLTE_LETTERS
    ensures p.Name() == IDAT <==> p.name == IDAT_LETTERS
    ensures p.Name() == IEND <==> p.name == IEND_LETTERS
  {
    NameIs(p.name, IHDR_LETTERS);
    NameIs(p.name, PLTE_LETTERS);
    NameIs(p.name, IDAT_LETTERS);
    NameIs(p.name, IEND_LETTERS);
  }

  // ----- what a datastream means, chunk by chunk -----

  /** What the host and the application have seen so far. */
  datatype View<Z> = View(flags: Flags, callbacks: seq<Callback>, sink: seq<byte>, app: Z)

  function Begin<Z>(h: Host<Z>, v: View<Z>, p: Part): View<Z>
    requires p.Valid()
  {
    v.(app := h.startChunk(v.app, p.Name()))
  }

  /** The handler is given the data and the CRC, nothing less and nothing more. */
  function Hand<Z>(h: Host<Z>, v: View<Z>, p: Part): Option<View<Z>>
    requires p.Valid()
  {
    match h.handle(v.flags, v.app, p.Name(), p.data + p.crc)
    case None => None
    case Some((flags, app)) =>
      Some(v.(flags := flags.(havePLTE := flags.havePLTE || (p.Name() == PLTE && h.keep(PLTE))), app := app))
  }

  predicate LengthOk<Z>(h: Host<Z>, v: View<Z>, p: Part)
    requires p.Valid()
  {
    h.lengthOk(v.flags, v.app, p.Name(), |p.data|)
  }

  function Plain<Z>(h: Host<Z>, v: View<Z>, p: Part): Option<View<Z>>
    requires p.Valid()
  {
    var w := Begin(h, v, p);
    if LengthOk(h, w, p) then Hand(h, w, p) else None
  }

  function AllPlain<Z>(h: Host<Z>, v: View<Z>, parts: seq<Part>): Option<View<Z>>
    requires Others(parts)
    decreases |parts|
  {
    if parts == [] then Some(v)
    else
      match Plain(h, v, parts[0])
      case None => None
      case Some(w) => AllPlain(h, w, parts[1..])
  }

  /** The data of one IDAT goes to the decompressor byte by byte, then its CRC is checked. */
  function Pixels<Z>(h: Host<Z>, v: View<Z>, p: Part): Option<View<Z>> {
    match InflateAll(h, v.app, p.data)
    case None => None
    case Some(z) =>
      match h.finishIdat(z, p.crc)
      case None => None
      case Some(app) => Some(v.(flags := v.flags.(afterIDAT := true), sink := v.sink + p.data, app := app))
  }

  /** The image may start: IHDR has been seen, and PLTE where the pixels are palette indices. */
  predicate Ready<Z>(h: Host<Z>, v: View<Z>) {
    v.flags.haveIHDR && (h.palette(v.app) ==> v.flags.havePLTE)
  }

  /** The information callback, then the image data. */
  function Opened<Z>(h: Host<Z>, v: View<Z>, p: Part): Option<View<Z>> {
    match h.onInfo(v.app)
    case None => None
    case Some(app) =>
      Pixels(h, v.(flags := v.flags.(haveIDAT := true), callbacks := v.callbacks + [InfoCallback], app := app), p)
  }

  function FirstImage<Z>(h: Host<Z>, v: View<Z>, p: Part): Option<View<Z>>
    requires p.Valid()
  {
    var w := Begin(h, v, p);
    if !LengthOk(h, w, p) || !Ready(h, w) then None else Opened(h, w, p)
  }

  /** An IDAT that comes once another chunk has closed the image. */
  function LateImage<Z>(h: Host<Z>, v: View<Z>, p: Part): Option<View<Z>>
    requires p.Valid()
  {
    var w := Begin(h, v, p);
    if h.benignIsFatal || !LengthOk(h, w, p) || !Ready(h, w) then None
    else Opened(h, w.(flags := w.flags.(chunkAfterIDAT := true)), p)
  }

  function MoreImages<Z>(h: Host<Z>, v: View<Z>, parts: seq<Part>): Option<View<Z>>
    requires Images(parts)
    decreases |parts|
  {
    if parts == [] then Some(v)
    else
      match Pixels(h, Begin(h, v, parts[0]), parts[0])
      case None => None
      case Some(w) => MoreImages(h, w, parts[1..])
  }

  function AllImages<Z>(h: Host<Z>, v: View<Z>, parts: seq<Part>): Option<View<Z>>
    requires |parts| > 0 && Images(parts)
  {
    match FirstImage(h, v, parts[0])
    case None => None
    case Some(w) => MoreImages(h, w, parts[1..])
  }

  function Close<Z>(h: Host<Z>, v: View<Z>, p: Part): Option<View<Z>>
    requires p.Valid()
  {
    match Hand(h, v, p)
    case None => None
    case Some(w) =>
      match h.onEnd(w.app)
      case None => None
      case Some(app) => Some(w.(callbacks := w.callbacks + [EndCallback], app := app))
  }

  /** The first chunk after the image needs the compressed stream to have ended. */
  function AfterImages<Z>(h: Host<Z>, v: View<Z>, parts: seq<Part>, end: Part): Option<View<Z>>
    requires Others(parts) && end.Valid()
  {
    var p := (parts + [end])[0];
    var w := Begin(h, v, p);
    if !h.streamEnded(w.app) then None
    else if parts == [] then Close(h, w, end)
    else
      match Hand(h, w, p)
      case None => None
      case Some(x) =>
        match AllPlain(h, x, parts[1..])
        case None => None
        case Some(y) => var z := Begin(h, y, end); if LengthOk(h, z, end) then Close(h, z, end) else None
  }

  function BeforeImages<Z>(h: Host<Z>, app: Z, s: Datastream): Option<View<Z>>
    requires s.Valid()
  {
    match Plain(h, View(Flags(false, false, false, false, false), [], [], app), s.header)
    case None => None
    case Some(v) => AllPlain(h, v, s.before)
  }

  /** The whole datastream; `None` is png_error. */
  function Told<Z>(h: Host<Z>, app: Z, s: Datastream): Option<View<Z>>
    requires s.Valid()
  {
    match BeforeImages(h, app, s)
    case None => None
    case Some(v) =>
      match AllImages(h, v, s.images)
      case None => None
      case Some(w) => AfterImages(h, w, s.after, s.end)
  }

  // ----- the reader does exactly that -----

  /** The reader that has shown v, at a chunk boundary or inside the chunk just begun. */
  function At<Z>(v: View<Z>, process: ProcessMode, haveHeader: bool, p: Part, idatSize: nat): Control<Z>
    requires p.Valid()
  {
    Control(process, 8, haveHeader, |p.data|, p.Name(), idatSize, v.flags, v.callbacks, v.sink, v.app)
  }

  /** The control at the boundary, whatever chunk came last. */
  ghost predicate Between<Z>(c: Control<Z>, v: View<Z>, process: ProcessMode) {
    && c.process == process && c.sigBytes == 8 && !c.haveHeader
    && c.flags == v.flags && c.callbacks == v.callbacks && c.sink == v.sink && c.app == v.app
  }

  lemma EncodedHeader<Z>(h: Host<Z>, c: Control<Z>, v: View<Z>, p: Part, q: seq<byte>)
    requires p.Valid() && Between(c, v, c.process)
    ensures var s := Encode(p) + q;
            && |s| >= 8 && s[8..] == p.data + p.crc + q
            && ReadHeader(h, c, s) == Some(At(Begin(h, v, p), c.process, true, p, c.idatSize))
  {
    var s := Encode(p) + q;
    assert s[..4] == Written(|p.data|);
    assert s[4..8] == p.name;
    WrittenBack(|p.data|);
  }

  /** The body is there in full, so the handler gets it. */
  lemma EncodedBody<Z>(h: Host<Z>, v: View<Z>, p: Part, q: seq<byte>, idatSize: nat)
    requires p.Valid()
    ensures var c := At(v, Chunk, true, p, idatSize);
            var s := p.data + p.crc + q;
            && |s| >= |p.data| + 4 && s[|p.data| + 4..] == q
            && HandleChunk(h, c, s)
            == match h.handle(v.flags, v.app, p.Name(), p.data + p.crc)
               case None => Fail
               case Some((flags, app)) =>
                 Advance(c.(haveHeader := false, flags := flags, app := app), |p.data| + 4)
  {
    var s := p.data + p.crc + q;
    assert s[..|p.data| + 4] == p.data + p.crc;
  }

  /** The header of a chunk in chunk mode is its name and length passing the checks. */
  lemma ChunkBegins<Z>(h: Host<Z>, c: Control<Z>, v: View<Z>, p: Part, q: seq<byte>)
    requires p.Valid() && Between(c, v, Chunk)
    ensures NextMove(h, c, Encode(p) + q)
         == if !LengthOk(h, Begin(h, v, p), p) then Fail
            else BodyMove(h, At(Begin(h, v, p), Chunk, true, p, c.idatSize), p.data + p.crc + q).After(8)
  {
    EncodedHeader(h, c, v, p, q);
    NamesAre(p);
  }

  lemma Past(p: Part, q: seq<byte>, n: nat)
    requires p.Valid() && n <= |p.data| + 4
    ensures |Encode(p) + q| >= n + 8 && (Encode(p) + q)[n + 8..] == (p.data + p.crc + q)[n..]
  {
  }

  lemma HandMove<Z>(h: Host<Z>, v: View<Z>, p: Part, q: seq<byte>, idatSize: nat)
    requires p.Valid() && (Other(p) || (p.name == IHDR_LETTERS && |p.data| == 13))
    ensures BodyMove(h, At(v, Chunk, true, p, idatSize), p.data + p.crc + q)
         == match Hand(h, v, p)
            case None => Fail
            case Some(w) => Advance(At(w, Chunk, false, p, idatSize), |p.data| + 4)
  {
    NamesAre(p);
    EncodedBody(h, v, p, q, idatSize);
  }

  /** A chunk in chunk mode that is neither image data nor the end. */
  lemma PlainRuns<Z>(h: Host<Z>, c: Control<Z>, v: View<Z>, p: Part, q: seq<byte>)
    requires Between(c, v, Chunk)
    requires p.Valid() && (Other(p) || (p.name == IHDR_LETTERS && |p.data| == 13))
    ensures Run(h, c, Encode(p) + q)
         == match Plain(h, v, p)
            case None => Failed
            case Some(w) => Run(h, At(w, Chunk, false, p, c.idatSize), q)
  {
    ChunkBegins(h, c, v, p, q);
    HandMove(h, Begin(h, v, p), p, q, c.idatSize);
    Past(p, q, |p.data| + 4);
    EncodedBody(h, v, p, q, c.idatSize);
  }

  /** The control after the chunks `parts`, the last of which is still in the fields. */
  function Passed<Z>(c: Control<Z>, v: View<Z>, parts: seq<Part>): Control<Z>
    requires forall i :: 0 <= i < |parts| ==> parts[i].Valid()
  {
    if parts == [] then c else At(v, c.process, false, parts[|parts| - 1], 0)
  }

  /** The last chunk of the rest is the last of all, unless there is no rest. */
  lemma PassedOn<Z>(c: Control<Z>, d: Control<Z>, v: View<Z>, parts: seq<Part>)
    requires |parts| > 0 && c.process == d.process
    requires forall i :: 0 <= i < |parts| ==> parts[i].Valid()
    requires |parts| == 1 ==> d == At(v, c.process, false, parts[0], 0)
    ensures Passed(d, v, parts[1..]) == Passed(c, v, parts)
  {
  }

  lemma EncodeSplit(parts: seq<Part>, q: seq<byte>)
    requires |parts| > 0 && forall i :: 0 <= i < |parts| ==> parts[i].Valid()
    ensures EncodeAll(parts) + q == Encode(parts[0]) + (EncodeAll(parts[1..]) + q)
  {
  }

  lemma {:induction false} AllPlainRuns<Z>(h: Host<Z>, c: Control<Z>, v: View<Z>, parts: seq<Part>, q: seq<byte>)
    requires Between(c, v, Chunk) && c.idatSize == 0 && Others(parts)
    ensures Run(h, c, EncodeAll(parts) + q)
         == match AllPlain(h, v, parts)
            case None => Failed
            case Some(w) => Run(h, Passed(c, w, parts), q)
    decreases |parts|
  {
    if parts == [] {
      assert EncodeAll(parts) + q == q;
    } else {
      var p, rest := parts[0], parts[1..];
      EncodeSplit(parts, q);
      PlainRuns(h, c, v, p, EncodeAll(rest) + q);
      if Plain(h, v, p).Some? {
        var w := Plain(h, v, p).value;
        var d := At(w, Chunk, false, p, 0);
        AllPlainRuns(h, d, w, rest, q);
        if AllPlain(h, w, rest).Some? {
          PassedOn(c, d, AllPlain(h, w, rest).value, parts);
        }
      }
    }
  }

  /** The image data in hand, then its CRC. */
  lemma PixelsRun<Z>(h: Host<Z>, v: View<Z>, p: Part, q: seq<byte>)
    requires p.Valid()
    ensures Run(h, At(v, Idat, true, p, |p.data|), p.data + p.crc + q)
         == match Pixels(h, v, p)
            case None => Failed
            case Some(w) => Run(h, At(w, Idat, false, p, 0), q)
  {
    var c, s, n := At(v, Idat, true, p, |p.data|), p.data + p.crc + q, |p.data|;
    assert s[..n] == p.data && s[n..] == p.crc + q;
    InflateGreedy(h, c, s, n);
    if InflateAll(h, v.app, p.data).Some? {
      var d := c.(idatSize := 0, sink := v.sink + p.data, app := InflateAll(h, v.app, p.data).value);
      assert Run(h, c, s) == Run(h, d, p.crc + q);
      assert (p.crc + q)[..4] == p.crc && (p.crc + q)[4..] == q;
    }
  }

  /** No image data seen yet, and none announced by a handler. */
  ghost predicate Fresh(flags: Flags) {
    !flags.haveIDAT && !flags.afterIDAT
  }

  lemma OpenedRuns<Z>(h: Host<Z>, c: Control<Z>, v: View<Z>, p: Part, q: seq<byte>)
    requires p.Valid() && c.process == Chunk
    requires var d := At(v.(flags := v.flags.(haveIDAT := true)), Idat, true, p, c.idatSize);
             NextMove(h, c, Encode(p) + q) == StartIdat(h, d).After(8)
    ensures Run(h, c, Encode(p) + q)
         == match Opened(h, v, p)
            case None => Failed
            case Some(w) => Run(h, At(w, Idat, false, p, 0), q)
  {
    var s := p.data + p.crc + q;
    Past(p, q, 0);
    assert s[0..] == s;
    if h.onInfo(v.app).Some? {
      PixelsRun(h, v.(flags := v.flags.(haveIDAT := true), callbacks := v.callbacks + [InfoCallback],
                      app := h.onInfo(v.app).value), p, q);
    }
  }

  /** The first IDAT: the information callback runs before any image byte is used. */
  lemma FirstImageRuns<Z>(h: Host<Z>, c: Control<Z>, v: View<Z>, p: Part, q: seq<byte>)
    requires !h.keep(IDAT) && Between(c, v, Chunk) && Fresh(v.flags) && p.Valid() && p.name == IDAT_LETTERS
    ensures Run(h, c, Encode(p) + q)
         == match FirstImage(h, v, p)
            case None => Failed
            case Some(w) => Run(h, At(w, Idat, false, p, 0), q)
  {
    ChunkBegins(h, c, v, p, q);
    NamesAre(p);
    var w := Begin(h, v, p);
    if LengthOk(h, w, p) && Ready(h, w) {
      OpenedRuns(h, c, w, p, q);
    }
  }

  /** A late IDAT is refused where benign errors are fatal.  Elsewhere it opens the image again,
      and the information callback runs again. */
  lemma LateImageRuns<Z>(h: Host<Z>, c: Control<Z>, v: View<Z>, p: Part, q: seq<byte>)
    requires !h.keep(IDAT) && Between(c, v, Chunk) && v.flags.afterIDAT && p.Valid() && p.name == IDAT_LETTERS
    ensures Run(h, c, Encode(p) + q)
         == match LateImage(h, v, p)
            case None => Failed
            case Some(w) => Run(h, At(w, Idat, false, p, 0), q)
  {
    ChunkBegins(h, c, v, p, q);
    NamesAre(p);
    var w := Begin(h, v, p);
    if LengthOk(h, w, p) && Ready(h, w) && !h.benignIsFatal {
      OpenedRuns(h, c, w.(flags := w.flags.(chunkAfterIDAT := true)), p, q);
    }
  }

  /** A further IDAT, met in image mode. */
  lemma NextImageRuns<Z>(h: Host<Z>, c: Control<Z>, v: View<Z>, p: Part, q: seq<byte>)
    requires Between(c, v, Idat) && p.Valid() && p.name == IDAT_LETTERS
    ensures Run(h, c, Encode(p) + q)
         == match Pixels(h, Begin(h, v, p), p)
            case None => Failed
            case Some(w) => Run(h, At(w, Idat, false, p, 0), q)
  {
    EncodedHeader(h, c, v, p, q);
    NamesAre(p);
    PixelsRun(h, Begin(h, v, p), p, q);
  }

  lemma {:induction false} MoreImagesRun<Z>(h: Host<Z>, c: Control<Z>, v: View<Z>, parts: seq<Part>, q: seq<byte>)
    requires Between(c, v, Idat) && c.idatSize == 0 && Images(parts)
    ensures Run(h, c, EncodeAll(parts) + q)
         == match MoreImages(h, v, parts)
            case None => Failed
            case Some(w) => Run(h, Passed(c, w, parts), q)
    decreases |parts|
  {
    if parts == [] {
      assert EncodeAll(parts) + q == q;
    } else {
      var p, rest := parts[0], parts[1..];
      EncodeSplit(parts, q);
      NextImageRuns(h, c, v, p, EncodeAll(rest) + q);
      if Pixels(h, Begin(h, v, p), p).Some? {
        var w := Pixels(h, Begin(h, v, p), p).value;
        var d := At(w, Idat, false, p, 0);
        MoreImagesRun(h, d, w, rest, q);
        if MoreImages(h, w, rest).Some? {
          PassedOn(c, d, MoreImages(h, w, rest).value, parts);
        }
      }
    }
  }

  /** Any other name in image mode ends the image: its header is kept for chunk mode. */
  lemma LeaveImages<Z>(h: Host<Z>, c: Control<Z>, v: View<Z>, p: Part, q: seq<byte>)
    requires Between(c, v, Idat) && c.idatSize == 0 && p.Valid() && p.name != IDAT_LETTERS
    ensures Run(h, c, Encode(p) + q)
         == if !h.streamEnded(Begin(h, v, p).app) then Failed
            else Run(h, At(Begin(h, v, p), Chunk, true, p, 0), p.data + p.crc + q)
  {
    EncodedHeader(h, c, v, p, q);
    NamesAre(p);
  }

  /** The body of a chunk whose header was kept. */
  lemma HandRuns<Z>(h: Host<Z>, v: View<Z>, p: Part, q: seq<byte>)
    requires Other(p)
    ensures Run(h, At(v, Chunk, true, p, 0), p.data + p.crc + q)
         == match Hand(h, v, p)
            case None => Failed
            case Some(w) => Run(h, At(w, Chunk, false, p, 0), q)
  {
    HandMove(h, v, p, q, 0);
    EncodedBody(h, v, p, q, 0);
  }

  lemma EndMove<Z>(h: Host<Z>, v: View<Z>, p: Part)
    requires p.Valid() && p.name == IEND_LETTERS
    ensures BodyMove(h, At(v, Chunk, true, p, 0), p.data + p.crc)
         == match Close(h, v, p)
            case None => Fail
            case Some(w) => Advance(At(w, Done, false, p, 0), |p.data| + 4)
  {
    NamesAre(p);
    EncodedBody(h, v, p, [], 0);
    assert p.data + p.crc + [] == p.data + p.crc;
  }

  /** The state in which IEND leaves the reader. */
  function Ended<Z>(r: Option<View<Z>>, end: Part): Rest<Z>
    requires end.Valid()
  {
    match r
    case None => Failed
    case Some(v) => Waiting(At(v, Done, false, end, 0), [])
  }

  lemma CloseRuns<Z>(h: Host<Z>, v: View<Z>, p: Part)
    requires p.Valid() && p.name == IEND_LETTERS
    ensures Run(h, At(v, Chunk, true, p, 0), p.data + p.crc) == Ended(Close(h, v, p), p)
  {
    EndMove(h, v, p);
  }

  lemma EndRuns<Z>(h: Host<Z>, c: Control<Z>, v: View<Z>, p: Part)
    requires Between(c, v, Chunk) && c.idatSize == 0 && p.Valid() && p.name == IEND_LETTERS
    ensures var w := Begin(h, v, p);
            Run(h, c, Encode(p)) == Ended(if LengthOk(h, w, p) then Close(h, w, p) else None, p)
  {
    assert Encode(p) + [] == Encode(p) && p.data + p.crc + [] == p.data + p.crc;
    ChunkBegins(h, c, v, p, []);
    EndMove(h, Begin(h, v, p), p);
  }

  lemma {:induction false} AfterImagesRun<Z>(h: Host<Z>, c: Control<Z>, v: View<Z>, parts: seq<Part>, end: Part)
    requires Between(c, v, Idat) && c.idatSize == 0 && Others(parts) && end.Valid() && end.name == IEND_LETTERS
    ensures Run(h, c, EncodeAll(parts) + Encode(end)) == Ended(AfterImages(h, v, parts, end), end)
  {
    if parts == [] {
      assert EncodeAll(parts) + Encode(end) == Encode(end) + [];
      assert end.data + end.crc + [] == end.data + end.crc;
      LeaveImages(h, c, v, end, []);
      CloseRuns(h, Begin(h, v, end), end);
    } else {
      var p, rest := parts[0], parts[1..];
      var q := EncodeAll(rest) + Encode(end);
      assert EncodeAll(parts) + Encode(end) == Encode(p) + q;
      LeaveImages(h, c, v, p, q);
      var w := Begin(h, v, p);
      HandRuns(h, w, p, q);
      if Hand(h, w, p).Some? {
        var x := Hand(h, w, p).value;
        var d := At(x, Chunk, false, p, 0);
        AllPlainRuns(h, d, x, rest, Encode(end));
        if AllPlain(h, x, rest).Some? {
          EndRuns(h, Passed(d, AllPlain(h, x, rest).value, rest), AllPlain(h, x, rest).value, end);
        }
      }
    }
  }

  /** Only image data makes the reader note that image data was seen. */
  ghost predicate Disciplined<Z(!new)>(h: Host<Z>) {
    forall flags, app, name, body {:trigger h.handle(flags, app, name, body)} ::
      Fresh(flags) && name != IEND && h.handle(flags, app, name, body).Some? ==>
        Fresh(h.handle(flags, app, name, body).value.0)
  }

  lemma HandFresh<Z(!new)>(h: Host<Z>, v: View<Z>, p: Part)
    requires Disciplined(h) && Fresh(v.flags) && p.Valid() && p.name != IEND_LETTERS && Hand(h, v, p).Some?
    ensures Fresh(Hand(h, v, p).value.flags)
  {
    NamesAre(p);
  }

  lemma {:induction false} AllFresh<Z(!new)>(h: Host<Z>, v: View<Z>, parts: seq<Part>)
    requires Disciplined(h) && Fresh(v.flags) && Others(parts) && AllPlain(h, v, parts).Some?
    ensures Fresh(AllPlain(h, v, parts).value.flags)
    decreases |parts|
  {
    if parts != [] {
      HandFresh(h, Begin(h, v, parts[0]), parts[0]);
      AllFresh(h, Plain(h, v, parts[0]).value, parts[1..]);
    }
  }

  /** From the first chunk on. */
  lemma ChunksRun<Z(!new)>(h: Host<Z>, c: Control<Z>, app: Z, s: Datastream)
    requires !h.keep(IDAT) && Disciplined(h) && s.Valid()
    requires Between(c, View(Flags(false, false, false, false, false), [], [], app), Chunk) && c.idatSize == 0
    ensures Run(h, c, s.Bytes()) == Ended(Told(h, app, s), s.end)
  {
    var v0 := View(Flags(false, false, false, false, false), [], [], app);
    var tail := EncodeAll(s.after) + Encode(s.end);
    var images := EncodeAll(s.images) + tail;
    PlainRuns(h, c, v0, s.header, EncodeAll(s.before) + images);
    if Plain(h, v0, s.header).Some? {
      var v1 := Plain(h, v0, s.header).value;
      HandFresh(h, Begin(h, v0, s.header), s.header);
      var c1 := At(v1, Chunk, false, s.header, 0);
      AllPlainRuns(h, c1, v1, s.before, images);
      if AllPlain(h, v1, s.before).Some? {
        AllFresh(h, v1, s.before);
        var v2 := AllPlain(h, v1, s.before).value;
        ImagesRun(h, Passed(c1, v2, s.before), v2, s.images, s.after, s.end);
      }
    }
  }

  /** From the first IDAT on. */
  lemma {:induction false} ImagesRun<Z(!new)>(h: Host<Z>, c: Control<Z>, v: View<Z>, images: seq<Part>,
                                              after: seq<Part>, end: Part)
    requires !h.keep(IDAT) && Between(c, v, Chunk) && Fresh(v.flags)
    requires |images| > 0 && Images(images) && Others(after) && end.Valid() && end.name == IEND_LETTERS
    ensures Run(h, c, EncodeAll(images) + (EncodeAll(after) + Encode(end)))
         == match AllImages(h, v, images)
            case None => Failed
            case Some(w) => Ended(AfterImages(h, w, after, end), end)
  {
    var p, rest, tail := images[0], images[1..], EncodeAll(after) + Encode(end);
    assert EncodeAll(images) + tail == Encode(p) + (EncodeAll(rest) + tail);
    FirstImageRuns(h, c, v, p, EncodeAll(rest) + tail);
    if FirstImage(h, v, p).Some? {
      var w := FirstImage(h, v, p).value;
      var d := At(w, Idat, false, p, 0);
      MoreImagesRun(h, d, w, rest, tail);
      if MoreImages(h, w, rest).Some? {
        AfterImagesRun(h, Passed(d, MoreImages(h, w, rest).value, rest), MoreImages(h, w, rest).value, after, end);
      }
    }
  }

  /** A well-formed datastream has its chunk-by-chunk meaning, whatever the host makes of
      the chunks, however many signature bytes were checked beforehand and however the
      rest is cut into calls. */
  lemma {:induction false} DatastreamRuns<Z(!new)>(h: Host<Z>, n: nat, app: Z, s: Datastream, pieces: seq<seq<byte>>)
    requires !h.keep(IDAT) && Disciplined(h) && n < 8 && s.Valid() && Concat(pieces) == SIGNATURE[n..] + s.Bytes()
    ensures FeedAll(h, Waiting(Initial(n, app), []), pieces) == Ended(Told(h, app, s), s.end)
  {
    var c, q := Initial(n, app), SIGNATURE[n..] + s.Bytes();
    assert Run(h, c, []) == Waiting(c, []);
    ChunkingInvariance(h, c, [], pieces);
    assert [] + Concat(pieces) == q;
    assert q[..8 - n] == SIGNATURE[n..n + (8 - n)] && q[8 - n..] == s.Bytes();
    SigGreedy(h, c, q, 8 - n);
    ChunksRun(h, c.(sigBytes := 8, process := Chunk), app, s);
  }

  // ----- what that comes to -----

  function Data(parts: seq<Part>): seq<byte> {
    if parts == [] then [] else parts[0].data + Data(parts[1..])
  }

  lemma {:induction false} PlainShows<Z>(h: Host<Z>, v: View<Z>, parts: seq<Part>)
    requires Others(parts) && AllPlain(h, v, parts).Some?
    ensures var w := AllPlain(h, v, parts).value; w.sink == v.sink && w.callbacks == v.callbacks
    decreases |parts|
  {
    if parts != [] {
      PlainShows(h, Plain(h, v, parts[0]).value, parts[1..]);
    }
  }

  lemma {:induction false} ImagesShow<Z>(h: Host<Z>, v: View<Z>, parts: seq<Part>)
    requires Images(parts) && MoreImages(h, v, parts).Some?
    ensures var w := MoreImages(h, v, parts).value; w.sink == v.sink + Data(parts) && w.callbacks == v.callbacks
    decreases |parts|
  {
    if parts != [] {
      var w := Pixels(h, Begin(h, v, parts[0]), parts[0]).value;
      ImagesShow(h, w, parts[1..]);
      assert v.sink + parts[0].data + Data(parts[1..]) == v.sink + Data(parts);
    }
  }

  lemma {:induction false} AllImagesShow<Z>(h: Host<Z>, v: View<Z>, parts: seq<Part>)
    requires |parts| > 0 && Images(parts) && AllImages(h, v, parts).Some?
    ensures var w := AllImages(h, v, parts).value;
            w.sink == v.sink + Data(parts) && w.callbacks == v.callbacks + [InfoCallback]
  {
    var w := FirstImage(h, v, parts[0]).value;
    ImagesShow(h, w, parts[1..]);
    assert v.sink + parts[0].data + Data(parts[1..]) == v.sink + Data(parts);
  }

  lemma {:induction false} AfterShows<Z>(h: Host<Z>, v: View<Z>, parts: seq<Part>, end: Part)
    requires Others(parts) && end.Valid() && AfterImages(h, v, parts, end).Some?
    ensures var w := AfterImages(h, v, parts, end).value;
            w.sink == v.sink && w.callbacks == v.callbacks + [EndCallback]
  {
    if parts != [] {
      PlainShows(h, Hand(h, Begin(h, v, parts[0]), parts[0]).value, parts[1..]);
    }
  }

  /** Every datastream that is read to its end has had exactly its image data decompressed,
      in order, and each callback once. */
  lemma ToldShows<Z>(h: Host<Z>, app: Z, s: Datastream)
    requires s.Valid() && Told(h, app, s).Some?
    ensures Told(h, app, s).value.sink == Data(s.images)
    ensures Told(h, app, s).value.callbacks == [InfoCallback, EndCallback]
  {
    var v := Plain(h, View(Flags(false, false, false, false, false), [], [], app), s.header).value;
    PlainShows(h, v, s.before);
    var w := AllPlain(h, v, s.before).value;
    assert w.sink == [] && w.callbacks == [];
    AllImagesShow(h, w, s.images);
    AfterShows(h, AllImages(h, w, s.images).value, s.after, s.end);
  }

  /** A host that refuses nothing and whose handlers note the chunks they see. */
  ghost predicate Accepting<Z(!new)>(h: Host<Z>) {
    && (forall flags, app, name, length :: h.lengthOk(flags, app, name, length))
    && (forall flags, app, name, body {:trigger h.handle(flags, app, name, body)} ::
          h.handle(flags, app, name, body).Some? && Notes(flags, name, h.handle(flags, app, name, body).value.0))
    && (forall app, b :: h.inflate(app, b).Some?)
    && (forall app :: h.streamEnded(app))
    && (forall app, crc :: h.finishIdat(app, crc).Some?)
    && (forall app :: h.onInfo(app).Some?)
    && (forall app :: h.onEnd(app).Some?)
  }

  predicate Notes(flags: Flags, name: nat, after: Flags) {
    && after.haveIHDR == (flags.haveIHDR || name == IHDR)
    && after.havePLTE == (flags.havePLTE || name == PLTE)
  }

  predicate HasPalette(parts: seq<Part>) {
    exists i :: 0 <= i < |parts| && parts[i].name == PLTE_LETTERS
  }

  lemma {:induction false} AllAccepted<Z(!new)>(h: Host<Z>, v: View<Z>, parts: seq<Part>)
    requires Accepting(h) && Others(parts)
    ensures AllPlain(h, v, parts).Some?
    ensures var f := AllPlain(h, v, parts).value.flags;
            f.haveIHDR == v.flags.haveIHDR && f.havePLTE == (v.flags.havePLTE || HasPalette(parts))
    decreases |parts|
  {
    if parts != [] {
      NamesAre(parts[0]);
      AllAccepted(h, Plain(h, v, parts[0]).value, parts[1..]);
      assert parts == [parts[0]] + parts[1..];
      assert HasPalette(parts) <==> parts[0].name == PLTE_LETTERS || HasPalette(parts[1..]);
    }
  }

  lemma {:induction false} AllInflated<Z(!new)>(h: Host<Z>, app: Z, data: seq<byte>)
    requires Accepting(h)
    ensures InflateAll(h, app, data).Some?
    decreases |data|
  {
    if data != [] {
      AllInflated(h, h.inflate(app, data[0]).value, data[1..]);
    }
  }

  lemma {:induction false} ImagesAccepted<Z(!new)>(h: Host<Z>, v: View<Z>, parts: seq<Part>)
    requires Accepting(h) && Images(parts)
    ensures MoreImages(h, v, parts).Some?
    decreases |parts|
  {
    if parts != [] {
      AllInflated(h, Begin(h, v, parts[0]).app, parts[0].data);
      ImagesAccepted(h, Pixels(h, Begin(h, v, parts[0]), parts[0]).value, parts[1..]);
    }
  }

  lemma BeforeAccepted<Z(!new)>(h: Host<Z>, app: Z, s: Datastream)
    requires Accepting(h) && s.Valid()
    ensures var r := BeforeImages(h, app, s);
            r.Some? && r.value.flags.haveIHDR && r.value.flags.havePLTE == HasPalette(s.before)
  {
    NamesAre(s.header);
    AllAccepted(h, Plain(h, View(Flags(false, false, false, false, false), [], [], app), s.header).value, s.before);
  }

  lemma {:induction false} AllImagesAccepted<Z(!new)>(h: Host<Z>, v: View<Z>, parts: seq<Part>)
    requires Accepting(h) && |parts| > 0 && Images(parts)
    ensures AllImages(h, v, parts).Some? <==> Ready(h, v.(app := h.startChunk(v.app, IDAT)))
  {
    NamesAre(parts[0]);
    var w := Begin(h, v, parts[0]);
    AllInflated(h, h.onInfo(w.app).value, parts[0].data);
    if FirstImage(h, v, parts[0]).Some? {
      ImagesAccepted(h, FirstImage(h, v, parts[0]).value, parts[1..]);
    }
  }

  lemma {:induction false} AfterAccepted<Z(!new)>(h: Host<Z>, v: View<Z>, parts: seq<Part>, end: Part)
    requires Accepting(h) && Others(parts) && end.Valid()
    ensures AfterImages(h, v, parts, end).Some?
  {
    if parts != [] {
      AllAccepted(h, Hand(h, Begin(h, v, parts[0]), parts[0]).value, parts[1..]);
    }
  }

  /** An accepting host gets every well-formed datastream to its end, unless the pixels are
      palette indices and no PLTE came before them: then it is refused. */
  lemma AcceptedIff<Z(!new)>(h: Host<Z>, app: Z, s: Datastream)
    requires Accepting(h) && s.Valid()
    ensures BeforeImages(h, app, s).Some?
    ensures Told(h, app, s).Some?
       <==> HasPalette(s.before) || !h.palette(h.startChunk(BeforeImages(h, app, s).value.app, IDAT))
  {
    BeforeAccepted(h, app, s);
    var v := BeforeImages(h, app, s).value;
    AllImagesAccepted(h, v, s.images);
    if AllImages(h, v, s.images).Some? {
      AfterAccepted(h, AllImages(h, v, s.images).value, s.after, s.end);
    }
  }

  /** An accepting host reads the datastream to its end, having decompressed the image data
      and called back twice, exactly when the palette was there in time. */
  lemma {:induction false} AcceptedRun<Z(!new)>(h: Host<Z>, n: nat, app: Z, s: Datastream, pieces: seq<seq<byte>>)
    requires Accepting(h) && Disciplined(h) && !h.keep(IDAT)
    requires n < 8 && s.Valid() && Concat(pieces) == SIGNATURE[n..] + s.Bytes()
    ensures var r := FeedAll(h, Waiting(Initial(n, app), []), pieces);
            && BeforeImages(h, app, s).Some?
            && (r.Failed?
                <==> h.palette(h.startChunk(BeforeImages(h, app, s).value.app, IDAT)) && !HasPalette(s.before))
            && (r.Waiting? ==> r.control.process == Done && r.pending == [] && r.control.sink == Data(s.images)
                               && r.control.callbacks == [InfoCallback, EndCallback])
  {
    DatastreamRuns(h, n, app, s, pieces);
    AcceptedIff(h, app, s);
    if Told(h, app, s).Some? {
      ToldShows(h, app, s);
    }
  }

  // ----- the order of events -----

  datatype Event =
    | Handled(name: seq<byte>, body: seq<byte>)
    | Info
    | Pixel(value: byte)
    | Checked(crc: seq<byte>)
    | End

  /** An accepting host that writes down what it is asked to do. */
  function Recorder(): Host<seq<Event>> {
    Host(name => false, true, _ => false, (_, _, _, _) => true, (app, _) => app,
         (flags: Flags, app, name, body) =>
           Some((flags.(haveIHDR := flags.haveIHDR || name == IHDR, havePLTE := flags.havePLTE || name == PLTE),
                 app + [Handled(Written(name % TWO_TO_THE_32), body)])),
         (app, b) => Some(app + [Pixel(b)]), _ => true, (app, crc) => Some(app + [Checked(crc)]),
         app => Some(app + [Info]), app => Some(app + [End]))
  }

  function Seen(p: Part): Event {
    Handled(p.name, p.data + p.crc)
  }

  function AllSeen(parts: seq<Part>): seq<Event> {
    seq(|parts|, i requires 0 <= i < |parts| => Seen(parts[i]))
  }

  function AllPixels(data: seq<byte>): seq<Event> {
    if data == [] then [] else [Pixel(data[0])] + AllPixels(data[1..])
  }

  function Drawn(p: Part): seq<Event> {
    AllPixels(p.data) + [Checked(p.crc)]
  }

  function AllDrawn(parts: seq<Part>): seq<Event> {
    if parts == [] then [] else Drawn(parts[0]) + AllDrawn(parts[1..])
  }

  /** The four letters, read back from the number the handler is given. */
  lemma LettersBack(p: Part)
    requires p.Valid()
    ensures Written(p.Name() % TWO_TO_THE_32) == p.name
  {
    assert 0 <= p.Name() < TWO_TO_THE_32;
    WrittenBack(p.Name());
    NameIs(Written(p.Name()), p.name);
  }

  lemma HandRecorded(v: View<seq<Event>>, p: Part)
    requires p.Valid()
    ensures var r := Hand(Recorder(), v, p);
            r.Some? && r.value.app == v.app + [Seen(p)] && Notes(v.flags, p.Name(), r.value.flags)
  {
    LettersBack(p);
  }

  lemma {:induction false} PlainRecorded(v: View<seq<Event>>, parts: seq<Part>)
    requires Others(parts)
    ensures var r := AllPlain(Recorder(), v, parts);
            r.Some? && r.value.app == v.app + AllSeen(parts) && r.value.flags.haveIHDR == v.flags.haveIHDR
    decreases |parts|
  {
    if parts != [] {
      NamesAre(parts[0]);
      HandRecorded(v, parts[0]);
      assert Begin(Recorder(), v, parts[0]) == v;
      PlainRecorded(Plain(Recorder(), v, parts[0]).value, parts[1..]);
      assert AllSeen(parts) == [Seen(parts[0])] + AllSeen(parts[1..]);
    }
  }

  lemma {:induction false} InflateRecorded(app: seq<Event>, data: seq<byte>)
    ensures InflateAll(Recorder(), app, data) == Some(app + AllPixels(data))
    decreases |data|
  {
    if data != [] {
      InflateRecorded(app + [Pixel(data[0])], data[1..]);
      assert app + [Pixel(data[0])] + AllPixels(data[1..]) == app + AllPixels(data);
    } else {
      assert app + AllPixels(data) == app;
    }
  }

  lemma PixelsRecorded(v: View<seq<Event>>, p: Part)
    ensures var r := Pixels(Recorder(), v, p); r.Some? && r.value.app == v.app + Drawn(p)
  {
    InflateRecorded(v.app, p.data);
  }

  lemma {:induction false} ImagesRecorded(v: View<seq<Event>>, parts: seq<Part>)
    requires Images(parts)
    ensures var r := MoreImages(Recorder(), v, parts); r.Some? && r.value.app == v.app + AllDrawn(parts)
    decreases |parts|
  {
    if parts != [] {
      PixelsRecorded(v, parts[0]);
      assert Begin(Recorder(), v, parts[0]) == v;
      ImagesRecorded(Pixels(Recorder(), v, parts[0]).value, parts[1..]);
    }
  }

  lemma CloseRecorded(v: View<seq<Event>>, p: Part)
    requires p.Valid()
    ensures var r := Close(Recorder(), v, p); r.Some? && r.value.app == v.app + [Seen(p), End]
  {
    HandRecorded(v, p);
  }

  lemma {:induction false} AfterRecorded(v: View<seq<Event>>, parts: seq<Part>, end: Part)
    requires Others(parts) && end.Valid()
    ensures var r := AfterImages(Recorder(), v, parts, end);
            r.Some? && r.value.app == v.app + AllSeen(parts) + [Seen(end), End]
  {
    var h := Recorder();
    if parts == [] {
      CloseRecorded(v, end);
    } else {
      HandRecorded(v, parts[0]);
      var x := Hand(h, v, parts[0]).value;
      PlainRecorded(x, parts[1..]);
      var y := AllPlain(h, x, parts[1..]).value;
      CloseRecorded(y, end);
      assert AllSeen(parts) == [Seen(parts[0])] + AllSeen(parts[1..]);
    }
  }

  lemma BeforeRecorded(s: Datastream)
    requires s.Valid()
    ensures var r := BeforeImages(Recorder(), [], s);
            r.Some? && r.value.app == [Seen(s.header)] + AllSeen(s.before) && r.value.flags.haveIHDR
  {
    var v: View<seq<Event>> := View(Flags(false, false, false, false, false), [], [], []);
    NamesAre(s.header);
    HandRecorded(v, s.header);
    PlainRecorded(Plain(Recorder(), v, s.header).value, s.before);
  }

  lemma {:induction false} AllImagesRecorded(v: View<seq<Event>>, parts: seq<Part>)
    requires |parts| > 0 && Images(parts) && v.flags.haveIHDR
    ensures var r := AllImages(Recorder(), v, parts); r.Some? && r.value.app == v.app + [Info] + AllDrawn(parts)
  {
    var h, p := Recorder(), parts[0];
    var w := v.(flags := v.flags.(haveIDAT := true), callbacks := v.callbacks + [InfoCallback], app := v.app + [Info]);
    PixelsRecorded(w, p);
    assert FirstImage(h, v, p) == Pixels(h, w, p);
    ImagesRecorded(Pixels(h, w, p).value, parts[1..]);
    assert w.app + Drawn(p) + AllDrawn(parts[1..]) == w.app + AllDrawn(parts);
  }

  lemma ToldRecorded(s: Datastream)
    requires s.Valid()
    ensures var r := Told(Recorder(), [], s);
            && r.Some?
            && r.value.app == [Seen(s.header)] + AllSeen(s.before) + [Info] + AllDrawn(s.images)
                            + AllSeen(s.after) + [Seen(s.end), End]
  {
    BeforeRecorded(s);
    var v := BeforeImages(Recorder(), [], s).value;
    AllImagesRecorded(v, s.images);
    AfterRecorded(AllImages(Recorder(), v, s.images).value, s.after, s.end);
  }

  /** The host's work on a datastream, in order: every chunk but IDAT is handed over whole,
      the information callback comes right before the first image byte, and every image
      byte is decompressed before the CRC of its chunk is checked. */
  lemma {:induction false} EventsInOrder(n: nat, s: Datastream, pieces: seq<seq<byte>>)
    requires n < 8 && s.Valid() && Concat(pieces) == SIGNATURE[n..] + s.Bytes()
    ensures var r := FeedAll(Recorder(), Waiting(Initial(n, []), []), pieces);
            && r.Waiting? && r.control.process == Done
            && r.control.app == [Seen(s.header)] + AllSeen(s.before) + [Info] + AllDrawn(s.images)
                              + AllSeen(s.after) + [Seen(s.end), End]
  {
    ToldRecorded(s);
    DatastreamRuns(Recorder(), n, [], s, pieces);
  }
}
