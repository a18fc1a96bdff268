/** The push reader of pngpread.c: a control record and a byte queue updated in
    place, proved against the stream semantics of `PushSpec`. */
module PushReader {
  import opened Bytes
  import opened PushSpec
  import opened PushQueue

  // ----- greedy steps take several of the specification's moves at once -----

  function InflateAll<Z>(h: Host<Z>, app: Z, s: seq<byte>): Option<Z> {
    if s == [] then Some(app)
    else
      match h.inflate(app, s[0])
      case None => None
      case Some(next) => InflateAll(h, next, s[1..])
  }

  /** Handing n image bytes over together is handing them over one by one. */
  lemma {:induction false} InflateGreedy<Z>(h: Host<Z>, c: Control<Z>, p: seq<byte>, n: nat)
    requires c.process == Idat && c.haveHeader && n <= c.idatSize && n <= |p|
    ensures match InflateAll(h, c.app, p[..n])
            case None => Run(h, c, p) == Failed
            case Some(app) =>
              Run(h, c, p) == Run(h, c.(idatSize := c.idatSize - n, sink := c.sink + p[..n], app := app), p[n..])
    decreases n
  {
    if n == 0 {
      assert c.sink + p[..0] == c.sink;
      assert p[0..] == p;
    } else {
      assert p[..n][1..] == p[1..][..n - 1];
      match h.inflate(c.app, p[0])
      case None =>
      case Some(next) =>
        var d := c.(idatSize := c.idatSize - 1, sink := c.sink + [p[0]], app := next);
        InflateGreedy(h, d, p[1..], n - 1);
        assert d.sink + p[1..][..n - 1] == c.sink + p[..n];
        assert p[1..][n - 1..] == p[n..];
    }
  }

  lemma PrefixStep(p: seq<byte>, sig: seq<byte>, k: nat, n: nat)
    requires 0 < n <= |p| && k + n <= |sig|
    ensures p[..n] == sig[k..k + n] <==> p[0] == sig[k] && p[1..][..n - 1] == sig[k + 1..k + n]
  {
    assert p[..n] == [p[0]] + p[1..][..n - 1];
    assert sig[k..k + n] == [sig[k]] + sig[k + 1..k + n];
  }

  /** Comparing all available signature bytes together is comparing them one by one. */
  lemma {:induction false} SigGreedy<Z>(h: Host<Z>, c: Control<Z>, p: seq<byte>, n: nat)
    requires c.process == Sig && c.sigBytes + n <= 8 && 0 < n <= |p|
    ensures if p[..n] == SIGNATURE[c.sigBytes..c.sigBytes + n]
            then Run(h, c, p) == Run(h, c.(sigBytes := c.sigBytes + n,
                                           process := if c.sigBytes + n == 8 then Chunk else Sig), p[n..])
            else Run(h, c, p) == Failed
    decreases n
  {
    PrefixStep(p, SIGNATURE, c.sigBytes, n);
    if p[0] == SIGNATURE[c.sigBytes] && n > 1 {
      SigGreedy(h, c.(sigBytes := c.sigBytes + 1), p[1..], n - 1);
      assert p[1..][n - 1..] == p[n..];
    }
  }

  class Reader<Z> {
    const host: Host<Z>
    const queue: ByteQueue
    var state: Control<Z>  // the fields of png_struct that pngpread.c uses, other than the queue

    /** The state between calls. */
    ghost function Between(): Rest<Z>
      requires queue.Valid()
      reads this, queue, queue.saveBuffer
    {
      Waiting(state, if state.process == Done then [] else queue.contents)
    }

    constructor (host: Host<Z>, n: nat, app: Z)
      ensures this.host == host && fresh(queue) && fresh(queue.saveBuffer) && queue.AtRest()
      ensures Between() == Waiting(Initial(n, app), [])
    {
      this.host := host;
      queue := new ByteQueue();
      state := Initial(n, app);
    }

    /** The queue after a move: nothing lost when going on, all kept when suspending. */
    twostate predicate Follows(m: Move<Z>)
      requires queue.Valid() && old(queue.Valid())
      reads this, queue, queue.saveBuffer
    {
      match m
      case Fail => false
      case Advance(c, u) =>
        state == c && u <= old(|queue.contents|) && queue.Live() && queue.contents == old(queue.contents)[u..]
      case Suspend(c, u) =>
        state == c && u <= old(|queue.contents|) && queue.AtRest() && queue.contents == old(queue.contents)[u..]
    }

    /** The eight header bytes, shared by chunk mode and IDAT mode. */
    method TakeHeader() returns (ok: bool)
      requires queue.Live() && queue.bufferSize >= 8
      modifies this, queue
      ensures queue.Live() && queue.saveBuffer == old(queue.saveBuffer)
      ensures match ReadHeader(host, old(state), old(queue.contents))
              case None => !ok
              case Some(c) => ok && state == c && queue.contents == old(queue.contents)[8..]
    {
      ghost var p := queue.contents;
      var lengthBytes := queue.Fill(4);
      var length := Be32(lengthBytes);
      if length > 0x7FFF_FFFF {
        return false;
      }
      var tag := queue.Fill(4);
      assert tag == p[4..8] && queue.contents == p[8..];
      var name := Be32(tag);
      state := state.(pushLength := length, chunkName := name,
                      app := host.startChunk(state.app, name), haveHeader := true);
      ok := true;
    }

    /** The common tail of a chunk: wait for its data and CRC, then handle it. */
    method Handle() returns (ok: bool, waiting: bool)
      requires queue.Live()
      modifies this, queue, queue.saveBuffer
      ensures queue.Valid() && (queue.saveBuffer == old(queue.saveBuffer) || fresh(queue.saveBuffer))
      ensures var m := HandleChunk(host, old(state), old(queue.contents));
              if ok then Follows(m) && waiting == m.Suspend?
              else m.Fail? || old(|queue.contents|) + 256 > SIZE_MAX
    {
      waiting := state.pushLength + 4 > queue.bufferSize;
      if waiting {
        ok := queue.Save();
        return;
      }
      var body := queue.Fill(state.pushLength + 4);
      match host.handle(state.flags, state.app, state.chunkName, body)
      case None => ok := false;
      case Some((flags, app)) =>
        state := state.(flags := flags, app := app, haveHeader := false);
        ok := true;
    }

    /** The checks and mode changes made on meeting an IDAT in chunk mode. */
    method EnterImage() returns (ok: bool, skip: bool)
      modifies this
      ensures match EnterIdat(host, old(state))
              case None => !ok
              case Some(c) => ok && state == c && skip == SkipsEmptyIdat(old(state))
    {
      skip := false;
      if state.flags.afterIDAT {
        state := state.(flags := state.flags.(chunkAfterIDAT := true));
      }
      if !state.flags.haveIHDR {
        return false, skip;
      } else if host.palette(state.app) && !state.flags.havePLTE {
        return false, skip;
      }
      state := state.(process := Idat);
      if state.flags.haveIDAT {
        if !state.flags.chunkAfterIDAT {
          if state.pushLength == 0 {
            return true, true;
          }
        }
      }
      state := state.(flags := state.flags.(haveIDAT := true));
      ok := !(state.flags.afterIDAT && host.benignIsFatal);
    }

    /** The IDAT arms of png_push_read_chunk. */
    method StartImage() returns (ok: bool)
      requires queue.Live() && state.chunkName == IDAT
      modifies this, queue, queue.saveBuffer
      ensures queue.Valid() && (queue.saveBuffer == old(queue.saveBuffer) || fresh(queue.saveBuffer))
      ensures var m := IdatChunkMove(host, old(state), old(queue.contents));
              if ok then Follows(m) else m.Fail? || old(|queue.contents|) + 256 > SIZE_MAX
    {
      ghost var p := queue.contents;
      assert p[0..] == p;
      var skip;
      ok, skip := EnterImage();
      if !ok || skip {
        return;
      }
      if host.keep(state.chunkName) {
        ok, skip := Handle();
        return;
      }
      match host.onInfo(state.app)
      case None => ok := false;
      case Some(app) =>
        state := state.(idatSize := state.pushLength, app := app, callbacks := state.callbacks + [InfoCallback]);
    }

    /** png_push_read_chunk after the header. */
    method ReadBody() returns (ok: bool)
      requires queue.Live()
      modifies this, queue, queue.saveBuffer
      ensures queue.Valid() && (queue.saveBuffer == old(queue.saveBuffer) || fresh(queue.saveBuffer))
      ensures var m := BodyMove(host, old(state), old(queue.contents));
              if ok then Follows(m) else m.Fail? || old(|queue.contents|) + 256 > SIZE_MAX
    {
      var waiting;
      if state.chunkName == IDAT {
        ok := StartImage();
      } else if state.chunkName == IHDR {
        if state.pushLength != 13 {
          return false;
        }
        ok, waiting := Handle();
      } else if state.chunkName == IEND {
        ok, waiting := Handle();
        if ok && !waiting {
          match host.onEnd(state.app)
          case None => ok := false;
          case Some(app) =>
            state := state.(process := Done, app := app, callbacks := state.callbacks + [EndCallback]);
        }
      } else {
        ok, waiting := Handle();
        if ok && !waiting && state.chunkName == PLTE && host.keep(state.chunkName) {
          state := state.(flags := state.flags.(havePLTE := true));
        }
      }
    }

    /** png_push_read_chunk. */
    method ReadChunk() returns (ok: bool)
      requires queue.Live()
      modifies this, queue, queue.saveBuffer
      ensures queue.Valid() && (queue.saveBuffer == old(queue.saveBuffer) || fresh(queue.saveBuffer))
      ensures var m := ChunkMove(host, old(state), old(queue.contents));
              if ok then Follows(m) else m.Fail? || old(|queue.contents|) + 256 > SIZE_MAX
    {
      ghost var p := queue.contents;
      if !state.haveHeader {
        if queue.bufferSize < 8 {
          ok := queue.Save();
          assert p[0..] == p;
          return;
        }
        ok := TakeHeader();
        if !ok || !NameOk(state.chunkName)
           || !host.lengthOk(state.flags, state.app, state.chunkName, state.pushLength) {
          return false;
        }
        ok := ReadBody();
        assert forall u :: 0 <= u <= |p| - 8 ==> p[8..][u..] == p[u + 8..];
      } else {
        ok := ReadBody();
      }
    }

    /** png_push_read_sig. */
    method ReadSig() returns (ok: bool)
      requires queue.Live() && queue.bufferSize > 0 && state.process == Sig
      modifies this, queue
      ensures queue.Live() && queue.saveBuffer == old(queue.saveBuffer)
      ensures var r := Run(host, old(state), old(queue.contents));
              if ok then r == Run(host, state, queue.contents) && queue.bufferSize < old(queue.bufferSize)
              else r.Failed?
    {
      ghost var p, c := queue.contents, state;
      if state.sigBytes >= 8 {
        // nothing is left to check, which png_sig_cmp reports as a mismatch
        return false;
      }
      var n := 8 - state.sigBytes;
      if queue.bufferSize < n {
        n := queue.bufferSize;
      }
      SigGreedy(host, c, p, n);
      var got := queue.Fill(n);
      if got != SIGNATURE[state.sigBytes..state.sigBytes + n] {
        return false;
      }
      state := state.(sigBytes := state.sigBytes + n);
      if state.sigBytes >= 8 {
        state := state.(process := Chunk);
      }
      ok := true;
    }

    /** png_process_IDAT_data: all the bytes go to the decompressor in order. */
    method Inflate(s: seq<byte>) returns (ok: bool)
      modifies this
      ensures match InflateAll(host, old(state.app), s)
              case None => !ok
              case Some(app) => ok && state == old(state).(app := app, sink := old(state.sink) + s)
    {
      var i := 0;
      while i < |s|
        invariant i <= |s|
        invariant InflateAll(host, state.app, s[i..]) == InflateAll(host, old(state.app), s)
        invariant state == old(state).(app := state.app, sink := old(state.sink) + s[..i])
      {
        assert s[i..][1..] == s[i + 1..];
        match host.inflate(state.app, s[i])
        case None => return false;
        case Some(next) =>
          state := state.(app := next, sink := state.sink + [s[i]]);
          i := i + 1;
      }
      assert s[..i] == s;
      ok := true;
    }

    /** n image bytes, read in place, go to the decompressor. */
    method InflateSome(s: seq<byte>) returns (ok: bool)
      requires queue.Valid() && state.process == Idat && state.haveHeader
      requires |s| <= state.idatSize && s <= queue.contents
      modifies this
      ensures var r := Run(host, old(state), queue.contents);
              if ok then
                && r == Run(host, state, queue.contents[|s|..])
                && state.process == Idat && state.haveHeader && state.idatSize == old(state.idatSize) - |s|
              else r.Failed?
    {
      InflateGreedy(host, state, queue.contents, |s|);
      assert queue.contents[..|s|] == s;
      ok := Inflate(s);
      if ok {
        state := state.(idatSize := state.idatSize - |s|);
      }
    }

    /** The saved bytes that belong to the current IDAT are used in place. */
    method InflateSaved() returns (ok: bool)
      requires queue.Live() && state.process == Idat && state.haveHeader
      modifies this, queue
      ensures queue.Live() && queue.saveBuffer == old(queue.saveBuffer) && queue.bufferSize <= old(queue.bufferSize)
      ensures ok ==> state.process == Idat && state.haveHeader && (state.idatSize == 0 || queue.saveSize == 0)
      ensures var r := Run(host, old(state), old(queue.contents));
              if ok then r == Run(host, state, queue.contents) else r.Failed?
    {
      ok := true;
      if state.idatSize != 0 && queue.saveSize != 0 {
        var n := if state.idatSize < queue.saveSize then state.idatSize else queue.saveSize;
        var s := queue.PeekSaved(n);
        ok := InflateSome(s);
        if ok {
          queue.SkipSaved(n);
        }
      }
    }

    /** Then the current bytes, likewise. */
    method InflateCurrent() returns (ok: bool)
      requires queue.Live() && state.process == Idat && state.haveHeader && (state.idatSize == 0 || queue.saveSize == 0)
      modifies this, queue
      ensures queue.Live() && queue.saveBuffer == old(queue.saveBuffer) && queue.bufferSize <= old(queue.bufferSize)
      ensures ok ==> state.process == Idat && state.haveHeader && (state.idatSize == 0 || queue.bufferSize == 0)
      ensures var r := Run(host, old(state), old(queue.contents));
              if ok then r == Run(host, state, queue.contents) else r.Failed?
    {
      ok := true;
      if state.idatSize != 0 && queue.currentSize != 0 {
        var n := if state.idatSize < queue.currentSize then state.idatSize else queue.currentSize;
        var s := queue.PeekCurrent(n);
        ok := InflateSome(s);
        if ok {
          queue.SkipCurrent(n);
        }
      }
    }

    /** The reader went on with the same future, or suspended in the final state. */
    ghost predicate Reaches(r: Rest<Z>)
      requires queue.Valid()
      reads this, queue, queue.saveBuffer
    {
      || (queue.Live() && r == Run(host, state, queue.contents))
      || (queue.AtRest() && state.process != Done && r == Waiting(state, queue.contents))
    }

    /** The end of an IDAT chunk: four CRC bytes, or wait for them. */
    method FinishIdat() returns (ok: bool)
      requires queue.Live() && state.process == Idat && state.haveHeader && state.idatSize == 0
      modifies this, queue, queue.saveBuffer
      ensures queue.Valid() && (queue.saveBuffer == old(queue.saveBuffer) || fresh(queue.saveBuffer))
      ensures var r := Run(host, old(state), old(queue.contents));
              if ok then Reaches(r) && |queue.contents| <= old(|queue.contents|)
                         && (queue.bufferSize == 0 || queue.bufferSize < old(queue.bufferSize))
              else r.Failed? || old(|queue.contents|) + 256 > SIZE_MAX
    {
      ghost var p := queue.contents;
      assert p[0..] == p;
      if queue.bufferSize < 4 {
        ok := queue.Save();
        return;
      }
      var crc := queue.Fill(4);
      match host.finishIdat(state.app, crc)
      case None => ok := false;
      case Some(app) =>
        state := state.(app := app, haveHeader := false, flags := state.flags.(afterIDAT := true));
        ok := true;
    }

    /** The header of the chunk that follows an IDAT; `leave` ends the visit. */
    method IdatHeader() returns (ok: bool, leave: bool)
      requires queue.Live() && queue.bufferSize > 0 && state.process == Idat && !state.haveHeader
      modifies this, queue, queue.saveBuffer
      ensures queue.Valid() && (queue.saveBuffer == old(queue.saveBuffer) || fresh(queue.saveBuffer))
      ensures ok && !leave ==> queue.Live() && state.process == Idat && state.haveHeader
      ensures ok ==> |queue.contents| <= old(|queue.contents|)
      ensures ok ==> queue.bufferSize == 0 || queue.bufferSize < old(queue.bufferSize)
      ensures var r := Run(host, old(state), old(queue.contents));
              if ok then Reaches(r) && (!leave ==> r == Run(host, state, queue.contents))
              else r.Failed? || old(|queue.contents|) + 256 > SIZE_MAX
    {
      assert queue.contents[0..] == queue.contents;
      leave := true;
      if queue.bufferSize < 8 {
        ok := queue.Save();
        return;
      }
      ok := TakeHeader();
      if !ok {
        return;
      }
      if state.chunkName != IDAT {
        state := state.(process := Chunk);
        ok := host.streamEnded(state.app);
        return;
      }
      state := state.(idatSize := state.pushLength);
      leave := false;
    }

    /** png_push_read_IDAT. */
    method ReadIdat() returns (ok: bool)
      requires queue.Live() && queue.bufferSize > 0 && state.process == Idat
      modifies this, queue, queue.saveBuffer
      ensures queue.Valid() && (queue.saveBuffer == old(queue.saveBuffer) || fresh(queue.saveBuffer))
      ensures ok ==> |queue.contents| <= old(|queue.contents|)
      ensures ok ==> queue.bufferSize == 0 || queue.bufferSize < old(queue.bufferSize)
      ensures var r := Run(host, old(state), old(queue.contents));
              if ok then Reaches(r) else r.Failed? || old(|queue.contents|) + 256 > SIZE_MAX
    {
      if !state.haveHeader {
        var leave;
        ok, leave := IdatHeader();
        if !ok || leave {
          return;
        }
      }
      ok := InflateSaved();
      if !ok {
        return;
      }
      ok := InflateCurrent();
      if !ok {
        return;
      }
      if state.idatSize == 0 {
        ok := FinishIdat();
      }
    }

    /** As `Reaches`, where a reader that has met IEND owes nothing more. */
    ghost predicate Settled(r: Rest<Z>)
      requires queue.Valid()
      reads this, queue, queue.saveBuffer
    {
      && (queue.bufferSize != 0 ==> queue.Live())
      && if state.process == Done then r == Waiting(state, []) else Reaches(r)
    }

    /** Chunk mode, seen from the stream semantics. */
    method ChunkMode() returns (ok: bool)
      requires queue.Live() && queue.bufferSize > 0 && state.process == Chunk
      modifies this, queue, queue.saveBuffer
      ensures queue.Valid() && (queue.saveBuffer == old(queue.saveBuffer) || fresh(queue.saveBuffer))
      ensures var r := Run(host, old(state), old(queue.contents));
              if ok then Reaches(r) && |queue.contents| <= old(|queue.contents|)
                         && (queue.bufferSize == 0 || queue.bufferSize < old(queue.bufferSize)
                             || (queue.bufferSize == old(queue.bufferSize) && state.process != Chunk))
              else r.Failed? || old(|queue.contents|) + 256 > SIZE_MAX
    {
      MoveProgresses(host, state, queue.contents);
      ok := ReadChunk();
    }

    /** png_process_some_data. */
    method ProcessSome() returns (ok: bool)
      requires queue.Live() && queue.bufferSize > 0
      modifies this, queue, queue.saveBuffer
      ensures queue.Valid() && (queue.saveBuffer == old(queue.saveBuffer) || fresh(queue.saveBuffer))
      ensures var r := Run(host, old(state), old(queue.contents));
              if ok then Settled(r) && |queue.contents| <= old(|queue.contents|)
                         && (queue.bufferSize == 0 || queue.bufferSize < old(queue.bufferSize)
                             || (queue.bufferSize == old(queue.bufferSize) && Rank(state) < old(Rank(state))))
              else r.Failed? || old(|queue.contents|) + 256 > SIZE_MAX
    {
      match state.process
      case Sig => ok := ReadSig();
      case Chunk => ok := ChunkMode();
      case Idat => ok := ReadIdat();
      case Done =>
        queue.bufferSize, ok := 0, true;
    }

    /** The loop of png_process_data. */
    method Drain() returns (ok: bool)
      requires queue.Live()
      modifies this, queue, queue.saveBuffer
      ensures queue.Valid() && (queue.saveBuffer == old(queue.saveBuffer) || fresh(queue.saveBuffer))
      ensures ok ==> queue.bufferSize == 0 && (queue.AtRest() || state.process == Done)
      ensures ok ==> |queue.contents| <= old(|queue.contents|)
      ensures var r := Run(host, old(state), old(queue.contents));
              if ok then r == Between() else r.Failed? || old(|queue.contents|) + 256 > SIZE_MAX
    {
      ghost var n, r := |queue.contents|, Run(host, state, queue.contents);
      ok := true;
      while queue.bufferSize != 0
        invariant queue.Valid() && (queue.saveBuffer == old(queue.saveBuffer) || fresh(queue.saveBuffer))
        invariant |queue.contents| <= n && Settled(r)
        decreases queue.bufferSize, Rank(state)
      {
        assert r == Run(host, state, queue.contents);
        ok := ProcessSome();
        if !ok {
          return;
        }
      }
      assert r == Between();
    }

    /** png_process_data. */
    method ProcessData(data: seq<byte>) returns (ok: bool)
      requires queue.Valid() && queue.bufferSize == 0 && (queue.AtRest() || state.process == Done)
      modifies this, queue, queue.saveBuffer
      ensures queue.Valid() && (queue.saveBuffer == old(queue.saveBuffer) || fresh(queue.saveBuffer))
      ensures ok ==> queue.bufferSize == 0 && (queue.AtRest() || state.process == Done)
      ensures ok ==> queue.saveSize <= old(queue.saveSize) + |data|
      ensures var r := Feed(host, old(Between()), data);
              if ok then r == Between() else r.Failed? || old(queue.saveSize) + |data| + 256 > SIZE_MAX
    {
      assert queue.contents[..queue.saveSize] == queue.contents || state.process == Done;
      queue.Restore(data);
      ok := Drain();
    }
  }

  lemma {:induction false} FailureSticks<Z>(h: Host<Z>, pieces: seq<seq<byte>>)
    ensures FeedAll(h, Failed, pieces) == Failed
    decreases |pieces|
  {
    if pieces != [] {
      FailureSticks(h, pieces[1..]);
    }
  }

  /** Streaming equals one shot: a reader given the stream in any pieces ends in the
      state of the stream semantics on the whole stream, or reports the same failure. */
  method Stream<Z>(host: Host<Z>, n: nat, app: Z, pieces: seq<seq<byte>>) returns (reader: Reader<Z>, ok: bool)
    requires !host.keep(IDAT)
    ensures fresh(reader) && reader.queue.Valid()
    ensures var r := Run(host, Initial(n, app), Concat(pieces));
            if ok then r == reader.Between() else r.Failed? || |Concat(pieces)| + 256 > SIZE_MAX
  {
    reader := new Reader<Z>(host, n, app);
    ok := true;
    var i := 0;
    ghost var c := Initial(n, app);
    ghost var all := FeedAll(host, Run(host, c, []), pieces);
    ChunkingInvariance(host, c, [], pieces);
    assert [] + Concat(pieces) == Concat(pieces);
    while i < |pieces|
      invariant i <= |pieces|
      invariant fresh(reader) && fresh(reader.queue) && fresh(reader.queue.saveBuffer) && reader.host == host
      invariant reader.queue.Valid() && reader.queue.bufferSize == 0
      invariant reader.queue.AtRest() || reader.state.process == Done
      invariant reader.queue.saveSize + |Concat(pieces[i..])| <= |Concat(pieces)|
      invariant FeedAll(host, reader.Between(), pieces[i..]) == all
    {
      assert pieces[i..][1..] == pieces[i + 1..];
      ok := reader.ProcessData(pieces[i]);
      if !ok {
        FailureSticks(host, pieces[i + 1..]);
        return;
      }
      i := i + 1;
    }
  }
}
