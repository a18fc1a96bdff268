/** The two-part byte queue of the libpng push reader: bytes kept from earlier
    calls (save buffer) followed by the bytes of the current call. */
module PushQueue {
  import opened Bytes

  const SIZE_MAX: nat := 0xFFFF_FFFF_FFFF_FFFF

  function Min(a: nat, b: nat): nat {
    if a < b then a else b
  }

  class ByteQueue {
    var saveBuffer: array<byte>  // save_buffer; its Length is save_buffer_max
    var savePtr: nat             // save_buffer_ptr - save_buffer
    var saveSize: nat
    var current: seq<byte>       // current_buffer, owned by the application
    var currentPtr: nat          // current_buffer_ptr - current_buffer
    var currentSize: nat
    var bufferSize: nat

    /** The abstract FIFO: saved bytes first. */
    ghost var contents: seq<byte>

    ghost predicate Valid()
      reads this, saveBuffer
    {
      && savePtr + saveSize <= saveBuffer.Length
      && currentPtr + currentSize <= |current|
      && contents == saveBuffer[savePtr..savePtr + saveSize] + current[currentPtr..currentPtr + currentSize]
    }

    /** While a call is being processed buffer_size counts exactly the pending bytes. */
    ghost predicate Live()
      reads this, saveBuffer
    {
      Valid() && bufferSize == |contents|
    }

    /** Between calls nothing of the application's buffer is referenced. */
    ghost predicate AtRest()
      reads this, saveBuffer
    {
      Valid() && bufferSize == 0 && currentSize == 0
    }

    constructor ()
      ensures AtRest() && contents == [] && fresh(saveBuffer)
    {
      saveBuffer := new byte[0];
      savePtr, saveSize, current, currentPtr, currentSize, bufferSize := 0, 0, [], 0, 0, 0;
      contents := [];
    }

    /** png_push_restore_buffer: the application's bytes go behind the saved ones. */
    method Restore(data: seq<byte>)
      requires Valid()
      modifies this
      ensures Live() && saveBuffer == old(saveBuffer)
      ensures contents == old(contents[..saveSize]) + data
      ensures saveSize == old(saveSize)
    {
      current := data;
      currentSize := |data|;
      bufferSize := |data| + saveSize;
      currentPtr := 0;
      contents := contents[..saveSize] + data;
    }

    /** Drop the first n saved bytes after they have been used in place. */
    method SkipSaved(n: nat)
      requires Live() && n <= saveSize
      modifies this
      ensures Live() && contents == old(contents)[n..]
      ensures saveSize == old(saveSize) - n && currentSize == old(currentSize)
      ensures saveBuffer == old(saveBuffer)
    {
      bufferSize := bufferSize - n;
      saveSize := saveSize - n;
      savePtr := savePtr + n;
      contents := contents[n..];
    }

    /** Drop the first n current bytes after they have been used in place. */
    method SkipCurrent(n: nat)
      requires Live() && saveSize == 0 && n <= currentSize
      modifies this
      ensures Live() && contents == old(contents)[n..]
      ensures saveSize == 0 && currentSize == old(currentSize) - n
      ensures saveBuffer == old(saveBuffer)
    {
      bufferSize := bufferSize - n;
      currentSize := currentSize - n;
      currentPtr := currentPtr + n;
      contents := contents[n..];
    }

    /** The first n saved bytes, in place. */
    method PeekSaved(n: nat) returns (out: seq<byte>)
      requires Live() && n <= saveSize
      ensures n <= |contents| && out == contents[..n]
    {
      out := saveBuffer[savePtr..savePtr + n];
    }

    /** The first n current bytes, in place. */
    method PeekCurrent(n: nat) returns (out: seq<byte>)
      requires Live() && saveSize == 0 && n <= currentSize
      ensures n <= |contents| && out == contents[..n]
    {
      out := current[currentPtr..currentPtr + n];
    }

    /** png_push_fill_buffer: the first min(length, pending) bytes leave the queue in order. */
    method Fill(length: nat) returns (out: seq<byte>)
      requires Live()
      modifies this
      ensures Live() && saveBuffer == old(saveBuffer)
      ensures var n := Min(length, |old(contents)|);
              out == old(contents)[..n] && contents == old(contents)[n..]
    {
      var n, m := 0, 0;
      out := [];
      if saveSize != 0 {
        n := if length < saveSize then length else saveSize;
        out := PeekSaved(n);
        SkipSaved(n);
      }
      if length - n != 0 && currentSize != 0 {
        m := if length - n < currentSize then length - n else currentSize;
        var more := PeekCurrent(m);
        SkipCurrent(m);
        out := out + more;
      }
      SplitTwice(old(contents), n, m);
    }

    /** png_push_save_buffer: every pending byte moves to the front of the save
        buffer, shifting down in place and growing the buffer when needed. */
    method Save() returns (ok: bool)
      requires Live()
      modifies this, saveBuffer
      ensures Valid() && (saveBuffer == old(saveBuffer) || fresh(saveBuffer))
      ensures contents == old(contents)
      ensures ok ==> AtRest()
      ensures !ok ==> |contents| + 256 > SIZE_MAX
    {
      Compact();
      ok := Reserve();
      if !ok {
        return;
      }
      if currentSize != 0 {
        AppendCurrent();
      }
      bufferSize := 0;
    }

    /** The saved bytes move to the start of the save buffer. */
    method Compact()
      requires Live()
      modifies this`savePtr, saveBuffer
      ensures Live() && savePtr == 0
    {
      if saveSize != 0 {
        if savePtr != 0 {
          MoveDown(saveBuffer, savePtr, saveSize);
        }
      }
      savePtr := 0;
    }

    /** Room for every pending byte, or failure when the size computation would overflow. */
    method Reserve() returns (ok: bool)
      requires Live() && savePtr == 0
      modifies this`saveBuffer
      ensures Live() && (saveBuffer == old(saveBuffer) || fresh(saveBuffer))
      ensures ok ==> saveSize + currentSize <= saveBuffer.Length
      ensures !ok ==> |contents| + 256 > SIZE_MAX
    {
      if saveSize + currentSize > saveBuffer.Length {
        if saveSize > SIZE_MAX - (currentSize + 256) {
          return false;
        }
        var bigger := new byte[saveSize + currentSize + 256];
        CopyInto(bigger, 0, saveBuffer[..saveSize]);
        saveBuffer := bigger;
      }
      ok := true;
    }

    /** The current bytes join the saved ones. */
    method AppendCurrent()
      requires Live() && savePtr == 0 && saveSize + currentSize <= saveBuffer.Length
      modifies this`saveSize, this`currentSize, saveBuffer
      ensures Live() && currentSize == 0
    {
      CopyInto(saveBuffer, saveSize, current[currentPtr..currentPtr + currentSize]);
      saveSize := saveSize + currentSize;
      currentSize := 0;
    }
  }

  lemma SplitTwice(p: seq<byte>, n: nat, m: nat)
    requires n + m <= |p|
    ensures p[..n] + p[n..][..m] == p[..n + m]
    ensures p[n..][m..] == p[n + m..]
  {
  }

  /** The overlapping shift loop: bytes [from, from + count) move to the front of a. */
  method MoveDown(a: array<byte>, from: nat, count: nat)
    requires from + count <= a.Length
    modifies a
    ensures a[..count] == old(a[from..from + count])
  {
    for i := 0 to count
      invariant a[..i] == old(a[from..from + i])
      invariant forall k :: i <= k < a.Length ==> a[k] == old(a[k])
    {
      a[i] := a[from + i];
    }
  }

  /** memcpy of s to a + at; the rest of a is untouched. */
  method CopyInto(a: array<byte>, at: nat, s: seq<byte>)
    requires at + |s| <= a.Length
    modifies a
    ensures a[..at + |s|] == old(a[..at]) + s
  {
    for i := 0 to |s|
      invariant a[..at + i] == old(a[..at]) + s[..i]
    {
      a[at + i] := s[i];
    }
  }
}
