/** Exactly which streams decode to the same frames however they are cut into chunks. */
module SseChunking {
  import opened Prelude
  import opened Sse
  import opened SseStreams

  /** No blank LF line comes before a blank CRLF line that can still arrive in the same buffer. */
  predicate Unmixed(stream: Bytes)
    decreases |stream|
  {
    var s := Earliest(stream);
    s.Some? ==>
      && (s.value.length == 2 ==> Find(stream[..Min(|stream|, FRAME_LIMIT)], CRLF_CRLF).None?)
      && Unmixed(Past(stream, s.value))
  }

  lemma UnmixedStep(stream: Bytes)
    requires Earliest(stream).Some?
    ensures Unmixed(stream) <==>
            && (Earliest(stream).value.length == 2 ==> Find(stream[..Min(|stream|, FRAME_LIMIT)], CRLF_CRLF).None?)
            && Unmixed(Past(stream, Earliest(stream).value))
  {
  }

  lemma NoPatternInPrefix(buffer: Bytes, pattern: Bytes, n: nat)
    requires n <= |buffer| && Find(buffer, pattern).None?
    ensures Find(buffer[..n], pattern).None?
  {
    assert buffer[..n] + buffer[n..] == buffer;
    if Find(buffer[..n], pattern).Some? {
      FindExtends(buffer[..n], buffer[n..], pattern);
    }
  }

  lemma PrefixOfLimit(buffer: Bytes, more: Bytes)
    requires |buffer| <= FRAME_LIMIT && Find((buffer + more)[..Min(|buffer + more|, FRAME_LIMIT)], CRLF_CRLF).None?
    ensures Find(buffer, CRLF_CRLF).None?
  {
    var window := (buffer + more)[..Min(|buffer + more|, FRAME_LIMIT)];
    assert window[..|buffer|] == buffer;
    NoPatternInPrefix(window, CRLF_CRLF, |buffer|);
  }

  /** Where separators are not mixed, the decoder cuts a buffer as it would byte by byte. */
  lemma {:induction false} UnmixedDrains(buffer: Bytes, more: Bytes)
    requires Unmixed(buffer + more) && |buffer| <= FRAME_LIMIT
    ensures Drained(buffer) == Cuts(buffer) && Unmixed(Cuts(buffer).rest + more)
    decreases |buffer|
  {
    hide Find, Cuts, Drained, Unmixed, Past;
    CutsStep(buffer);
    var s := Earliest(buffer);
    if s.None? {
      NothingDrained(buffer);
    } else {
      EarliestExtends(buffer, more);
      UnmixedStep(buffer + more);
      if s.value.length == 2 {
        PrefixOfLimit(buffer, more);
      }
      var left := PastIsShorter(buffer, s.value);
      UnmixedDrains(left, more);
      DrainedStep(buffer);
    }
  }

  lemma NothingDrained(buffer: Bytes)
    requires Earliest(buffer).None?
    ensures Drained(buffer) == Cut([], buffer)
  {
  }

  lemma AllFramesOfMore(buffer: Bytes, more: Bytes)
    ensures AllFrames(buffer + more) == Cuts(buffer).frames + AllFrames(Cuts(buffer).rest + more)
  {
    hide Cuts;
    CutsExtend(buffer, more);
    var a, b := Cuts(buffer), Cuts(Cuts(buffer).rest + more);
    assert (a.frames + b.frames) + Rest(b.rest) == a.frames + (b.frames + Rest(b.rest));
  }

  /** Such a stream is cut into its frames whatever the chunks are. */
  lemma {:induction false} UnmixedReads(rest: Bytes, chunks: seq<Bytes>)
    requires Earliest(rest).None? && Unmixed(rest + Concat(chunks)) && FitsFrom(rest, chunks)
    ensures FramesRead(rest, chunks) == AllFrames(rest + Concat(chunks))
    decreases |chunks|
  {
    hide Earliest, Cuts, Drained, Unmixed, AllFrames;
    if chunks == [] {
      assert rest + Concat(chunks) == rest;
      FramesOfRest(rest);
    } else {
      var buffer, more := rest + chunks[0], Concat(chunks[1..]);
      ConcatHead(chunks);
      Associates(rest, chunks[0], more);
      UnmixedDrains(buffer, more);
      RestHasNoSeparator(buffer);
      UnmixedReads(Cuts(buffer).rest, chunks[1..]);
      AllFramesOfMore(buffer, more);
    }
  }

  lemma FramesOfRest(rest: Bytes)
    requires Earliest(rest).None?
    ensures AllFrames(rest) == Rest(rest)
  {
    CutsOfRest(rest);
  }

  // ---------------------------------------------------------------- byte by byte

  function Singles(bytes: Bytes): (chunks: seq<Bytes>)
    ensures |chunks| == |bytes|
  {
    seq(|bytes|, i requires 0 <= i < |bytes| => [bytes[i]])
  }

  lemma {:induction false} ConcatSingles(bytes: Bytes)
    ensures Concat(Singles(bytes)) == bytes
  {
    if bytes != [] {
      ConcatSingles(bytes[1..]);
      ConcatHead(Singles(bytes));
      SinglesSplit(bytes, 1);
      assert bytes == [bytes[0]] + bytes[1..];
    }
  }

  lemma SinglesSplit(bytes: Bytes, n: nat)
    requires n <= |bytes|
    ensures Singles(bytes) == Singles(bytes[..n]) + Singles(bytes[n..])
    ensures n == 1 ==> Singles(bytes)[0] == [bytes[0]] && Singles(bytes)[1..] == Singles(bytes[1..])
  {
  }

  /** Chunks fit when a first part of them does and the others do from what the first part leaves. */
  lemma {:induction false} FitsAppends(rest: Bytes, a: seq<Bytes>, b: seq<Bytes>)
    requires Earliest(rest).None?
    ensures FitsFrom(rest, a + b) <==> FitsFrom(rest, a) && FitsFrom(Cuts(rest + Concat(a)).rest, b)
    decreases |a|
  {
    hide Earliest, Cuts;
    if a == [] {
      assert a + b == b && rest + Concat(a) == rest;
      CutsOfRest(rest);
    } else {
      assert (a + b)[0] == a[0] && (a + b)[1..] == a[1..] + b;
      var buffer := rest + a[0];
      RestHasNoSeparator(buffer);
      FitsAppends(Cuts(buffer).rest, a[1..], b);
      CutsExtend(buffer, Concat(a[1..]));
      ConcatHead(a);
      Associates(rest, a[0], Concat(a[1..]));
    }
  }

  lemma {:induction false} SinglesFitIfWhole(rest: Bytes, bytes: Bytes)
    requires Earliest(rest).None? && |rest + bytes| <= FRAME_LIMIT
    ensures FitsFrom(rest, Singles(bytes))
    decreases |bytes|
  {
    hide Earliest, Cuts, Singles;
    if bytes == [] {
      assert Singles(bytes) == [];
    } else {
      SinglesSplit(bytes, 1);
      RestHasNoSeparator(rest + [bytes[0]]);
      SinglesFitIfWhole(Cuts(rest + [bytes[0]]).rest, bytes[1..]);
    }
  }

  /** If a stream gets through in some chunks, it gets through byte by byte. */
  lemma {:induction false} SinglesFit(rest: Bytes, chunks: seq<Bytes>)
    requires Earliest(rest).None? && FitsFrom(rest, chunks)
    ensures FitsFrom(rest, Singles(Concat(chunks)))
    decreases |chunks|
  {
    hide Earliest, Cuts, Singles;
    if chunks == [] {
      assert Singles([]) == [];
    } else {
      var first, more := chunks[0], Concat(chunks[1..]);
      ConcatHead(chunks);
      RestHasNoSeparator(rest + first);
      SinglesFit(Cuts(rest + first).rest, chunks[1..]);
      SinglesFitIfWhole(rest, first);
      SinglesSplit(first + more, |first|);
      assert (first + more)[..|first|] == first && (first + more)[|first|..] == more;
      ConcatSingles(first);
      FitsAppends(rest, Singles(first), Singles(more));
    }
  }

  lemma OneMoreByte(rest: Bytes, byte: Byte)
    requires Earliest(rest).None?
    ensures Drained(rest + [byte]) == Cuts(rest + [byte])
  {
    var buffer := rest + [byte];
    CutsStep(buffer);
    if Earliest(buffer).Some? {
      CutAtEnd(rest, byte);
      DrainedStep(buffer);
      NothingAfter();
    } else {
      NothingDrained(buffer);
    }
  }

  lemma NothingAfter()
    ensures Cuts([]) == Cut([], []) == Drained([])
  {
  }

  /** The byte that completes a separator ends the buffer with it. */
  lemma CutAtEnd(rest: Bytes, byte: Byte)
    requires Earliest(rest).None? && Earliest(rest + [byte]).Some?
    ensures FindSeparator(rest + [byte]) == Earliest(rest + [byte])
    ensures Past(rest + [byte], Earliest(rest + [byte]).value) == []
  {
    var buffer := rest + [byte];
    var crlf, lf := Find(buffer, CRLF_CRLF), Find(buffer, LF_LF);
    if crlf.Some? {
      NewFindIsLate(rest, [byte], CRLF_CRLF);
      FoundFits(buffer, CRLF_CRLF);
    }
    if lf.Some? {
      NewFindIsLate(rest, [byte], LF_LF);
      FoundFits(buffer, LF_LF);
    }
    if crlf.Some? && lf.Some? {
      SeparatorsApart(buffer, lf.value, crlf.value);
    }
    hide Find;
  }

  lemma {:induction false} SinglesRead(rest: Bytes, bytes: Bytes)
    requires Earliest(rest).None?
    ensures FramesRead(rest, Singles(bytes)) == AllFrames(rest + bytes)
    decreases |bytes|
  {
    hide Earliest, Cuts, Drained, Singles, AllFrames;
    if bytes == [] {
      assert Singles(bytes) == [] && rest + bytes == rest;
      FramesOfRest(rest);
    } else {
      SinglesSplit(bytes, 1);
      var buffer := rest + [bytes[0]];
      OneMoreByte(rest, bytes[0]);
      RestHasNoSeparator(buffer);
      SinglesRead(Cuts(buffer).rest, bytes[1..]);
      assert rest + bytes == buffer + bytes[1..];
      AllFramesOfMore(buffer, bytes[1..]);
    }
  }

  // ---------------------------------------------------------------- a chunking that differs

  /** What ends with the earliest separator is one frame. */
  lemma ThroughFirst(stream: Bytes)
    requires Earliest(stream).Some?
    ensures var s := Earliest(stream).value;
            var head := stream[..s.end + s.length];
            && stream == head + Past(stream, s)
            && Cuts(head) == Cut([stream[..s.end]], []) && Drained(head) == Cuts(head)
            && Earliest(head[..|head| - 1]).None?
  {
    var s := Earliest(stream).value;
    var n := s.end + s.length;
    var head, front := stream[..n], stream[..n - 1];
    assert stream == head + stream[n..] && stream == front + stream[n - 1..];
    if Earliest(front).Some? {
      EarliestExtends(front, stream[n - 1..]);
    }
    if Earliest(head).None? {
      EarliestIsFound(stream, n);
    }
    EarliestExtends(head, stream[n..]);
    assert front + [stream[n - 1]] == head && head[..|head| - 1] == front;
    OneMoreByte(front, stream[n - 1]);
    CutAtEnd(front, stream[n - 1]);
    hide Earliest, Cuts, Drained;
    CutsStep(head);
    NothingAfter();
    assert head[..s.end] == stream[..s.end];
  }

  lemma EarliestIsFound(stream: Bytes, n: nat)
    requires Earliest(stream).Some? && n == Earliest(stream).value.end + Earliest(stream).value.length
    ensures Earliest(stream[..n]).Some?
  {
    var s := Earliest(stream).value;
    var pattern := if s.length == 2 then LF_LF else CRLF_CRLF;
    assert stream[..n][s.end..n] == stream[s.end..n];
    assert Occurs(stream[..n], pattern, s.end);
  }

  /** A blank LF line and a blank CRLF line in one buffer: the decoder takes them for one frame. */
  lemma LateCut(stream: Bytes, at: nat)
    requires at + 4 <= |stream| && Find(stream, CRLF_CRLF) == Some(at)
    ensures Drained(stream[..at + 4]) == Cut([stream[..at]], [])
  {
    var head := stream[..at + 4];
    assert stream == head + stream[at + 4..];
    assert head[at..at + 4] == stream[at..at + 4];
    assert Occurs(head, CRLF_CRLF, at);
    FindExtends(head, stream[at + 4..], CRLF_CRLF);
    hide Find;
    DrainedStep(head);
    assert Past(head, Separator(at, 4)) == [];
    assert head[..at] == stream[..at];
    NothingAfter();
    assert [stream[..at]] + [] == [stream[..at]];
  }

  lemma WindowFind(stream: Bytes)
    requires Find(stream[..Min(|stream|, FRAME_LIMIT)], CRLF_CRLF).Some?
    ensures var at := Find(stream, CRLF_CRLF); at.Some? && at.value + 4 <= Min(|stream|, FRAME_LIMIT)
  {
    var n := Min(|stream|, FRAME_LIMIT);
    assert stream == stream[..n] + stream[n..];
    FindExtends(stream[..n], stream[n..], CRLF_CRLF);
    FoundFits(stream[..n], CRLF_CRLF);
  }

  lemma LateFrame(stream: Bytes) returns (head: Bytes, tail: Bytes, late: Bytes, early: Bytes)
    requires Earliest(stream).Some? && Earliest(stream).value.length == 2
    requires Find(stream[..Min(|stream|, FRAME_LIMIT)], CRLF_CRLF).Some?
    ensures head + tail == stream && |head| <= FRAME_LIMIT && Drained(head) == Cut([late], [])
    ensures Cuts(stream).frames != [] && Cuts(stream).frames[0] == early && |early| < |late|
  {
    WindowFind(stream);
    var at, i := Find(stream, CRLF_CRLF).value, Earliest(stream).value.end;
    assert i < at;
    head, tail, late, early := stream[..at + 4], stream[at + 4..], stream[..at], stream[..i];
    LateCut(stream, at);
    CutsStep(stream);
    hide Find, Earliest, Cuts, Drained;
  }

  lemma MixedHere(stream: Bytes) returns (chunks: seq<Bytes>)
    requires FitsFrom([], Singles(stream)) && Earliest(stream).Some? && Earliest(stream).value.length == 2
    requires Find(stream[..Min(|stream|, FRAME_LIMIT)], CRLF_CRLF).Some?
    ensures Concat(chunks) == stream && FitsFrom([], chunks) && FramesRead([], chunks) != AllFrames(stream)
  {
    var head, tail, late, early := LateFrame(stream);
    hide *;
    PartsFit(head, tail);
    ConcatSingles(tail);
    chunks := [head] + Singles(tail);
    FirstChunk(head, Singles(tail), late);
    FirstFrame(stream, early);
  }

  lemma FirstChunk(head: Bytes, more: seq<Bytes>, frame: Bytes)
    requires Drained(head) == Cut([frame], []) && |head| <= FRAME_LIMIT && FitsFrom(Cuts(head).rest, more)
    ensures Concat([head] + more) == head + Concat(more) && FitsFrom([], [head] + more)
    ensures FramesRead([], [head] + more) == [frame] + FramesRead([], more)
  {
    hide Concat, Cuts, Drained;
    ConcatHead([head] + more);
    assert ([head] + more)[1..] == more && [] + head == head;
  }

  lemma FirstFrame(stream: Bytes, frame: Bytes)
    requires Cuts(stream).frames != [] && Cuts(stream).frames[0] == frame
    ensures AllFrames(stream) != [] && AllFrames(stream)[0] == frame
  {
    hide Cuts;
  }

  lemma NothingEarly()
    ensures Earliest([]).None?
  {
  }

  lemma LastByteFits(front: Bytes, byte: Byte)
    requires Earliest(front).None? && FitsFrom([], Singles(front + [byte]))
    ensures |front + [byte]| <= FRAME_LIMIT
  {
    NothingEarly();
    hide Earliest, Cuts, Singles;
    SinglesSplit(front + [byte], |front|);
    assert (front + [byte])[..|front|] == front && (front + [byte])[|front|..] == [byte];
    ConcatSingles(front);
    assert [] + front == front;
    FitsAppends([], Singles(front), Singles([byte]));
    CutsOfRest(front);
    SinglesSplit([byte], 1);
  }

  lemma PartsFit(head: Bytes, tail: Bytes)
    requires FitsFrom([], Singles(head + tail))
    ensures FitsFrom([], Singles(head)) && FitsFrom(Cuts(head).rest, Singles(tail))
  {
    NothingEarly();
    hide Earliest, Cuts, Singles, FitsFrom;
    SinglesSplit(head + tail, |head|);
    assert (head + tail)[..|head|] == head && (head + tail)[|head|..] == tail && [] + head == head;
    ConcatSingles(head);
    FitsAppends([], Singles(head), Singles(tail));
  }

  /** The first frame of a stream that gets through byte by byte gets through as one chunk. */
  lemma FirstFits(stream: Bytes)
    requires FitsFrom([], Singles(stream)) && Earliest(stream).Some?
    ensures var s := Earliest(stream).value;
            s.end + s.length <= FRAME_LIMIT && FitsFrom([], Singles(Past(stream, s)))
  {
    var s := Earliest(stream).value;
    var head := stream[..s.end + s.length];
    ThroughFirst(stream);
    hide Earliest, Cuts, Drained, Singles, FitsFrom, Past;
    PartsFit(head, Past(stream, s));
    var front, byte := head[..|head| - 1], head[|head| - 1];
    assert head == front + [byte];
    LastByteFits(front, byte);
  }

  /** A stream with mixed separators has chunks that change its frames. */
  lemma {:induction false} MixedChunks(stream: Bytes) returns (chunks: seq<Bytes>)
    requires FitsFrom([], Singles(stream)) && !Unmixed(stream)
    ensures Concat(chunks) == stream && FitsFrom([], chunks) && FramesRead([], chunks) != AllFrames(stream)
    decreases |stream|
  {
    UnmixedHasSeparator(stream);
    var s := Earliest(stream).value;
    UnmixedStep(stream);
    hide Unmixed;
    if s.length == 2 && Find(stream[..Min(|stream|, FRAME_LIMIT)], CRLF_CRLF).Some? {
      chunks := MixedHere(stream);
    } else {
      hide Find;
      var tail := PastIsShorter(stream, s);
      FirstFits(stream);
      var more := MixedChunks(tail);
      ThroughFirst(stream);
      chunks := BeforeMixed(stream, tail, more);
    }
  }

  lemma UnmixedHasSeparator(stream: Bytes)
    requires !Unmixed(stream)
    ensures Earliest(stream).Some?
  {
  }

  lemma SameTail(frame: Bytes, a: seq<Bytes>, b: seq<Bytes>)
    ensures [frame] + a == [frame] + b <==> a == b
  {
    assert ([frame] + a)[1..] == a && ([frame] + b)[1..] == b;
  }

  lemma BeforeMixed(stream: Bytes, tail: Bytes, more: seq<Bytes>) returns (chunks: seq<Bytes>)
    requires Earliest(stream).Some? && tail == Past(stream, Earliest(stream).value)
    requires Earliest(stream).value.end + Earliest(stream).value.length <= FRAME_LIMIT
    requires Concat(more) == tail && FitsFrom([], more) && FramesRead([], more) != AllFrames(tail)
    ensures Concat(chunks) == stream && FitsFrom([], chunks) && FramesRead([], chunks) != AllFrames(stream)
  {
    ThroughFirst(stream);
    var s := Earliest(stream).value;
    var head, frame := stream[..s.end + s.length], stream[..s.end];
    assert |head| <= FRAME_LIMIT;
    hide *;
    chunks := [head] + more;
    FirstChunk(head, more, frame);
    AllFramesOfMore(head, tail);
    assert [] + tail == tail;
    SameTail(frame, FramesRead([], more), AllFrames(tail));
  }

  // ---------------------------------------------------------------- the theorem

  /** A stream that gets through at all is cut into the same frames by all chunks that fit exactly
    * when its separators are not mixed: when, after each frame cut byte by byte, no blank LF line
    * comes before a blank CRLF line that fits into the same buffer. */
  lemma ChunkingIsIrrelevantIff(stream: Bytes, some: seq<Bytes>)
    requires Concat(some) == stream && FitsFrom([], some)
    ensures (forall chunks: seq<Bytes> :: Concat(chunks) == stream && FitsFrom([], chunks) ==>
              FramesRead([], chunks) == FramesRead([], some))
            <==> Unmixed(stream)
  {
    NothingEarly();
    SinglesFit([], some);
    hide FramesRead, AllFrames, FitsFrom, Concat, Singles, Unmixed, Earliest;
    assert [] + stream == stream;
    if Unmixed(stream) {
      forall chunks: seq<Bytes> | Concat(chunks) == stream && FitsFrom([], chunks)
        ensures FramesRead([], chunks) == FramesRead([], some)
      {
        UnmixedReads([], chunks);
        UnmixedReads([], some);
      }
    } else {
      var chunks := MixedChunks(stream);
      SinglesRead([], stream);
      ConcatSingles(stream);
      assert FramesRead([], chunks) != FramesRead([], Singles(stream));
    }
  }

  /** Such a stream decodes without an error exactly when every chunk fits the buffer together with
    * the unfinished frame before it; the events are then those of the whole stream. */
  lemma DecodingIgnoresChunking(lossy: Lossy, chunks: seq<Bytes>)
    requires Unmixed(Concat(chunks))
    ensures var out := Outputs(lossy, State([], false, Stream(chunks)));
            && (out.error.None? <==> FitsFrom([], chunks))
            && (out.error.None? ==> out.events == EventsOf(lossy, Concat(chunks)))
  {
    NothingEarly();
    CutsOfRest([]);
    hide Outputs, EventsOfFrames, FramesRead, AllFrames, FitsFrom, Unmixed, Earliest, FindSeparator;
    OutputsOfRest(lossy, [], chunks);
    assert [] + Concat(chunks) == Concat(chunks);
    if FitsFrom([], chunks) {
      UnmixedReads([], chunks);
    }
  }

  /** Separators are not mixed in a stream with blank lines of one kind only. */
  lemma {:induction false} OneKindIsUnmixed(stream: Bytes)
    requires Find(stream, CRLF_CRLF).None? || Find(stream, LF_LF).None?
    ensures Unmixed(stream)
    decreases |stream|
  {
    var s := Earliest(stream);
    if s.Some? {
      var n := s.value.end + s.value.length;
      if Find(stream, CRLF_CRLF).None? {
        NoPatternInPrefix(stream, CRLF_CRLF, Min(|stream|, FRAME_LIMIT));
        NoPatternInSuffix(stream, CRLF_CRLF, n);
      } else {
        NoPatternInSuffix(stream, LF_LF, n);
      }
      hide Find, Earliest;
      OneKindIsUnmixed(stream[n..]);
    }
  }

  lemma NoPatternInSuffix(buffer: Bytes, pattern: Bytes, n: nat)
    requires n <= |buffer| && Find(buffer, pattern).None?
    ensures Find(buffer[n..], pattern).None?
  {
    var at := Find(buffer[n..], pattern);
    if at.Some? {
      FoundFits(buffer[n..], pattern);
      assert buffer[n..][at.value..at.value + |pattern|] == buffer[n + at.value..n + at.value + |pattern|];
      assert Occurs(buffer, pattern, n + at.value);
    }
  }
}
