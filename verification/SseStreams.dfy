/** What a decoder reads from a stream that arrives in chunks: the frames it cuts, and when the
  * buffer is exceeded. */
module SseStreams {
  import opened Prelude
  import opened Sse

  // ---------------------------------------------------------------- the frames of a stream

  /** The separator that ends first: the one met when bytes arrive one at a time. */
  function Earliest(buffer: Bytes): (s: Option<Separator>)
    ensures s.Some? ==> s.value.end + s.value.length <= |buffer| && s.value.length > 0
  {
    var crlf, lf := Find(buffer, CRLF_CRLF), Find(buffer, LF_LF);
    if lf.Some? && (crlf.None? || lf.value < crlf.value) then Some(Separator(lf.value, 2))
    else if crlf.Some? then Some(Separator(crlf.value, 4))
    else None
  }

  function Past(buffer: Bytes, s: Separator): Bytes
    requires s.end + s.length <= |buffer|
  {
    buffer[s.end + s.length..]
  }

  /** The frames that have ended, and what follows the last separator. */
  datatype Cut = Cut(frames: seq<Bytes>, rest: Bytes)

  function Cuts(buffer: Bytes): Cut
    decreases |buffer|
  {
    var s := Earliest(buffer);
    if s.None? then Cut([], buffer)
    else
      var more := Cuts(Past(buffer, s.value));
      Cut([buffer[..s.value.end]] + more.frames, more.rest)
  }

  /** What the decoder cuts when all these bytes are in its buffer. */
  function Drained(buffer: Bytes): Cut
    decreases |buffer|
  {
    var s := FindSeparator(buffer);
    if s.None? then Cut([], buffer)
    else
      var more := Drained(Past(buffer, s.value));
      Cut([buffer[..s.value.end]] + more.frames, more.rest)
  }

  /** The frames of a whole stream: those that have ended, and what is left when it ends. */
  function AllFrames(stream: Bytes): seq<Bytes> {
    var cut := Cuts(stream);
    cut.frames + Rest(cut.rest)
  }

  function Rest(rest: Bytes): seq<Bytes> { if rest == [] then [] else [rest] }

  function EventsOfFrames(lossy: Lossy, frames: seq<Bytes>): seq<SseEvent> {
    if frames == [] then []
    else
      var first := Parsed(lossy(frames[0]));
      (if first.Some? then [first.value] else []) + EventsOfFrames(lossy, frames[1..])
  }

  function EventsOf(lossy: Lossy, stream: Bytes): seq<SseEvent> { EventsOfFrames(lossy, AllFrames(stream)) }

  lemma {:induction false} EventsAppend(lossy: Lossy, a: seq<Bytes>, b: seq<Bytes>)
    ensures EventsOfFrames(lossy, a + b) == EventsOfFrames(lossy, a) + EventsOfFrames(lossy, b)
  {
    hide Parsed;
    if a == [] {
      assert a + b == b;
    } else {
      assert (a + b)[1..] == a[1..] + b && (a + b)[0] == a[0];
      EventsAppend(lossy, a[1..], b);
      EventsStep(lossy, a);
      EventsStep(lossy, a + b);
      hide EventsOfFrames;
      var first := Parsed(lossy(a[0]));
      var one := if first.Some? then [first.value] else [];
      assert (one + EventsOfFrames(lossy, a[1..])) + EventsOfFrames(lossy, b)
             == one + (EventsOfFrames(lossy, a[1..]) + EventsOfFrames(lossy, b));
    }
  }

  lemma EventsStep(lossy: Lossy, frames: seq<Bytes>)
    requires frames != []
    ensures var first := Parsed(lossy(frames[0]));
            EventsOfFrames(lossy, frames) == (if first.Some? then [first.value] else [])
                + EventsOfFrames(lossy, frames[1..])
  {
    hide Parsed;
  }

  lemma OccursExtends(buffer: Bytes, more: Bytes, pattern: Bytes, i: nat)
    requires i + |pattern| <= |buffer|
    ensures Occurs(buffer + more, pattern, i) <==> Occurs(buffer, pattern, i)
  {
    assert (buffer + more)[i..i + |pattern|] == buffer[i..i + |pattern|];
  }

  lemma FirstIs(buffer: Bytes, pattern: Bytes, at: nat)
    requires Occurs(buffer, pattern, at) && forall k :: 0 <= k < at ==> !Occurs(buffer, pattern, k)
    ensures Find(buffer, pattern) == Some(at)
  {
    hide Occurs, FindFrom;
  }

  /** Bytes that arrive later do not move the first separator. */
  lemma FindExtends(buffer: Bytes, more: Bytes, pattern: Bytes)
    requires Find(buffer, pattern).Some?
    ensures Find(buffer + more, pattern) == Find(buffer, pattern)
  {
    var at := Find(buffer, pattern).value;
    assert at + |pattern| <= |buffer|;
    hide Occurs, Find;
    forall k | 0 <= k <= at
      ensures Occurs(buffer + more, pattern, k) <==> Occurs(buffer, pattern, k)
    {
      OccursExtends(buffer, more, pattern, k);
    }
    FirstIs(buffer + more, pattern, at);
  }

  lemma FoundFits(buffer: Bytes, pattern: Bytes)
    ensures Find(buffer, pattern).Some? ==> Find(buffer, pattern).value + |pattern| <= |buffer|
  {
  }

  /** The two separators overlap only where the second newline of a blank CRLF line is followed by
    * another newline. */
  lemma SeparatorsApart(buffer: Bytes, i: nat, j: nat)
    requires Occurs(buffer, LF_LF, i) && Occurs(buffer, CRLF_CRLF, j)
    ensures i + 2 <= j || j + 3 <= i
  {
    assert buffer[i..i + 2][0] == buffer[i] && buffer[i..i + 2][1] == buffer[i + 1];
    var w := buffer[j..j + 4];
    assert w[0] == buffer[j] && w[1] == buffer[j + 1] && w[2] == buffer[j + 2] && w[3] == buffer[j + 3];
  }

  lemma NewFindIsLate(buffer: Bytes, more: Bytes, pattern: Bytes)
    requires Find(buffer, pattern).None? && Find(buffer + more, pattern).Some?
    ensures Find(buffer + more, pattern).value + |pattern| > |buffer|
  {
    hide FindFrom;
    var at := Find(buffer + more, pattern).value;
    if at + |pattern| <= |buffer| {
      OccursExtends(buffer, more, pattern, at);
    }
  }

  /** Bytes that arrive later do not move the earliest separator. */
  lemma EarliestExtends(buffer: Bytes, more: Bytes)
    requires Earliest(buffer).Some?
    ensures Earliest(buffer + more) == Earliest(buffer)
    ensures Past(buffer + more, Earliest(buffer).value) == Past(buffer, Earliest(buffer).value) + more
    ensures (buffer + more)[..Earliest(buffer).value.end] == buffer[..Earliest(buffer).value.end]
  {
    var crlf, lf := Find(buffer, CRLF_CRLF), Find(buffer, LF_LF);
    FoundFits(buffer, CRLF_CRLF);
    FoundFits(buffer, LF_LF);
    if crlf.Some? {
      FindExtends(buffer, more, CRLF_CRLF);
    } else if Find(buffer + more, CRLF_CRLF).Some? {
      NewFindIsLate(buffer, more, CRLF_CRLF);
    }
    if lf.Some? {
      FindExtends(buffer, more, LF_LF);
    } else if Find(buffer + more, LF_LF).Some? {
      NewFindIsLate(buffer, more, LF_LF);
    }
    var c, l := Find(buffer + more, CRLF_CRLF), Find(buffer + more, LF_LF);
    if c.Some? && l.Some? {
      SeparatorsApart(buffer + more, l.value, c.value);
    }
    hide Find;
  }

  lemma CutsStep(buffer: Bytes)
    ensures Earliest(buffer).None? ==> Cuts(buffer) == Cut([], buffer)
    ensures Earliest(buffer).Some? ==>
              var s := Earliest(buffer).value;
              var more := Cuts(Past(buffer, s));
              Cuts(buffer) == Cut([buffer[..s.end]] + more.frames, more.rest)
  {
  }

  lemma CutsJoin(first: Bytes, left: Cut, later: Cut)
    ensures ([first] + left.frames) + later.frames == [first] + (left.frames + later.frames)
  {
  }

  /** Frames are cut one after the other: what arrives later only continues the rest. */
  lemma {:induction false} CutsExtend(buffer: Bytes, more: Bytes)
    ensures Cuts(buffer + more) == Cut(Cuts(buffer).frames + Cuts(Cuts(buffer).rest + more).frames,
                                       Cuts(Cuts(buffer).rest + more).rest)
    decreases |buffer|
  {
    hide Earliest, Cuts, Past;
    var s := Earliest(buffer);
    CutsStep(buffer);
    if s.None? {
      assert [] + Cuts(buffer + more).frames == Cuts(buffer + more).frames;
    } else {
      var left := PastIsShorter(buffer, s.value);
      EarliestExtends(buffer, more);
      CutsStep(buffer + more);
      CutsExtend(left, more);
      CutsJoin(buffer[..s.value.end], Cuts(left), Cuts(Cuts(left).rest + more));
    }
  }

  lemma PastIsShorter(buffer: Bytes, s: Separator) returns (left: Bytes)
    requires s.end + s.length <= |buffer| && s.length > 0
    ensures left == Past(buffer, s) && |left| < |buffer|
  {
    left := Past(buffer, s);
  }

  lemma {:induction false} RestHasNoSeparator(buffer: Bytes)
    ensures Earliest(Cuts(buffer).rest).None? && |Cuts(buffer).rest| <= |buffer|
    decreases |buffer|
  {
    hide Earliest, Cuts, Past;
    CutsStep(buffer);
    if Earliest(buffer).Some? {
      var left := PastIsShorter(buffer, Earliest(buffer).value);
      RestHasNoSeparator(left);
    }
  }

  lemma CutsOfRest(rest: Bytes)
    requires Earliest(rest).None?
    ensures Cuts(rest) == Cut([], rest) && FindSeparator(rest).None?
  {
  }

  lemma FirstWithin(buffer: Bytes, pattern: Bytes, n: nat)
    requires n <= |buffer| && Find(buffer, pattern).Some? && Find(buffer, pattern).value >= n
    ensures Find(buffer[n..], pattern) == Some(Find(buffer, pattern).value - n)
  {
    var at := Find(buffer, pattern).value;
    FoundFits(buffer, pattern);
    hide FindFrom, Find;
    forall k: nat | n + k <= at
      ensures Occurs(buffer[n..], pattern, k) <==> Occurs(buffer, pattern, n + k)
    {
      if n + k + |pattern| <= |buffer| {
        assert buffer[n..][k..k + |pattern|] == buffer[n + k..n + k + |pattern|];
      }
    }
    FirstIs(buffer[n..], pattern, at - n);
  }

  /** Cutting early or late, everything up to the first blank CRLF line is gone after it. */
  lemma {:induction false} SynchronizesAtCrlf(buffer: Bytes)
    requires Find(buffer, CRLF_CRLF).Some?
    ensures Find(buffer, CRLF_CRLF).value + 4 <= |buffer|
    ensures Cuts(buffer).rest == Cuts(buffer[Find(buffer, CRLF_CRLF).value + 4..]).rest
    decreases |buffer|
  {
    FoundFits(buffer, CRLF_CRLF);
    hide Cuts, Find;
    var at, lf := Find(buffer, CRLF_CRLF).value, Find(buffer, LF_LF);
    CutsStep(buffer);
    if lf.Some? && lf.value < at {
      SeparatorsApart(buffer, lf.value, at);
      var left := buffer[lf.value + 2..];
      FirstWithin(buffer, CRLF_CRLF, lf.value + 2);
      SynchronizesAtCrlf(left);
      assert left[at - lf.value - 2 + 4..] == buffer[at + 4..];
    }
  }

  /** The decoder prefers blank CRLF lines, but it leaves the same bytes unread. */
  lemma {:induction false} DrainedLeavesSame(buffer: Bytes)
    ensures Drained(buffer).rest == Cuts(buffer).rest
    decreases |buffer|
  {
    hide Find, Cuts;
    CutsStep(buffer);
    if FindSeparator(buffer).Some? {
      DrainedLeavesSame(Past(buffer, FindSeparator(buffer).value));
      if Find(buffer, CRLF_CRLF).Some? {
        SynchronizesAtCrlf(buffer);
      }
    }
  }

  // ---------------------------------------------------------------- the decoder's output

  datatype Output = Output(events: seq<SseEvent>, error: Option<DecodeError>)

  lemma {:induction false} NextProgresses(lossy: Lossy, s: State)
    ensures var (t, r) := Next(lossy, s);
            r.Ok? && r.value.Some? ==>
              |t.incoming| <= |s.incoming| && (s.complete ==> t.complete)
              && (t.incoming == s.incoming && t.complete == s.complete ==> |t.buffer| < |s.buffer|)
              && (t.incoming != s.incoming ==> |t.incoming| < |s.incoming|)
    decreases |s.incoming|, !s.complete, |s.buffer|
  {
    hide Parsed, FindSeparator;
    var separator := FindSeparator(s.buffer);
    if separator.Some? {
      var rest := s.(buffer := s.buffer[separator.value.end + separator.value.length..]);
      NextProgresses(lossy, rest);
    } else if s.complete {
    } else if s.incoming == [] {
      NextProgresses(lossy, s.(complete := true));
    } else {
      match s.incoming[0]
      case Data(bytes) =>
        var more := State(s.buffer + bytes, s.complete, s.incoming[1..]);
        if |more.buffer| <= FRAME_LIMIT {
          NextProgresses(lossy, more);
        }
      case TimedOut =>
      case Broken =>
    }
  }

  /** Everything a client reads: events until the stream ends or fails. */
  function Outputs(lossy: Lossy, s: State): Output
    decreases |s.incoming|, !s.complete, |s.buffer|
  {
    NextProgresses(lossy, s);
    var (t, r) := Next(lossy, s);
    if r.Err? then Output([], Some(r.error))
    else if r.value.None? then Output([], None)
    else
      var more := Outputs(lossy, t);
      Output([r.value.value] + more.events, more.error)
  }

  function Stream(chunks: seq<Bytes>): (arrivals: seq<Arrival>)
    ensures |arrivals| == |chunks|
  {
    seq(|chunks|, i requires 0 <= i < |chunks| => Data(chunks[i]))
  }

  /** Every chunk, together with the unfinished frame before it, fits into the buffer. */
  predicate FitsFrom(rest: Bytes, chunks: seq<Bytes>)
    decreases |chunks|
  {
    chunks != [] ==> |rest + chunks[0]| <= FRAME_LIMIT && FitsFrom(Cuts(rest + chunks[0]).rest, chunks[1..])
  }

  /** The frames the decoder cuts, chunk by chunk, and at the end of the stream. */
  function FramesRead(rest: Bytes, chunks: seq<Bytes>): seq<Bytes>
    decreases |chunks|
  {
    if chunks == [] then Rest(rest)
    else
      var cut := Drained(rest + chunks[0]);
      cut.frames + FramesRead(cut.rest, chunks[1..])
  }

  /** Reading on after a frame. */
  lemma OutputsSkip(lossy: Lossy, s: State)
    requires FindSeparator(s.buffer).Some?
    ensures var separator := FindSeparator(s.buffer).value;
            var rest, parsed := s.(buffer := Past(s.buffer, separator)), Parsed(lossy(s.buffer[..separator.end]));
            Outputs(lossy, s) == Output((if parsed.Some? then [parsed.value] else []) + Outputs(lossy, rest).events,
                                        Outputs(lossy, rest).error)
  {
    hide Parsed, FindSeparator;
  }

  lemma OutputsRead(lossy: Lossy, s: State, bytes: Bytes)
    requires FindSeparator(s.buffer).None? && !s.complete && s.incoming != [] && s.incoming[0] == Data(bytes)
    ensures Outputs(lossy, s) == if |s.buffer + bytes| > FRAME_LIMIT then Output([], Some(FrameTooLarge))
                                 else Outputs(lossy, State(s.buffer + bytes, false, s.incoming[1..]))
  {
    hide Parsed, FindSeparator;
  }

  lemma OutputsEnd(lossy: Lossy, s: State)
    requires FindSeparator(s.buffer).None? && s.incoming == []
    ensures Outputs(lossy, s) == Output(EventsOfFrames(lossy, Rest(s.buffer)), None)
  {
    hide Parsed, FindSeparator;
    var done := s.(complete := true);
    assert Next(lossy, s) == Next(lossy, done);
    assert [s.buffer][1..] == [];
    if s.buffer != [] {
      var parsed := Parsed(lossy(s.buffer));
      assert Next(lossy, done) == (done.(buffer := []), Ok(parsed));
      if parsed.Some? {
        EndOfEmpty(lossy, done.(buffer := []));
        assert [parsed.value] + [] == [parsed.value];
      }
    }
  }

  lemma EndOfEmpty(lossy: Lossy, s: State)
    requires s.buffer == [] && s.complete && s.incoming == []
    ensures Outputs(lossy, s) == Output([], None)
  {
    assert Find([], LF_LF).None? && Find([], CRLF_CRLF).None?;
  }

  lemma DrainedStep(buffer: Bytes)
    requires FindSeparator(buffer).Some?
    ensures var s := FindSeparator(buffer).value;
            Drained(buffer) == Cut([buffer[..s.end]] + Drained(Past(buffer, s)).frames, Drained(Past(buffer, s)).rest)
  {
  }

  /** Draining the ended frames of the buffer. */
  lemma {:induction false} OutputsDrain(lossy: Lossy, s: State)
    ensures var cut := Drained(s.buffer);
            && FindSeparator(cut.rest).None?
            && Outputs(lossy, s) == Output(EventsOfFrames(lossy, cut.frames)
                                           + Outputs(lossy, s.(buffer := cut.rest)).events,
                                           Outputs(lossy, s.(buffer := cut.rest)).error)
    decreases |s.buffer|
  {
    hide Outputs, Parsed, FindSeparator;
    var separator := FindSeparator(s.buffer);
    if separator.Some? {
      var left := s.(buffer := Past(s.buffer, separator.value));
      OutputsSkip(lossy, s);
      OutputsDrain(lossy, left);
      DrainedStep(s.buffer);
      var frame, cut := s.buffer[..separator.value.end], Drained(left.buffer);
      hide Drained, EventsOfFrames, Past;
      EventsAppend(lossy, [frame], cut.frames);
      EventsOfOne(lossy, frame);
    } else {
      assert s.(buffer := s.buffer) == s;
    }
  }

  lemma EventsOfOne(lossy: Lossy, frame: Bytes)
    ensures EventsOfFrames(lossy, [frame])
            == var parsed := Parsed(lossy(frame)); if parsed.Some? then [parsed.value] else []
  {
    hide Parsed;
    EventsStep(lossy, [frame]);
    assert [frame][1..] == [];
  }

  lemma StreamRest(chunks: seq<Bytes>)
    requires chunks != []
    ensures Stream(chunks)[0] == Data(chunks[0]) && Stream(chunks)[1..] == Stream(chunks[1..])
  {
  }

  /** The decoder on a rest without separator and some chunks to come: it fails exactly when a
    * chunk does not fit, and otherwise returns the events of the frames it cuts. */
  lemma {:induction false} OutputsOfRest(lossy: Lossy, rest: Bytes, chunks: seq<Bytes>)
    requires FindSeparator(rest).None?
    ensures var out := Outputs(lossy, State(rest, false, Stream(chunks)));
            && (out.error.None? <==> FitsFrom(rest, chunks))
            && (out.error.Some? ==> out.error == Some(FrameTooLarge))
            && (FitsFrom(rest, chunks) ==> out.events == EventsOfFrames(lossy, FramesRead(rest, chunks)))
    decreases |chunks|
  {
    hide Outputs, Parsed, FindSeparator, Cuts, Drained, EventsOfFrames;
    var s := State(rest, false, Stream(chunks));
    if chunks == [] {
      OutputsEnd(lossy, s);
    } else {
      StreamRest(chunks);
      OutputsRead(lossy, s, chunks[0]);
      var buffer := rest + chunks[0];
      if |buffer| <= FRAME_LIMIT {
        OutputsDrain(lossy, State(buffer, false, Stream(chunks[1..])));
        DrainedLeavesSame(buffer);
        var cut := Drained(buffer);
        OutputsOfRest(lossy, cut.rest, chunks[1..]);
        EventsAppend(lossy, cut.frames, FramesRead(cut.rest, chunks[1..]));
      }
    }
  }

  // ---------------------------------------------------------------- streams that fail

  /** The frames that have ended, and the unfinished one after them. */
  function Ended(rest: Bytes, chunks: seq<Bytes>): Cut
    decreases |chunks|
  {
    if chunks == [] then Cut([], rest)
    else
      var cut := Drained(rest + chunks[0]);
      var more := Ended(cut.rest, chunks[1..]);
      Cut(cut.frames + more.frames, more.rest)
  }

  lemma OutputsFail(lossy: Lossy, s: State)
    requires FindSeparator(s.buffer).None? && !s.complete && s.incoming != [] && !s.incoming[0].Data?
    ensures Outputs(lossy, s) == Output([], Some(if s.incoming[0].TimedOut? then ReadTimeout else Transport))
  {
    hide Parsed, FindSeparator;
  }

  /** A stream that times out, breaks or sends more than two mebibytes without ending a frame is read
    * up to there: the frames that have ended still yield their events, and then comes the error. */
  lemma {:induction false} OutputsUntilFailure(lossy: Lossy, rest: Bytes, chunks: seq<Bytes>, end: Arrival,
                                               later: seq<Arrival>)
    requires FindSeparator(rest).None? && FitsFrom(rest, chunks)
    requires end.Data? ==> |Ended(rest, chunks).rest| + |end.bytes| > 2_097_152
    ensures Outputs(lossy, State(rest, false, Stream(chunks) + [end] + later))
            == Output(EventsOfFrames(lossy, Ended(rest, chunks).frames),
                      Some(if end.Data? then FrameTooLarge else if end.TimedOut? then ReadTimeout else Transport))
    decreases |chunks|
  {
    hide Outputs, Parsed, FindSeparator, Cuts, Drained, EventsOfFrames;
    var incoming := Stream(chunks) + [end] + later;
    var s := State(rest, false, incoming);
    if chunks == [] {
      assert incoming[0] == end;
      NoFramesNoEvents(lossy);
      if end.Data? {
        OutputsRead(lossy, s, end.bytes);
      } else {
        OutputsFail(lossy, s);
      }
    } else {
      StreamRest(chunks);
      assert incoming[0] == Data(chunks[0]) && incoming[1..] == Stream(chunks[1..]) + [end] + later;
      OutputsRead(lossy, s, chunks[0]);
      var buffer := rest + chunks[0];
      OutputsDrain(lossy, State(buffer, false, incoming[1..]));
      DrainedLeavesSame(buffer);
      var cut := Drained(buffer);
      OutputsUntilFailure(lossy, cut.rest, chunks[1..], end, later);
      EventsAppend(lossy, cut.frames, Ended(cut.rest, chunks[1..]).frames);
    }
  }

  lemma NoFramesNoEvents(lossy: Lossy)
    ensures EventsOfFrames(lossy, []) == []
  {
  }
}
