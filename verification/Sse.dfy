/** Server-sent events: printing them, and parsing them out of a stream of chunks. */
module Sse {
  import opened Prelude
  import opened Text

  datatype SseEvent = SseEvent(event: Option<string>, data: string)

  datatype DecodeError = FrameTooLarge | ReadTimeout | Transport

  const FRAME_LIMIT: nat := 2 * 1024 * 1024

  // ---------------------------------------------------------------- lines

  /** The pieces between newlines; there is always one more piece than newlines. */
  function Pieces(text: string): (pieces: seq<string>)
    ensures pieces != []
  {
    if text == "" then [""]
    else
      var front, last := Pieces(text[..|text| - 1]), text[|text| - 1];
      if last == '\n' then front + [""] else front[|front| - 1 := front[|front| - 1] + [last]]
  }

  function WithoutCr(line: string): string {
    if line != "" && line[|line| - 1] == '\r' then line[..|line| - 1] else line
  }

  function WithoutCrs(lines: seq<string>): (stripped: seq<string>)
    ensures |stripped| == |lines|
  {
    seq(|lines|, i requires 0 <= i < |lines| => WithoutCr(lines[i]))
  }

  /** The lines of a text: a newline, with a carriage return before it, ends a line, and there is
    * no line after the last newline. */
  function Lines(text: string): seq<string> {
    var pieces := Pieces(text);
    var last := |pieces| - 1;
    WithoutCrs(pieces[..last]) + if pieces[last] == "" then [] else [pieces[last]]
  }

  function Joined(lines: seq<string>): string {
    if lines == [] then ""
    else if |lines| == 1 then lines[0]
    else Joined(lines[..|lines| - 1]) + "\n" + lines[|lines| - 1]
  }

  function TrimStart(s: string): string {
    if s != "" && IsWhitespace(s[0]) then TrimStart(s[1..]) else s
  }

  function TrimCr(s: string): string {
    if s != "" && s[|s| - 1] == '\r' then TrimCr(s[..|s| - 1]) else s
  }

  // ---------------------------------------------------------------- printing

  function DataLines(lines: seq<string>): string {
    if lines == [] then "" else DataLines(lines[..|lines| - 1]) + "data: " + lines[|lines| - 1] + "\n"
  }

  function Printed(e: SseEvent): string {
    (if e.event.Some? then "event: " + e.event.value + "\n" else "") + DataLines(Lines(e.data)) + "\n"
  }

  method Encode(e: SseEvent) returns (output: string)
    ensures output == Printed(e)
  {
    hide Lines, DataLines;
    output := "";
    if e.event.Some? {
      output := "event: " + e.event.value + "\n";
    }
    var data := EncodeData(Lines(e.data));
    output := output + data + "\n";
  }

  method EncodeData(lines: seq<string>) returns (output: string)
    ensures output == DataLines(lines)
  {
    output := "";
    for i := 0 to |lines|
      invariant output == DataLines(lines[..i])
    {
      assert lines[..i + 1][..i] == lines[..i];
      output := output + "data: " + lines[i] + "\n";
    }
    assert lines[..|lines|] == lines;
  }

  // ---------------------------------------------------------------- parsing a frame

  function After(prefix: string, line: string): Option<string> {
    if prefix <= line then Some(line[|prefix|..]) else None
  }

  /** The fields read so far. */
  datatype Fields = Fields(event: Option<string>, data: seq<string>)

  function ReadLine(f: Fields, rawLine: string): Fields {
    var line := TrimCr(rawLine);
    if line != "" && line[0] == ':' then f
    else if After("event:", line).Some? then f.(event := Some(TrimStart(After("event:", line).value)))
    else if After("data:", line).Some? then f.(data := f.data + [TrimStart(After("data:", line).value)])
    else f
  }

  function ReadLines(lines: seq<string>): Fields {
    if lines == [] then Fields(None, []) else ReadLine(ReadLines(lines[..|lines| - 1]), lines[|lines| - 1])
  }

  function Parsed(text: string): Option<SseEvent> {
    var f := ReadLines(Lines(text));
    if f.data == [] then None else Some(SseEvent(f.event, Joined(f.data)))
  }

  method ParseFrame(text: string) returns (parsed: Option<SseEvent>)
    ensures parsed == Parsed(text)
  {
    hide ReadLine;
    var lines := Lines(text);
    var fields := Fields(None, []);
    for i := 0 to |lines|
      invariant fields == ReadLines(lines[..i])
    {
      assert lines[..i + 1][..i] == lines[..i];
      fields := ReadLine(fields, lines[i]);
    }
    assert lines[..|lines|] == lines;
    return if fields.data == [] then None else Some(SseEvent(fields.event, Joined(fields.data)));
  }

  // ---------------------------------------------------------------- finding frames

  predicate Occurs(buffer: Bytes, pattern: Bytes, i: nat) {
    i + |pattern| <= |buffer| && buffer[i..i + |pattern|] == pattern
  }

  /** The first occurrence of a pattern at or after a position. */
  function FindFrom(buffer: Bytes, pattern: Bytes, i: nat): (at: Option<nat>)
    requires i <= |buffer|
    ensures at.Some? ==> i <= at.value && Occurs(buffer, pattern, at.value)
    ensures at.Some? ==> forall k :: i <= k < at.value ==> !Occurs(buffer, pattern, k)
    ensures at.None? ==> forall k :: i <= k ==> !Occurs(buffer, pattern, k)
    decreases |buffer| - i
  {
    if Occurs(buffer, pattern, i) then Some(i)
    else if i == |buffer| then None
    else FindFrom(buffer, pattern, i + 1)
  }

  function Find(buffer: Bytes, pattern: Bytes): (at: Option<nat>)
    ensures at.Some? ==> Occurs(buffer, pattern, at.value)
    ensures at.Some? ==> forall k :: 0 <= k < at.value ==> !Occurs(buffer, pattern, k)
    ensures at.None? ==> forall k: nat :: !Occurs(buffer, pattern, k)
  {
    FindFrom(buffer, pattern, 0)
  }

  const CRLF_CRLF: Bytes := [13, 10, 13, 10]
  const LF_LF: Bytes := [10, 10]

  datatype Separator = Separator(end: nat, length: nat)

  /** Where the first frame ends: a blank CRLF line anywhere in the buffer is preferred. */
  function FindSeparator(buffer: Bytes): (s: Option<Separator>)
    ensures s.Some? ==> s.value.end + s.value.length <= |buffer| && s.value.length > 0
  {
    var crlf := Find(buffer, CRLF_CRLF);
    if crlf.Some? then Some(Separator(crlf.value, 4))
    else
      var lf := Find(buffer, LF_LF);
      if lf.Some? then Some(Separator(lf.value, 2)) else None
  }

  // ---------------------------------------------------------------- the decoder

  datatype Arrival = Data(bytes: Bytes) | TimedOut | Broken

  datatype State = State(buffer: Bytes, complete: bool, incoming: seq<Arrival>)

  /** Decoding of UTF-8 with replacement of invalid sequences is a parameter. */
  type Lossy = Bytes -> string

  function Next(lossy: Lossy, s: State): (State, Result<Option<SseEvent>, DecodeError>)
    decreases |s.incoming|, !s.complete, |s.buffer|
  {
    var separator := FindSeparator(s.buffer);
    if separator.Some? then
      var frame := s.buffer[..separator.value.end];
      var rest := s.(buffer := s.buffer[separator.value.end + separator.value.length..]);
      var parsed := Parsed(lossy(frame));
      if parsed.Some? then (rest, Ok(parsed)) else Next(lossy, rest)
    else if s.complete then
      if s.buffer == [] then (s, Ok(None)) else (s.(buffer := []), Ok(Parsed(lossy(s.buffer))))
    else if s.incoming == [] then Next(lossy, s.(complete := true))
    else
      var rest := s.(incoming := s.incoming[1..]);
      match s.incoming[0]
      case Data(bytes) =>
        var more := rest.(buffer := s.buffer + bytes);
        if |more.buffer| > FRAME_LIMIT then (more, Err(FrameTooLarge)) else Next(lossy, more)
      case TimedOut => (rest, Err(ReadTimeout))
      case Broken => (rest, Err(Transport))
  }

  class SseDecoder {
    var buffer: Bytes
    var complete: bool
    var incoming: seq<Arrival>

    function Now(): State
      reads this
    {
      State(buffer, complete, incoming)
    }

    /** `incoming` is what the upstream will send. */
    constructor (incoming: seq<Arrival>)
      ensures Now() == State([], false, incoming)
    {
      this.buffer, this.complete, this.incoming := [], false, incoming;
    }

    method NextEvent(lossy: Lossy) returns (r: Result<Option<SseEvent>, DecodeError>)
      modifies this
      ensures (Now(), r) == Next(lossy, old(Now()))
    {
      hide Parsed, FindSeparator;
      while true
        invariant Next(lossy, Now()) == Next(lossy, old(Now()))
        decreases |incoming|, !complete, |buffer|
      {
        var separator := FindSeparator(buffer);
        if separator.Some? {
          var frame := buffer[..separator.value.end];
          buffer := buffer[separator.value.end + separator.value.length..];
          var event := ParseFrame(lossy(frame));
          if event.Some? {
            return Ok(event);
          }
        } else if complete {
          if buffer == [] {
            return Ok(None);
          }
          var event := ParseFrame(lossy(buffer));
          buffer := [];
          return Ok(event);
        } else if incoming == [] {
          complete := true;
        } else {
          var arrival := incoming[0];
          incoming := incoming[1..];
          match arrival {
            case Data(bytes) =>
              buffer := buffer + bytes;
              if |buffer| > FRAME_LIMIT {
                return Err(FrameTooLarge);
              }
            case TimedOut => return Err(ReadTimeout);
            case Broken => return Err(Transport);
          }
        }
      }
    }
  }
}
