/** Which events survive being printed and decoded. */
module SseRoundTrips {
  import opened Prelude
  import opened Text
  import opened Sse
  import opened SseStreams
  import opened SseChunking

  // ---------------------------------------------------------------- UTF-8

  function Utf8Char(c: char): (bytes: Bytes)
    ensures bytes != [] && (c == '\n' ==> bytes == [10])
    ensures forall i :: 0 <= i < |bytes| && bytes[i] < 128 ==> bytes == [c as nat]
  {
    var n := c as nat;
    if n < 0x80 then [n]
    else if n < 0x800 then [0xC0 + n / 64, 0x80 + n % 64]
    else if n < 0x1_0000 then [0xE0 + n / 4096, 0x80 + n / 64 % 64, 0x80 + n % 64]
    else [0xF0 + n / 262144, 0x80 + n / 4096 % 64, 0x80 + n / 64 % 64, 0x80 + n % 64]
  }

  function Utf8(s: string): Bytes {
    if s == "" then [] else Utf8(s[..|s| - 1]) + Utf8Char(s[|s| - 1])
  }

  /** Valid UTF-8 is decoded as it was encoded. */
  ghost predicate Faithful(lossy: Lossy) { forall s: string :: lossy(Utf8(s)) == s }

  lemma {:induction false} Utf8Appends(a: string, b: string)
    ensures Utf8(a + b) == Utf8(a) + Utf8(b)
  {
    hide Utf8Char;
    if b == "" {
      assert a + b == a;
    } else {
      var front, last := b[..|b| - 1], Utf8Char(b[|b| - 1]);
      Utf8Appends(a, front);
      assert (a + b)[..|a + b| - 1] == a + front;
      assert Utf8(a) + Utf8(front) + last == Utf8(a) + (Utf8(front) + last);
    }
  }

  predicate Free(s: string, c: char) { forall i :: 0 <= i < |s| ==> s[i] != c }

  predicate NoPair<T(==)>(s: seq<T>, x: T, y: T) { forall i :: 0 <= i < |s| - 1 ==> !(s[i] == x && s[i + 1] == y) }

  lemma NoPairJoins<T>(a: seq<T>, b: seq<T>, x: T, y: T)
    requires NoPair(a, x, y) && NoPair(b, x, y) && (a != [] && b != [] ==> !(a[|a| - 1] == x && b[0] == y))
    ensures NoPair(a + b, x, y)
  {
    var c := a + b;
    assert forall i :: 0 <= i < |a| ==> c[i] == a[i];
    assert forall i :: |a| <= i < |c| ==> c[i] == b[i - |a|];
  }

  lemma CharBytes(c: char, x: char, y: char)
    requires x as nat < 128 && y as nat < 128
    ensures NoPair(Utf8Char(c), x as nat, y as nat)
    ensures Utf8Char(c)[0] == y as nat ==> c == y
    ensures Utf8Char(c)[|Utf8Char(c)| - 1] == x as nat <==> c == x
  {
  }

  /** Neighbouring ASCII bytes are neighbouring characters. */
  lemma {:induction false} Utf8Pairs(s: string, x: char, y: char)
    requires x as nat < 128 && y as nat < 128 && NoPair(s, x, y)
    ensures NoPair(Utf8(s), x as nat, y as nat)
    ensures s != "" ==> Utf8(s) != [] && (Utf8(s)[|Utf8(s)| - 1] == x as nat <==> s[|s| - 1] == x)
  {
    if s != "" {
      var front, last := s[..|s| - 1], s[|s| - 1];
      Utf8Pairs(front, x, y);
      CharBytes(last, x, y);
      hide Utf8Char;
      assert front != "" ==> front[|front| - 1] == s[|s| - 2];
      NoPairJoins(Utf8(front), Utf8Char(last), x as nat, y as nat);
    }
  }

  /** No line after the first is blank but for a carriage return, and no newline ends the text. */
  predicate Solid(s: string) {
    NoPair(s, '\n', '\n') && NoPair(s, '\n', '\r') && (s != "" ==> s[|s| - 1] != '\n')
  }

  // ---------------------------------------------------------------- one frame, then the rest

  lemma LfLfAfter(b: Bytes, rest: Bytes)
    requires NoPair(b, 10, 10) && (b != [] ==> b[|b| - 1] != 10)
    ensures Find(b + LF_LF + rest, LF_LF) == Some(|b|)
  {
    var all := b + LF_LF + rest;
    assert all[|b|..|b| + 2] == LF_LF;
    forall k | 0 <= k < |b|
      ensures !Occurs(all, LF_LF, k)
    {
      assert all[k..k + 2][0] == b[k];
      assert all[k..k + 2][1] == if k + 1 < |b| then b[k + 1] else 10;
    }
    FirstIs(all, LF_LF, |b|);
  }

  lemma NoCrlfAt(b: Bytes, rest: Bytes, j: nat)
    requires NoPair(b, 10, 13) && (b != [] ==> b[|b| - 1] != 10) && j <= |b|
    ensures !Occurs(b + LF_LF + rest, CRLF_CRLF, j)
  {
    var all := b + LF_LF + rest;
    CrlfBytes(all, j);
    hide Occurs;
    assert all[|b|] == 10 && all[|b| + 1] == 10;
    if j + 2 < |b| {
      assert all[j + 1] == b[j + 1] && all[j + 2] == b[j + 1 + 1];
    } else if j + 2 == |b| {
      assert all[j + 1] == b[|b| - 1];
    }
  }

  lemma CrlfIsLater(b: Bytes, rest: Bytes)
    requires NoPair(b, 10, 13) && (b != [] ==> b[|b| - 1] != 10)
    ensures var at := Find(b + LF_LF + rest, CRLF_CRLF); at.Some? ==> at.value > |b|
  {
    forall j: nat | j <= |b|
      ensures !Occurs(b + LF_LF + rest, CRLF_CRLF, j)
    {
      NoCrlfAt(b, rest, j);
    }
    hide Occurs, FindFrom;
  }

  lemma CrlfBytes(buffer: Bytes, j: nat)
    ensures Occurs(buffer, CRLF_CRLF, j) ==>
              j + 4 <= |buffer| && buffer[j] == 13 && buffer[j + 1] == 10 && buffer[j + 2] == 13
  {
    if j + 4 <= |buffer| {
      var w := buffer[j..j + 4];
      assert w[0] == buffer[j] && w[1] == buffer[j + 1] && w[2] == buffer[j + 2];
    }
  }

  /** A solid frame followed by a separator is cut off as it is. */
  lemma SolidFrameIsCut(frame: string, rest: Bytes)
    requires Solid(frame)
    ensures var cut := Cuts(Utf8(frame) + LF_LF + rest);
            cut == Cut([Utf8(frame)] + Cuts(rest).frames, Cuts(rest).rest)
  {
    var b := Utf8(frame);
    var all := b + LF_LF + rest;
    Utf8Pairs(frame, '\n', '\n');
    Utf8Pairs(frame, '\n', '\r');
    assert b != [] ==> b[|b| - 1] != 10 by {
      assert frame == "" ==> b == [];
    }
    LfLfAfter(b, rest);
    CrlfIsLater(b, rest);
    hide Find, Utf8;
    assert all[|b| + 2..] == rest && all[..|b|] == b;
    CutsStep(all);
  }

  // ---------------------------------------------------------------- lines

  predicate NoTrail(line: string) { line == "" || line[|line| - 1] != '\r' }

  predicate Clean(line: string) { Free(line, '\n') && NoTrail(line) }

  predicate AllClean(lines: seq<string>) { forall i :: 0 <= i < |lines| ==> Clean(lines[i]) }

  lemma {:induction false} PiecesOfLine(line: string)
    requires Free(line, '\n')
    ensures Pieces(line) == [line]
  {
    if line != "" {
      PiecesOfLine(line[..|line| - 1]);
      assert line == line[..|line| - 1] + [line[|line| - 1]];
    }
  }

  lemma {:induction false} PiecesOfMore(text: string, line: string)
    requires Free(line, '\n')
    ensures Pieces(text + "\n" + line) == Pieces(text) + [line]
  {
    var all := text + "\n" + line;
    if line == "" {
      assert all[..|all| - 1] == text && all[|all| - 1] == '\n';
    } else {
      var front, last := line[..|line| - 1], line[|line| - 1];
      PiecesOfMore(text, front);
      assert all[..|all| - 1] == text + "\n" + front && all[|all| - 1] == last;
      assert front + [last] == line;
      assert (Pieces(text) + [front])[|Pieces(text)| := line] == Pieces(text) + [line];
    }
  }

  lemma {:induction false} PiecesFrom(line: string, rest: string)
    requires Free(line, '\n')
    ensures Pieces(line + "\n" + rest) == [line] + Pieces(rest)
  {
    var all := line + "\n" + rest;
    if rest == "" {
      PiecesOfLine(line);
      hide Free;
      assert all[..|all| - 1] == line;
    } else {
      var (front, last) := (rest[..|rest| - 1], rest[|rest| - 1]);
      PiecesFrom(line, front);
      hide Free;
      assert all[..|all| - 1] == line + "\n" + front && all[|all| - 1] == last;
    }
  }

  predicate NewlineFree(lines: seq<string>) { forall i :: 0 <= i < |lines| ==> Free(lines[i], '\n') }

  lemma {:induction false} PiecesOfJoined(lines: seq<string>)
    requires lines != [] && NewlineFree(lines)
    ensures Pieces(Joined(lines)) == lines
  {
    var last := |lines| - 1;
    if last == 0 {
      PiecesOfLine(lines[0]);
    } else {
      PiecesOfJoined(lines[..last]);
      PiecesOfMore(Joined(lines[..last]), lines[last]);
      assert lines[..last] + [lines[last]] == lines;
    }
  }

  lemma {:induction false} PiecesAre(text: string)
    ensures NewlineFree(Pieces(text)) && Joined(Pieces(text)) == text
    ensures Pieces(text)[|Pieces(text)| - 1] == "" <==> text == "" || text[|text| - 1] == '\n'
  {
    if text != "" {
      var front, last := text[..|text| - 1], text[|text| - 1];
      PiecesAre(front);
      var p := Pieces(front);
      assert text == front + [last];
      if last == '\n' {
        assert (p + [""])[..|p|] == p;
      } else {
        var n := |p| - 1;
        var more := p[n := p[n] + [last]];
        assert more[..n] == p[..n];
        assert Joined(more) == Joined(p) + [last];
      }
    }
  }

  lemma WithoutCrsIsSame(lines: seq<string>)
    requires forall i :: 0 <= i < |lines| ==> NoTrail(lines[i])
    ensures WithoutCrs(lines) == lines
  {
    forall i | 0 <= i < |lines|
      ensures WithoutCr(lines[i]) == lines[i]
    {
    }
  }

  /** Without carriage returns at their ends the lines of a text are its pieces, but for an empty
    * last one. */
  lemma LinesAre(text: string)
    requires forall i :: 0 <= i < |Pieces(text)| ==> NoTrail(Pieces(text)[i])
    ensures AllClean(Lines(text))
    ensures Lines(text)
            == if text == "" || text[|text| - 1] == '\n' then Pieces(text)[..|Pieces(text)| - 1] else Pieces(text)
  {
    PiecesAre(text);
    var p := Pieces(text);
    var front := p[..|p| - 1];
    WithoutCrsIsSame(front);
    FrontAndLast(p);
    assert Lines(text) == front + if p[|p| - 1] == "" then [] else [p[|p| - 1]];
    hide Pieces, Joined, Lines, NoTrail, Free;
    assert front + [] == front;
  }

  lemma LinesOfJoined(lines: seq<string>)
    requires lines != [] && AllClean(lines) && lines[|lines| - 1] != ""
    ensures Lines(Joined(lines)) == lines
  {
    PiecesOfJoined(lines);
    WithoutCrsIsSame(lines[..|lines| - 1]);
    assert lines == lines[..|lines| - 1] + [lines[|lines| - 1]];
  }

  /** Nonempty lines that do not start with a carriage return leave no blank line when joined. */
  lemma {:induction false} JoinedIsSolid(lines: seq<string>)
    requires lines != [] && AllClean(lines) && forall i :: 0 <= i < |lines| ==> lines[i] != "" && lines[i][0] != '\r'
    ensures Solid(Joined(lines)) && Joined(lines) != "" && Joined(lines)[0] == lines[0][0]
  {
    var last := |lines| - 1;
    if last > 0 {
      JoinedIsSolid(lines[..last]);
      var front := Joined(lines[..last]);
      var all := front + "\n" + lines[last];
      assert forall i :: 0 <= i < |front| ==> all[i] == front[i];
      assert all[|front|] == '\n';
      assert forall i :: |front| < i < |all| ==> all[i] == lines[last][i - |front| - 1];
    }
  }

  // ---------------------------------------------------------------- what is printed

  function HeaderLines(e: SseEvent): seq<string> { if e.event.Some? then ["event: " + e.event.value] else [] }

  function DataFields(lines: seq<string>): (fields: seq<string>)
    ensures |fields| == |lines|
  {
    seq(|lines|, i requires 0 <= i < |lines| => "data: " + lines[i])
  }

  function Body(e: SseEvent): seq<string> { HeaderLines(e) + DataFields(Lines(e.data)) }

  function Terminated(lines: seq<string>): string {
    if lines == [] then "" else Terminated(lines[..|lines| - 1]) + lines[|lines| - 1] + "\n"
  }

  lemma {:induction false} TerminatedAppends(a: seq<string>, b: seq<string>)
    ensures Terminated(a + b) == Terminated(a) + Terminated(b)
  {
    if b == [] {
      assert a + b == a;
    } else {
      var front, last := b[..|b| - 1], b[|b| - 1];
      TerminatedAppends(a, front);
      assert (a + b)[..|a + b| - 1] == a + front;
      Associates(Terminated(a), Terminated(front), last);
      Associates(Terminated(a), Terminated(front) + last, "\n");
    }
  }

  lemma {:induction false} DataLinesAre(lines: seq<string>)
    ensures DataLines(lines) == Terminated(DataFields(lines))
  {
    if lines != [] {
      var last := |lines| - 1;
      DataLinesAre(lines[..last]);
      assert DataFields(lines)[..last] == DataFields(lines[..last]);
      assert DataLines(lines[..last]) + "data: " + lines[last] + "\n"
             == DataLines(lines[..last]) + ("data: " + lines[last]) + "\n";
    }
  }

  lemma {:induction false} TerminatedIsJoined(lines: seq<string>)
    requires lines != []
    ensures Terminated(lines) == Joined(lines) + "\n"
  {
    var last := |lines| - 1;
    if last > 0 {
      TerminatedIsJoined(lines[..last]);
    } else {
      assert lines[..0] == [];
    }
  }

  /** An event with something to print is its lines joined, and a blank line. */
  lemma PrintedIs(e: SseEvent)
    requires Body(e) != []
    ensures Printed(e) == Joined(Body(e)) + "\n" + "\n"
  {
    hide Lines;
    DataLinesAre(Lines(e.data));
    TerminatedAppends(HeaderLines(e), DataFields(Lines(e.data)));
    TerminatedIsJoined(Body(e));
    HeaderIs(e);
  }

  lemma HeaderIs(e: SseEvent)
    ensures Terminated(HeaderLines(e)) == if e.event.Some? then "event: " + e.event.value + "\n" else ""
  {
    if e.event.Some? {
      assert HeaderLines(e)[..0] == [];
    }
  }

  // ---------------------------------------------------------------- what is read back

  predicate NoLead(line: string) { line == "" || !IsWhitespace(line[0]) }

  /** A line that is read back as it was printed. */
  predicate Good(line: string) { Free(line, '\n') && NoLead(line) && NoTrail(line) }

  predicate AllGood(lines: seq<string>) { forall i :: 0 <= i < |lines| ==> Good(lines[i]) }

  predicate GoodName(e: SseEvent) { e.event.Some? ==> Good(e.event.value) }

  predicate GoodLines(e: SseEvent) { AllGood(Pieces(e.data)) }

  lemma GoodLinesAre(e: SseEvent)
    requires GoodLines(e)
    ensures AllGood(Lines(e.data))
    ensures Lines(e.data) == if e.data == "" || e.data[|e.data| - 1] == '\n' then Pieces(e.data)[..|Pieces(e.data)| - 1]
                             else Pieces(e.data)
  {
    LinesAre(e.data);
  }

  lemma TrimOne(line: string)
    requires NoLead(line)
    ensures TrimStart(" " + line) == line
  {
    assert (" " + line)[1..] == line;
  }

  lemma ReadsEvent(f: Fields, name: string)
    requires NoTrail(name) && NoLead(name)
    ensures ReadLine(f, "event: " + name) == f.(event := Some(name))
  {
    var line := "event: " + name;
    assert line == "event:" + (" " + name);
    assert "event:" <= line && line[6..] == " " + name;
    TrimOne(name);
    NoCrTrim(line);
  }

  lemma ReadsData(f: Fields, text: string)
    requires NoTrail(text) && NoLead(text)
    ensures ReadLine(f, "data: " + text) == f.(data := f.data + [text])
  {
    var line := "data: " + text;
    assert line == "data:" + (" " + text);
    assert "data:" <= line && line[5..] == " " + text;
    assert line[0] == 'd' && !("event:" <= line);
    TrimOne(text);
    NoCrTrim(line);
  }

  lemma NoCrTrim(line: string)
    requires NoTrail(line)
    ensures TrimCr(line) == line
  {
  }

  lemma {:induction false} ReadsBody(header: seq<string>, event: Option<string>, lines: seq<string>)
    requires AllGood(lines)
    requires ReadLines(header) == Fields(event, [])
    ensures ReadLines(header + DataFields(lines)) == Fields(event, lines)
  {
    hide ReadLine;
    if lines == [] {
      assert header + DataFields(lines) == header;
    } else {
      var last := |lines| - 1;
      ReadsBody(header, event, lines[..last]);
      var all := header + DataFields(lines);
      assert all[..|all| - 1] == header + DataFields(lines[..last]);
      ReadsData(Fields(event, lines[..last]), lines[last]);
      assert lines[..last] + [lines[last]] == lines;
    }
  }

  lemma ReadsHeader(e: SseEvent)
    requires GoodName(e)
    ensures ReadLines(HeaderLines(e)) == Fields(e.event, [])
  {
    hide ReadLine;
    if e.event.Some? {
      assert HeaderLines(e)[..0] == [];
      ReadsEvent(Fields(None, []), e.event.value);
    }
  }

  predicate Field(line: string) { Clean(line) && line != "" && (line[0] == 'd' || line[0] == 'e') }

  lemma FieldsAreClean(lines: seq<string>)
    requires AllGood(lines)
    ensures forall i :: 0 <= i < |lines| ==> Field(DataFields(lines)[i])
  {
    forall i | 0 <= i < |lines|
      ensures Field(DataFields(lines)[i])
    {
      CleanWith("data: ", lines[i]);
    }
  }

  lemma BodyIsClean(e: SseEvent)
    requires GoodName(e) && GoodLines(e)
    ensures AllClean(Body(e))
    ensures forall i :: 0 <= i < |Body(e)| ==> Body(e)[i] != "" && (Body(e)[i][0] == 'd' || Body(e)[i][0] == 'e')
  {
    GoodLinesAre(e);
    FieldsAreClean(Lines(e.data));
    if e.event.Some? {
      CleanWith("event: ", e.event.value);
    }
    hide Lines, GoodLines, DataFields, Clean, Good;
  }

  lemma CleanWith(field: string, value: string)
    requires Clean(field) && Clean(value)
    ensures Clean(field + value)
  {
  }

  lemma ParsesBody(e: SseEvent)
    requires GoodName(e) && GoodLines(e) && Body(e) != []
    ensures Parsed(Joined(Body(e)))
            == if Lines(e.data) == [] then None else Some(SseEvent(e.event, Joined(Lines(e.data))))
  {
    GoodLinesAre(e);
    BodyIsClean(e);
    LinesOfJoined(Body(e));
    ReadsHeader(e);
    hide GoodLines, Lines;
    ReadsBody(HeaderLines(e), e.event, Lines(e.data));
  }

  lemma FrameDecodes(lossy: Lossy, frame: string, rest: Bytes)
    requires Solid(frame)
    ensures var parsed := Parsed(lossy(Utf8(frame)));
            EventsOf(lossy, Utf8(frame) + LF_LF + rest) == (if parsed.Some? then [parsed.value] else [])
                + EventsOf(lossy, rest)
  {
    hide Parsed, Utf8, Cuts, EventsOfFrames, Solid;
    SolidFrameIsCut(frame, rest);
    var cut := Cuts(rest);
    var end := Rest(cut.rest);
    var frames := [Utf8(frame)] + cut.frames + end;
    EventsStep(lossy, frames);
    assert frames[1..] == cut.frames + end && frames[0] == Utf8(frame);
  }

  /** A printed event with a good name and lines, whatever follows it. */
  lemma PrintedDecodes(lossy: Lossy, e: SseEvent, rest: Bytes)
    requires Faithful(lossy) && GoodName(e) && GoodLines(e) && Body(e) != []
    ensures EventsOf(lossy, Utf8(Printed(e)) + rest)
            == (if Lines(e.data) == [] then [] else [SseEvent(e.event, Joined(Lines(e.data)))]) + EventsOf(lossy, rest)
  {
    var frame := Joined(Body(e));
    hide Lines, Joined, Parsed, Printed, Utf8, EventsOf, Solid, HeaderLines, DataFields;
    BodyIsClean(e);
    JoinedIsSolid(Body(e));
    PrintedIs(e);
    ParsesBody(e);
    SplitPrinted(frame, rest);
    FrameDecodes(lossy, frame, rest);
    assert lossy(Utf8(frame)) == frame;
  }

  lemma SplitPrinted(frame: string, rest: Bytes)
    ensures Utf8(frame + "\n" + "\n") + rest == Utf8(frame) + LF_LF + rest
  {
    Utf8Appends(frame, "\n");
    Utf8Appends(frame + "\n", "\n");
    assert "\n"[..0] == "";
    assert Utf8("\n") == [10];
    assert Utf8(frame) + [10] + [10] == Utf8(frame) + LF_LF;
  }

  // ---------------------------------------------------------------- round trips

  /** Nonempty data without a newline at its end, of lines without white space at their start or a
    * carriage return at their end, and a name that is such a line. */
  predicate Representable(e: SseEvent) {
    e.data != "" && e.data[|e.data| - 1] != '\n' && GoodLines(e) && GoodName(e)
  }

  lemma RepresentableLines(e: SseEvent)
    requires Representable(e)
    ensures Lines(e.data) != [] && Joined(Lines(e.data)) == e.data && Body(e) != []
  {
    GoodLinesAre(e);
    PiecesAre(e.data);
  }

  function AllPrinted(events: seq<SseEvent>): string {
    if events == [] then "" else Printed(events[0]) + AllPrinted(events[1..])
  }

  /** Events that can be represented come back from their concatenated encodings. */
  lemma {:induction false} EventsRoundTrip(lossy: Lossy, events: seq<SseEvent>)
    requires Faithful(lossy) && forall i :: 0 <= i < |events| ==> Representable(events[i])
    ensures EventsOf(lossy, Utf8(AllPrinted(events))) == events
  {
    hide Printed, Cuts, EventsOfFrames, Representable, Faithful;
    if events == [] {
      NoEvents(lossy);
    } else {
      var first, rest := events[0], AllPrinted(events[1..]);
      EventsRoundTrip(lossy, events[1..]);
      RepresentableLines(first);
      RepresentableIsGood(first);
      hide Lines, Body, EventsOf, Utf8, GoodLines, GoodName;
      Utf8Appends(Printed(first), rest);
      PrintedDecodes(lossy, first, Utf8(rest));
      assert [first] + events[1..] == events;
    }
  }

  lemma RepresentableIsGood(e: SseEvent)
    requires Representable(e)
    ensures GoodLines(e) && GoodName(e)
  {
    hide Lines;
  }

  lemma NoEvents(lossy: Lossy)
    ensures EventsOf(lossy, []) == [] && Utf8("") == []
  {
    assert Find([], LF_LF).None?;
  }

  /** No line of the encodings starts with a carriage return. */
  predicate NoCrLine(text: string) { NoPair(text, '\n', '\r') && (text != "" ==> text[0] != '\r') }

  lemma {:induction false} AllPrintedHasNoCrLine(events: seq<SseEvent>)
    requires forall i :: 0 <= i < |events| ==> Representable(events[i])
    ensures NoCrLine(AllPrinted(events))
  {
    hide Printed, Representable;
    if events != [] {
      var first, rest := events[0], AllPrinted(events[1..]);
      AllPrintedHasNoCrLine(events[1..]);
      RepresentableLines(first);
      RepresentableIsGood(first);
      PrintedHasNoCrLine(first);
      NoPairJoins(Printed(first), rest, '\n', '\r');
    }
  }

  lemma PrintedHasNoCrLine(e: SseEvent)
    requires GoodName(e) && GoodLines(e) && Body(e) != []
    ensures NoCrLine(Printed(e)) && Printed(e) != ""
  {
    BodyIsClean(e);
    JoinedIsSolid(Body(e));
    PrintedIs(e);
    hide Printed, Body, Joined, GoodLines;
  }

  lemma NoBlankCrlf(text: string)
    requires NoCrLine(text)
    ensures Unmixed(Utf8(text))
  {
    Utf8Pairs(text, '\n', '\r');
    var b := Utf8(text);
    forall j: nat
      ensures !Occurs(b, CRLF_CRLF, j)
    {
      CrlfBytes(b, j);
    }
    hide Find, Utf8, Unmixed;
    OneKindIsUnmixed(b);
  }

  /** However the encodings of such events are cut into chunks that fit, a decoder returns exactly
    * the events. */
  lemma ChunkedEventsRoundTrip(lossy: Lossy, events: seq<SseEvent>, chunks: seq<Bytes>)
    requires Faithful(lossy) && forall i :: 0 <= i < |events| ==> Representable(events[i])
    requires Concat(chunks) == Utf8(AllPrinted(events)) && FitsFrom([], chunks)
    ensures Outputs(lossy, State([], false, Stream(chunks))) == Output(events, None)
  {
    hide Outputs, Utf8, AllPrinted, EventsOf, Representable, Faithful, FitsFrom, Concat, Unmixed, NoCrLine;
    AllPrintedHasNoCrLine(events);
    NoBlankCrlf(AllPrinted(events));
    DecodingIgnoresChunking(lossy, chunks);
    EventsRoundTrip(lossy, events);
  }

  // ---------------------------------------------------------------- exactly which events come back

  lemma {:induction false} EventsAreParsed(lossy: Lossy, frames: seq<Bytes>, e: SseEvent) returns (i: nat)
    requires e in EventsOfFrames(lossy, frames)
    ensures i < |frames| && Parsed(lossy(frames[i])) == Some(e)
  {
    hide Parsed;
    EventsStep(lossy, frames);
    if Parsed(lossy(frames[0])) == Some(e) {
      i := 0;
    } else {
      i := EventsAreParsed(lossy, frames[1..], e);
      i := i + 1;
    }
  }

  lemma {:induction false} TrimStartHasNoLead(s: string)
    ensures NoLead(TrimStart(s)) && (Free(s, '\n') ==> Free(TrimStart(s), '\n'))
    ensures NoTrail(s) ==> NoTrail(TrimStart(s))
  {
    if s != "" && IsWhitespace(s[0]) {
      TrimStartHasNoLead(s[1..]);
    }
  }

  lemma {:induction false} TrimCrIsPrefix(s: string)
    ensures TrimCr(s) <= s && NoTrail(TrimCr(s))
  {
    if s != "" && s[|s| - 1] == '\r' {
      TrimCrIsPrefix(s[..|s| - 1]);
    }
  }

  ghost predicate GoodFields(f: Fields) { (f.event.Some? ==> Good(f.event.value)) && AllGood(f.data) }

  lemma ReadLineIsGood(f: Fields, line: string)
    requires GoodFields(f) && Free(line, '\n')
    ensures GoodFields(ReadLine(f, line))
  {
    TrimCrIsPrefix(line);
    var trimmed := TrimCr(line);
    hide TrimCr, TrimStart, NoLead;
    var event, data := After("event:", trimmed), After("data:", trimmed);
    if event.Some? {
      TrimStartHasNoLead(event.value);
    }
    if data.Some? {
      TrimStartHasNoLead(data.value);
    }
  }

  lemma {:induction false} ReadLinesIsGood(lines: seq<string>)
    requires NewlineFree(lines)
    ensures GoodFields(ReadLines(lines))
  {
    hide ReadLine;
    if lines != [] {
      ReadLinesIsGood(lines[..|lines| - 1]);
      ReadLineIsGood(ReadLines(lines[..|lines| - 1]), lines[|lines| - 1]);
    }
  }

  lemma LinesAreNewlineFree(text: string)
    ensures NewlineFree(Lines(text))
  {
    PiecesAre(text);
    hide Pieces, Joined;
    var p := Pieces(text);
    forall i | 0 <= i < |p| - 1
      ensures Free(WithoutCr(p[i]), '\n')
    {
    }
  }

  /** Whatever a frame is parsed into has a name and data lines that are read back. */
  lemma ParsedIsGood(text: string, e: SseEvent)
    requires Parsed(text) == Some(e)
    ensures GoodName(e) && GoodLines(e)
  {
    LinesAreNewlineFree(text);
    ReadLinesIsGood(Lines(text));
    var data := ReadLines(Lines(text)).data;
    hide Lines, ReadLines, NoLead, NoTrail;
    PiecesOfJoined(data);
  }

  lemma OneNewline(lossy: Lossy)
    requires Faithful(lossy)
    ensures EventsOf(lossy, Utf8("\n")) == []
  {
    assert "\n"[..0] == "";
    assert Utf8("\n") == [10];
    assert Find([10], LF_LF).None?;
    assert lossy(Utf8("\n")) == "\n";
    PiecesOfMore("", "");
    assert "" + "\n" + "" == "\n" && Pieces("\n") == ["", ""];
    assert Lines("\n") == [""];
    assert [""][..0] == [];
    assert ReadLines([""]).data == [];
    CutsStep([10]);
    hide Parsed, Cuts, Find;
    assert [] + [[10]] == [[10]];
    EventsStep(lossy, [[10]]);
    assert [[10]][1..] == [];
  }

  lemma PrintedNothing(e: SseEvent)
    requires Body(e) == []
    ensures Printed(e) == "\n"
  {
    assert |Body(e)| == |HeaderLines(e)| + |Lines(e.data)|;
  }

  lemma JoinedLinesShorten(data: string)
    requires (forall i :: 0 <= i < |Pieces(data)| ==> NoTrail(Pieces(data)[i]))
             && (data == "" || data[|data| - 1] == '\n') && Lines(data) != []
    ensures |Joined(Lines(data))| < |data|
  {
    LinesAre(data);
    PiecesAre(data);
    hide Pieces;
    var p := Pieces(data);
    assert Joined(p) == Joined(p[..|p| - 1]) + "\n" + p[|p| - 1];
  }

  /** An event comes back from its encoding exactly when its data is nonempty, does not end with a
    * newline and has no line that starts with white space or ends with a carriage return, and its
    * name is one such line. */
  lemma RoundTripIffRepresentable(lossy: Lossy, e: SseEvent)
    requires Faithful(lossy)
    ensures EventsOf(lossy, Utf8(Printed(e))) == [e] <==> Representable(e)
  {
    if EventsOf(lossy, Utf8(Printed(e))) == [e] {
      ComesBack(lossy, e);
    }
    if Representable(e) {
      RepresentableLines(e);
      RepresentableIsGood(e);
      hide Lines, Joined, Printed, Utf8, EventsOf, Body;
      PrintedDecodes(lossy, e, []);
      NoEvents(lossy);
      assert Utf8(Printed(e)) + [] == Utf8(Printed(e));
    }
  }

  lemma ComesBack(lossy: Lossy, e: SseEvent)
    requires Faithful(lossy) && EventsOf(lossy, Utf8(Printed(e))) == [e]
    ensures Representable(e)
  {
    var cut := Cuts(Utf8(Printed(e)));
    var frames := cut.frames + Rest(cut.rest);
    assert [e][0] in EventsOfFrames(lossy, frames);
    var i := EventsAreParsed(lossy, frames, e);
    hide Cuts, EventsOfFrames, Parsed, Printed, Utf8, Lines, Joined, Faithful, GoodName, GoodLines;
    ParsedIsGood(lossy(frames[i]), e);
    if Body(e) == [] {
      PrintedNothing(e);
      OneNewline(lossy);
    } else {
      hide EventsOf, Body;
      PrintedDecodes(lossy, e, []);
      NoEvents(lossy);
      assert Utf8(Printed(e)) + [] == Utf8(Printed(e));
      DataIsWhole(e);
    }
  }

  lemma DataIsWhole(e: SseEvent)
    requires GoodLines(e) && Lines(e.data) != [] && Joined(Lines(e.data)) == e.data
    ensures e.data != "" && e.data[|e.data| - 1] != '\n'
  {
    hide Lines, Joined;
    if e.data == "" || e.data[|e.data| - 1] == '\n' {
      JoinedLinesShorten(e.data);
    }
  }

  // ---------------------------------------------------------------- mixed line ends

  lemma {:induction false} Utf8OfAscii(s: string)
    requires forall i :: 0 <= i < |s| ==> s[i] as nat < 128
    ensures |Utf8(s)| == |s| && forall i :: 0 <= i < |s| ==> Utf8(s)[i] == s[i] as nat
  {
    if s != "" {
      Utf8OfAscii(s[..|s| - 1]);
    }
  }

  function DataLine(c: char): string { "data:" + [c] }

  lemma ReadsField(f: Fields, c: char)
    requires c == 'a' || c == 'b'
    ensures ReadLine(f, "data:" + [c]) == f.(data := f.data + [[c]])
  {
    var line := "data:" + [c];
    NoCrTrim(line);
    assert "data:" <= line && line[5..] == [c] && line[0] == 'd' && !("event:" <= line);
    assert TrimStart([c]) == [c];
  }

  lemma ReadsPart(lines: seq<string>, line: string)
    ensures ReadLines(lines + [line]) == ReadLine(ReadLines(lines), line) && ReadLines([]) == Fields(None, [])
  {
    assert (lines + [line])[..|lines|] == lines;
  }

  lemma OneLine(c: char)
    requires c == 'a' || c == 'b'
    ensures Parsed("data:" + [c]) == Some(SseEvent(None, [c]))
  {
    var line := "data:" + [c];
    PiecesOfLine(line);
    LinesAre(line);
    ReadsPart([], line);
    assert [] + [line] == [line];
    ReadsField(Fields(None, []), c);
    assert Joined([[c]]) == [c];
  }

  lemma LinesSplit(x: string, z: string)
    requires Clean(x) && Clean(z) && z != ""
    ensures Lines(x + "\n" + "" + "\n" + z) == [x, "", z]
  {
    hide Pieces;
    PiecesOfLine(x);
    PiecesOfMore(x, "");
    PiecesOfMore(x + "\n" + "", z);
    var text := x + "\n" + "" + "\n" + z;
    assert text[|text| - 1] == z[|z| - 1];
    hide Free;
    assert Pieces(text) == [x, "", z];
    LinesAre(text);
  }

  lemma TwoLinesSplit()
    ensures Lines(DataLine('a') + "\n" + "" + "\n" + DataLine('b')) == [DataLine('a'), "", DataLine('b')]
  {
    assert Clean(DataLine('a')) && Clean(DataLine('b'));
    hide Lines;
    LinesSplit(DataLine('a'), DataLine('b'));
  }

  lemma ReadsThree(x: string, y: string, z: string)
    ensures ReadLines([x, y, z]) == ReadLine(ReadLine(ReadLine(Fields(None, []), x), y), z)
  {
    hide ReadLine;
    ReadsPart([], x);
    ReadsPart([x], y);
    ReadsPart([x, y], z);
    assert [] + [x] == [x] && [x] + [y] == [x, y] && [x, y] + [z] == [x, y, z];
  }

  lemma TwoLines()
    ensures Parsed(DataLine('a') + "\n" + "" + "\n" + DataLine('b')) == Some(SseEvent(None, "a\nb"))
  {
    TwoLinesSplit();
    ReadsThree(DataLine('a'), "", DataLine('b'));
    ReadsField(Fields(None, []), 'a');
    ReadsNothing(Fields(None, [['a']]));
    ReadsField(Fields(None, [['a']]), 'b');
    TwoJoined();
    hide Lines, ReadLine, ReadLines, Joined;
    assert [] + [['a']] == [['a']] && [['a']] + [['b']] == [['a'], ['b']];
  }

  lemma TwoJoined()
    ensures Joined([['a'], ['b']]) == "a\nb"
  {
    assert [['a'], ['b']][..1] == [['a']];
  }

  lemma ReadsNothing(f: Fields)
    ensures ReadLine(f, "") == f
  {
  }

  lemma FirstLf(frame: Bytes)
    requires NoPair(frame, 10, 10) && NoPair(frame, 10, 13) && (frame != [] ==> frame[|frame| - 1] != 10)
    ensures FindSeparator(frame + LF_LF) == Some(Separator(|frame|, 2))
  {
    var all := frame + LF_LF;
    LfLfAfter(frame, []);
    CrlfIsLater(frame, []);
    FoundFits(all, CRLF_CRLF);
    hide Find;
    assert all + [] == all;
  }

  lemma CutAtLf(frame: Bytes)
    requires NoPair(frame, 10, 10) && NoPair(frame, 10, 13) && (frame != [] ==> frame[|frame| - 1] != 10)
    ensures Drained(frame + LF_LF) == Cut([frame], [])
  {
    FirstLf(frame);
    hide Find, FindSeparator, Drained;
    CutAtEndOf(frame, 2);
  }

  lemma CutAtEndOf(frame: Bytes, length: nat)
    requires length == 2 || length == 4
    requires var all := frame + if length == 2 then LF_LF else CRLF_CRLF;
             FindSeparator(all) == Some(Separator(|frame|, length))
    ensures Drained(frame + if length == 2 then LF_LF else CRLF_CRLF) == Cut([frame], [])
  {
    hide FindSeparator;
    var all := frame + if length == 2 then LF_LF else CRLF_CRLF;
    DrainedStep(all);
    NothingAfter();
    hide Drained;
    assert Past(all, Separator(|frame|, length)) == [] && all[..|frame|] == frame;
    assert [frame] + [] == [frame];
  }

  lemma FirstCrlf(frame: Bytes)
    requires forall i :: 0 <= i < |frame| ==> frame[i] != 13
    ensures Find(frame + CRLF_CRLF, CRLF_CRLF) == Some(|frame|)
  {
    var all := frame + CRLF_CRLF;
    assert all[|frame|..] == CRLF_CRLF;
    forall k | 0 <= k < |frame|
      ensures !Occurs(all, CRLF_CRLF, k)
    {
      assert k + 4 <= |all| ==> all[k..k + 4][0] == frame[k];
    }
    FirstIs(all, CRLF_CRLF, |frame|);
  }

  lemma CutAtCrlf(frame: Bytes)
    requires forall i :: 0 <= i < |frame| ==> frame[i] != 13
    ensures Drained(frame + CRLF_CRLF) == Cut([frame], [])
  {
    FirstCrlf(frame);
    hide Find, Drained;
    CutAtEndOf(frame, 4);
  }

  lemma ReadsChunk(chunk: Bytes, frame: Bytes, more: seq<Bytes>)
    requires Drained(chunk) == Cut([frame], []) && |chunk| <= FRAME_LIMIT
    ensures FramesRead([], [chunk] + more) == [frame] + FramesRead([], more)
    ensures FitsFrom([], [chunk] + more) <==> FitsFrom([], more)
  {
    hide Drained, Cuts;
    DrainedLeavesSame(chunk);
    assert [] + chunk == chunk && ([chunk] + more)[1..] == more;
  }

  lemma ReadsLast(chunk: Bytes, frame: Bytes)
    requires Drained(chunk) == Cut([frame], []) && |chunk| <= FRAME_LIMIT
    ensures FramesRead([], [chunk]) == [frame] && FitsFrom([], [chunk])
  {
    NothingRead();
    hide *;
    ReadsChunk(chunk, frame, []);
    assert [chunk] + [] == [chunk] && [frame] + [] == [frame];
  }

  lemma NothingRead()
    ensures FramesRead([], []) == [] && FitsFrom([], [])
  {
  }

  lemma OutputsAre(lossy: Lossy, chunks: seq<Bytes>)
    requires FitsFrom([], chunks)
    ensures Outputs(lossy, State([], false, Stream(chunks)))
            == Output(EventsOfFrames(lossy, FramesRead([], chunks)), None)
  {
    NothingEarly();
    CutsOfRest([]);
    hide Outputs, FramesRead, FitsFrom, EventsOfFrames, FindSeparator, Earliest;
    OutputsOfRest(lossy, [], chunks);
  }

  /** The bytes of a text and of the separators after it. */
  lemma SeparatorBytes(text: string)
    ensures Utf8(text + "\n" + "\n") == Utf8(text) + LF_LF
    ensures Utf8(text + "\r\n" + "\r\n") == Utf8(text) + CRLF_CRLF
  {
    SplitPrinted(text, []);
    assert Utf8(text + "\n" + "\n") + [] == Utf8(text + "\n" + "\n") && Utf8(text) + LF_LF + [] == Utf8(text) + LF_LF;
    Utf8Appends(text, "\r\n");
    Utf8Appends(text + "\r\n", "\r\n");
    Utf8OfAscii("\r\n");
    assert Utf8("\r\n") == [13, 10];
    assert Utf8(text) + [13, 10] + [13, 10] == Utf8(text) + CRLF_CRLF;
  }

  lemma TwoChunks(lossy: Lossy, a: Bytes, b: Bytes, x: SseEvent, y: SseEvent)
    requires Drained(a + LF_LF) == Cut([a], []) && Drained(b + CRLF_CRLF) == Cut([b], [])
    requires |a| <= 100 && |b| <= 100 && Parsed(lossy(a)) == Some(x) && Parsed(lossy(b)) == Some(y)
    ensures Outputs(lossy, State([], false, Stream([a + LF_LF, b + CRLF_CRLF]))) == Output([x, y], None)
  {
    hide Drained, Outputs, EventsOfFrames, Parsed, FramesRead, FitsFrom;
    ReadsLast(b + CRLF_CRLF, b);
    ReadsChunk(a + LF_LF, a, [b + CRLF_CRLF]);
    assert [a + LF_LF] + [b + CRLF_CRLF] == [a + LF_LF, b + CRLF_CRLF];
    OutputsAre(lossy, [a + LF_LF, b + CRLF_CRLF]);
    EventsOfOne(lossy, a);
    EventsOfOne(lossy, b);
    EventsAppend(lossy, [a], [b]);
    assert [x] + [y] == [x, y];
  }

  lemma OneChunk(lossy: Lossy, frame: Bytes, x: SseEvent)
    requires Drained(frame + CRLF_CRLF) == Cut([frame], []) && |frame| <= 300 && Parsed(lossy(frame)) == Some(x)
    ensures Outputs(lossy, State([], false, Stream([frame + CRLF_CRLF]))) == Output([x], None)
  {
    hide Drained, Outputs, EventsOfFrames, Parsed, FramesRead, FitsFrom;
    ReadsLast(frame + CRLF_CRLF, frame);
    OutputsAre(lossy, [frame + CRLF_CRLF]);
    EventsOfOne(lossy, frame);
  }

  lemma LineDecodes(lossy: Lossy, c: char)
    requires Faithful(lossy) && (c == 'a' || c == 'b')
    ensures Parsed(lossy(Utf8(DataLine(c)))) == Some(SseEvent(None, [c]))
    ensures var b := Utf8(DataLine(c)); |b| == 6 && forall i :: 0 <= i < |b| ==> b[i] != 10 && b[i] != 13
  {
    Utf8OfAscii(DataLine(c));
    OneLine(c);
    hide Parsed, Utf8;
  }

  lemma WholeDecodes(lossy: Lossy)
    requires Faithful(lossy)
    ensures Parsed(lossy(Utf8(DataLine('a')) + LF_LF + Utf8(DataLine('b')))) == Some(SseEvent(None, "a\nb"))
  {
    WholeText();
    TwoLines();
    hide Parsed, Utf8;
  }

  lemma MixedBytes(lossy: Lossy, a: Bytes, b: Bytes, x: SseEvent, y: SseEvent, both: SseEvent)
    requires |a| == |b| == 6 && (forall i :: 0 <= i < 6 ==> a[i] != 10 && a[i] != 13 && b[i] != 10 && b[i] != 13)
    requires Parsed(lossy(a)) == Some(x) && Parsed(lossy(b)) == Some(y) && Parsed(lossy(a + LF_LF + b)) == Some(both)
    ensures Outputs(lossy, State([], false, Stream([a + LF_LF, b + CRLF_CRLF]))) == Output([x, y], None)
    ensures Outputs(lossy, State([], false, Stream([(a + LF_LF) + (b + CRLF_CRLF)]))) == Output([both], None)
  {
    hide Drained, Outputs, Parsed;
    CutAtLf(a);
    CutAtCrlf(b);
    TwoChunks(lossy, a, b, x, y);
    var whole := a + LF_LF + b;
    CutAtCrlf(whole);
    OneChunk(lossy, whole, both);
    assert (a + LF_LF) + (b + CRLF_CRLF) == whole + CRLF_CRLF;
  }

  /** A blank LF line and then a blank CRLF line end two events when they come in two chunks, but
    * only one when they come in one. */
  lemma MixedLineEndsDependOnChunking(lossy: Lossy)
    requires Faithful(lossy)
    ensures var first, second := Utf8(DataLine('a') + "\n" + "\n"), Utf8(DataLine('b') + "\r\n" + "\r\n");
            && Outputs(lossy, State([], false, Stream([first, second])))
               == Output([SseEvent(None, ['a']), SseEvent(None, ['b'])], None)
            && Outputs(lossy, State([], false, Stream([first + second]))) == Output([SseEvent(None, "a\nb")], None)
  {
    SeparatorBytes(DataLine('a'));
    SeparatorBytes(DataLine('b'));
    LineDecodes(lossy, 'a');
    LineDecodes(lossy, 'b');
    WholeDecodes(lossy);
    hide *;
    MixedBytes(lossy, Utf8(DataLine('a')), Utf8(DataLine('b')), SseEvent(None, ['a']), SseEvent(None, ['b']),
               SseEvent(None, "a\nb"));
  }

  lemma WholeText()
    ensures Utf8(DataLine('a')) + LF_LF + Utf8(DataLine('b')) == Utf8(DataLine('a') + "\n" + "" + "\n" + DataLine('b'))
  {
    SeparatorBytes(DataLine('a'));
    hide Utf8;
    Utf8Appends(DataLine('a') + "\n" + "\n", DataLine('b'));
    assert DataLine('a') + "\n" + "" + "\n" + DataLine('b') == DataLine('a') + "\n" + "\n" + DataLine('b');
  }
}
