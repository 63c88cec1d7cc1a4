/** What the lines of a frame say. */
module SseFrames {
  import opened Prelude
  import opened Text
  import opened Sse
  import opened SseRoundTrips

  // ---------------------------------------------------------------- lines

  /** Lines end with a newline, or a carriage return and a newline; what follows the last newline is
    * a line unless it is empty. */
  lemma LinesFrom(line: string, rest: string)
    requires Free(line, '\n')
    ensures Lines("") == [] && (line != "" ==> Lines(line) == [line])
    ensures Lines(line + "\n" + rest)
            == [if |line| > 0 && line[|line| - 1] == '\r' then line[..|line| - 1] else line] + Lines(rest)
  {
    PiecesFrom(line, rest);
    PiecesOfLine(line);
    hide Pieces, Free;
    PiecesOfNothing();
    var (p, q) := (Pieces(rest), Pieces(line + "\n" + rest));
    assert q[..|q| - 1] == [line] + p[..|p| - 1];
    assert WithoutCrs([line] + p[..|p| - 1]) == [WithoutCr(line)] + WithoutCrs(p[..|p| - 1]);
    assert [line][..0] == [];
  }

  lemma PiecesOfNothing()
    ensures Pieces("") == [""]
  {
  }

  // ---------------------------------------------------------------- fields

  /** The value is what is left of a text without white space before it and carriage returns after
    * it. */
  ghost predicate IsValue(text: string, value: string) {
    exists i, j :: 0 <= i <= j <= |text| && value == text[i..j] && Trims(text, i, j)
  }

  predicate Trims(text: string, i: nat, j: nat)
    requires i <= j <= |text|
  {
    && (forall k :: 0 <= k < i ==> IsWhitespace(text[k]))
    && (forall k :: j <= k < |text| ==> text[k] == '\r')
    && (i < j ==> !IsWhitespace(text[i]) && text[j - 1] != '\r')
  }

  function Value(text: string): string { TrimStart(TrimCr(text)) }

  lemma {:induction false} TrimCrIs(text: string)
    ensures |TrimCr(text)| <= |text| && TrimCr(text) == text[..|TrimCr(text)|]
    ensures forall k :: |TrimCr(text)| <= k < |text| ==> text[k] == '\r'
    ensures TrimCr(text) != "" ==> TrimCr(text)[|TrimCr(text)| - 1] != '\r'
  {
    if text != "" && text[|text| - 1] == '\r' {
      TrimCrIs(text[..|text| - 1]);
    }
  }

  lemma {:induction false} TrimStartIs(text: string) returns (i: nat)
    ensures i <= |text| && TrimStart(text) == text[i..] && (forall k :: 0 <= k < i ==> IsWhitespace(text[k]))
    ensures i < |text| ==> !IsWhitespace(text[i])
  {
    i := 0;
    if text != "" && IsWhitespace(text[0]) {
      var j := TrimStartIs(text[1..]);
      i := j + 1;
      hide IsWhitespace;
      forall k | 0 <= k < i
        ensures IsWhitespace(text[k])
      {
        assert k > 0 ==> text[k] == text[1..][k - 1];
      }
    }
  }

  lemma ValueIs(text: string)
    ensures IsValue(text, Value(text))
  {
    hide TrimCr, TrimStart, IsWhitespace;
    TrimCrIs(text);
    var trimmed := TrimCr(text);
    var i := TrimStartIs(trimmed);
    forall k | 0 <= k < i
      ensures IsWhitespace(text[k])
    {
      assert text[k] == trimmed[k];
    }
    assert Trims(text, i, |trimmed|);
    assert Value(text) == text[i..|trimmed|];
  }

  /** The values of the lines that begin with the name. */
  function Values(name: string, lines: seq<string>): seq<string> {
    if lines == [] then []
    else
      var last := lines[|lines| - 1];
      Values(name, lines[..|lines| - 1]) + if name <= last then [Value(last[|name|..])] else []
  }

  lemma {:induction false} TrimCrAfter(name: string, rest: string)
    requires name != "" && name[|name| - 1] != '\r'
    ensures TrimCr(name + rest) == name + TrimCr(rest)
  {
    if rest != "" && rest[|rest| - 1] == '\r' {
      var front := rest[..|rest| - 1];
      TrimCrAfter(name, front);
      assert (name + rest)[..|name + rest| - 1] == name + front;
    } else if rest == "" {
      assert name + rest == name;
    }
  }

  lemma TrimCrKeepsName(name: string, line: string)
    requires name != "" && name[|name| - 1] != '\r'
    ensures name <= TrimCr(line) <==> name <= line
    ensures name <= line ==> TrimCr(line)[|name|..] == TrimCr(line[|name|..])
  {
    TrimCrIs(line);
    if name <= line {
      assert line == name + line[|name|..];
      TrimCrAfter(name, line[|name|..]);
    }
    hide TrimCr;
  }

  lemma LineReads(f: Fields, line: string)
    ensures ReadLine(f, line)
            == Fields(if "event:" <= line then Some(Value(line[6..])) else f.event,
                      f.data + if "data:" <= line then [Value(line[5..])] else [])
  {
    TrimCrKeepsName("event:", line);
    TrimCrKeepsName("data:", line);
    TrimCrKeepsName(":", line);
    hide TrimCr, TrimStart;
    assert f.data + [] == f.data;
  }

  lemma {:induction false} LinesRead(lines: seq<string>)
    ensures var events := Values("event:", lines);
            ReadLines(lines) == Fields(if events == [] then None else Some(events[|events| - 1]),
                                       Values("data:", lines))
  {
    if lines != [] {
      LinesRead(lines[..|lines| - 1]);
      LineReads(ReadLines(lines[..|lines| - 1]), lines[|lines| - 1]);
      hide ReadLine, Value;
    }
  }

  /** A frame is an event exactly when one of its lines begins with `data:`. Its data are the values of
    * those lines, and its type is the value of the last line that begins with `event:`; all other
    * lines, comments among them, say nothing. */
  lemma FrameSays(text: string)
    ensures var (data, events) := (Values("data:", Lines(text)), Values("event:", Lines(text)));
            Parsed(text) == if data == [] then None
                            else Some(SseEvent(if events == [] then None else Some(events[|events| - 1]), Joined(data)))
    ensures Parsed(text).None? <==> forall i :: 0 <= i < |Lines(text)| ==> !("data:" <= Lines(text)[i])
  {
    hide Lines, ReadLines;
    LinesRead(Lines(text));
    NoValues("data:", Lines(text));
  }

  lemma {:induction false} NoValues(name: string, lines: seq<string>)
    ensures Values(name, lines) == [] <==> forall i :: 0 <= i < |lines| ==> !(name <= lines[i])
  {
    if lines != [] {
      NoValues(name, lines[..|lines| - 1]);
      hide Value;
    }
  }

  /** Data are joined with a newline between any two. */
  lemma {:induction false} DataJoin(a: seq<string>, b: seq<string>, text: string)
    ensures Joined([text]) == text
    ensures a != [] && b != [] ==> Joined(a + b) == Joined(a) + "\n" + Joined(b)
  {
    if a != [] && |b| == 1 {
      assert (a + b)[..|a + b| - 1] == a;
    } else if a != [] && |b| > 1 {
      DataJoin(a, b[..|b| - 1], text);
      assert (a + b)[..|a + b| - 1] == a + b[..|b| - 1];
      assert Joined(a + b) == Joined(a + b[..|b| - 1]) + "\n" + b[|b| - 1];
      assert Joined(b) == Joined(b[..|b| - 1]) + "\n" + b[|b| - 1];
    }
  }
}
