/** What a whole translated stream looks like, and what translating it back assembles. */
module AnthropicRuns {
  import opened Prelude
  import opened ChatStream
  import opened AnthropicStream
  import opened Sets

  /** The events of the chunks in turn: the first call also opens the message. */
  function Streamed(chunks: seq<Chunk>): seq<Event> {
    if chunks == [] then []
    else
      var front := chunks[..|chunks| - 1];
      Streamed(front)
      + (if front == [] then [MessageStart] else [])
      + Events(Steps(INITIAL, Atoms(front)), ChoicesAtoms(chunks[|chunks| - 1].choices))
  }

  function Output(chunks: seq<Chunk>): seq<Event> {
    Streamed(chunks) + FinishEvents(Steps(INITIAL, Atoms(chunks)))
  }

  lemma {:induction false} StreamedIs(chunks: seq<Chunk>)
    requires chunks != []
    ensures Streamed(chunks) == [MessageStart] + Events(INITIAL, Atoms(chunks))
  {
    hide Steps, Events, ChoicesAtoms;
    var front := chunks[..|chunks| - 1];
    var atoms := ChoicesAtoms(chunks[|chunks| - 1].choices);
    StepsAppend(INITIAL, Atoms(front), atoms);
    if front == [] {
      StepsNone(INITIAL);
      assert Streamed(front) == [];
    } else {
      StreamedIs(front);
    }
  }

  // ---------------------------------------------------------------- bracketing

  /** The number the next block must carry, and the blocks that are open. */
  datatype Brackets = Brackets(next: nat, open: map<nat, Block>)

  predicate Fits(b: Block, d: Delta) {
    (b.TextBlock? && d.TextDelta?) || (b.ToolBlock? && d.JsonDelta?) || (b.ThinkingBlock? && d.ThinkingDelta?)
  }

  /** One event of a message body: blocks start in number order, deltas and stops concern
    * open blocks only, and a number is never used again. */
  function Follow(c: Option<Brackets>, e: Event): Option<Brackets> {
    if c.None? then None
    else
      match e
      case BlockStart(i, b) =>
        if i == c.value.next then Some(Brackets(i + 1, c.value.open[i := b])) else None
      case BlockDelta(i, d) =>
        if i in c.value.open && Fits(c.value.open[i], d) then c else None
      case BlockStop(i) =>
        if i in c.value.open then Some(c.value.(open := c.value.open - {i})) else None
      case _ => None
  }

  function FollowAll(c: Option<Brackets>, events: seq<Event>): Option<Brackets> {
    if events == [] then c else Follow(FollowAll(c, events[..|events| - 1]), events[|events| - 1])
  }

  predicate WellBracketed(events: seq<Event>) {
    var n := |events|;
    && n >= 3 && events[0] == MessageStart && events[n - 1] == MessageStop && events[n - 2].MessageDelta?
    && var c := FollowAll(Some(Brackets(0, map[])), events[1..n - 2]);
       c.Some? && c.value.open == map[]
  }

  lemma {:induction false} FollowAppends(c: Option<Brackets>, a: seq<Event>, b: seq<Event>)
    ensures FollowAll(c, a + b) == FollowAll(FollowAll(c, a), b)
  {
    hide Follow;
    if b == [] {
      assert a + b == a;
    } else {
      FollowAppends(c, a, b[..|b| - 1]);
      assert (a + b)[..|a + b| - 1] == a + b[..|b| - 1];
    }
  }

  lemma FollowOne(c: Option<Brackets>, e: Event)
    ensures FollowAll(c, []) == c && FollowAll(c, [e]) == Follow(c, e)
  {
    hide Follow;
    assert [e][..0] == [];
  }

  /** The translator's calls own distinct blocks below the next number; those and the open
    * text block are exactly the open ones. */
  ghost predicate Tracks(s: State, c: Brackets) {
    && c.next == s.blockIndex + (if s.textOpen then 1 else 0)
    && (forall k :: k in s.calls ==> s.calls[k].block < s.blockIndex)
    && (forall j, k :: j in s.calls && k in s.calls && s.calls[j].block == s.calls[k].block ==> j == k)
    && (forall k :: k in s.calls ==> s.calls[k].block in c.open
                                     && c.open[s.calls[k].block] == ToolBlock(s.calls[k].id, s.calls[k].name))
    && (s.textOpen ==> s.blockIndex in c.open && c.open[s.blockIndex] == TextBlock)
    && (forall b :: b in c.open ==> (s.textOpen && b == s.blockIndex) || OwnedByCall(s, b))
  }

  ghost predicate OwnedByCall(s: State, b: nat) {
    exists k :: k in s.calls && s.calls[k].block == b
  }

  lemma TextTracks(s: State, c: Brackets, text: string) returns (d: Brackets)
    requires Tracks(s, c)
    ensures FollowAll(Some(c), StepEvents(s, Text(text))) == Some(d) && Tracks(Step(s, Text(text)), d)
  {
    var delta := BlockDelta(s.blockIndex, TextDelta(text));
    if s.textOpen {
      hide FollowAll, OwnedByCall;
      FollowOne(Some(c), delta);
      d := c;
      assert StepEvents(s, Text(text)) == [delta];
      assert Step(s, Text(text)) == s;
    } else {
      hide FollowAll;
      var start := BlockStart(s.blockIndex, TextBlock);
      d := Brackets(s.blockIndex + 1, c.open[s.blockIndex := TextBlock]);
      FollowOne(Some(c), start);
      FollowOne(Some(d), delta);
      FollowAppends(Some(c), [start], [delta]);
      NewTextTracks(s, c, text);
      hide Tracks;
    }
  }

  lemma NewTextTracks(s: State, c: Brackets, text: string)
    requires Tracks(s, c) && !s.textOpen
    ensures Tracks(Step(s, Text(text)), Brackets(s.blockIndex + 1, c.open[s.blockIndex := TextBlock]))
  {
    var t := Step(s, Text(text));
    forall b | OwnedByCall(s, b)
      ensures OwnedByCall(t, b)
    {
      var k :| k in s.calls && s.calls[k].block == b;
      assert t.calls[k].block == b;
    }
    hide OwnedByCall;
  }

  lemma CloseTracks(s: State, c: Brackets) returns (d: Brackets)
    requires Tracks(s, c)
    ensures FollowAll(Some(c), CloseEvents(s)) == Some(d) && Tracks(Closed(s), d)
  {
    FollowOne(Some(c), BlockStop(s.blockIndex));
    if s.textOpen {
      d := c.(open := c.open - {s.blockIndex});
      forall b | b in d.open
        ensures OwnedByCall(Closed(s), b)
      {
        assert OwnedByCall(s, b);
        var k :| k in s.calls && s.calls[k].block == b;
        assert Closed(s).calls[k].block == b;
      }
    } else {
      d := c;
    }
  }

  lemma NewCallTracks(s: State, c: Brackets, call: CallDelta)
    requires Tracks(s, c) && !s.textOpen && call.index !in s.calls
    ensures Tracks(Opened(s, call),
                   Brackets(s.blockIndex + 1,
                            c.open[s.blockIndex := ToolBlock(call.id.GetOr(""), call.name.GetOr(""))]))
  {
    var o := Opened(s, call);
    assert o.calls[call.index].block == s.blockIndex;
    forall b | OwnedByCall(s, b)
      ensures OwnedByCall(o, b)
    {
      OwnedStays(s, call, b);
    }
    OwnsNew(s, call);
    hide OwnedByCall;
  }

  lemma OwnedStays(s: State, call: CallDelta, b: nat)
    requires call.index !in s.calls && OwnedByCall(s, b)
    ensures OwnedByCall(Opened(s, call), b)
  {
    var k :| k in s.calls && s.calls[k].block == b;
    assert Opened(s, call).calls[k].block == b;
  }

  lemma OwnsNew(s: State, call: CallDelta)
    requires call.index !in s.calls
    ensures OwnedByCall(Opened(s, call), s.blockIndex)
  {
    assert Opened(s, call).calls[call.index].block == s.blockIndex;
  }

  lemma OpenTracks(s: State, c: Brackets, call: CallDelta) returns (d: Brackets)
    requires Tracks(s, c) && !s.textOpen
    ensures FollowAll(Some(c), OpenEvents(s, call)) == Some(d) && Tracks(Opened(s, call), d)
  {
    if call.index in s.calls {
      FollowOne(Some(c), MessageStop);
      d := c;
    } else {
      var block := ToolBlock(call.id.GetOr(""), call.name.GetOr(""));
      NewCallTracks(s, c, call);
      assert c.next == s.blockIndex;
      hide Tracks;
      FollowOne(Some(c), BlockStart(s.blockIndex, block));
      d := Brackets(s.blockIndex + 1, c.open[s.blockIndex := block]);
    }
  }

  /** Tracking does not look at arguments. */
  lemma ArgumentsDoNotMatter(s: State, x: State, c: Brackets)
    requires Tracks(s, c) && x.blockIndex == s.blockIndex && x.textOpen == s.textOpen && x.calls.Keys == s.calls.Keys
    requires forall k :: k in s.calls ==> x.calls[k] == s.calls[k].(arguments := x.calls[k].arguments)
    ensures Tracks(x, c)
  {
    forall b | b in c.open && OwnedByCall(s, b)
      ensures OwnedByCall(x, b)
    {
      var k :| k in s.calls && s.calls[k].block == b;
      assert x.calls[k].block == b;
    }
  }

  lemma ExtendTracks(s: State, c: Brackets, call: CallDelta)
    requires Tracks(s, c) && !s.textOpen && call.index in s.calls
    ensures FollowAll(Some(c), ExtendEvents(s, call)) == Some(c) && Tracks(Extended(s, call), c)
  {
    ArgumentsDoNotMatter(s, Extended(s, call), c);
    assert s.calls[call.index].block in c.open && c.open[s.calls[call.index].block].ToolBlock?;
    hide Tracks, Extended;
    if call.arguments.GetOr("") == "" {
      FollowOne(Some(c), MessageStop);
    } else {
      FollowOne(Some(c), BlockDelta(s.calls[call.index].block, JsonDelta(call.arguments.value)));
    }
  }

  lemma StepTracks(s: State, c: Brackets, a: Atom) returns (d: Brackets)
    requires Tracks(s, c)
    ensures FollowAll(Some(c), StepEvents(s, a)) == Some(d) && Tracks(Step(s, a), d)
  {
    match a
    case Finish(_) =>
      FollowOne(Some(c), MessageStop);
      d := c;
      assert forall b :: OwnedByCall(s, b) ==> OwnedByCall(Step(s, a), b);
    case Text(text) => d := TextTracks(s, c, text);
    case CallsBegin => d := CloseTracks(s, c);
    case Call(call) =>
      hide Tracks, Closed, Opened, CloseEvents, OpenEvents, ExtendEvents, FollowAll;
      var closed := CloseTracks(s, c);
      NotOpen(s, call);
      var began := OpenTracks(Closed(s), closed, call);
      ExtendTracks(Opened(Closed(s), call), began, call);
      d := began;
      FollowAppends(Some(c), CloseEvents(s), OpenEvents(Closed(s), call));
      FollowAppends(Some(c), CloseEvents(s) + OpenEvents(Closed(s), call), ExtendEvents(Opened(Closed(s), call), call));
  }

  lemma NotOpen(s: State, call: CallDelta)
    ensures !Closed(s).textOpen && !Opened(Closed(s), call).textOpen
    ensures call.index in Opened(Closed(s), call).calls
  {
  }

  lemma {:induction false} StepsTrack(atoms: seq<Atom>) returns (d: Brackets)
    ensures FollowAll(Some(Brackets(0, map[])), Events(INITIAL, atoms)) == Some(d)
    ensures Tracks(Steps(INITIAL, atoms), d)
  {
    hide Step, StepEvents, Follow;
    if atoms == [] {
      d := Brackets(0, map[]);
    } else {
      var last := |atoms| - 1;
      var c := StepsTrack(atoms[..last]);
      d := StepTracks(Steps(INITIAL, atoms[..last]), c, atoms[last]);
      FollowAppends(Some(Brackets(0, map[])), Events(INITIAL, atoms[..last]),
                    StepEvents(Steps(INITIAL, atoms[..last]), atoms[last]));
    }
  }

  lemma StopsAppend(calls: map<nat, CallState>, keys: seq<nat>, key: nat)
    requires key in calls && forall i :: 0 <= i < |keys| ==> keys[i] in calls
    ensures forall i :: 0 <= i < |keys + [key]| ==> (keys + [key])[i] in calls
    ensures StopEvents(calls, keys + [key]) == StopEvents(calls, keys) + [BlockStop(calls[key].block)]
  {
  }

  ghost predicate DistinctOpenBlocks(calls: map<nat, CallState>, c: Brackets) {
    && (forall k :: k in calls ==> calls[k].block in c.open)
    && (forall j, k :: j in calls && k in calls && calls[j].block == calls[k].block ==> j == k)
  }

  /** Stopping the calls one by one, in any order of distinct keys, closes exactly their blocks. */
  lemma {:induction false} StopsClose(calls: map<nat, CallState>, c: Brackets, keys: seq<nat>) returns (d: Brackets)
    requires DistinctOpenBlocks(calls, c)
    requires forall i :: 0 <= i < |keys| ==> keys[i] in calls
    requires forall i, j :: 0 <= i < j < |keys| ==> keys[i] != keys[j]
    ensures FollowAll(Some(c), StopEvents(calls, keys)) == Some(d)
    ensures forall b :: b in d.open <==> b in c.open && forall i :: 0 <= i < |keys| ==> calls[keys[i]].block != b
  {
    hide FollowAll, StopEvents;
    if keys == [] {
      d := c;
      assert StopEvents(calls, keys) == [];
      FollowOne(Some(c), MessageStop);
    } else {
      var last := |keys| - 1;
      var front, block := keys[..last], calls[keys[last]].block;
      var before := StopsClose(calls, c, front);
      StopsAppend(calls, front, keys[last]);
      FollowAppends(Some(c), StopEvents(calls, front), [BlockStop(block)]);
      FollowOne(Some(before), BlockStop(block));
      assert keys == front + [keys[last]];
      assert forall i :: 0 <= i < last ==> calls[front[i]].block != block;
      d := before.(open := before.open - {block});
      assert forall i :: 0 <= i < |keys| ==> keys[i] == if i < last then front[i] else keys[last];
    }
  }

  lemma ClosedOwnsAll(s: State, c: Brackets)
    requires Tracks(Closed(s), c)
    ensures Closed(s).calls == s.calls && DistinctOpenBlocks(s.calls, c)
    ensures forall b :: b in c.open ==> OwnedByCall(s, b)
  {
    forall b | b in c.open
      ensures OwnedByCall(s, b)
    {
      assert OwnedByCall(Closed(s), b);
      var k :| k in s.calls && s.calls[k].block == b;
    }
  }

  lemma FinishCloses(s: State, c: Brackets) returns (d: Brackets)
    requires Tracks(s, c)
    ensures (forall k :: k in Ascending(s.calls.Keys) ==> k in s.calls)
    ensures FollowAll(Some(c), CloseEvents(s) + StopEvents(s.calls, Ascending(s.calls.Keys))) == Some(d)
    ensures d.open == map[]
  {
    hide Tracks, Ascending, FollowAll, StopEvents, CloseEvents, Closed, DistinctOpenBlocks;
    AscendingMembers(s.calls.Keys);
    var keys := Ascending(s.calls.Keys);
    var closed := CloseTracks(s, c);
    ClosedOwnsAll(s, closed);
    d := StopsClose(s.calls, closed, keys);
    FollowAppends(Some(c), CloseEvents(s), StopEvents(s.calls, keys));
    forall b | b in closed.open
      ensures b !in d.open
    {
      assert OwnedByCall(s, b);
      var k :| k in s.calls && s.calls[k].block == b;
      assert k in keys;
    }
    assert d.open.Keys == {};
  }

  lemma Wrap(body: seq<Event>, stopReason: string, c: Brackets)
    requires FollowAll(Some(Brackets(0, map[])), body) == Some(c) && c.open == map[]
    ensures WellBracketed([MessageStart] + body + [MessageDelta(stopReason), MessageStop])
  {
    hide FollowAll;
    var events := [MessageStart] + body + [MessageDelta(stopReason), MessageStop];
    assert events[1..|events| - 2] == body;
  }

  function Body(chunks: seq<Chunk>): seq<Event> {
    var s := Steps(INITIAL, Atoms(chunks));
    AscendingMembers(s.calls.Keys);
    Events(INITIAL, Atoms(chunks)) + (CloseEvents(s) + StopEvents(s.calls, Ascending(s.calls.Keys)))
  }

  lemma OutputIs(chunks: seq<Chunk>)
    requires chunks != []
    ensures Output(chunks)
            == [MessageStart] + Body(chunks) + [MessageDelta(Steps(INITIAL, Atoms(chunks)).stopReason), MessageStop]
  {
    StreamedIs(chunks);
    var s := Steps(INITIAL, Atoms(chunks));
    AscendingMembers(s.calls.Keys);
    var events, close := Events(INITIAL, Atoms(chunks)), CloseEvents(s);
    var stops := StopEvents(s.calls, Ascending(s.calls.Keys));
    var end := [MessageDelta(s.stopReason), MessageStop];
    assert Output(chunks) == ([MessageStart] + events) + (close + stops + end);
    assert Body(chunks) == events + (close + stops);
    hide *;
    Associates([MessageStart] + events, close + stops, end);
    Associates([MessageStart], events, close + stops);
  }

  /** For any nonempty stream of chunks and one final call, the message is well bracketed:
    * started first and stopped last, its blocks numbered 0, 1, 2, ... in starting order, each
    * receiving only deltas of its kind while open and stopped exactly once. */
  lemma OutputIsWellBracketed(chunks: seq<Chunk>)
    requires chunks != []
    ensures WellBracketed(Output(chunks))
  {
    hide Output, WellBracketed, Steps, Events, FollowAll, Ascending, StopEvents, Tracks, Atoms;
    var s := Steps(INITIAL, Atoms(chunks));
    OutputIs(chunks);
    var c := StepsTrack(Atoms(chunks));
    var d := FinishCloses(s, c);
    FollowAppends(Some(Brackets(0, map[])), Events(INITIAL, Atoms(chunks)),
                  CloseEvents(s) + StopEvents(s.calls, Ascending(s.calls.Keys)));
    Wrap(Body(chunks), s.stopReason, d);
  }

  // ---------------------------------------------------------------- round trip

  /** The same message up to the numbering of its calls: the second numbers them 0, 1, 2, ... */
  ghost predicate SameMessage(m: Message, n: Message) {
    && m.text == n.text && m.finish == n.finish && SameCalls(m.calls, n.calls)
  }

  ghost predicate SameCalls(a: seq<AssembledCall>, b: seq<AssembledCall>) {
    && |a| == |b|
    && forall i :: 0 <= i < |a| ==> b[i].key == i && b[i].id == a[i].id && b[i].name == a[i].name
                                    && b[i].arguments == a[i].arguments
  }

  predicate DistinctKeys(calls: seq<AssembledCall>) {
    forall i, j :: 0 <= i < j < |calls| ==> calls[i].key != calls[j].key
  }

  ghost predicate BlocksKnown(states: map<nat, CallState>, calls: seq<AssembledCall>, blocks: map<nat, BlockKind>) {
    forall i :: 0 <= i < |calls| ==> calls[i].key in states && states[calls[i].key].block in blocks
                                     && blocks[states[calls[i].key].block] == ToolKind(i)
  }

  ghost predicate CallsKnown(s: State, calls: seq<AssembledCall>) {
    forall k :: k in s.calls ==> s.calls[k].block < s.blockIndex && IndexOf(calls, k).Some?
  }

  /** How the translator, the message of its input, the back translator and the message of
    * its output belong together after some atoms. */
  ghost predicate Linked(s: State, m: Message, b: BackState, n: Message) {
    && m.text == n.text && SameCalls(m.calls, n.calls) && DistinctKeys(m.calls)
    && n.finish == "stop" && FinishFor(s.stopReason) == m.finish
    && b.nextCallIndex == |m.calls|
    && BlocksKnown(s.calls, m.calls, b.blocks) && CallsKnown(s, m.calls)
    && (s.textOpen ==> s.blockIndex in b.blocks && b.blocks[s.blockIndex] == TextKind)
  }

  lemma {:induction false} BacksAppend(b: BackState, x: seq<Event>, y: seq<Event>)
    ensures Backs(b, x + y) == Backs(Backs(b, x), y)
    ensures ChatChunks(b, x + y) == ChatChunks(b, x) + ChatChunks(Backs(b, x), y)
  {
    hide Back, BackChunks;
    if y == [] {
      assert x + y == x;
    } else {
      BacksAppend(b, x, y[..|y| - 1]);
      assert (x + y)[..|x + y| - 1] == x + y[..|y| - 1];
    }
  }

  lemma BacksOne(b: BackState, e: Event)
    ensures Backs(b, []) == b && ChatChunks(b, []) == []
    ensures Backs(b, [e]) == Back(b, e) && ChatChunks(b, [e]) == BackChunks(b, e)
  {
    hide Back, BackChunks;
    assert [e][..0] == [];
  }

  function AbsorbAll(m: Message, atoms: seq<Atom>): Message {
    if atoms == [] then m else Absorb(AbsorbAll(m, atoms[..|atoms| - 1]), atoms[|atoms| - 1])
  }

  /** What the chunks of some events add to a message. */
  function Added(n: Message, b: BackState, events: seq<Event>): Message {
    AbsorbAll(n, Atoms(ChatChunks(b, events)))
  }

  lemma {:induction false} AbsorbAllAppends(m: Message, a: seq<Atom>, b: seq<Atom>)
    ensures AbsorbAll(m, a + b) == AbsorbAll(AbsorbAll(m, a), b)
  {
    hide Absorb;
    if b == [] {
      assert a + b == a;
    } else {
      AbsorbAllAppends(m, a, b[..|b| - 1]);
      assert (a + b)[..|a + b| - 1] == a + b[..|b| - 1];
    }
  }

  lemma AddedAppends(n: Message, b: BackState, x: seq<Event>, y: seq<Event>)
    ensures Added(n, b, x + y) == Added(Added(n, b, x), Backs(b, x), y)
  {
    hide Backs, ChatChunks, Atoms, AbsorbAll;
    BacksAppend(b, x, y);
    AtomsAppend(ChatChunks(b, x), ChatChunks(Backs(b, x), y));
    AbsorbAllAppends(n, Atoms(ChatChunks(b, x)), Atoms(ChatChunks(Backs(b, x), y)));
  }

  lemma AtomsOfOne(c: Choice)
    ensures Atoms([Chunk([c])]) == ChoiceAtoms(c) && Atoms([]) == []
  {
    hide ChoiceAtoms;
    assert [Chunk([c])][..0] == [] && [c][..0] == [];
    assert ChoicesAtoms([c]) == ChoicesAtoms([]) + ChoiceAtoms(c) == ChoiceAtoms(c);
    assert Atoms([Chunk([c])]) == Atoms([]) + ChoicesAtoms([c]) == ChoicesAtoms([c]);
  }

  lemma AbsorbFew(m: Message, a: Atom)
    ensures AbsorbAll(m, []) == m && AbsorbAll(m, [a]) == Absorb(m, a)
    ensures AbsorbAll(m, [CallsBegin, a]) == Absorb(m, a)
  {
    hide Absorb;
    assert [a][..0] == [] && [CallsBegin, a][..1] == [CallsBegin] && [CallsBegin][..0] == [];
    CallsBeginAddsNothing(m);
  }

  lemma CallsBeginAddsNothing(m: Message)
    ensures Absorb(m, CallsBegin) == m
  {
  }

  /** The effect of each event that carries content on the assembled message. */
  lemma AddsText(n: Message, b: BackState, index: nat, text: string)
    requires index in b.blocks && b.blocks[index] == TextKind && text != ""
    ensures Added(n, b, [BlockDelta(index, TextDelta(text))]) == n.(text := n.text + text)
    ensures Backs(b, [BlockDelta(index, TextDelta(text))]) == b
  {
    var e := BlockDelta(index, TextDelta(text));
    var choice := Choice(None, Some(text), None, None);
    BacksOne(b, e);
    assert BackChunks(b, e) == [Chunk([choice])];
    AtomsOfOne(choice);
    assert ChoiceAtoms(choice) == [Text(text)];
    AbsorbFew(n, Text(text));
  }

  lemma AddsNothing(n: Message, b: BackState, e: Event)
    requires BackChunks(b, e) == []
    ensures Added(n, b, [e]) == n && Added(n, b, []) == n
  {
    BacksOne(b, e);
    AtomsOfOne(Choice(None, None, None, None));
    AbsorbFew(n, CallsBegin);
  }

  lemma AddsCall(n: Message, b: BackState, e: Event, d: CallDelta)
    requires BackChunks(b, e) == [CallChunk(d)]
    ensures Added(n, b, [e]) == n.(calls := WithCall(n.calls, d))
  {
    var choice := Choice(None, None, Some([d]), None);
    hide Back, BackChunks, WithCall;
    BacksOne(b, e);
    AtomsOfOne(choice);
    assert CallAtoms([d]) == [Call(d)];
    assert ChoiceAtoms(choice) == [CallsBegin, Call(d)];
    AbsorbFew(n, Call(d));
  }

  // ---------------------------------------------------------------- round trip, atom by atom

  lemma TextLinks(s: State, m: Message, b: BackState, n: Message, text: string)
    requires Linked(s, m, b, n) && text != ""
    ensures var events := StepEvents(s, Text(text));
            Linked(Step(s, Text(text)), Absorb(m, Text(text)), Backs(b, events), Added(n, b, events))
  {
    var delta := BlockDelta(s.blockIndex, TextDelta(text));
    hide Backs, Added;
    if s.textOpen {
      assert StepEvents(s, Text(text)) == [delta];
      AddsText(n, b, s.blockIndex, text);
    } else {
      var start := BlockStart(s.blockIndex, TextBlock);
      assert StepEvents(s, Text(text)) == [start] + [delta];
      BacksOne(b, start);
      AddsNothing(n, b, start);
      AddsText(n, Back(b, start), s.blockIndex, text);
      BacksAppend(b, [start], [delta]);
      AddedAppends(n, b, [start], [delta]);
    }
  }

  lemma CloseLinks(s: State, m: Message, b: BackState, n: Message)
    requires Linked(s, m, b, n)
    ensures Backs(b, CloseEvents(s)) == b && Added(n, b, CloseEvents(s)) == n
    ensures Linked(Closed(s), m, b, n)
  {
    hide Backs, Added;
    BacksOne(b, BlockStop(s.blockIndex));
    AddsNothing(n, b, BlockStop(s.blockIndex));
  }

  function WithNewCall(m: Message, d: CallDelta): Message {
    m.(calls := m.calls + [AssembledCall(d.index, d.id.GetOr(""), d.name.GetOr(""), "")])
  }

  lemma WithCallInTwo(calls: seq<AssembledCall>, d: CallDelta)
    requires IndexOf(calls, d.index).None?
    ensures WithCall(calls, d) == WithCall(calls + [AssembledCall(d.index, d.id.GetOr(""), d.name.GetOr(""), "")], d)
  {
    var more := calls + [AssembledCall(d.index, d.id.GetOr(""), d.name.GetOr(""), "")];
    assert more[..|more| - 1] == calls;
    assert "" + d.arguments.GetOr("") == d.arguments.GetOr("");
  }

  lemma NewCallIsUnseen(s: State, m: Message, b: BackState, n: Message, d: CallDelta)
    requires Linked(s, m, b, n) && d.index !in s.calls
    ensures IndexOf(m.calls, d.index).None?
  {
  }

  lemma OpenLinks(s: State, m: Message, b: BackState, n: Message, d: CallDelta)
    requires Linked(s, m, b, n) && !s.textOpen && d.index !in s.calls
    ensures Linked(Opened(s, d), WithNewCall(m, d), Backs(b, OpenEvents(s, d)), Added(n, b, OpenEvents(s, d)))
  {
    var start := BlockStart(s.blockIndex, ToolBlock(d.id.GetOr(""), d.name.GetOr("")));
    var delta := CallDelta(b.nextCallIndex, d.id, d.name, Some(""));
    NewCallIsUnseen(s, m, b, n, d);
    BacksOne(b, start);
    AddsCall(n, b, start, CallDelta(b.nextCallIndex, Some(d.id.GetOr("")), Some(d.name.GetOr("")), Some("")));
    hide Backs, Added;
    var call := AssembledCall(|n.calls|, d.id.GetOr(""), d.name.GetOr(""), "");
    assert Added(n, b, OpenEvents(s, d)) == n.(calls := n.calls + [call]);
    NewCallLinks(s, m, b, n, d);
  }

  lemma CallsGrow(a: seq<AssembledCall>, b: seq<AssembledCall>, x: AssembledCall, y: AssembledCall)
    requires SameCalls(a, b) && y == x.(key := |b|)
    ensures SameCalls(a + [x], b + [y])
  {
  }

  lemma KeysGrow(calls: seq<AssembledCall>, x: AssembledCall)
    requires DistinctKeys(calls) && IndexOf(calls, x.key).None?
    ensures DistinctKeys(calls + [x])
  {
    hide IndexOf;
  }

  lemma NewCallLinks(s: State, m: Message, b: BackState, n: Message, d: CallDelta)
    requires Linked(s, m, b, n) && !s.textOpen && d.index !in s.calls && IndexOf(m.calls, d.index).None?
    ensures Linked(Opened(s, d), WithNewCall(m, d),
                   BackState(b.blocks[s.blockIndex := ToolKind(b.nextCallIndex)], b.nextCallIndex + 1),
                   n.(calls := n.calls + [AssembledCall(|n.calls|, d.id.GetOr(""), d.name.GetOr(""), "")]))
  {
    var x := AssembledCall(d.index, d.id.GetOr(""), d.name.GetOr(""), "");
    NewCallIsKnown(s, m.calls, d);
    NewBlockIsKnown(s, m.calls, b.blocks, d);
    CallsGrow(m.calls, n.calls, x, x.(key := |n.calls|));
    KeysGrow(m.calls, x);
    hide IndexOf, BlocksKnown, CallsKnown, SameCalls, DistinctKeys;
  }

  lemma NewCallIsKnown(s: State, calls: seq<AssembledCall>, d: CallDelta)
    requires CallsKnown(s, calls) && d.index !in s.calls
    ensures CallsKnown(Opened(s, d), calls + [AssembledCall(d.index, d.id.GetOr(""), d.name.GetOr(""), "")])
  {
    hide IndexOf;
    var more := calls + [AssembledCall(d.index, d.id.GetOr(""), d.name.GetOr(""), "")];
    forall k | k in Opened(s, d).calls
      ensures IndexOf(more, k).Some?
    {
      if k != d.index {
        var i := IndexOf(calls, k).value;
        assert more[i].key == k;
      } else {
        assert more[|calls|].key == k;
      }
    }
  }

  lemma NewBlockIsKnown(s: State, calls: seq<AssembledCall>, blocks: map<nat, BlockKind>, d: CallDelta)
    requires CallsKnown(s, calls) && BlocksKnown(s.calls, calls, blocks) && d.index !in s.calls
    ensures BlocksKnown(Opened(s, d).calls, calls + [AssembledCall(d.index, d.id.GetOr(""), d.name.GetOr(""), "")],
                        blocks[s.blockIndex := ToolKind(|calls|)])
  {
    hide IndexOf;
  }

  function Lengthened(calls: seq<AssembledCall>, i: nat, more: string): seq<AssembledCall>
    requires i < |calls|
  {
    calls[i := calls[i].(arguments := calls[i].arguments + more)]
  }

  lemma LengthenedLinks(s: State, m: Message, b: BackState, n: Message, d: CallDelta, i: nat)
    requires Linked(s, m, b, n) && d.index in s.calls && i < |m.calls| && m.calls[i].key == d.index
    ensures var more := d.arguments.GetOr("");
            Linked(Extended(s, d), m.(calls := Lengthened(m.calls, i, more)), b,
                   n.(calls := Lengthened(n.calls, i, more)))
  {
    LengthenedIsKnown(s, m.calls, d, i);
    LengthenedBlocks(s, m.calls, b.blocks, d, i);
    hide IndexOf, BlocksKnown, CallsKnown;
  }

  lemma LengthenedIsKnown(s: State, calls: seq<AssembledCall>, d: CallDelta, i: nat)
    requires CallsKnown(s, calls) && d.index in s.calls && i < |calls| && calls[i].key == d.index
    ensures CallsKnown(Extended(s, d), Lengthened(calls, i, d.arguments.GetOr("")))
  {
    hide IndexOf;
    var longer := Lengthened(calls, i, d.arguments.GetOr(""));
    forall k | k in s.calls
      ensures IndexOf(longer, k).Some?
    {
      var j := IndexOf(calls, k).value;
      assert longer[j].key == k;
    }
  }

  lemma LengthenedBlocks(s: State, calls: seq<AssembledCall>, blocks: map<nat, BlockKind>, d: CallDelta, i: nat)
    requires BlocksKnown(s.calls, calls, blocks) && d.index in s.calls && i < |calls| && calls[i].key == d.index
    ensures BlocksKnown(Extended(s, d).calls, Lengthened(calls, i, d.arguments.GetOr("")), blocks)
  {
  }

  lemma NothingLengthens(calls: seq<AssembledCall>, i: nat)
    requires i < |calls|
    ensures Lengthened(calls, i, "") == calls
  {
    assert calls[i].arguments + "" == calls[i].arguments;
  }

  lemma ExtensionAdds(s: State, m: Message, b: BackState, n: Message, d: CallDelta, i: nat)
    requires d.index in s.calls && i < |n.calls| && IndexOf(n.calls, i) == Some(i)
    requires s.calls[d.index].block in b.blocks && b.blocks[s.calls[d.index].block] == ToolKind(i)
    ensures Backs(b, ExtendEvents(s, d)) == b
    ensures Added(n, b, ExtendEvents(s, d)) == n.(calls := Lengthened(n.calls, i, d.arguments.GetOr("")))
  {
    if d.arguments.GetOr("") == "" {
      NothingLengthens(n.calls, i);
      BacksOne(b, MessageStop);
      AddsNothing(n, b, MessageStop);
    } else {
      hide Backs, Added, Lengthened, IndexOf;
      var e := BlockDelta(s.calls[d.index].block, JsonDelta(d.arguments.value));
      var back := CallDelta(i, None, None, Some(d.arguments.value));
      BacksOne(b, e);
      AddsCall(n, b, e, back);
      WithCallLengthens(n.calls, back, i);
    }
  }

  lemma LinkedCall(s: State, m: Message, b: BackState, n: Message, key: nat) returns (i: nat)
    requires Linked(s, m, b, n) && key in s.calls
    ensures IndexOf(m.calls, key) == Some(i) && i < |m.calls| && m.calls[i].key == key
    ensures i < |n.calls| && IndexOf(n.calls, i) == Some(i)
    ensures s.calls[key].block in b.blocks && b.blocks[s.calls[key].block] == ToolKind(i)
  {
    hide IndexOf;
    i := IndexOf(m.calls, key).value;
    assert n.calls[i].key == i;
  }

  lemma ExtendLinks(s: State, m: Message, b: BackState, n: Message, d: CallDelta)
    requires Linked(s, m, b, n) && d.index in s.calls
    ensures Linked(Extended(s, d), Absorb(m, Call(d)), Backs(b, ExtendEvents(s, d)), Added(n, b, ExtendEvents(s, d)))
  {
    hide Linked, Backs, Added, Extended, Lengthened, IndexOf, ExtendEvents, WithCall;
    var i := LinkedCall(s, m, b, n, d.index);
    ExtensionAdds(s, m, b, n, d, i);
    LengthenedLinks(s, m, b, n, d, i);
    WithCallLengthens(m.calls, d, i);
  }

  lemma WithCallLengthens(calls: seq<AssembledCall>, d: CallDelta, i: nat)
    requires IndexOf(calls, d.index) == Some(i)
    ensures WithCall(calls, d) == Lengthened(calls, i, d.arguments.GetOr(""))
  {
  }

  lemma CallLinks(s: State, m: Message, b: BackState, n: Message, d: CallDelta)
    requires Linked(s, m, b, n) && !s.textOpen
    ensures d.index in Opened(s, d).calls
    ensures var events := OpenEvents(s, d) + ExtendEvents(Opened(s, d), d);
            Linked(Extended(Opened(s, d), d), Absorb(m, Call(d)), Backs(b, events), Added(n, b, events))
  {
    if d.index in s.calls {
      hide Backs, Added, Linked, Extended, ExtendEvents, WithCall;
      ExtendLinks(s, m, b, n, d);
      assert OpenEvents(s, d) + ExtendEvents(s, d) == ExtendEvents(s, d);
    } else {
      NewCallIsUnseen(s, m, b, n, d);
      hide *;
      FirstFragmentLinks(s, m, b, n, d);
    }
  }

  lemma AddedInTwo(n: Message, b: BackState, x: seq<Event>, y: seq<Event>, s: State, m: Message)
    requires Linked(s, m, Backs(Backs(b, x), y), Added(Added(n, b, x), Backs(b, x), y))
    ensures Linked(s, m, Backs(b, x + y), Added(n, b, x + y))
  {
    hide Backs, Added, Linked;
    BacksAppend(b, x, y);
    AddedAppends(n, b, x, y);
  }

  lemma OpenedHasIt(s: State, d: CallDelta)
    ensures d.index in Opened(s, d).calls
  {
  }

  lemma AbsorbInTwo(m: Message, d: CallDelta)
    requires IndexOf(m.calls, d.index).None?
    ensures Absorb(WithNewCall(m, d), Call(d)) == Absorb(m, Call(d))
  {
    hide WithCall, IndexOf;
    WithCallInTwo(m.calls, d);
  }

  lemma FirstFragmentLinks(s: State, m: Message, b: BackState, n: Message, d: CallDelta)
    requires Linked(s, m, b, n) && !s.textOpen && d.index !in s.calls && IndexOf(m.calls, d.index).None?
    ensures d.index in Opened(s, d).calls
    ensures var events := OpenEvents(s, d) + ExtendEvents(Opened(s, d), d);
            Linked(Extended(Opened(s, d), d), Absorb(m, Call(d)), Backs(b, events), Added(n, b, events))
  {
    hide *;
    var o := Opened(s, d);
    OpenedHasIt(s, d);
    var first, second := OpenEvents(s, d), ExtendEvents(o, d);
    OpenLinks(s, m, b, n, d);
    ExtendLinks(o, WithNewCall(m, d), Backs(b, first), Added(n, b, first), d);
    AbsorbInTwo(m, d);
    AddedInTwo(n, b, first, second, Extended(o, d), Absorb(m, Call(d)));
  }

  lemma CallStepLinks(s: State, m: Message, b: BackState, n: Message, d: CallDelta)
    requires Linked(s, m, b, n)
    ensures var events := StepEvents(s, Call(d));
            Linked(Step(s, Call(d)), Absorb(m, Call(d)), Backs(b, events), Added(n, b, events))
  {
    hide Backs, Added, Linked, Extended, ExtendEvents, OpenEvents, Absorb, CloseEvents, Closed, Opened;
    CloseLinks(s, m, b, n);
    NotOpen(s, d);
    CallLinks(Closed(s), m, b, n, d);
    var rest := OpenEvents(Closed(s), d) + ExtendEvents(Opened(Closed(s), d), d);
    AddedInTwo(n, b, CloseEvents(s), rest, Step(s, Call(d)), Absorb(m, Call(d)));
    assert StepEvents(s, Call(d)) == CloseEvents(s) + rest;
  }

  lemma StepLinks(s: State, m: Message, b: BackState, n: Message, a: Atom)
    requires Linked(s, m, b, n) && (a.Text? ==> a.text != "")
    ensures Linked(Step(s, a), Absorb(m, a), Backs(b, StepEvents(s, a)), Added(n, b, StepEvents(s, a)))
  {
    hide Backs, Added, CallsKnown, BlocksKnown;
    match a
    case Finish(reason) => FinishLinks(s, m, b, n, reason);
    case Text(text) => TextLinks(s, m, b, n, text);
    case CallsBegin => CloseLinks(s, m, b, n);
    case Call(d) => CallStepLinks(s, m, b, n, d);
  }

  lemma FinishLinks(s: State, m: Message, b: BackState, n: Message, reason: string)
    requires Linked(s, m, b, n)
    ensures Linked(s.(stopReason := StopReason(reason)), m.(finish := Normalized(reason)), Backs(b, []),
                   Added(n, b, []))
  {
    hide Backs, Added, BlocksKnown, IndexOf;
    BacksOne(b, MessageStop);
    AddsNothing(n, b, MessageStop);
  }

  predicate TextsAreNonempty(atoms: seq<Atom>) {
    forall i :: 0 <= i < |atoms| && atoms[i].Text? ==> atoms[i].text != ""
  }

  lemma {:induction false} ChoicesTextsAreNonempty(choices: seq<Choice>)
    ensures TextsAreNonempty(ChoicesAtoms(choices))
  {
    if choices != [] {
      ChoicesTextsAreNonempty(choices[..|choices| - 1]);
    }
  }

  lemma {:induction false} ChunkTextsAreNonempty(chunks: seq<Chunk>)
    ensures TextsAreNonempty(Atoms(chunks))
  {
    if chunks != [] {
      ChunkTextsAreNonempty(chunks[..|chunks| - 1]);
      ChoicesTextsAreNonempty(chunks[|chunks| - 1].choices);
    }
  }

  const BACK_INITIAL := BackState(map[], 0)

  lemma {:induction false} StepsLink(atoms: seq<Atom>)
    requires TextsAreNonempty(atoms)
    ensures var events := Events(INITIAL, atoms);
            Linked(Steps(INITIAL, atoms), Assemble(atoms), Backs(BACK_INITIAL, events),
                   Added(EMPTY_MESSAGE, BACK_INITIAL, events))
  {
    if atoms == [] {
      BacksOne(BACK_INITIAL, MessageStop);
      AddsNothing(EMPTY_MESSAGE, BACK_INITIAL, MessageStop);
      assert Events(INITIAL, atoms) == [];
    } else {
      hide Step, StepEvents, Absorb, Linked, Backs, Added;
      var front, a := atoms[..|atoms| - 1], atoms[|atoms| - 1];
      var events := Events(INITIAL, front);
      var s, b := Steps(INITIAL, front), Backs(BACK_INITIAL, events);
      StepsLink(front);
      StepLinks(s, Assemble(front), b, Added(EMPTY_MESSAGE, BACK_INITIAL, events), a);
      BacksAppend(BACK_INITIAL, events, StepEvents(s, a));
      AddedAppends(EMPTY_MESSAGE, BACK_INITIAL, events, StepEvents(s, a));
    }
  }

  /** Opening the message and stopping blocks add nothing; the last event but one sets the reason. */
  lemma StartAdds(n: Message, b: BackState)
    ensures Backs(b, [MessageStart]) == b && Added(n, b, [MessageStart]) == n
  {
    var choice := Choice(None, None, None, None);
    BacksOne(b, MessageStart);
    assert ChatChunks(b, [MessageStart]) == [Chunk([choice])];
    AtomsOfOne(choice);
    assert ChoiceAtoms(choice) == [];
    AbsorbFew(n, CallsBegin);
  }

  lemma {:induction false} StopsAdd(n: Message, b: BackState, events: seq<Event>)
    requires forall i :: 0 <= i < |events| ==> events[i].BlockStop?
    ensures Backs(b, events) == b && Added(n, b, events) == n
  {
    if events == [] {
      BacksOne(b, MessageStop);
      AddsNothing(n, b, MessageStop);
    } else {
      var front, last := events[..|events| - 1], events[|events| - 1];
      FrontAndLast(events);
      StopsAdd(n, b, front);
      BacksOne(b, last);
      AddsNothing(n, b, last);
      AddedAppends(n, b, front, [last]);
      BacksAppend(b, front, [last]);
    }
  }

  lemma ReasonAdds(n: Message, b: BackState, stopReason: string)
    ensures Added(n, b, [MessageDelta(stopReason)]) == n.(finish := FinishFor(stopReason))
  {
    var e, choice := MessageDelta(stopReason), Choice(Some(FinishFor(stopReason)), None, None, None);
    BacksOne(b, e);
    AtomsOfOne(choice);
    ReasonAtoms(stopReason);
    AbsorbFew(n, Finish(FinishFor(stopReason)));
    FinishIsNormal(stopReason);
    hide Backs, Atoms, AbsorbAll, ChoiceAtoms, FinishFor, Normalized;
  }

  lemma ReasonAtoms(stopReason: string)
    ensures ChoiceAtoms(Choice(Some(FinishFor(stopReason)), None, None, None)) == [Finish(FinishFor(stopReason))]
  {
    hide FinishFor;
  }

  lemma FinishIsNormal(stopReason: string)
    ensures Normalized(FinishFor(stopReason)) == FinishFor(stopReason)
  {
  }

  lemma EndAdds(n: Message, b: BackState, stopReason: string)
    ensures Added(n, b, [MessageDelta(stopReason), MessageStop]) == n.(finish := FinishFor(stopReason))
  {
    hide Added, Backs, FinishFor;
    var e := MessageDelta(stopReason);
    ReasonAdds(n, b, stopReason);
    AddsNothing(Added(n, b, [e]), Backs(b, [e]), MessageStop);
    AddedAppends(n, b, [e], [MessageStop]);
    assert [e, MessageStop] == [e] + [MessageStop];
  }

  lemma AssembledChunks(chunks: seq<Chunk>, b: BackState, events: seq<Event>)
    requires chunks == ChatChunks(b, events)
    ensures Assemble(Atoms(chunks)) == Added(EMPTY_MESSAGE, b, events)
  {
    AssembleIs(Atoms(chunks));
  }

  lemma {:induction false} AssembleIs(atoms: seq<Atom>)
    ensures Assemble(atoms) == AbsorbAll(EMPTY_MESSAGE, atoms)
  {
    hide Absorb;
    if atoms != [] {
      AssembleIs(atoms[..|atoms| - 1]);
    }
  }

  lemma BodyAdds(chunks: seq<Chunk>) returns (b: BackState, n: Message)
    ensures b == Backs(BACK_INITIAL, Body(chunks)) && n == Added(EMPTY_MESSAGE, BACK_INITIAL, Body(chunks))
    ensures Linked(Steps(INITIAL, Atoms(chunks)), Assemble(Atoms(chunks)), b, n)
  {
    hide Linked, Steps, Assemble, Backs, Added, Atoms, Events, Ascending;
    var atoms := Atoms(chunks);
    var s, events := Steps(INITIAL, atoms), Events(INITIAL, atoms);
    ChunkTextsAreNonempty(chunks);
    StepsLink(atoms);
    b, n := Backs(BACK_INITIAL, events), Added(EMPTY_MESSAGE, BACK_INITIAL, events);
    AscendingMembers(s.calls.Keys);
    var stops := CloseEvents(s) + StopEvents(s.calls, Ascending(s.calls.Keys));
    StopsAdd(n, b, stops);
    BacksAppend(BACK_INITIAL, events, stops);
    AddedAppends(EMPTY_MESSAGE, BACK_INITIAL, events, stops);
  }

  /** Translating any nonempty chat stream to Anthropic events and back gives a stream that
    * assembles to the same message: the same text, the same calls in order of first
    * appearance with the same id, name and arguments, and the same finish reason. */
  lemma RoundTripKeepsTheMessage(chunks: seq<Chunk>)
    requires chunks != []
    ensures SameMessage(Assemble(Atoms(chunks)), Assemble(Atoms(ChatChunks(BACK_INITIAL, Output(chunks)))))
  {
    hide Steps, Assemble, Backs, Added, Atoms, Body, Output, ChatChunks;
    var s := Steps(INITIAL, Atoms(chunks));
    var b, n := BodyAdds(chunks);
    OutputIs(chunks);
    var end := [MessageDelta(s.stopReason), MessageStop];
    StartAdds(EMPTY_MESSAGE, BACK_INITIAL);
    AddedAppends(EMPTY_MESSAGE, BACK_INITIAL, [MessageStart], Body(chunks));
    BacksAppend(BACK_INITIAL, [MessageStart], Body(chunks));
    AddedAppends(EMPTY_MESSAGE, BACK_INITIAL, [MessageStart] + Body(chunks), end);
    EndAdds(n, b, s.stopReason);
    AssembledChunks(ChatChunks(BACK_INITIAL, Output(chunks)), BACK_INITIAL, Output(chunks));
  }
}
