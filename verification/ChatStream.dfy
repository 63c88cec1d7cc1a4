/** Streamed chat completions, reduced to what the translators read of a chunk, and the
  * message a client assembles from them. */
module ChatStream {
  import opened Prelude

  /** A fragment of one tool call; identity and name are read from its first fragment only. */
  datatype CallDelta = CallDelta(index: nat, id: Option<string>, name: Option<string>, arguments: Option<string>)

  datatype Choice = Choice(finish: Option<string>, content: Option<string>, calls: Option<seq<CallDelta>>,
                           reasoning: Option<string>)

  datatype Chunk = Chunk(choices: seq<Choice>)

  /** The smallest effects of a chunk, in the order in which they are read. */
  datatype Atom =
    | Finish(reason: string)
    | Text(text: string)
    | CallsBegin
    | Call(delta: CallDelta)

  function CallAtoms(calls: seq<CallDelta>): (atoms: seq<Atom>)
    ensures |atoms| == |calls|
  {
    seq(|calls|, i requires 0 <= i < |calls| => Call(calls[i]))
  }

  function ChoiceAtoms(c: Choice): seq<Atom> {
    (if c.finish.Some? then [Finish(c.finish.value)] else [])
    + (if c.content.Some? && c.content.value != "" then [Text(c.content.value)] else [])
    + (if c.calls.Some? then [CallsBegin] + CallAtoms(c.calls.value) else [])
  }

  function ChoicesAtoms(choices: seq<Choice>): seq<Atom> {
    if choices == [] then []
    else ChoicesAtoms(choices[..|choices| - 1]) + ChoiceAtoms(choices[|choices| - 1])
  }

  function Atoms(chunks: seq<Chunk>): seq<Atom> {
    if chunks == [] then []
    else Atoms(chunks[..|chunks| - 1]) + ChoicesAtoms(chunks[|chunks| - 1].choices)
  }

  lemma {:induction false} AtomsAppend(a: seq<Chunk>, b: seq<Chunk>)
    ensures Atoms(a + b) == Atoms(a) + Atoms(b)
  {
    hide ChoicesAtoms;
    if b == [] {
      assert a + b == a;
    } else {
      var front, last := b[..|b| - 1], b[|b| - 1];
      AtomsAppend(a, front);
      OneMoreChunk(a + front, last);
      OneMoreChunk(front, last);
      hide Atoms;
      Associates(Atoms(a), Atoms(front), ChoicesAtoms(last.choices));
      Associates(a, front, [last]);
      FrontAndLast(b);
    }
  }

  lemma OneMoreChunk(chunks: seq<Chunk>, last: Chunk)
    ensures Atoms(chunks + [last]) == Atoms(chunks) + ChoicesAtoms(last.choices)
  {
    hide ChoicesAtoms;
    assert (chunks + [last])[..|chunks|] == chunks;
  }

  // ---------------------------------------------------------------- assembled messages

  datatype AssembledCall = AssembledCall(key: nat, id: string, name: string, arguments: string)

  /** Text in order, calls in order of first appearance, and the last finish reason. */
  datatype Message = Message(text: string, calls: seq<AssembledCall>, finish: string)

  const EMPTY_MESSAGE := Message("", [], "stop")

  function Normalized(reason: string): string {
    if reason == "tool_calls" || reason == "length" then reason else "stop"
  }

  function IndexOf(calls: seq<AssembledCall>, key: nat): (i: Option<nat>)
    ensures i.Some? ==> i.value < |calls| && calls[i.value].key == key
    ensures i.None? ==> forall j :: 0 <= j < |calls| ==> calls[j].key != key
  {
    if calls == [] then None
    else if calls[|calls| - 1].key == key then Some(|calls| - 1)
    else IndexOf(calls[..|calls| - 1], key)
  }

  function WithCall(calls: seq<AssembledCall>, d: CallDelta): seq<AssembledCall> {
    var i := IndexOf(calls, d.index);
    if i.Some? then calls[i.value := calls[i.value].(arguments := calls[i.value].arguments + d.arguments.GetOr(""))]
    else calls + [AssembledCall(d.index, d.id.GetOr(""), d.name.GetOr(""), d.arguments.GetOr(""))]
  }

  function Absorb(m: Message, a: Atom): Message {
    match a
    case Finish(reason) => m.(finish := Normalized(reason))
    case Text(text) => m.(text := m.text + text)
    case CallsBegin => m
    case Call(d) => m.(calls := WithCall(m.calls, d))
  }

  function Assemble(atoms: seq<Atom>): Message {
    if atoms == [] then EMPTY_MESSAGE
    else Absorb(Assemble(atoms[..|atoms| - 1]), atoms[|atoms| - 1])
  }
}
