/** The command-line backend: lines with cumulative text are turned into deltas, and the drain
    accumulates and forwards them. */
module CliStream {
  import opened Seqs

  datatype Block = TextBlock(text: string) | ToolUseBlock(name: string) | ToolResultBlock | OtherBlock

  /** One parsed line. `Ignored` is any other line, one that does not parse or lacks its message. */
  datatype Line =
    | Assistant(id: string, blocks: seq<Block>)
    | Tool(blocks: seq<Block>)
    | Result(subtype: string)
    | Ignored

  datatype Event = Text(content: string) | ToolUse(name: string) | ToolResult | Done | Error(message: string)

  // ----- parsing one line -----

  function TextOf(blocks: seq<Block>): string {
    if blocks == [] then ""
    else
      var last := blocks[|blocks| - 1];
      TextOf(blocks[..|blocks| - 1]) + (if last.TextBlock? then last.text else "")
  }

  function ToolUses(blocks: seq<Block>): seq<Event> {
    if blocks == [] then []
    else
      var last := blocks[|blocks| - 1];
      ToolUses(blocks[..|blocks| - 1]) + (if last.ToolUseBlock? then [ToolUse(last.name)] else [])
  }

  function ToolResults(blocks: seq<Block>): seq<Event> {
    if blocks == [] then []
    else ToolResults(blocks[..|blocks| - 1]) + (if blocks[|blocks| - 1].ToolResultBlock? then [ToolResult] else [])
  }

  /** The two variables carried from line to line. */
  datatype Cursor = Cursor(msgId: string, textLen: nat)

  /** How much of the text of this message has already been emitted. */
  function Seen(c: Cursor, id: string, text: string): (seen: nat)
    ensures seen <= |text|
  {
    if id != c.msgId || c.textLen > |text| then 0 else c.textLen
  }

  function Parse(c: Cursor, line: Line): (Cursor, seq<Event>) {
    match line
    case Assistant(id, blocks) =>
      var text := TextOf(blocks);
      var delta := text[Seen(c, id, text)..];
      (Cursor(id, |text|), (if delta != "" then [Text(delta)] else []) + ToolUses(blocks))
    case Tool(blocks) => (c, ToolResults(blocks))
    case Result(subtype) => (c, [if subtype == "success" then Done else Error("claude result: " + subtype)])
    case Ignored => (c, [])
  }

  class LineParser {
    var lastMsgID: string
    var lastTextLen: nat

    ghost function Abs(): Cursor
      reads this
    {
      Cursor(lastMsgID, lastTextLen)
    }

    constructor ()
      ensures Abs() == START
    {
      lastMsgID, lastTextLen := "", 0;
    }

    method ParseStreamLine(line: Line) returns (events: seq<Event>)
      modifies this
      ensures (Abs(), events) == Parse(old(Abs()), line)
    {
      events := [];
      match line {
        case Assistant(id, blocks) =>
          var fullText, toolEvents := "", [];
          for i := 0 to |blocks|
            invariant lastMsgID == old(lastMsgID) && lastTextLen == old(lastTextLen)
            invariant fullText == TextOf(blocks[..i]) && toolEvents == ToolUses(blocks[..i])
          {
            assert blocks[..i + 1][..i] == blocks[..i];
            match blocks[i] {
              case TextBlock(text) => fullText := fullText + text;
              case ToolUseBlock(name) => toolEvents := toolEvents + [ToolUse(name)];
              case _ =>
            }
          }
          assert blocks[..|blocks|] == blocks;
          if id != lastMsgID {
            lastMsgID := id;
            lastTextLen := 0;
          }
          if lastTextLen > |fullText| {
            lastTextLen := 0;
          }
          var delta := fullText[lastTextLen..];
          lastTextLen := |fullText|;
          if delta != "" {
            events := [Text(delta)];
          }
          events := events + toolEvents;
        case Tool(blocks) =>
          for i := 0 to |blocks|
            invariant lastMsgID == old(lastMsgID) && lastTextLen == old(lastTextLen)
            invariant events == ToolResults(blocks[..i])
          {
            assert blocks[..i + 1][..i] == blocks[..i];
            if blocks[i].ToolResultBlock? {
              events := events + [ToolResult];
            }
          }
          assert blocks[..|blocks|] == blocks;
        case Result(subtype) =>
          if subtype == "success" {
            events := [Done];
          } else {
            events := [Error("claude result: " + subtype)];
          }
        case Ignored =>
      }
    }
  }

  // ----- a whole stream -----

  function Events(c: Cursor, lines: seq<Line>): seq<Event>
    decreases |lines|
  {
    if lines == [] then []
    else Parse(c, lines[0]).1 + Events(Parse(c, lines[0]).0, lines[1..])
  }

  const START := Cursor("", 0)

  /** The stream has said how it went. */
  predicate HasEnd(events: seq<Event>) {
    exists i :: 0 <= i < |events| && (events[i].Done? || events[i].Error?)
  }

  /** All that a process gives the executor to send: a failing process adds an error of its own
      unless the stream has already said done or error. */
  function StreamEvents(lines: seq<Line>, exitError: string): seq<Event> {
    var events := Events(START, lines);
    if exitError != "" && !HasEnd(events) then events + [Error(exitError)] else events
  }

  /** The chunks of text among the events. */
  function Texts(events: seq<Event>): seq<string> {
    if events == [] then []
    else
      var rest, last := Texts(events[..|events| - 1]), events[|events| - 1];
      if last.Text? then rest + [last.content] else rest
  }

  function UseNames(events: seq<Event>): seq<string> {
    if events == [] then []
    else
      var rest, last := UseNames(events[..|events| - 1]), events[|events| - 1];
      if last.ToolUse? then rest + [last.name] else rest
  }

  /** The cumulative texts as the lines give them. */
  datatype Snap = Snap(id: string, text: string)

  function Snaps(lines: seq<Line>): seq<Snap> {
    if lines == [] then []
    else (if lines[0].Assistant? then [Snap(lines[0].id, TextOf(lines[0].blocks))] else []) + Snaps(lines[1..])
  }

  /** A new epoch begins where the id changes or the text shrinks. */
  predicate Boundary(a: Snap, b: Snap) {
    a.id != b.id || |b.text| < |a.text|
  }

  predicate EndsEpoch(s: seq<Snap>) {
    |s| == 1 || (|s| > 1 && Boundary(s[0], s[1]))
  }

  /** The last text of every epoch, joined. */
  function EpochTexts(s: seq<Snap>): string {
    if s == [] then ""
    else (if EndsEpoch(s) then s[0].text else "") + EpochTexts(s[1..])
  }

  /** The last text of the epoch that `s` begins with. */
  function EpochLast(s: seq<Snap>): (text: string)
    requires s != []
    ensures |text| >= |s[0].text|
  {
    if EndsEpoch(s) then s[0].text else EpochLast(s[1..])
  }

  /** Every piece, when it first appeared, was as it is in the last text of its epoch. */
  predicate Kept(s: seq<Snap>, seen: nat) {
    s != [] ==>
      && seen <= |s[0].text|
      && s[0].text[seen..] == EpochLast(s)[seen..|s[0].text|]
      && Kept(s[1..], if EndsEpoch(s) then 0 else |s[0].text|)
  }

  /** Within an epoch the text only grows at its end. */
  predicate OnlyGrows(s: seq<Snap>) {
    forall i :: 0 <= i < |s| - 1 && !Boundary(s[i], s[i + 1]) ==> s[i].text <= s[i + 1].text
  }

  lemma {:induction false} GrowingIsKept(s: seq<Snap>, seen: nat)
    requires OnlyGrows(s) && (s != [] ==> seen <= |s[0].text|)
    ensures Kept(s, seen)
    ensures s != [] ==> s[0].text <= EpochLast(s)
  {
    if s != [] {
      assert forall i :: 0 <= i < |s| - 1 ==> s[1..][i] == s[i + 1];
      GrowingIsKept(s[1..], if EndsEpoch(s) then 0 else |s[0].text|);
    }
  }

  lemma {:induction false} EpochFirst(s: seq<Snap>)
    requires s != []
    ensures EpochLast(s) <= EpochTexts(s)
  {
    if !EndsEpoch(s) {
      EpochFirst(s[1..]);
      assert EpochTexts(s) == EpochTexts(s[1..]);
    }
  }

  lemma TextsAppend(a: seq<Event>, b: seq<Event>)
    ensures Texts(a + b) == Texts(a) + Texts(b)
  {
    if b == [] {
      assert a + b == a;
    } else {
      assert (a + b)[..|a + b| - 1] == a + b[..|b| - 1];
      TextsAppend(a, b[..|b| - 1]);
    }
  }

  lemma NoTexts(blocks: seq<Block>)
    ensures Texts(ToolUses(blocks)) == [] && Texts(ToolResults(blocks)) == []
  {
    if blocks != [] {
      NoTexts(blocks[..|blocks| - 1]);
      TextsAppend(ToolUses(blocks[..|blocks| - 1]), ToolUses(blocks)[|ToolUses(blocks[..|blocks| - 1])|..]);
      TextsAppend(ToolResults(blocks[..|blocks| - 1]), ToolResults(blocks)[|ToolResults(blocks[..|blocks| - 1])|..]);
    }
  }

  /** The text of one line is its delta. */
  lemma LineText(c: Cursor, line: Line)
    ensures Concat(Texts(Parse(c, line).1)) ==
      if line.Assistant? then TextOf(line.blocks)[Seen(c, line.id, TextOf(line.blocks))..] else ""
  {
    match line {
      case Assistant(id, blocks) =>
        var text := TextOf(blocks);
        var delta := text[Seen(c, id, text)..];
        var first := if delta != "" then [Text(delta)] else [];
        TextsAppend(first, ToolUses(blocks));
        NoTexts(blocks);
        assert Texts(first) == if delta != "" then [delta] else [];
        ConcatSnoc([], delta);
      case Tool(blocks) => NoTexts(blocks);
      case _ =>
    }
  }

  lemma {:induction false} DeltasFrom(c: Cursor, lines: seq<Line>)
    ensures var s, out := Snaps(lines), Concat(Texts(Events(c, lines)));
      if s == [] then out == ""
      else
        var seen := Seen(c, s[0].id, s[0].text);
        && |out| == |EpochTexts(s)| - seen
        && (out == EpochTexts(s)[seen..] <==> Kept(s, seen))
    decreases |lines|
  {
    if lines != [] {
      var (c', events) := Parse(c, lines[0]);
      DeltasFrom(c', lines[1..]);
      LineText(c, lines[0]);
      TextsAppend(events, Events(c', lines[1..]));
      ConcatAppend(Texts(events), Texts(Events(c', lines[1..])));
      if lines[0].Assistant? {
        var s := Snaps(lines);
        var seen := Seen(c, s[0].id, s[0].text);
        var tail := Concat(Texts(Events(c', lines[1..])));
        assert s[1..] == Snaps(lines[1..]);
        EpochFirst(s);
        StepDelta(s, seen, tail);
      } else {
        assert Snaps(lines) == Snaps(lines[1..]);
      }
    }
  }

  lemma StepDelta(s: seq<Snap>, seen: nat, tail: string)
    requires s != [] && seen <= |s[0].text|
    requires |s| == 1 ==> tail == ""
    requires |s| > 1 ==>
      var next := if EndsEpoch(s) then 0 else |s[0].text|;
      && |tail| == |EpochTexts(s[1..])| - next
      && (tail == EpochTexts(s[1..])[next..] <==> Kept(s[1..], next))
    ensures EpochLast(s) <= EpochTexts(s)
    ensures |s[0].text[seen..] + tail| == |EpochTexts(s)| - seen
    ensures s[0].text[seen..] + tail == EpochTexts(s)[seen..] <==> Kept(s, seen)
  {
    EpochFirst(s);
    var whole, cut := EpochTexts(s), |s[0].text|;
    assert whole[seen..] == whole[seen..cut] + whole[cut..];
    assert whole[seen..cut] == EpochLast(s)[seen..cut];
    var d := s[0].text[seen..];
    assert d + tail == whole[seen..] <==> d == whole[seen..cut] && tail == whole[cut..] by {
      assert (d + tail)[..|d|] == d && (d + tail)[|d|..] == tail;
    }
  }

  /** Delta extraction, for every stream: the deltas have exactly the length of the epochs' last
      texts joined, and they are those texts if and only if no piece that was emitted changed
      before its epoch ended; in particular when text only ever grows at its end. */
  lemma DeltasExact(lines: seq<Line>)
    ensures var s, out := Snaps(lines), Concat(Texts(Events(START, lines)));
      && |out| == |EpochTexts(s)|
      && (out == EpochTexts(s) <==> Kept(s, 0))
      && (OnlyGrows(s) ==> out == EpochTexts(s))
  {
    DeltasFrom(START, lines);
    var s := Snaps(lines);
    if OnlyGrows(s) {
      GrowingIsKept(s, 0);
    }
    assert EpochTexts(s)[0..] == EpochTexts(s);
  }

  // ----- draining -----

  /** How one round of the drain's select goes: the context has ended, or the channel is read;
      `sendOk` says whether a chunk is then forwarded before the context ends. */
  datatype Choice = Cancel | Read(sendOk: bool)

  datatype Ending = Closed | Failed(message: string) | Cancelled

  datatype Phase = Going(taken: nat) | Over(taken: nat, ending: Ending)

  /** One round of the drain over a channel that is closed after `events`, `k` of them taken. */
  function DrainStep(events: seq<Event>, k: nat, choice: Choice): Phase
    requires k <= |events|
  {
    if choice.Cancel? then Over(k, Cancelled)
    else if k == |events| then Over(k, Closed)
    else
      match events[k]
      case Text(_) => if choice.sendOk then Going(k + 1) else Over(k + 1, Cancelled)
      case Error(message) => Over(k + 1, Failed(message))
      case _ => Going(k + 1)
  }

  function Drain(events: seq<Event>, choices: seq<Choice>, k: nat): (phase: Phase)
    requires k <= |events| && |choices| == |events| + 1
    ensures phase.Over?
    decreases |events| - k
  {
    var phase := DrainStep(events, k, choices[k]);
    if phase.Going? then Drain(events, choices, k + 1) else phase
  }

  /** Chunks of text, or the closing line that lists the tools run. */
  datatype Token = Chunk(text: string) | Summary(tools: multiset<string>)

  function Chunks(texts: seq<string>): (tokens: seq<Token>)
    ensures |tokens| == |texts|
    ensures forall i :: 0 <= i < |texts| ==> tokens[i] == Chunk(texts[i])
  {
    seq(|texts|, i requires 0 <= i < |texts| => Chunk(texts[i]))
  }

  /** A normal close has taken everything, and an error, which ends the drain, is taken last. */
  lemma {:induction false} DrainEnds(events: seq<Event>, choices: seq<Choice>, k: nat)
    requires k <= |events| && |choices| == |events| + 1
    ensures var Over(taken, ending) := Drain(events, choices, k);
      && k <= taken <= |events|
      && (ending.Closed? ==> taken == |events|)
      && (ending.Failed? <==> taken > k && events[taken - 1].Error?)
      && (forall i :: k <= i < taken - 1 ==> !events[i].Error?)
    decreases |events| - k
  {
    if DrainStep(events, k, choices[k]).Going? {
      DrainEnds(events, choices, k + 1);
    }
  }

  /** A drain is cancelled only by the end of the context, in place of an event or of a send, and is
      always cancelled by it. */
  lemma {:induction false} DrainCancels(events: seq<Event>, choices: seq<Choice>, k: nat)
    requires k <= |events| && |choices| == |events| + 1
    ensures var Over(taken, ending) := Drain(events, choices, k);
      && k <= taken <= |events|
      && (ending.Cancelled? ==>
            choices[taken].Cancel? || (taken > k && events[taken - 1].Text? && choices[taken - 1] == Read(false)))
      && (forall i :: k <= i < taken ==> choices[i].Read?)
      && (forall i :: k <= i < taken && events[i].Text? && !choices[i].sendOk ==> ending.Cancelled? && i == taken - 1)
      && (ending.Closed? ==> choices[|events|].Read?)
    decreases |events| - k
  {
    if DrainStep(events, k, choices[k]).Going? {
      DrainCancels(events, choices, k + 1);
    }
  }

  /** One round of the drain's select. */
  method TakeNext(events: seq<Event>, taken: nat, choice: Choice, before: string, counts: multiset<string>, count: nat,
                  forwarded: seq<Token>)
    returns (phase: Phase, text: string, toolCounts: multiset<string>, toolEventCount: nat, tokens: seq<Token>)
    requires taken <= |events| && Drained(events[..taken], before, counts, forwarded) && count == |counts|
    ensures phase == DrainStep(events, taken, choice)
    ensures toolEventCount == |toolCounts|
    ensures text == Concat(Texts(events[..phase.taken])) && toolCounts == multiset(UseNames(events[..phase.taken]))
    ensures tokens == Chunks(Texts(events[..if Refused(events, taken, choice) then taken else phase.taken]))
  {
    text, toolCounts, toolEventCount, tokens := before, counts, count, forwarded;
    if choice.Cancel? {
      return Over(taken, Cancelled), text, toolCounts, toolEventCount, tokens;
    }
    if taken == |events| {
      return Over(taken, Closed), text, toolCounts, toolEventCount, tokens;
    }
    TakeEvent(events, taken, before, counts, forwarded);
    phase := Going(taken + 1);
    match events[taken] {
      case Text(content) =>
        text := text + content;
        if choice.sendOk {
          tokens := tokens + [Chunk(content)];
        } else {
          phase := Over(taken + 1, Cancelled);
        }
      case ToolUse(name) =>
        toolEventCount := toolEventCount + 1;
        toolCounts := toolCounts + multiset{name};
      case Error(message) => phase := Over(taken + 1, Failed(message));
      case _ =>
    }
  }

  /** drainCLIEvents over a channel that will be closed after `events`. On every exit the chunks
      forwarded are the chunks accumulated, but for at most the last, which only a cancelled send
      loses; on a normal close all are forwarded, then perhaps the summary; and the count returned
      is the number of tool uses seen, name by name. */
  method DrainCLIEvents(events: seq<Event>, choices: seq<Choice>, summaryOk: bool)
    returns (text: string, toolEventCount: nat, ending: Ending, taken: nat, tokens: seq<Token>)
    requires |choices| == |events| + 1
    ensures Over(taken, ending) == Drain(events, choices, 0)
    ensures taken <= |events|
    ensures text == Concat(Texts(events[..taken]))
    ensures toolEventCount == |multiset(UseNames(events[..taken]))|
    ensures ending.Closed? ==> taken == |events| && (forall i :: 0 <= i < |events| ==> !events[i].Error?)
    ensures ending.Failed? <==> taken > 0 && events[taken - 1].Error?
    ensures forall i :: 0 <= i < taken - 1 ==> !events[i].Error?
    ensures var all := Chunks(Texts(events[..taken]));
      match ending
      case Closed =>
        tokens == all + (if toolEventCount > 0 && summaryOk then [Summary(multiset(UseNames(events)))] else [])
      case Failed(_) => tokens == all
      case Cancelled =>
        tokens == if taken > 0 && Refused(events, taken - 1, choices[taken - 1])
                  then Chunks(Texts(events[..taken - 1])) else all
  {
    var phase, toolCounts;
    phase, text, toolCounts, toolEventCount, tokens := DrainLoop(events, choices);
    DrainEnds(events, choices, 0);
    ForwardedAll(events, choices);
    taken, ending := phase.taken, phase.ending;
    assert taken == |events| ==> events[..taken] == events;
    if ending.Closed? && |toolCounts| > 0 && summaryOk {
      tokens := tokens + [Summary(toolCounts)];
    }
  }

  method DrainLoop(events: seq<Event>, choices: seq<Choice>)
    returns (phase: Phase, text: string, toolCounts: multiset<string>, toolEventCount: nat, tokens: seq<Token>)
    requires |choices| == |events| + 1
    ensures phase == Drain(events, choices, 0) && phase.taken <= |events|
    ensures text == Concat(Texts(events[..phase.taken])) && toolCounts == multiset(UseNames(events[..phase.taken]))
    ensures toolEventCount == |toolCounts|
    ensures tokens == Chunks(Texts(events[..Forwarded(events, choices, phase)]))
  {
    text, toolEventCount, tokens, toolCounts := "", 0, [], multiset{};
    phase := Going(0);
    while phase.Going?
      invariant phase.taken <= |events|
      invariant text == Concat(Texts(events[..phase.taken])) && toolCounts == multiset(UseNames(events[..phase.taken]))
      invariant toolEventCount == |toolCounts|
      invariant tokens == Chunks(Texts(events[..Forwarded(events, choices, phase)]))
      invariant phase.Going? ==> Forwarded(events, choices, phase) == phase.taken
      invariant Drain(events, choices, 0) == if phase.Going? then Drain(events, choices, phase.taken) else phase
      decreases if phase.Going? then |events| + 1 - phase.taken else 0
    {
      phase, text, toolCounts, toolEventCount, tokens :=
        TakeNext(events, phase.taken, choices[phase.taken], text, toolCounts, toolEventCount, tokens);
    }
  }

  /** A drain that is not cancelled has forwarded all that it has taken. */
  lemma ForwardedAll(events: seq<Event>, choices: seq<Choice>)
    requires |choices| == |events| + 1
    ensures var phase := Drain(events, choices, 0);
      phase.taken <= |events| && (!phase.ending.Cancelled? ==> Forwarded(events, choices, phase) == phase.taken)
  {
    DrainCancels(events, choices, 0);
  }

  /** The select for event `k` takes a chunk that it then cannot forward. */
  predicate Refused(events: seq<Event>, k: nat, choice: Choice) {
    k < |events| && events[k].Text? && choice == Read(false)
  }

  /** How many events are behind the tokens forwarded: all that were taken, less a refused one. */
  function Forwarded(events: seq<Event>, choices: seq<Choice>, phase: Phase): (k: nat)
    requires phase.taken <= |events| == |choices| - 1
    ensures k <= |events|
  {
    if phase.taken > 0 && Refused(events, phase.taken - 1, choices[phase.taken - 1])
    then phase.taken - 1 else phase.taken
  }

  ghost predicate Drained(taken: seq<Event>, text: string, tools: multiset<string>, tokens: seq<Token>) {
    && text == Concat(Texts(taken))
    && tokens == Chunks(Texts(taken))
    && tools == multiset(UseNames(taken))
  }

  lemma TakeEvent(events: seq<Event>, k: nat, text: string, tools: multiset<string>, tokens: seq<Token>)
    requires k < |events| && Drained(events[..k], text, tools, tokens)
    ensures var e := events[k];
      Drained(events[..k + 1],
        if e.Text? then text + e.content else text,
        if e.ToolUse? then tools + multiset{e.name} else tools,
        if e.Text? then tokens + [Chunk(e.content)] else tokens)
  {
    assert events[..k + 1][..k] == events[..k];
    if events[k].Text? {
      ConcatSnoc(Texts(events[..k]), events[k].content);
    }
  }
}
