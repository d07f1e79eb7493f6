/** Which events a stream of lines gives: one for one what its lines hold, in their order. */
module CliEvents {
  import opened Seqs
  import opened CliStream
  import P = CliPipe

  lemma {:induction false} UsesAndResults(blocks: seq<Block>)
    ensures forall e :: e in ToolUses(blocks) ==> e.ToolUse?
    ensures forall e :: e in ToolResults(blocks) ==> e.ToolResult?
  {
    if blocks != [] {
      UsesAndResults(blocks[..|blocks| - 1]);
    }
  }

  /** A line's events: an assistant's text comes first and then its tool uses; tool lines give results
      only, result lines one end, all others nothing. */
  lemma LineEvents(c: Cursor, line: Line)
    ensures var events := Parse(c, line).1;
      match line
      case Assistant(_, _) => forall i :: 0 <= i < |events| ==> events[i].ToolUse? || (i == 0 && events[i].Text?)
      case Tool(_) => forall i :: 0 <= i < |events| ==> events[i].ToolResult?
      case Result(subtype) =>
        |events| == 1 && (events[0].Done? || events[0].Error?) && (events[0].Done? <==> subtype == "success")
      case Ignored => events == []
  {
    match line {
      case Assistant(_, blocks) => UsesAndResults(blocks);
      case Tool(blocks) => UsesAndResults(blocks);
      case _ =>
    }
  }

  function ResultCount(blocks: seq<Block>): nat {
    if blocks == [] then 0
    else ResultCount(blocks[..|blocks| - 1]) + (if blocks[|blocks| - 1].ToolResultBlock? then 1 else 0)
  }

  /** A tool line gives one event for each of its results. */
  lemma {:induction false} ResultsCounted(c: Cursor, blocks: seq<Block>)
    ensures |Parse(c, Tool(blocks)).1| == ResultCount(blocks)
  {
    if blocks != [] {
      ResultsCounted(c, blocks[..|blocks| - 1]);
    }
  }

  /** A stream says done exactly if one of its lines is a success. */
  lemma {:induction false} DoneExactly(c: Cursor, lines: seq<Line>)
    ensures Done in Events(c, lines) <==> Result("success") in lines
    decreases |lines|
  {
    if lines != [] {
      var (c', events) := Parse(c, lines[0]);
      DoneExactly(c', lines[1..]);
      LineEvents(c, lines[0]);
      assert Done in events <==> lines[0] == Result("success");
      assert Result("success") in lines <==> lines[0] == Result("success") || Result("success") in lines[1..];
    }
  }

  /** The message of a result line that is no success. */
  predicate Reports(line: Line, message: string) {
    line.Result? && line.subtype != "success" && message == "claude result: " + line.subtype
  }

  /** A stream has an error exactly for each of its result lines that is no success. */
  lemma {:induction false} ErrorExactly(c: Cursor, lines: seq<Line>, message: string)
    ensures Error(message) in Events(c, lines) <==> exists line :: line in lines && Reports(line, message)
    decreases |lines|
  {
    if lines != [] {
      var (c', events) := Parse(c, lines[0]);
      ErrorExactly(c', lines[1..], message);
      LineEvents(c, lines[0]);
      assert Error(message) in events <==> Reports(lines[0], message);
      assert forall line :: line in lines <==> line == lines[0] || line in lines[1..];
    }
  }

  // ----- names and texts -----

  function BlockNames(blocks: seq<Block>): seq<string> {
    if blocks == [] then []
    else (if blocks[0].ToolUseBlock? then [blocks[0].name] else []) + BlockNames(blocks[1..])
  }

  function NamesOf(lines: seq<Line>): seq<string> {
    if lines == [] then []
    else (if lines[0].Assistant? then BlockNames(lines[0].blocks) else []) + NamesOf(lines[1..])
  }

  lemma {:induction false} UseNamesJoin(a: seq<Event>, b: seq<Event>)
    ensures UseNames(a + b) == UseNames(a) + UseNames(b)
  {
    if b == [] {
      assert a + b == a;
    } else {
      assert (a + b)[..|a + b| - 1] == a + b[..|b| - 1];
      UseNamesJoin(a, b[..|b| - 1]);
    }
  }

  lemma {:induction false} BlockNamesSnoc(blocks: seq<Block>, b: Block)
    ensures BlockNames(blocks + [b]) == BlockNames(blocks) + (if b.ToolUseBlock? then [b.name] else [])
  {
    if blocks == [] {
      assert [] + [b] == [b] && [b][1..] == [];
    } else {
      assert (blocks + [b])[1..] == blocks[1..] + [b];
      BlockNamesSnoc(blocks[1..], b);
      AppendAssociates(if blocks[0].ToolUseBlock? then [blocks[0].name] else [], BlockNames(blocks[1..]),
                       if b.ToolUseBlock? then [b.name] else []);
    }
  }

  lemma {:induction false} BlockNamesExact(blocks: seq<Block>)
    ensures UseNames(ToolUses(blocks)) == BlockNames(blocks)
    ensures UseNames(ToolResults(blocks)) == []
  {
    if blocks != [] {
      var init, last := blocks[..|blocks| - 1], blocks[|blocks| - 1];
      BlockNamesExact(init);
      BlockNamesSnoc(init, last);
      assert blocks == init + [last];
      UseNamesJoin(ToolUses(init), if last.ToolUseBlock? then [ToolUse(last.name)] else []);
      UseNamesJoin(ToolResults(init), if last.ToolResultBlock? then [ToolResult] else []);
      if last.ToolUseBlock? {
        assert UseNames([ToolUse(last.name)]) == UseNames([]) + [last.name] by {
          assert [ToolUse(last.name)][..0] == [];
        }
      }
      assert UseNames([ToolResult]) == UseNames([]) by {
        assert [ToolResult][..0] == [];
      }
    }
  }

  lemma LineNames(c: Cursor, line: Line)
    ensures UseNames(Parse(c, line).1) == if line.Assistant? then BlockNames(line.blocks) else []
  {
    match line {
      case Assistant(id, blocks) =>
        var text := TextOf(blocks);
        var delta := text[Seen(c, id, text)..];
        var first := if delta != "" then [Text(delta)] else [];
        assert UseNames(first) == [] by {
          assert first[..0] == [];
        }
        UseNamesJoin(first, ToolUses(blocks));
        BlockNamesExact(blocks);
      case Tool(blocks) => BlockNamesExact(blocks);
      case Result(_) =>
        var events := Parse(c, line).1;
        assert events[..0] == [];
      case Ignored =>
    }
  }

  /** The tool uses of a stream are those of the assistant lines, block by block. */
  lemma {:induction false} NamesExact(c: Cursor, lines: seq<Line>)
    ensures UseNames(Events(c, lines)) == NamesOf(lines)
    decreases |lines|
  {
    if lines != [] {
      var (c', events) := Parse(c, lines[0]);
      NamesExact(c', lines[1..]);
      LineNames(c, lines[0]);
      UseNamesJoin(events, Events(c', lines[1..]));
    }
  }

  /** The text of a line is that of its text blocks, in order. */
  lemma {:induction false} TextOfJoins(a: seq<Block>, b: seq<Block>)
    ensures TextOf(a + b) == TextOf(a) + TextOf(b)
  {
    if b == [] {
      assert a + b == a;
      assert TextOf(a) + "" == TextOf(a);
    } else {
      var init, last := b[..|b| - 1], b[|b| - 1];
      assert (a + b)[..|a + b| - 1] == a + init;
      TextOfJoins(a, init);
      AppendAssociates(TextOf(a), TextOf(init), if last.TextBlock? then last.text else "");
    }
  }

  lemma TextOfOne(b: Block)
    ensures TextOf([b]) == if b.TextBlock? then b.text else ""
  {
    assert [b][..0] == [];
  }

  // ----- failures -----

  predicate SaysFailure(lines: seq<Line>) {
    exists i :: 0 <= i < |lines| && lines[i].Result? && lines[i].subtype != "success"
  }

  predicate SaysSuccess(lines: seq<Line>) {
    Result("success") in lines
  }

  /** All that a process gives has an error exactly if a result line says so, or the process failed
      without any result line. */
  lemma StreamErrorExactly(lines: seq<Line>, exitError: string)
    ensures P.HasError(StreamEvents(lines, exitError))
        <==> SaysFailure(lines) || (exitError != "" && !SaysSuccess(lines))
  {
    var events, all := Events(START, lines), StreamEvents(lines, exitError);
    DoneExactly(START, lines);
    if SaysFailure(lines) {
      var i :| 0 <= i < |lines| && lines[i].Result? && lines[i].subtype != "success";
      assert Reports(lines[i], "claude result: " + lines[i].subtype);
      ErrorExactly(START, lines, "claude result: " + lines[i].subtype);
      var k :| 0 <= k < |events| && events[k] == Error("claude result: " + lines[i].subtype);
      assert all[k].Error?;
    } else if P.HasError(events) {
      var k :| 0 <= k < |events| && events[k].Error?;
      ErrorExactly(START, lines, events[k].message);
    } else if exitError != "" && !SaysSuccess(lines) {
      assert all == events + [Error(exitError)];
      assert all[|events|].Error?;
    } else if exitError != "" {
      var k :| 0 <= k < |events| && events[k] == Done;
      assert HasEnd(events);
    }
  }

  /** In every run: a process that says success, and nothing else, never fails the turn; and one that
      says failure, or fails without a word, ends as an answer only if that error was abandoned. */
  lemma FailureReachesTurn(lines: seq<Line>, exitError: string, s: P.State)
    requires P.Reachable(lines, exitError, s) && s.drain.Over?
    ensures !SaysFailure(lines) && (exitError == "" || SaysSuccess(lines)) ==> !s.drain.ending.Failed?
    ensures (SaysFailure(lines) || (exitError != "" && !SaysSuccess(lines))) && s.drain.ending.Closed? ==>
      && |s.sent| < |StreamEvents(lines, exitError)|
      && P.HasError(StreamEvents(lines, exitError)[|s.sent|..])
  {
    StreamErrorExactly(lines, exitError);
    if s.drain.ending.Closed? {
      P.NormalCloseExact(lines, exitError, s);
    } else if s.drain.ending.Failed? {
      P.ReachableInv(lines, exitError, s);
      var choices := P.DrainIsAsSpecified(lines, exitError, s);
      DrainEnds(s.sent, choices, 0);
      P.SentIsOfStream(lines, exitError, s);
      assert StreamEvents(lines, exitError)[s.drain.taken - 1].Error?;
    }
  }
}
