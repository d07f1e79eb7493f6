/** What the requests of a tool loop carry: each tool's own output, cut to the limit, under the id of
    its use; and what the loop's answer is made of. */
module ToolAnswers {
  import opened Options
  import opened Seqs
  import opened SessionLog
  import opened Assembler
  import opened ToolLoop
  import R = Registry

  function UseCount(content: seq<Block>): nat {
    if content == [] then 0
    else UseCount(content[..|content| - 1]) + (if content[|content| - 1].ToolUse? then 1 else 0)
  }

  /** The call that a tool use asks for, the `n`-th of its turn. */
  function CallFor(turn: string, b: Block, n: nat, tools: Tools): R.Request
    requires b.ToolUse?
  {
    R.Request(turn, R.ToolCall(b.id, b.name, b.input), tools(n))
  }

  /** The registry once every tool use of `content` has been called, in order. */
  function RegistryAt(s: R.State, turn: string, content: seq<Block>, k: nat, tools: Tools): R.State {
    if content == [] then s
    else
      var init, last := content[..|content| - 1], content[|content| - 1];
      var s' := RegistryAt(s, turn, init, k, tools);
      if last.ToolUse? then R.Execute(s', CallFor(turn, last, k + UseCount(init), tools)).0 else s'
  }

  const MARK := " [truncated]"

  /** All of the output if it is within the limit, else that much of it and the mark. */
  predicate CutTo(shown: string, output: string, limit: nat) {
    if |output| <= limit then shown == output
    else |shown| == limit + 12 && shown[..limit] == output[..limit] && shown[limit..] == MARK
  }

  /** Under the id of its use stands what the registry answered to it, and whether that was an error. */
  predicate AnswersUse(answer: Block, use: Block, result: R.ToolResult, maxTokens: nat) {
    && use.ToolUse? && answer.ToolOutput?
    && answer.useId == use.id && answer.isError == result.isError
    && CutTo(answer.output, result.output, 4 * maxTokens)
  }

  lemma {:induction false} IdsCount(content: seq<Block>)
    ensures |UseIds(content)| == UseCount(content)
  {
    if content != [] {
      IdsCount(content[..|content| - 1]);
    }
  }

  /** The ids used are those of the tool uses, each at its place among them. */
  lemma {:induction false} UseIdsExact(content: seq<Block>, i: nat)
    requires i < |content| && content[i].ToolUse?
    ensures UseCount(content[..i]) < |UseIds(content)|
    ensures UseIds(content)[UseCount(content[..i])] == content[i].id
  {
    var init := content[..|content| - 1];
    IdsCount(init);
    if i < |init| {
      UseIdsExact(init, i);
      assert init[..i] == content[..i];
    }
  }

  lemma {:induction false} RunsInOrder(s: R.State, turn: string, content: seq<Block>, k: nat, tools: Tools,
                                       maxTokens: nat)
    ensures var (s', blocks) := ToolResults(s, turn, content, k, tools, maxTokens);
      s' == RegistryAt(s, turn, content, k, tools) && blocks.Some? && |blocks.value| == UseCount(content)
  {
    ResultsAnswerUses(s, turn, content, k, tools, maxTokens);
    IdsCount(content);
    if content != [] {
      RunsInOrder(s, turn, content[..|content| - 1], k, tools, maxTokens);
    }
  }

  lemma TruncateCuts(output: string, maxTokens: nat)
    ensures Truncate(output, maxTokens).Some? && CutTo(Truncate(output, maxTokens).value, output, 4 * maxTokens)
  {
    assert |MARK| == 12;
  }

  /** The use at place `i` is answered with what the registry, as its predecessors left it, answered
      to that call and no other. */
  lemma {:induction false} ResultsCarry(s: R.State, turn: string, content: seq<Block>, k: nat, tools: Tools,
                                        maxTokens: nat, i: nat)
    requires i < |content| && content[i].ToolUse?
    ensures var blocks, j := ToolResults(s, turn, content, k, tools, maxTokens).1, UseCount(content[..i]);
      && blocks.Some? && j < |blocks.value| == UseCount(content)
      && var before := RegistryAt(s, turn, content[..i], k, tools);
         var result := R.Execute(before, CallFor(turn, content[i], k + j, tools)).1;
         AnswersUse(blocks.value[j], content[i], result, maxTokens)
  {
    var init := content[..|content| - 1];
    RunsInOrder(s, turn, init, k, tools, maxTokens);
    RunsInOrder(s, turn, content, k, tools, maxTokens);
    if i < |init| {
      ResultsCarry(s, turn, init, k, tools, maxTokens, i);
      assert init[..i] == content[..i];
    } else {
      LastCarries(s, turn, content, k, tools, maxTokens);
    }
  }

  lemma LastCarries(s: R.State, turn: string, content: seq<Block>, k: nat, tools: Tools, maxTokens: nat)
    requires content != [] && content[|content| - 1].ToolUse?
    ensures var blocks, j := ToolResults(s, turn, content, k, tools, maxTokens).1, UseCount(content[..|content| - 1]);
      && blocks.Some? && j < |blocks.value|
      && var before := RegistryAt(s, turn, content[..|content| - 1], k, tools);
         var result := R.Execute(before, CallFor(turn, content[|content| - 1], k + j, tools)).1;
         AnswersUse(blocks.value[j], content[|content| - 1], result, maxTokens)
  {
    var init, last := content[..|content| - 1], content[|content| - 1];
    RunsInOrder(s, turn, init, k, tools, maxTokens);
    var before := RegistryAt(s, turn, init, k, tools);
    TruncateCuts(R.Execute(before, CallFor(turn, last, k + UseCount(init), tools)).1.output, maxTokens);
  }

  /** Under a negative limit the first use is called, its truncation panics, and no other is called. */
  lemma PanicAfterFirst(s: R.State, turn: string, content: seq<Block>, k: nat, tools: Tools, maxTokens: int, i: nat)
    requires maxTokens < 0 && i < |content| && content[i].ToolUse? && UseCount(content[..i]) == 0
    ensures ToolResults(s, turn, content, k, tools, maxTokens)
         == (R.Execute(s, CallFor(turn, content[i], k, tools)).0, None)
  {
    NothingYet(s, turn, content[..i], k, tools, maxTokens);
    ResultsStep(s, turn, content, i, k, tools, maxTokens);
    PanicStops(s, turn, content, i + 1, k, tools, maxTokens);
  }

  lemma {:induction false} NothingYet(s: R.State, turn: string, content: seq<Block>, k: nat, tools: Tools,
                                      maxTokens: int)
    requires UseCount(content) == 0
    ensures ToolResults(s, turn, content, k, tools, maxTokens) == (s, Some([]))
  {
    if content != [] {
      NothingYet(s, turn, content[..|content| - 1], k, tools, maxTokens);
    }
  }

  // ----- over the rounds of a loop -----

  /** The tool uses of the rounds so far. */
  function CallCount(replies: seq<Reply>): nat {
    if replies == [] then 0
    else
      var last := replies[|replies| - 1];
      CallCount(replies[..|replies| - 1])
        + (if last.Reply? && last.stop == ForTools then UseCount(last.content) else 0)
  }

  lemma {:induction false} CallsCounted(replies: seq<Reply>)
    ensures TotalUses(replies) == CallCount(replies)
  {
    if replies != [] {
      CallsCounted(replies[..|replies| - 1]);
      if GoesOn(replies[|replies| - 1]) {
        IdsCount(replies[|replies| - 1].content);
      }
    }
  }

  /** The registry before the tools of round `|replies|` run, all replies so far having used tools. */
  function RegistryThrough(x: Setting, replies: seq<Reply>): R.State {
    if replies == [] then x.start
    else
      var init, last := replies[..|replies| - 1], replies[|replies| - 1];
      if last.Reply? && last.stop == ForTools
      then RegistryAt(RegistryThrough(x, init), x.turn, last.content, CallCount(init), x.tools)
      else RegistryThrough(x, init)
  }

  lemma {:induction false} ThroughExact(x: Setting, replies: seq<Reply>)
    requires x.maxTokens >= 0
    ensures RegistryAfter(x, replies) == RegistryThrough(x, replies)
  {
    if replies != [] {
      var init, last := replies[..|replies| - 1], replies[|replies| - 1];
      ThroughExact(x, init);
      CallsCounted(init);
      if GoesOn(last) {
        RunsInOrder(RegistryAfter(x, init), x.turn, last.content, TotalUses(init), x.tools, x.maxTokens);
      }
    }
  }

  lemma {:induction false} ChainStep(x: Setting, requests: seq<seq<Message>>, replies: seq<Reply>, k: nat)
    requires Chain(x, requests, replies) && k + 1 < |requests|
    ensures Extends(x, replies, k, requests[k], requests[k + 1])
  {
    if k + 2 < |requests| {
      ChainStep(x, requests[..|requests| - 1], replies, k);
    }
  }

  /** The request after reply `k` is the one before, the reply's own content, and a user message that
      answers its tool uses, one block each: the use at place `i` with the output and the flag that
      the registry gave to it after all calls before it, cut to the limit. */
  lemma RequestCarries(x: Setting, requests: seq<seq<Message>>, replies: seq<Reply>, k: nat, i: nat)
    requires x.maxTokens >= 0 && Chain(x, requests, replies) && k + 1 < |requests|
    requires replies[k].Reply? ==> i < |replies[k].content| && replies[k].content[i].ToolUse?
    ensures replies[k].Reply? && replies[k].stop == ForTools
    ensures var content, before, after := replies[k].content, requests[k], requests[k + 1];
      && |after| == |before| + 2 && after[..|before|] == before
      && after[|before|] == Message(Assistant, content)
      && var answers, j := after[|before| + 1], UseCount(content[..i]);
         && answers.role == User && j < |answers.content| == UseCount(content)
         && var n := CallCount(replies[..k]);
            var s := RegistryAt(RegistryThrough(x, replies[..k]), x.turn, content[..i], n, x.tools);
            var result := R.Execute(s, CallFor(x.turn, content[i], n + j, x.tools)).1;
            AnswersUse(answers.content[j], content[i], result, x.maxTokens)
  {
    ChainStep(x, requests, replies, k);
    ThroughExact(x, replies[..k]);
    CallsCounted(replies[..k]);
    ResultsCarry(RegistryAfter(x, replies[..k]), x.turn, replies[k].content, TotalUses(replies[..k]), x.tools,
                 x.maxTokens, i);
  }

  // ----- the answer -----

  /** The text of a reply is that of its text blocks, in order. */
  lemma {:induction false} RoundTextJoins(a: seq<Block>, b: seq<Block>)
    ensures RoundText(a + b) == RoundText(a) + RoundText(b)
  {
    if b == [] {
      assert a + b == a;
      assert RoundText(a) + "" == RoundText(a);
    } else {
      var init, last := b[..|b| - 1], b[|b| - 1];
      assert (a + b)[..|a + b| - 1] == a + init;
      RoundTextJoins(a, init);
      AppendAssociates(RoundText(a), RoundText(init), if last.Text? then last.text else "");
    }
  }

  lemma RoundTextOne(b: Block)
    ensures RoundText([b]) == if b.Text? then b.text else ""
  {
    assert [b][..0] == [];
  }

  /** The answer is the text of the last reply that has any. */
  lemma {:induction false} AnswerIsLatest(replies: seq<Reply>, k: nat)
    requires k < |replies| && replies[k].Reply? && RoundText(replies[k].content) != ""
    requires forall i :: k < i < |replies| && replies[i].Reply? ==> RoundText(replies[i].content) == ""
    ensures LatestText(replies) == RoundText(replies[k].content)
  {
    if k < |replies| - 1 {
      AnswerIsLatest(replies[..|replies| - 1], k);
    }
  }

  /** How a loop ends, by its last reply. */
  lemma OutcomeExact(x: Setting, replies: seq<Reply>)
    requires replies != []
    ensures var last, outcome := replies[|replies| - 1], OutcomeOf(x, replies);
      && (outcome == CallFailed <==> last == Failed)
      && (outcome == Panicked <==>
            x.maxTokens < 0 && last.Reply? && last.stop == ForTools && UseCount(last.content) > 0)
      && (outcome.Answered? ==> outcome == Answered(LatestText(replies), CallCount(replies)))
      && (Last(x, last) <==> !(last.Reply? && last.stop == ForTools) || outcome == Panicked)
  {
    CallsCounted(replies);
    if replies[|replies| - 1].Reply? {
      IdsCount(replies[|replies| - 1].content);
    }
  }

  /** An answered turn is stored last, with both its texts; any other leaves the turns as they are. */
  lemma StoredExact(turns: seq<Turn>, a: Attempt)
    ensures var after := AfterMessage(turns, a);
      if a.outcome.Answered?
      then && |after| == |turns| + 1 && after[..|turns|] == turns
           && after[|turns|].user == a.text && after[|turns|].assistant == a.outcome.text
           && after[|turns|].turnId == a.id
      else after == turns
  {
  }
}
