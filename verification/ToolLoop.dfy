/** One turn with the model: a bounded loop of requests, each answered tool use by tool use,
    over an arbitrary model, arbitrary tools and any registry. */
module ToolLoop {
  import opened Options
  import opened SessionLog
  import opened ContextWindow
  import opened Assembler
  import R = Registry

  datatype Stop = EndTurn | MaxTokens | StopSequence | ForTools | Unexpected

  /** What the service does with one request. */
  datatype Reply = Failed | Reply(stop: Stop, content: seq<Block>)

  /** `Panicked` is a slice out of range, which ends the turn with no answer. */
  datatype Outcome = CallFailed | Panicked | Answered(text: string, toolCalls: nat)

  // ----- well-formed requests -----

  function UseIds(content: seq<Block>): seq<string> {
    if content == [] then []
    else
      var last := content[|content| - 1];
      UseIds(content[..|content| - 1]) + (if last.ToolUse? then [last.id] else [])
  }

  function OutputIds(content: seq<Block>): seq<string> {
    if content == [] then []
    else
      var last := content[|content| - 1];
      OutputIds(content[..|content| - 1]) + (if last.ToolOutput? then [last.useId] else [])
  }

  /** Starts and ends with a user message, alternates, and the very next user message answers
      each tool use of an assistant message exactly once, by its id and in order. */
  ghost predicate WellFormed(msgs: seq<Message>) {
    && |msgs| % 2 == 1
    && (forall i :: 0 <= i < |msgs| ==> (msgs[i].role.User? <==> i % 2 == 0))
    && (forall i :: 0 <= i < |msgs| - 1 && msgs[i].role.Assistant? ==>
          OutputIds(msgs[i + 1].content) == UseIds(msgs[i].content))
  }

  // ----- tool results -----

  /** The output within the limit; None is a slice out of range, as with a negative limit. */
  function Truncate(output: string, maxTokens: int): (r: Option<string>)
    ensures r.None? <==> maxTokens < 0
    ensures r.Some? ==> |r.value| <= maxTokens * 4 + 12 && (|output| <= maxTokens * 4 ==> r.value == output)
  {
    if |output| <= maxTokens * 4 then Some(output)
    else if maxTokens < 0 then None
    else Some(output[..maxTokens * 4] + " [truncated]")
  }

  /** `tools(k)` is what the k-th call's handler would answer at that moment. */
  type Tools = nat -> R.Answer

  function RequestOf(turn: string, b: Block, answer: R.Answer): R.Request
    requires b.ToolUse?
  {
    R.Request(turn, R.ToolCall(b.id, b.name, b.input), answer)
  }

  /** The registry and the results after the tool uses of `content`, the first being call `k`;
      nothing runs after a truncation that panics. */
  function ToolResults(s: R.State, turn: string, content: seq<Block>, k: nat, tools: Tools, maxTokens: int):
    (R.State, Option<seq<Block>>)
  {
    if content == [] then (s, Some([]))
    else
      var (s', blocks) := ToolResults(s, turn, content[..|content| - 1], k, tools, maxTokens);
      TakeBlock(s', turn, blocks, content[|content| - 1], k, tools, maxTokens)
  }

  function TakeBlock(s: R.State, turn: string, blocks: Option<seq<Block>>, b: Block, k: nat, tools: Tools,
                     maxTokens: int): (R.State, Option<seq<Block>>)
  {
    if blocks.None? || !b.ToolUse? then (s, blocks)
    else
      var (s', result) := R.Execute(s, RequestOf(turn, b, tools(k + |blocks.value|)));
      var output := Truncate(result.output, maxTokens);
      (s', if output.None? then None else Some(blocks.value + [ToolOutput(b.id, output.value, result.isError)]))
  }

  /** Every use is answered, in order, unless the limit is negative and there is a use. */
  lemma {:induction false} ResultsAnswerUses(s: R.State, turn: string, content: seq<Block>, k: nat, tools: Tools,
                                             maxTokens: int)
    ensures var blocks := ToolResults(s, turn, content, k, tools, maxTokens).1;
      && (blocks.None? <==> maxTokens < 0 && UseIds(content) != [])
      && (blocks.Some? ==> OutputIds(blocks.value) == UseIds(content) && |blocks.value| == |UseIds(content)|)
  {
    if content != [] {
      ResultsAnswerUses(s, turn, content[..|content| - 1], k, tools, maxTokens);
      var blocks := ToolResults(s, turn, content[..|content| - 1], k, tools, maxTokens).1;
      var all := ToolResults(s, turn, content, k, tools, maxTokens).1;
      if all.Some? && content[|content| - 1].ToolUse? {
        assert all.value[..|all.value| - 1] == blocks.value;
      }
    }
  }

  lemma ResultsStep(s: R.State, turn: string, content: seq<Block>, i: nat, k: nat, tools: Tools, maxTokens: int)
    requires i < |content|
    ensures var (s', blocks) := ToolResults(s, turn, content[..i], k, tools, maxTokens);
      ToolResults(s, turn, content[..i + 1], k, tools, maxTokens)
        == TakeBlock(s', turn, blocks, content[i], k, tools, maxTokens)
  {
    assert content[..i + 1][..i] == content[..i];
  }

  lemma {:induction false} PanicStops(s: R.State, turn: string, content: seq<Block>, i: nat, k: nat, tools: Tools,
                                      maxTokens: int)
    requires i <= |content| && ToolResults(s, turn, content[..i], k, tools, maxTokens).1.None?
    ensures ToolResults(s, turn, content, k, tools, maxTokens)
         == ToolResults(s, turn, content[..i], k, tools, maxTokens)
    decreases |content| - i
  {
    if i == |content| {
      assert content[..i] == content;
    } else {
      ResultsStep(s, turn, content, i, k, tools, maxTokens);
      PanicStops(s, turn, content, i + 1, k, tools, maxTokens);
    }
  }

  method RunTools(registry: R.ToolRegistry, turn: string, content: seq<Block>, k: nat, tools: Tools, maxTokens: int)
    returns (blocks: Option<seq<Block>>)
    modifies registry`idempotency, registry`runs
    ensures (registry.Abs(), blocks) == ToolResults(old(registry.Abs()), turn, content, k, tools, maxTokens)
  {
    var done: seq<Block> := [];
    for i := 0 to |content|
      invariant (registry.Abs(), Some(done))
             == ToolResults(old(registry.Abs()), turn, content[..i], k, tools, maxTokens)
    {
      ResultsStep(old(registry.Abs()), turn, content, i, k, tools, maxTokens);
      var b := content[i];
      if b.ToolUse? {
        var result := registry.Dispatch(RequestOf(turn, b, tools(k + |done|)));
        var output := Truncate(result.output, maxTokens);
        if output.None? {
          PanicStops(old(registry.Abs()), turn, content, i + 1, k, tools, maxTokens);
          return None;
        }
        done := done + [ToolOutput(b.id, output.value, result.isError)];
      }
    }
    assert content[..|content|] == content;
    blocks := Some(done);
  }

  // ----- the loop -----

  function RoundText(content: seq<Block>): string {
    if content == [] then ""
    else
      var last := content[|content| - 1];
      RoundText(content[..|content| - 1]) + (if last.Text? then last.text else "")
  }

  method TextOf(content: seq<Block>) returns (roundText: string)
    ensures roundText == RoundText(content)
  {
    roundText := "";
    for i := 0 to |content|
      invariant roundText == RoundText(content[..i])
    {
      assert content[..i + 1][..i] == content[..i];
      if content[i].Text? {
        roundText := roundText + content[i].text;
      }
    }
    assert content[..|content|] == content;
  }

  /** The text of the latest reply that has any. */
  function LatestText(replies: seq<Reply>): string {
    if replies == [] then ""
    else
      var last := replies[|replies| - 1];
      if last.Reply? && RoundText(last.content) != "" then RoundText(last.content)
      else LatestText(replies[..|replies| - 1])
  }

  function TotalUses(replies: seq<Reply>): nat {
    if replies == [] then 0
    else
      var last := replies[|replies| - 1];
      TotalUses(replies[..|replies| - 1]) + (if GoesOn(last) then |UseIds(last.content)| else 0)
  }

  /** Only a reply that stops for tools is followed by another request. */
  predicate GoesOn(reply: Reply) {
    reply.Reply? && reply.stop.ForTools?
  }

  /** What a loop runs in: the registry it finds, the turn, the tools and the output limit. */
  datatype Setting = Setting(start: R.State, turn: string, tools: Tools, maxTokens: int)

  /** The registry once the tool uses of these replies have been executed. */
  function RegistryAfter(x: Setting, replies: seq<Reply>): R.State {
    if replies == [] then x.start
    else
      var init, last := replies[..|replies| - 1], replies[|replies| - 1];
      if !GoesOn(last) then RegistryAfter(x, init)
      else ToolResults(RegistryAfter(x, init), x.turn, last.content, TotalUses(init), x.tools, x.maxTokens).0
  }

  /** A reply that does not stop for tools changes the text at most. */
  lemma OneMore(x: Setting, replies: seq<Reply>, k: nat)
    requires k < |replies|
    ensures LatestText(replies[..k + 1])
         == if replies[k].Reply? && RoundText(replies[k].content) != "" then RoundText(replies[k].content)
            else LatestText(replies[..k])
    ensures !GoesOn(replies[k]) ==> TotalUses(replies[..k + 1]) == TotalUses(replies[..k])
    ensures !GoesOn(replies[k]) ==> RegistryAfter(x, replies[..k + 1]) == RegistryAfter(x, replies[..k])
  {
    assert replies[..k + 1][..k] == replies[..k];
  }

  /** The tool results that answer reply `k`; None if making them panics. */
  function Answers(x: Setting, replies: seq<Reply>, k: nat): Option<seq<Block>>
    requires k < |replies| && replies[k].Reply?
  {
    var s, calls := RegistryAfter(x, replies[..k]), TotalUses(replies[..k]);
    ToolResults(s, x.turn, replies[k].content, calls, x.tools, x.maxTokens).1
  }

  /** A request goes on from the one before with reply `k` and the answers to its tool uses. */
  ghost predicate Extends(x: Setting, replies: seq<Reply>, k: nat, before: seq<Message>, after: seq<Message>)
    requires k < |replies|
  {
    && GoesOn(replies[k])
    && var answers := Answers(x, replies, k);
    && answers.Some?
    && after == before + [Message(Assistant, replies[k].content), Message(User, answers.value)]
  }

  predicate NoEmptyMessage(msgs: seq<Message>) {
    forall i :: 0 <= i < |msgs| ==> msgs[i].content != []
  }

  lemma ExtendsWellFormed(x: Setting, replies: seq<Reply>, k: nat, before: seq<Message>, after: seq<Message>)
    requires k < |replies| && WellFormed(before) && Extends(x, replies, k, before, after)
    ensures WellFormed(after)
    ensures NoEmptyMessage(after) <==> NoEmptyMessage(before) && UseIds(replies[k].content) != []
  {
    var n := |before|;
    ResultsAnswerUses(RegistryAfter(x, replies[..k]), x.turn, replies[k].content, TotalUses(replies[..k]), x.tools,
                      x.maxTokens);
    assert forall i :: 0 <= i < n ==> after[i] == before[i];
    assert before[n - 1].role.User?;
    assert after[n].content == replies[k].content && after[n + 1].content == Answers(x, replies, k).value;
  }

  /** The requests of one loop: each goes on from the one before. */
  ghost predicate Chain(x: Setting, requests: seq<seq<Message>>, replies: seq<Reply>) {
    var n := |requests|;
    && 1 <= n <= |replies| + 1
    && (n == 1 || (Chain(x, requests[..n - 1], replies)
                   && Extends(x, replies, n - 2, requests[n - 2], requests[n - 1])))
  }

  /** Every request of a loop is well formed. */
  lemma {:induction false} ChainWellFormed(x: Setting, requests: seq<seq<Message>>, replies: seq<Reply>)
    requires Chain(x, requests, replies) && WellFormed(requests[0])
    ensures forall k :: 0 <= k < |requests| ==> WellFormed(requests[k])
  {
    var n := |requests| - 1;
    if n > 0 {
      ChainWellFormed(x, requests[..n], replies);
      assert WellFormed(requests[..n][n - 1]);
      ExtendsWellFormed(x, replies, n - 1, requests[n - 1], requests[n]);
      assert forall k :: 0 <= k < n ==> requests[..n][k] == requests[k];
    }
  }

  predicate UsesSome(reply: Reply) {
    reply.Reply? && UseIds(reply.content) != []
  }

  /** An empty message is sent exactly when some reply stopped for tools without using one. */
  lemma {:induction false} EmptyExactly(x: Setting, requests: seq<seq<Message>>, replies: seq<Reply>)
    requires Chain(x, requests, replies) && WellFormed(requests[0]) && NoEmptyMessage(requests[0])
    ensures NoEmptyMessage(requests[|requests| - 1])
        <==> forall k :: 0 <= k < |requests| - 1 ==> UsesSome(replies[k])
  {
    var n := |requests| - 1;
    if n > 0 {
      EmptyExactly(x, requests[..n], replies);
      ChainWellFormed(x, requests, replies);
      assert requests[..n][n - 1] == requests[n - 1];
      ExtendsWellFormed(x, replies, n - 1, requests[n - 1], requests[n]);
    }
  }

  /** `messages` is what the loop sends next. */
  ghost predicate Ready(x: Setting, first: seq<Message>, requests: seq<seq<Message>>, replies: seq<Reply>,
                        messages: seq<Message>)
  {
    var n := |requests|;
    if n == 0 then messages == first
    else
      n <= |replies| && requests[0] == first && Chain(x, requests, replies)
      && Extends(x, replies, n - 1, requests[n - 1], messages)
  }

  lemma SendReady(x: Setting, first: seq<Message>, requests: seq<seq<Message>>, replies: seq<Reply>,
                  messages: seq<Message>)
    requires Ready(x, first, requests, replies, messages)
    ensures Chain(x, requests + [messages], replies) && (requests + [messages])[0] == first
  {
    assert (requests + [messages])[..|requests|] == requests;
  }

  /** The loop panics on the first tool use under a negative limit. */
  predicate Panics(x: Setting, reply: Reply) {
    GoesOn(reply) && x.maxTokens < 0 && UseIds(reply.content) != []
  }

  /** One round's assistant message, the tools it uses, and the user message with their results. */
  method AnswerTools(registry: R.ToolRegistry, ghost x: Setting, replies: seq<Reply>, round: nat, before: seq<Message>,
                     calls: nat, turn: string, tools: Tools, maxTokens: int)
    returns (messages: Option<seq<Message>>, total: nat)
    requires x.turn == turn && x.tools == tools && x.maxTokens == maxTokens
    requires round < |replies| && GoesOn(replies[round]) && calls == TotalUses(replies[..round])
    requires registry.Abs() == RegistryAfter(x, replies[..round])
    modifies registry`idempotency, registry`runs
    ensures messages.None? <==> Panics(x, replies[round])
    ensures messages.Some? ==> Extends(x, replies, round, before, messages.value)
    ensures messages.Some? ==> total == TotalUses(replies[..round + 1])
    ensures registry.Abs() == RegistryAfter(x, replies[..round + 1])
  {
    var content := replies[round].content;
    var extended := before + [Message(Assistant, content)];
    ghost var s := registry.Abs();
    var toolResultBlocks := RunTools(registry, turn, content, calls, tools, maxTokens);
    ResultsAnswerUses(s, turn, content, calls, tools, maxTokens);
    assert replies[..round + 1][..round] == replies[..round];
    if toolResultBlocks.None? {
      return None, calls;
    }
    total := calls + |toolResultBlocks.value|;
    messages := Some(extended + [Message(User, toolResultBlocks.value)]);
  }

  /** A reply after which no other request is sent. */
  predicate Last(x: Setting, reply: Reply) {
    !GoesOn(reply) || Panics(x, reply)
  }

  /** How a loop ends that has received these replies. */
  function OutcomeOf(x: Setting, replies: seq<Reply>): Outcome
    requires replies != []
  {
    var last := replies[|replies| - 1];
    if last.Failed? then CallFailed
    else if Panics(x, last) then Panicked
    else Answered(LatestText(replies), TotalUses(replies))
  }

  /** What the loop has after a number of replies: the registry, the text and the tool calls. */
  ghost predicate Tally(x: Setting, replies: seq<Reply>, s: R.State, text: string, calls: nat) {
    s == RegistryAfter(x, replies) && text == LatestText(replies) && calls == TotalUses(replies)
  }

  /** One reply of the loop: an outcome that ends it, or the next messages. */
  method TakeReply(registry: R.ToolRegistry, ghost x: Setting, replies: seq<Reply>, round: nat, before: seq<Message>,
                   text: string, calls: nat, turn: string, tools: Tools, maxTokens: int)
    returns (outcome: Option<Outcome>, messages: seq<Message>, finalText: string, total: nat)
    requires x.turn == turn && x.tools == tools && x.maxTokens == maxTokens
    requires round < |replies| && Tally(x, replies[..round], registry.Abs(), text, calls)
    modifies registry`idempotency, registry`runs
    ensures registry.Abs() == RegistryAfter(x, replies[..round + 1])
    ensures outcome.Some? <==> Last(x, replies[round])
    ensures outcome.Some? ==> outcome.value == OutcomeOf(x, replies[..round + 1])
    ensures outcome.None? ==>
      && Extends(x, replies, round, before, messages)
      && Tally(x, replies[..round + 1], registry.Abs(), finalText, total)
  {
    var reply := replies[round];
    OneMore(x, replies, round);
    messages, finalText, total := before, text, calls;
    if reply.Failed? {
      return Some(CallFailed), messages, finalText, total;
    }
    var roundText := TextOf(reply.content);
    if roundText != "" {
      finalText := roundText;
    }
    // The three ordinary endings and an unexpected stop reason end the loop alike.
    if reply.stop.EndTurn? || reply.stop.MaxTokens? || reply.stop.StopSequence? || !reply.stop.ForTools? {
      return Some(Answered(finalText, total)), messages, finalText, total;
    }
    var extended;
    extended, total := AnswerTools(registry, x, replies, round, before, calls, turn, tools, maxTokens);
    if extended.None? {
      return Some(Panicked), messages, finalText, total;
    }
    outcome, messages := None, extended.value;
  }

  /** For every model, every tool behaviour and every registry: there is at least one request and
      never more than the limit, each going on from the one before, so all of them are well formed
      when the first is; another is sent exactly after a reply that stops for tools, unless answering
      it panics; the text is that of the latest reply with any text, and the tool calls are all the
      tool uses answered. */
  method Call(registry: R.ToolRegistry, turn: string, first: seq<Message>, configured: int,
              maxTokens: int, replies: seq<Reply>, tools: Tools)
    returns (outcome: Outcome, requests: seq<seq<Message>>)
    requires |replies| == if configured <= 0 then 5 else configured
    modifies registry`idempotency, registry`runs
    ensures 1 <= |requests| <= |replies| && requests[0] == first
    ensures var x, n := Setting(old(registry.Abs()), turn, tools, maxTokens), |requests|;
      && Chain(x, requests, replies)
      && (n < |replies| ==> Last(x, replies[n - 1]))
      && registry.Abs() == RegistryAfter(x, replies[..n])
      && outcome == OutcomeOf(x, replies[..n])
  {
    ghost var x := Setting(registry.Abs(), turn, tools, maxTokens);
    var messages := first;
    var finalText, totalToolCalls := "", 0;
    var maxRounds := configured;
    if maxRounds <= 0 {
      maxRounds := 5;
    }
    requests := [];
    var round := 0;
    while round < maxRounds
      invariant 0 <= round == |requests| <= maxRounds == |replies|
      invariant Ready(x, first, requests, replies, messages)
      invariant round > 0 ==> !Last(x, replies[round - 1])
      invariant Tally(x, replies[..round], registry.Abs(), finalText, totalToolCalls)
    {
      SendReady(x, first, requests, replies, messages);
      requests := requests + [messages];
      var ended: Option<Outcome>;
      ended, messages, finalText, totalToolCalls :=
        TakeReply(registry, x, replies, round, messages, finalText, totalToolCalls, turn, tools, maxTokens);
      if ended.Some? {
        return ended.value, requests;
      }
      round := round + 1;
    }
    outcome := Answered(finalText, totalToolCalls);
  }

  /** What handleAPI sends first: the assembled history and the new user message. */
  lemma FirstRequestWellFormed(history: seq<Message>, text: string)
    requires Dialogue(history) && |history| % 2 == 0
    ensures WellFormed(history + [UserText(text)]) && NoEmptyMessage(history + [UserText(text)])
  {
    var first := history + [UserText(text)];
    forall i | 0 <= i < |first| ensures OneText(first[i]) {}
    forall i | 0 <= i < |first| ensures OutputIds(first[i].content) == [] == UseIds(first[i].content) {
      var content := first[i].content;
      assert content[..0] == [];
      assert OutputIds(content) == OutputIds(content[..0]) + [];
      assert UseIds(content) == UseIds(content[..0]) + [];
    }
  }

  /** No text block of the reply is empty. */
  predicate Wordy(reply: Reply) {
    reply.Reply? ==> AllHaveWords([Message(Assistant, reply.content)])
  }

  /** Every text block of every request is non-empty if and only if those of the first request and
      of the replies that were gone on from are. */
  lemma {:induction false} ChainHasWords(x: Setting, requests: seq<seq<Message>>, replies: seq<Reply>)
    requires Chain(x, requests, replies)
    ensures AllHaveWords(requests[|requests| - 1])
        <==> AllHaveWords(requests[0])
             && forall k :: 0 <= k < |requests| - 1 ==> Wordy(replies[k])
  {
    var n := |requests| - 1;
    if n > 0 {
      ChainHasWords(x, requests[..n], replies);
      assert requests[..n][n - 1] == requests[n - 1] && requests[..n][0] == requests[0];
      ExtendsHasWords(x, replies, n - 1, requests[n - 1], requests[n]);
    }
  }

  lemma {:induction false} OutputsOnly(s: R.State, turn: string, content: seq<Block>, k: nat, tools: Tools,
                                       maxTokens: int)
    ensures var blocks := ToolResults(s, turn, content, k, tools, maxTokens).1;
      blocks.Some? ==> forall i :: 0 <= i < |blocks.value| ==> blocks.value[i].ToolOutput?
  {
    if content != [] {
      OutputsOnly(s, turn, content[..|content| - 1], k, tools, maxTokens);
    }
  }

  lemma ExtendsHasWords(x: Setting, replies: seq<Reply>, k: nat, before: seq<Message>, after: seq<Message>)
    requires k < |replies| && Extends(x, replies, k, before, after)
    ensures AllHaveWords(after) <==> AllHaveWords(before) && Wordy(replies[k])
  {
    var reply, results := Message(Assistant, replies[k].content), Message(User, Answers(x, replies, k).value);
    OutputsOnly(RegistryAfter(x, replies[..k]), x.turn, replies[k].content, TotalUses(replies[..k]), x.tools,
                x.maxTokens);
    assert HasWords(results);
    assert after == before + ([reply] + [results]);
    WordsAppend(before, [reply] + [results]);
    WordsAppend([reply], [results]);
  }

  /** The answer is empty if and only if no reply had any text. */
  lemma {:induction false} EmptyAnswerExactly(replies: seq<Reply>)
    ensures LatestText(replies) == ""
        <==> forall k :: 0 <= k < |replies| && replies[k].Reply? ==> RoundText(replies[k].content) == ""
  {
    if replies != [] {
      EmptyAnswerExactly(replies[..|replies| - 1]);
    }
  }

  /** One message to the session, how its turn ended, and what else is stored of it. */
  datatype Attempt = Attempt(text: string, outcome: Outcome, id: TurnId, ts: int, details: int)

  /** What HandleMessage does to the turns: only an answered turn is stored, even an empty one. */
  function AfterMessage(turns: seq<Turn>, a: Attempt): seq<Turn> {
    if a.outcome.Answered? then turns + [Turn(a.id, a.ts, a.text, a.outcome.text, a.details)] else turns
  }

  function AfterAll(turns: seq<Turn>, attempts: seq<Attempt>): seq<Turn>
    decreases |attempts|
  {
    if attempts == [] then turns else AfterAll(AfterMessage(turns, attempts[0]), attempts[1..])
  }

  /** The service refuses requests with an empty text block, as its answers to these attempts show:
      none is answered whose first request has one. */
  predicate Refused(cap: int, budget: int, cost: Cost, turns: seq<Turn>, attempts: seq<Attempt>)
    decreases |attempts|
  {
    attempts == [] ||
    (&& (attempts[0].outcome.Answered? ==> AllSpoken(Window(cap, budget, cost, turns)) && attempts[0].text != "")
     && Refused(cap, budget, cost, AfterMessage(turns, attempts[0]), attempts[1..]))
  }

  /** With such a service a session whose window holds a turn with an empty side never moves on: no
      message is answered any more, however many are sent. */
  lemma {:induction false} EmptyAnswerSticks(cap: int, budget: int, cost: Cost, turns: seq<Turn>,
                                             attempts: seq<Attempt>)
    requires !AllSpoken(Window(cap, budget, cost, turns)) && Refused(cap, budget, cost, turns, attempts)
    ensures AfterAll(turns, attempts) == turns
    ensures forall k :: 0 <= k < |attempts| ==> !attempts[k].outcome.Answered?
    decreases |attempts|
  {
    if attempts != [] {
      EmptyAnswerSticks(cap, budget, cost, turns, attempts[1..]);
      assert forall k :: 1 <= k < |attempts| ==> attempts[k] == attempts[1..][k - 1];
    }
  }

  /** The requests of one turn say something in every text block: the first exactly if every turn of
      the window and the new message do, the last exactly if all replies gone on from do as well. */
  ghost predicate SaysWords(requests: seq<seq<Message>>, turns: seq<Turn>, text: string, replies: seq<Reply>)
    requires 1 <= |requests| <= |replies|
  {
    && (AllHaveWords(requests[0]) <==> AllSpoken(turns) && text != "")
    && (AllHaveWords(requests[|requests| - 1])
        <==> AllSpoken(turns) && text != "" && forall k :: 0 <= k < |requests| - 1 ==> Wordy(replies[k]))
  }

  lemma TurnSaysWords(x: Setting, history: seq<Message>, turns: seq<Turn>, cold: string, text: string,
                      requests: seq<seq<Message>>, replies: seq<Reply>)
    requires Assembled(history, turns, cold) && |requests| <= |replies| && Chain(x, requests, replies)
    requires requests[0] == history + [UserText(text)]
    ensures SaysWords(requests, turns, text, replies)
  {
    BuildHasWords(history, turns, cold);
    WordsAppend(history, [UserText(text)]);
    assert [UserText(text)][0].content[0].Text?;
    assert AllHaveWords([UserText(text)]) <==> text != "";
    ChainHasWords(x, requests, replies);
  }

  lemma TurnWellFormed(x: Setting, history: seq<Message>, turns: seq<Turn>, cold: string, text: string,
                       requests: seq<seq<Message>>, replies: seq<Reply>)
    requires Assembled(history, turns, cold) && Chain(x, requests, replies)
    requires requests[0] == history + [UserText(text)]
    ensures forall k :: 0 <= k < |requests| ==> WellFormed(requests[k])
    ensures requests[0][..|requests[0]| - 1] == history
  {
    FirstRequestWellFormed(history, text);
    ChainWellFormed(x, requests, replies);
  }

  /** One API turn, from the context turns to the answer. */
  method HandleTurn(registry: R.ToolRegistry, turn: string, contextTurns: seq<Turn>, cold: string,
                    text: string, configured: int, maxTokens: int, replies: seq<Reply>, tools: Tools)
    returns (outcome: Outcome, requests: seq<seq<Message>>)
    requires |replies| == if configured <= 0 then 5 else configured
    modifies registry`idempotency, registry`runs
    ensures 1 <= |requests| <= if configured <= 0 then 5 else configured
    ensures forall k :: 0 <= k < |requests| ==> WellFormed(requests[k])
    ensures |requests[0]| >= 1 && Assembled(requests[0][..|requests[0]| - 1], contextTurns, cold)
    ensures Recounts(requests[0][..|requests[0]| - 1], contextTurns, cold)
    ensures requests[0][|requests[0]| - 1] == UserText(text)
    ensures SaysWords(requests, contextTurns, text, replies)
    ensures outcome.Answered? ==> outcome.text == LatestText(replies[..|requests|])
    ensures outcome.CallFailed? <==> replies[|requests| - 1].Failed?
    ensures outcome.Panicked? ==> maxTokens < 0
  {
    var messages := Build(contextTurns, cold);
    ghost var x := Setting(registry.Abs(), turn, tools, maxTokens);
    outcome, requests := Call(registry, turn, messages + [UserText(text)], configured, maxTokens, replies, tools);
    TurnWellFormed(x, messages, contextTurns, cold, text, requests, replies);
    TurnSaysWords(x, messages, contextTurns, cold, text, requests, replies);
  }
}
