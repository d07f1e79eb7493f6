/** The messages of one request: cached history, recalled context, recent turns. */
module Assembler {
  import opened SessionLog
  import opened ContextWindow

  datatype Role = User | Assistant

  datatype Block =
    | Text(text: string, cached: bool)
    | ToolUse(id: string, name: string, input: string)
    | ToolOutput(useId: string, output: string, isError: bool)

  datatype Message = Message(role: Role, content: seq<Block>)

  function UserText(text: string): Message {
    Message(User, [Text(text, false)])
  }

  function AssistantText(text: string): Message {
    Message(Assistant, [Text(text, false)])
  }

  function Flatten(turns: seq<Turn>): (msgs: seq<Message>)
    ensures |msgs| == 2 * |turns|
  {
    if turns == [] then []
    else
      var last := turns[|turns| - 1];
      Flatten(turns[..|turns| - 1]) + [UserText(last.user), AssistantText(last.assistant)]
  }

  method TurnsToMessages(turns: seq<Turn>) returns (msgs: seq<Message>)
    ensures msgs == Flatten(turns)
    ensures IsHistory(msgs, turns)
  {
    FlattenIsHistory(turns);
    msgs := [];
    for i := 0 to |turns|
      invariant msgs == Flatten(turns[..i])
    {
      assert turns[..i + 1][..i] == turns[..i];
      msgs := msgs + [UserText(turns[i].user), AssistantText(turns[i].assistant)];
    }
    assert turns[..|turns|] == turns;
  }

  /** One text block, with this text, from this side. */
  predicate Says(msg: Message, role: Role, text: string) {
    msg.role == role && |msg.content| == 1 && msg.content[0].Text? && msg.content[0].text == text
  }

  /** Turn by turn what the user said and then what was answered. */
  ghost predicate IsHistory(msgs: seq<Message>, turns: seq<Turn>) {
    |msgs| == 2 * |turns| &&
    forall i :: 0 <= i < |turns| ==>
      Says(msgs[2 * i], User, turns[i].user) && Says(msgs[2 * i + 1], Assistant, turns[i].assistant)
  }

  lemma {:induction false} FlattenIsHistory(turns: seq<Turn>)
    ensures IsHistory(Flatten(turns), turns)
  {
    if turns != [] {
      var init := turns[..|turns| - 1];
      FlattenIsHistory(init);
      forall i | 0 <= i < |turns|
        ensures Says(Flatten(turns)[2 * i], User, turns[i].user)
        ensures Says(Flatten(turns)[2 * i + 1], Assistant, turns[i].assistant)
      {
        if i < |init| {
          assert turns[i] == init[i];
        }
      }
    }
  }

  /** Cache mark on the last block of a message, if that is text. */
  method MarkCached(msg: Message) returns (marked: Message)
    ensures marked.role == msg.role && |marked.content| == |msg.content|
    ensures Unmark(marked) == Unmark(msg)
    ensures Marked(marked) <==> Marked(msg) || (msg.content != [] && msg.content[|msg.content| - 1].Text?)
  {
    marked := msg;
    if |msg.content| == 0 {
      return;
    }
    var last := |msg.content| - 1;
    if msg.content[last].Text? {
      marked := msg.(content := msg.content[last := msg.content[last].(cached := true)]);
      assert marked.content[last].cached;
      forall i | 0 <= i < |msg.content| && i != last ensures marked.content[i] == msg.content[i] {}
    }
  }

  predicate Marked(msg: Message) {
    exists i :: 0 <= i < |msg.content| && msg.content[i].Text? && msg.content[i].cached
  }

  function Unmark(msg: Message): Message {
    msg.(content := seq(|msg.content|, i requires 0 <= i < |msg.content| =>
      if msg.content[i].Text? then msg.content[i].(cached := false) else msg.content[i]))
  }

  function UnmarkAll(msgs: seq<Message>): seq<Message> {
    seq(|msgs|, i requires 0 <= i < |msgs| => Unmark(msgs[i]))
  }

  /** How many turns go into the cached tier: all but the last two. */
  function Tier2Count(turns: seq<Turn>): nat {
    if |turns| > 2 then |turns| - 2 else 0
  }

  const RECALL := "[What I recall that may be relevant]\n"
  const UNDERSTOOD := "Understood. I have that context."

  function ColdPair(cold: string): seq<Message> {
    if cold == "" then []
    else [UserText(RECALL + cold), AssistantText(UNDERSTOOD)]
  }

  lemma {:induction false} FlattenAppend(a: seq<Turn>, b: seq<Turn>)
    ensures Flatten(a + b) == Flatten(a) + Flatten(b)
  {
    if b == [] {
      assert a + b == a;
    } else {
      assert (a + b)[..|a + b| - 1] == a + b[..|b| - 1];
      FlattenAppend(a, b[..|b| - 1]);
    }
  }

  predicate OneText(msg: Message) {
    |msg.content| == 1 && msg.content[0].Text?
  }

  /** User and assistant in turn, one text block each. */
  ghost predicate Dialogue(msgs: seq<Message>) {
    forall i :: 0 <= i < |msgs| ==> OneText(msgs[i]) && (msgs[i].role.User? <==> i % 2 == 0)
  }

  lemma {:induction false} FlattenDialogue(turns: seq<Turn>)
    ensures Dialogue(Flatten(turns))
    ensures forall m :: m in Flatten(turns) ==> !Marked(m) && Unmark(m) == m
  {
    if turns != [] {
      FlattenDialogue(turns[..|turns| - 1]);
    }
  }

  /** The cached tier: its last message, and no other, carries the mark. */
  method CachedTier(turns: seq<Turn>) returns (msgs: seq<Message>)
    ensures UnmarkAll(msgs) == Flatten(turns) && Dialogue(msgs)
    ensures forall i :: 0 <= i < |msgs| ==> (Marked(msgs[i]) <==> i == |msgs| - 1)
  {
    FlattenDialogue(turns);
    msgs := TurnsToMessages(turns);
    ghost var plain := msgs;
    if |msgs| > 0 {
      var marked := MarkCached(msgs[|msgs| - 1]);
      assert OneText(plain[|msgs| - 1]) && Unmark(marked).content[0].Text?;
      msgs := msgs[|msgs| - 1 := marked];
    }
    assert forall i :: 0 <= i < |msgs| - 1 ==> msgs[i] == plain[i] && plain[i] in plain;
    assert forall i :: 0 <= i < |msgs| ==> Unmark(msgs[i]) == plain[i];
  }

  /** Taking out the recalled pair and the mark leaves exactly the flattened turns; the mark is
      on the last message of the cached tier and nowhere else. */
  ghost predicate Assembled(allMsgs: seq<Message>, turns: seq<Turn>, cold: string) {
    var n, pair := 2 * Tier2Count(turns), ColdPair(cold);
    && |allMsgs| == 2 * |turns| + |pair|
    && allMsgs[n..n + |pair|] == pair
    && UnmarkAll(allMsgs[..n]) + allMsgs[n + |pair|..] == Flatten(turns)
    && (forall i :: 0 <= i < |allMsgs| ==> (Marked(allMsgs[i]) <==> i == n - 1))
    && Dialogue(allMsgs)
  }

  /** In front of the last two turns stands what was recalled, if anything was, as a user message that
      carries it and an answer; all else is, turn by turn, the history. */
  ghost predicate Recounts(allMsgs: seq<Message>, turns: seq<Turn>, cold: string) {
    var n := if |turns| > 2 then 2 * |turns| - 4 else 0;
    var p := if cold == "" then 0 else 2;
    && |allMsgs| == 2 * |turns| + p
    && IsHistory(allMsgs[..n] + allMsgs[n + p..], turns)
    && (cold != "" ==>
          && Says(allMsgs[n], User, "[What I recall that may be relevant]\n" + cold)
          && Says(allMsgs[n + 1], Assistant, "Understood. I have that context."))
  }

  lemma UnmarkSays(msg: Message, plain: Message, role: Role, text: string)
    requires OneText(msg) && (msg == plain || Unmark(msg) == plain) && Says(plain, role, text)
    ensures Says(msg, role, text)
  {
    assert Unmark(msg).content[0].text == msg.content[0].text;
  }

  /** Messages that differ from the history in marks only are the history. */
  lemma MarkedHistory(msgs: seq<Message>, plain: seq<Message>, turns: seq<Turn>)
    requires |msgs| == |plain| && IsHistory(plain, turns)
    requires forall k :: 0 <= k < |msgs| ==> OneText(msgs[k]) && (msgs[k] == plain[k] || Unmark(msgs[k]) == plain[k])
    ensures IsHistory(msgs, turns)
  {
    forall i | 0 <= i < |turns|
      ensures Says(msgs[2 * i], User, turns[i].user) && Says(msgs[2 * i + 1], Assistant, turns[i].assistant)
    {
      UnmarkSays(msgs[2 * i], plain[2 * i], User, turns[i].user);
      UnmarkSays(msgs[2 * i + 1], plain[2 * i + 1], Assistant, turns[i].assistant);
    }
  }

  lemma WithoutPair(allMsgs: seq<Message>, n: nat, p: nat, flat: seq<Message>)
    requires n + p <= |allMsgs| && Dialogue(allMsgs) && UnmarkAll(allMsgs[..n]) + allMsgs[n + p..] == flat
    ensures var left := allMsgs[..n] + allMsgs[n + p..];
      && |left| == |flat|
      && forall k :: 0 <= k < |left| ==> OneText(left[k]) && (left[k] == flat[k] || Unmark(left[k]) == flat[k])
  {
    var left := allMsgs[..n] + allMsgs[n + p..];
    forall k | 0 <= k < |left| ensures OneText(left[k]) && (left[k] == flat[k] || Unmark(left[k]) == flat[k]) {
      if k < n {
        assert left[k] == allMsgs[k] && flat[k] == Unmark(allMsgs[..n][k]);
      } else {
        assert left[k] == allMsgs[k + p] == flat[k];
      }
    }
  }

  lemma HistoryPart(allMsgs: seq<Message>, n: nat, p: nat, turns: seq<Turn>)
    requires n + p <= |allMsgs| && Dialogue(allMsgs)
    requires UnmarkAll(allMsgs[..n]) + allMsgs[n + p..] == Flatten(turns)
    ensures IsHistory(allMsgs[..n] + allMsgs[n + p..], turns)
  {
    FlattenIsHistory(turns);
    WithoutPair(allMsgs, n, p, Flatten(turns));
    MarkedHistory(allMsgs[..n] + allMsgs[n + p..], Flatten(turns), turns);
  }

  lemma PairPart(allMsgs: seq<Message>, n: nat, cold: string)
    requires cold != "" && n + 2 <= |allMsgs| && allMsgs[n..n + 2] == ColdPair(cold)
    ensures Says(allMsgs[n], User, "[What I recall that may be relevant]\n" + cold)
    ensures Says(allMsgs[n + 1], Assistant, "Understood. I have that context.")
  {
    assert allMsgs[n..n + 2][0] == allMsgs[n] && allMsgs[n..n + 2][1] == allMsgs[n + 1];
  }

  lemma AssembledRecounts(allMsgs: seq<Message>, turns: seq<Turn>, cold: string)
    requires Assembled(allMsgs, turns, cold)
    ensures Recounts(allMsgs, turns, cold)
  {
    PartsRecount(allMsgs, turns, cold, 2 * Tier2Count(turns), |ColdPair(cold)|);
  }

  lemma PartsRecount(allMsgs: seq<Message>, turns: seq<Turn>, cold: string, n: nat, p: nat)
    requires n == (if |turns| > 2 then 2 * |turns| - 4 else 0) && p == if cold == "" then 0 else 2
    requires |allMsgs| == 2 * |turns| + p && Dialogue(allMsgs) && (cold != "" ==> allMsgs[n..n + 2] == ColdPair(cold))
    requires UnmarkAll(allMsgs[..n]) + allMsgs[n + p..] == Flatten(turns)
    ensures Recounts(allMsgs, turns, cold)
  {
    HistoryPart(allMsgs, n, p, turns);
    if cold != "" {
      PairPart(allMsgs, n, cold);
    }
  }

  /** Build: the cached tier, the recalled pair, then the recent turns. */
  method Build(contextTurns: seq<Turn>, cold: string) returns (allMsgs: seq<Message>)
    ensures Assembled(allMsgs, contextTurns, cold)
    ensures Recounts(allMsgs, contextTurns, cold)
  {
    var tier2Turns, tier4Turns := [], contextTurns;
    if |contextTurns| > 2 {
      tier2Turns := contextTurns[..|contextTurns| - 2];
      tier4Turns := contextTurns[|contextTurns| - 2..];
    }
    var tier2Msgs := CachedTier(tier2Turns);
    var tier4Msgs := TurnsToMessages(tier4Turns);
    allMsgs := tier2Msgs;
    if cold != "" {
      allMsgs := allMsgs + [UserText(RECALL + cold), AssistantText(UNDERSTOOD)];
    }
    allMsgs := allMsgs + tier4Msgs;
    assert tier2Turns + tier4Turns == contextTurns;
    assert allMsgs == tier2Msgs + ColdPair(cold) + tier4Msgs;
    TiersAssemble(tier2Turns, tier4Turns, cold, tier2Msgs);
    AssembledRecounts(allMsgs, contextTurns, cold);
  }

  lemma TiersAssemble(tier2: seq<Turn>, tier4: seq<Turn>, cold: string, msgs: seq<Message>)
    requires UnmarkAll(msgs) == Flatten(tier2) && Dialogue(msgs)
    requires forall i :: 0 <= i < |msgs| ==> (Marked(msgs[i]) <==> i == |msgs| - 1)
    requires |tier2| == Tier2Count(tier2 + tier4)
    ensures Assembled(msgs + ColdPair(cold) + Flatten(tier4), tier2 + tier4, cold)
  {
    FlattenAppend(tier2, tier4);
    FlattenDialogue(tier4);
    ColdPairPlain(cold);
    assert |UnmarkAll(msgs)| == |msgs|;
    JoinTiers(msgs, ColdPair(cold), Flatten(tier4));
  }

  lemma ColdPairPlain(cold: string)
    ensures Dialogue(ColdPair(cold)) && |ColdPair(cold)| % 2 == 0
    ensures forall m :: m in ColdPair(cold) ==> !Marked(m)
  {
  }

  lemma JoinTiers(a: seq<Message>, b: seq<Message>, c: seq<Message>)
    requires Dialogue(a) && Dialogue(b) && Dialogue(c) && |a| % 2 == |b| % 2 == 0
    requires forall i :: 0 <= i < |a| ==> (Marked(a[i]) <==> i == |a| - 1)
    requires forall m :: m in b || m in c ==> !Marked(m)
    ensures var all := a + b + c;
      && Dialogue(all)
      && all[..|a|] == a && all[|a|..|a| + |b|] == b && all[|a| + |b|..] == c
      && forall i :: 0 <= i < |all| ==> (Marked(all[i]) <==> i == |a| - 1)
  {
    var all := a + b + c;
    forall i | 0 <= i < |all|
      ensures OneText(all[i]) && (all[i].role.User? <==> i % 2 == 0)
      ensures Marked(all[i]) <==> i == |a| - 1
    {
      if i >= |a| {
        var j := i - |a|;
        assert j % 2 == i % 2;
        assert all[i] == if j < |b| then b[j] else c[j - |b|];
        assert j >= |b| ==> (j - |b|) % 2 == j % 2;
      }
    }
  }

  // ----- empty text -----

  /** No text block of this message is empty. */
  predicate HasWords(msg: Message) {
    forall i :: 0 <= i < |msg.content| ==> msg.content[i].Text? ==> msg.content[i].text != ""
  }

  predicate AllHaveWords(msgs: seq<Message>) {
    forall i :: 0 <= i < |msgs| ==> HasWords(msgs[i])
  }

  /** Both sides of the exchange said something. */
  predicate Spoken(t: Turn) {
    t.user != "" && t.assistant != ""
  }

  predicate AllSpoken(turns: seq<Turn>) {
    forall i :: 0 <= i < |turns| ==> Spoken(turns[i])
  }

  lemma WordsAppend(a: seq<Message>, b: seq<Message>)
    ensures AllHaveWords(a + b) <==> AllHaveWords(a) && AllHaveWords(b)
  {
    var all := a + b;
    assert forall i :: 0 <= i < |a| ==> all[i] == a[i];
    assert forall i :: 0 <= i < |b| ==> all[|a| + i] == b[i];
  }

  lemma UnmarkKeepsWords(msgs: seq<Message>)
    ensures AllHaveWords(UnmarkAll(msgs)) <==> AllHaveWords(msgs)
  {
    forall i | 0 <= i < |msgs| ensures HasWords(UnmarkAll(msgs)[i]) <==> HasWords(msgs[i]) {
      var msg := msgs[i];
      assert forall k :: 0 <= k < |msg.content| && msg.content[k].Text? ==>
        Unmark(msg).content[k].Text? && Unmark(msg).content[k].text == msg.content[k].text;
    }
  }

  lemma PairHasWords(user: string, assistant: string)
    ensures AllHaveWords([UserText(user), AssistantText(assistant)]) <==> user != "" && assistant != ""
  {
    var pair := [UserText(user), AssistantText(assistant)];
    assert pair[0].content[0].Text? && pair[1].content[0].Text?;
    assert HasWords(pair[0]) <==> user != "";
    assert HasWords(pair[1]) <==> assistant != "";
  }

  lemma {:induction false} FlattenHasWords(turns: seq<Turn>)
    ensures AllHaveWords(Flatten(turns)) <==> AllSpoken(turns)
  {
    if turns != [] {
      var init, last := turns[..|turns| - 1], turns[|turns| - 1];
      FlattenHasWords(init);
      PairHasWords(last.user, last.assistant);
      WordsAppend(Flatten(init), [UserText(last.user), AssistantText(last.assistant)]);
      assert AllSpoken(turns) <==> AllSpoken(init) && Spoken(last);
    }
  }

  /** The messages built have no empty text block if and only if no turn in the window has an empty
      side, whatever is recalled. */
  lemma BuildHasWords(allMsgs: seq<Message>, turns: seq<Turn>, cold: string)
    requires Assembled(allMsgs, turns, cold)
    ensures AllHaveWords(allMsgs) <==> AllSpoken(turns)
  {
    var n, pair := 2 * Tier2Count(turns), ColdPair(cold);
    var tier2, tier4 := allMsgs[..n], allMsgs[n + |pair|..];
    assert allMsgs == tier2 + (pair + tier4);
    WordsAppend(tier2, pair + tier4);
    WordsAppend(pair, tier4);
    if cold != "" {
      PairHasWords(RECALL + cold, UNDERSTOOD);
    }
    UnmarkKeepsWords(tier2);
    WordsAppend(UnmarkAll(tier2), tier4);
    FlattenHasWords(turns);
  }

  // ----- the cached tier from turn to turn -----

  lemma {:induction false} PrefixCost(a: seq<Turn>, b: seq<Turn>, cost: Cost)
    ensures TotalCost(a, cost) <= TotalCost(a + b, cost)
  {
    if a != [] {
      assert (a + b)[1..] == a[1..] + b;
      PrefixCost(a[1..], b, cost);
    }
  }

  /** A window that drops nothing dropped nothing before the newest turn came. */
  lemma WholeBefore(cap: int, budget: int, cost: Cost, history: seq<Turn>, t: Turn)
    requires Window(cap, budget, cost, history + [t]) == history + [t]
    ensures Window(cap, budget, cost, history) == history
  {
    var all := history + [t];
    PrefixCost(history, [t], cost);
    if budget > 0 {
      FitIsLongest(LastTurns(cap, all), budget, cost);
    }
    assert LastTurns(cap, all) == all;
  }

  /** The cached tier among the messages built for `turns`, mark aside. */
  function Tier2Of(allMsgs: seq<Message>, turns: seq<Turn>): seq<Message>
    requires |allMsgs| >= 2 * |turns|
  {
    UnmarkAll(allMsgs[..2 * Tier2Count(turns)])
  }

  lemma Tier2IsFlat(allMsgs: seq<Message>, turns: seq<Turn>, cold: string)
    requires Assembled(allMsgs, turns, cold)
    ensures Tier2Of(allMsgs, turns) == Flatten(turns[..Tier2Count(turns)])
  {
    var n := Tier2Count(turns);
    FlattenAppend(turns[..n], turns[n..]);
    assert turns[..n] + turns[n..] == turns;
    assert Flatten(turns)[..2 * n] == Flatten(turns[..n]);
    assert (UnmarkAll(allMsgs[..2 * n]) + allMsgs[2 * n + |ColdPair(cold)|..])[..2 * n] == UnmarkAll(allMsgs[..2 * n]);
  }

  /** As long as the window, under its cap and its budget, drops nothing, the cached tier that
      Build makes only ever grows at its end, mark aside and whatever is recalled. */
  lemma Tier2Grows(cap: int, budget: int, cost: Cost, history: seq<Turn>, t: Turn, cold: string, cold': string,
                   before: seq<Message>, after: seq<Message>)
    requires Window(cap, budget, cost, history + [t]) == history + [t]
    requires Assembled(before, Window(cap, budget, cost, history), cold)
    requires Assembled(after, history + [t], cold')
    ensures Window(cap, budget, cost, history) == history
    ensures Tier2Of(before, history) <= Tier2Of(after, history + [t])
  {
    WholeBefore(cap, budget, cost, history, t);
    Tier2IsFlat(before, history, cold);
    Tier2IsFlat(after, history + [t], cold');
    var longer := (history + [t])[..Tier2Count(history + [t])];
    var shorter := history[..Tier2Count(history)];
    assert longer == shorter + longer[|shorter|..];
    FlattenAppend(shorter, longer[|shorter|..]);
  }
}
