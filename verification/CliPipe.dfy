/** The executor and the drain, joined by a bounded channel, under a context that may end at any
    step. Each side may take the end of the context instead of its channel, but need not. */
module CliPipe {
  import opened Seqs
  import opened CliStream
  import Runs

  const CAPACITY := 64

  // ----- the executor -----

  /** The sends of one line's events, up to the first that is refused. */
  method SendEvents(before: seq<Event>, evts: seq<Event>, sendOk: seq<bool>, endedBefore: bool)
    returns (sent: seq<Event>, doneEmitted: bool, refused: bool)
    requires |before| + |evts| <= |sendOk| && (endedBefore <==> HasEnd(before))
    ensures before <= sent <= before + evts
    ensures doneEmitted <==> HasEnd(sent)
    ensures forall k :: |before| <= k < |sent| ==> sendOk[k]
    ensures if refused then |sent| < |before| + |evts| && !sendOk[|sent|] else sent == before + evts
  {
    sent, doneEmitted := before, endedBefore;
    for j := 0 to |evts|
      invariant sent == before + evts[..j]
      invariant doneEmitted <==> HasEnd(sent)
      invariant forall k :: |before| <= k < |sent| ==> sendOk[k]
    {
      if !sendOk[|sent|] {
        return sent, doneEmitted, true;
      }
      EndSnoc(sent, evts[j]);
      doneEmitted := doneEmitted || evts[j].Done? || evts[j].Error?;
      sent := sent + [evts[j]];
    }
    refused := false;
  }

  /** What the executor has sent of the events that the lines give, and what is still to come. */
  ghost predicate Forwarding(events: seq<Event>, sent: seq<Event>, rest: seq<Event>, sendOk: seq<bool>,
                             doneEmitted: bool)
  {
    && sent + rest == events && |events| <= |sendOk|
    && (forall k :: 0 <= k < |sent| ==> sendOk[k])
    && (doneEmitted <==> HasEnd(sent))
  }

  /** One line is parsed and its events are sent; `tail` are the lines still to come. */
  method SendLine(parser: LineParser, line: Line, ghost tail: seq<Line>, ghost events: seq<Event>,
                  before: seq<Event>, sendOk: seq<bool>, endedBefore: bool)
    returns (sent: seq<Event>, doneEmitted: bool, refused: bool)
    requires Forwarding(events, before, Events(parser.Abs(), [line] + tail), sendOk, endedBefore)
    modifies parser
    ensures !refused ==> Forwarding(events, sent, Events(parser.Abs(), tail), sendOk, doneEmitted)
    ensures refused ==> Refused(events, sent, sendOk)
  {
    ghost var cursor := parser.Abs();
    var evts := parser.ParseStreamLine(line);
    EventsFirst(cursor, line, tail);
    AppendAssociates(before, evts, Events(parser.Abs(), tail));
    sent, doneEmitted, refused := SendEvents(before, evts, sendOk, endedBefore);
  }

  /** A send was refused before all the events were sent. */
  ghost predicate Refused(events: seq<Event>, sent: seq<Event>, sendOk: seq<bool>) {
    && sent < events && |events| <= |sendOk|
    && (forall k :: 0 <= k < |sent| ==> sendOk[k])
    && !sendOk[|sent|]
  }

  /** All the lines, one by one. */
  method SendLines(lines: seq<Line>, sendOk: seq<bool>) returns (sent: seq<Event>, doneEmitted: bool, refused: bool)
    requires |Events(START, lines)| <= |sendOk|
    ensures !refused ==> Forwarding(Events(START, lines), sent, [], sendOk, doneEmitted)
    ensures refused ==> Refused(Events(START, lines), sent, sendOk)
  {
    ghost var events := Events(START, lines);
    sent := [];
    var parser := new LineParser();
    doneEmitted, refused := false, false;
    assert lines[0..] == lines;
    for i := 0 to |lines|
      invariant Forwarding(events, sent, Events(parser.Abs(), lines[i..]), sendOk, doneEmitted)
    {
      assert lines[i..] == [lines[i]] + lines[i + 1..];
      sent, doneEmitted, refused := SendLine(parser, lines[i], lines[i + 1..], events, sent, sendOk, doneEmitted);
      if refused {
        return;
      }
    }
  }

  /** The executor's goroutine. `sendOk[i]` says whether the i-th send is made, or the end of the
      context is taken in its place. It sends all that the process gives up to the first refusal. */
  method Execute(lines: seq<Line>, exitError: string, sendOk: seq<bool>) returns (sent: seq<Event>)
    requires |sendOk| == |StreamEvents(lines, exitError)|
    ensures sent <= StreamEvents(lines, exitError)
    ensures forall i :: 0 <= i < |sent| ==> sendOk[i]
    ensures sent != StreamEvents(lines, exitError) ==> !sendOk[|sent|]
  {
    var doneEmitted, refused;
    sent, doneEmitted, refused := SendLines(lines, sendOk);
    if refused {
      return;
    }
    assert sent + [] == sent;
    if exitError != "" && !doneEmitted {
      if sendOk[|sent|] {
        sent := sent + [Error(exitError)];
      }
    }
  }

  lemma EventsFirst(c: Cursor, line: Line, tail: seq<Line>)
    ensures Events(c, [line] + tail) == Parse(c, line).1 + Events(Parse(c, line).0, tail)
  {
    assert ([line] + tail)[1..] == tail;
  }

  lemma EndSnoc(events: seq<Event>, e: Event)
    ensures HasEnd(events + [e]) <==> HasEnd(events) || e.Done? || e.Error?
  {
    var all := events + [e];
    assert all[|events|] == e;
    if HasEnd(events) {
      var i :| 0 <= i < |events| && (events[i].Done? || events[i].Error?);
      assert all[i] == events[i];
    }
  }

  // ----- both sides -----

  /** `Shut` is the closed channel; `cut` says that the executor took the end of the context,
      `ended` that the context had ended by then. */
  datatype Executor = Scanning | Reporting | Shut(cut: bool, ended: bool)

  /** `unread` is what the process still has to say and `exitError` how it exits, killed or not;
      `pending` are the events of the line read last, `sent` all that ever went into the channel,
      and `choices` what the drain's selects have taken. */
  datatype State = State(
    ended: bool,
    executor: Executor,
    unread: seq<Line>,
    exitError: string,
    cursor: Cursor,
    pending: seq<Event>,
    doneEmitted: bool,
    sent: seq<Event>,
    drain: Phase,
    choices: seq<Choice>)

  function Initial(lines: seq<Line>, exitError: string): State {
    State(false, Scanning, lines, exitError, START, [], false, [], Going(0), [])
  }

  datatype Action = EndContext | ReadLine | Send | Abandon | Exit | Round(choice: Choice)

  predicate Enabled(s: State, a: Action) {
    match a
    case EndContext => !s.ended
    case ReadLine => s.executor.Scanning? && s.pending == [] && s.unread != []
    case Send => s.pending != [] && |s.sent| < s.drain.taken + CAPACITY
    case Abandon => s.pending != [] && s.ended
    case Exit => s.executor.Scanning? && s.pending == [] && s.unread == []
    case Round(choice) =>
      && s.drain.Going? && s.drain.taken <= |s.sent|
      && (choice == Read(true) || s.ended)
      && (choice.Read? ==> s.drain.taken < |s.sent| || s.executor.Shut?)
  }

  /** One atomic step; an action that is not enabled changes nothing. */
  function Next(s: State, a: Action): State {
    if !Enabled(s, a) then s else
    match a
    case EndContext => s.(ended := true)
    case ReadLine =>
      var (cursor, events) := Parse(s.cursor, s.unread[0]);
      s.(cursor := cursor, pending := events, unread := s.unread[1..])
    case Send =>
      var e := s.pending[0];
      s.(pending := s.pending[1..], sent := s.sent + [e], doneEmitted := s.doneEmitted || e.Done? || e.Error?,
         executor := if s.executor.Reporting? then Shut(false, s.ended) else s.executor)
    case Abandon => s.(pending := [], executor := Shut(true, s.ended))
    case Exit =>
      if s.exitError != "" && !s.doneEmitted then s.(executor := Reporting, pending := [Error(s.exitError)])
      else s.(executor := Shut(false, s.ended))
    case Round(choice) =>
      s.(drain := DrainStep(s.sent, s.drain.taken, choice), choices := s.choices + [choice])
  }

  function Run(s: State, actions: seq<Action>): State {
    Runs.Run(Next, s, actions)
  }

  ghost predicate Reachable(lines: seq<Line>, exitError: string, s: State) {
    exists actions :: s == Run(Initial(lines, exitError), actions)
  }

  /** What has been sent, what is to be sent and what is still to be read make up the stream. */
  ghost predicate Conserved(s: State, lines: seq<Line>, exitError: string) {
    var all := StreamEvents(lines, exitError);
    && s.exitError == exitError
    && match s.executor
       case Scanning =>
         s.sent + s.pending + Events(s.cursor, s.unread) == Events(START, lines)
         && (s.doneEmitted <==> HasEnd(s.sent))
       case Reporting => s.pending == [Error(exitError)] && s.sent + s.pending == all
       case Shut(cut, ended) => s.pending == [] && s.sent <= all && (cut <==> s.sent != all) && (cut ==> ended)
  }

  ghost predicate FollowedAt(s: State, i: nat)
    requires i < |s.choices|
  {
    && i <= |s.sent|
    && DrainStep(s.sent, i, s.choices[i]) == if i == |s.choices| - 1 && s.drain.Over? then s.drain else Going(i + 1)
  }

  /** The drain is where its choices lead over what has been sent. */
  ghost predicate Followed(s: State) {
    && s.drain.taken <= |s.sent|
    && (s.drain.Going? ==> |s.choices| == s.drain.taken)
    && (s.drain.Over? ==> |s.choices| > 0)
    && (forall i :: 0 <= i < |s.choices| ==> FollowedAt(s, i))
    && (s.drain.Over? && s.drain.ending.Closed? ==> s.executor.Shut? && s.drain.taken == |s.sent|)
  }

  ghost predicate Inv(s: State, lines: seq<Line>, exitError: string) {
    Conserved(s, lines, exitError) && Followed(s)
  }

  lemma SendAhead(sent: seq<Event>, pending: seq<Event>)
    requires pending != []
    ensures (sent + [pending[0]]) + pending[1..] == sent + pending
  {
  }

  lemma SendConserves(s: State, lines: seq<Line>, exitError: string)
    requires Conserved(s, lines, exitError) && Enabled(s, Send)
    ensures Conserved(Next(s, Send), lines, exitError)
  {
    EndSnoc(s.sent, s.pending[0]);
    SendAhead(s.sent, s.pending);
  }

  lemma ReadAhead(sent: seq<Event>, c: Cursor, lines: seq<Line>)
    requires lines != []
    ensures var (c', events) := Parse(c, lines[0]);
      sent + [] + Events(c, lines) == sent + events + Events(c', lines[1..])
  {
    var (c', events) := Parse(c, lines[0]);
    AppendAssociates(sent, events, Events(c', lines[1..]));
    assert sent + [] == sent;
  }

  lemma ReadConserves(s: State, lines: seq<Line>, exitError: string)
    requires Conserved(s, lines, exitError) && Enabled(s, ReadLine)
    ensures Conserved(Next(s, ReadLine), lines, exitError)
  {
    ReadAhead(s.sent, s.cursor, s.unread);
  }

  lemma ExitConserves(s: State, lines: seq<Line>, exitError: string)
    requires Conserved(s, lines, exitError) && Enabled(s, Exit)
    ensures Conserved(Next(s, Exit), lines, exitError)
  {
    assert s.sent == Events(START, lines);
  }

  lemma AbandonConserves(s: State, lines: seq<Line>, exitError: string)
    requires Conserved(s, lines, exitError) && Enabled(s, Abandon)
    ensures Conserved(Next(s, Abandon), lines, exitError)
  {
    var all := StreamEvents(lines, exitError);
    if s.executor.Scanning? {
      assert Events(START, lines) <= all;
      assert s.sent + s.pending <= Events(START, lines);
    }
    assert s.sent + s.pending <= all && |s.sent| < |all|;
  }

  /** The executor's steps leave what the drain has done as it was. */
  lemma ExecutorFollows(s: State, a: Action)
    requires Followed(s) && (s.executor.Shut? ==> s.pending == []) && Enabled(s, a) && !a.Round?
    ensures Followed(Next(s, a))
  {
    var s' := Next(s, a);
    assert s.sent <= s'.sent && s'.choices == s.choices && s'.drain == s.drain;
    forall i | 0 <= i < |s.choices| ensures FollowedAt(s', i) {
      assert FollowedAt(s, i);
    }
  }

  lemma RoundFollows(s: State, a: Action)
    requires Followed(s) && Enabled(s, a) && a.Round?
    ensures Followed(Next(s, a))
  {
    var s' := Next(s, a);
    assert s'.choices[|s.choices|] == a.choice;
    forall i | 0 <= i < |s'.choices| ensures FollowedAt(s', i) {
      assert i < |s.choices| ==> FollowedAt(s, i);
    }
  }

  lemma StepKeepsInv(s: State, lines: seq<Line>, exitError: string, a: Action)
    requires Inv(s, lines, exitError)
    ensures Inv(Next(s, a), lines, exitError)
  {
    if Enabled(s, a) {
      match a {
        case Send => SendConserves(s, lines, exitError);
        case ReadLine => ReadConserves(s, lines, exitError);
        case Exit => ExitConserves(s, lines, exitError);
        case Abandon => AbandonConserves(s, lines, exitError);
        case _ =>
      }
      if a.Round? {
        RoundFollows(s, a);
      } else {
        ExecutorFollows(s, a);
      }
    }
  }

  lemma {:induction false} RunKeepsInv(s: State, lines: seq<Line>, exitError: string, actions: seq<Action>)
    requires Inv(s, lines, exitError)
    ensures Inv(Run(s, actions), lines, exitError)
    decreases |actions|
  {
    if actions != [] {
      StepKeepsInv(s, lines, exitError, actions[0]);
      RunKeepsInv(Next(s, actions[0]), lines, exitError, actions[1..]);
    }
  }

  lemma ReachableInv(lines: seq<Line>, exitError: string, s: State)
    requires Reachable(lines, exitError, s)
    ensures Inv(s, lines, exitError)
  {
    var actions :| s == Run(Initial(lines, exitError), actions);
    RunKeepsInv(Initial(lines, exitError), lines, exitError, actions);
  }

  /** Whatever was sent is the beginning of the stream. */
  lemma SentIsOfStream(lines: seq<Line>, exitError: string, s: State)
    requires Reachable(lines, exitError, s)
    ensures s.sent <= StreamEvents(lines, exitError)
  {
    ReachableInv(lines, exitError, s);
    assert Events(START, lines) <= StreamEvents(lines, exitError);
  }

  /** The channel holds at most sixty-four events, and the executor waits for room only when it is full. */
  lemma {:induction false} ChannelBounded(s: State, actions: seq<Action>)
    requires |s.sent| <= s.drain.taken + 64
    ensures var s' := Run(s, actions);
      && |s'.sent| <= s'.drain.taken + 64
      && (s'.pending != [] && |s'.sent| < s'.drain.taken + 64 ==> Enabled(s', Send))
    decreases |actions|
  {
    if actions != [] {
      ChannelBounded(Next(s, actions[0]), actions[1..]);
    }
  }

  // ----- how the drain ends -----

  /** The drain has seen the channel closed, so the turn has an answer and no error. */
  predicate ClosedNormally(s: State) {
    s.drain.Over? && s.drain.ending.Closed?
  }

  predicate HasError(events: seq<Event>) {
    exists i :: 0 <= i < |events| && events[i].Error?
  }

  /** What a normal close is worth, in every run: the answer is the text of all that was sent,
      which is whole if and only if no text was abandoned; an error of the process goes unreported
      if and only if it was abandoned; and nothing is abandoned if the context had not ended when
      the executor closed the channel. */
  lemma NormalCloseExact(lines: seq<Line>, exitError: string, s: State)
    requires Reachable(lines, exitError, s) && ClosedNormally(s)
    ensures s.executor.Shut? && s.drain.taken == |s.sent|
    ensures s.sent <= StreamEvents(lines, exitError)
    ensures var all := StreamEvents(lines, exitError);
      var abandoned := all[|s.sent|..];
      && (Concat(Texts(s.sent)) == Concat(Texts(all)) <==> Texts(abandoned) == [])
      && (HasError(all) <==> HasError(abandoned))
      && (abandoned != [] <==> s.executor.cut)
      && (!s.executor.ended ==> abandoned == [])
  {
    ReachableInv(lines, exitError, s);
    var all := StreamEvents(lines, exitError);
    var abandoned := all[|s.sent|..];
    assert all == s.sent + abandoned;
    NoEmptyText(lines, exitError);
    TextOfParts(s.sent, abandoned);
    TakenIsErrorFree(s);
    ErrorOfParts(s.sent, abandoned);
  }

  lemma TextOfParts(sent: seq<Event>, abandoned: seq<Event>)
    requires forall e :: e in abandoned && e.Text? ==> e.content != ""
    ensures Concat(Texts(sent)) == Concat(Texts(sent + abandoned)) <==> Texts(abandoned) == []
  {
    TextsAppend(sent, abandoned);
    ConcatAppend(Texts(sent), Texts(abandoned));
    TextOfAbandoned(abandoned);
  }

  lemma ErrorOfParts(a: seq<Event>, b: seq<Event>)
    ensures HasError(a + b) <==> HasError(a) || HasError(b)
  {
    var all := a + b;
    if HasError(a) {
      var i :| 0 <= i < |a| && a[i].Error?;
      assert all[i].Error?;
    }
    if HasError(b) {
      var i :| 0 <= i < |b| && b[i].Error?;
      assert all[|a| + i].Error?;
    }
  }

  lemma TakenIsErrorFree(s: State)
    requires Followed(s) && ClosedNormally(s)
    ensures !HasError(s.sent)
  {
    var m := |s.choices| - 1;
    assert FollowedAt(s, m);
    forall i | 0 <= i < |s.sent| ensures !s.sent[i].Error? {
      assert FollowedAt(s, i);
    }
  }

  lemma {:induction false} NoEmptyDelta(c: Cursor, lines: seq<Line>)
    ensures forall e :: e in Events(c, lines) && e.Text? ==> e.content != ""
    decreases |lines|
  {
    if lines != [] {
      NoEmptyDelta(Parse(c, lines[0]).0, lines[1..]);
      if lines[0].Assistant? {
        OnlyToolEvents(lines[0].blocks);
      } else if lines[0].Tool? {
        OnlyToolEvents(lines[0].blocks);
      }
    }
  }

  lemma OnlyToolEvents(blocks: seq<Block>)
    ensures forall e :: e in ToolUses(blocks) || e in ToolResults(blocks) ==> !e.Text?
  {
  }

  lemma NoEmptyText(lines: seq<Line>, exitError: string)
    ensures forall e :: e in StreamEvents(lines, exitError) && e.Text? ==> e.content != ""
  {
    NoEmptyDelta(START, lines);
  }

  lemma {:induction false} TextOfAbandoned(events: seq<Event>)
    requires forall e :: e in events && e.Text? ==> e.content != ""
    ensures Concat(Texts(events)) == "" <==> Texts(events) == []
  {
    if events != [] {
      var init, last := events[..|events| - 1], events[|events| - 1];
      TextOfAbandoned(init);
      if last.Text? {
        ConcatSnoc(Texts(init), last.content);
      }
    }
  }

  /** Under a context that outlives the executor a normal close is what it should be: over text
      that only grows the answer is the last text of every epoch, and a process that failed had
      said it was done. */
  lemma WholeUnderLiveContext(lines: seq<Line>, exitError: string, s: State)
    requires Reachable(lines, exitError, s) && ClosedNormally(s)
    requires s.executor.Shut? && !s.executor.ended
    ensures OnlyGrows(Snaps(lines)) ==> Concat(Texts(s.sent)) == EpochTexts(Snaps(lines))
    ensures exitError != "" ==> Done in s.sent
  {
    var all, events := StreamEvents(lines, exitError), Events(START, lines);
    assert all == events || HasError(all) by {
      assert all != events ==> all[|events|].Error?;
    }
    DeltasExact(lines);
    NormalCloseExact(lines, exitError, s);
    assert s.sent == all;
  }

  /** Whatever the interleaving, a drain that is over ended as DrainCLIEvents does on the events
      sent, for some choices of its selects. */
  lemma DrainIsAsSpecified(lines: seq<Line>, exitError: string, s: State) returns (choices: seq<Choice>)
    requires Reachable(lines, exitError, s) && s.drain.Over?
    ensures |choices| == |s.sent| + 1 && Drain(s.sent, choices, 0) == s.drain
  {
    ReachableInv(lines, exitError, s);
    var m := |s.choices| - 1;
    assert FollowedAt(s, m);
    choices := s.choices + seq(|s.sent| - m, i => Cancel);
    FollowFrom(s, choices, 0);
  }

  lemma {:induction false} FollowFrom(s: State, choices: seq<Choice>, k: nat)
    requires Followed(s) && s.drain.Over? && |choices| == |s.sent| + 1 && s.choices <= choices && k < |s.choices|
    ensures Drain(s.sent, choices, k) == s.drain
    decreases |s.choices| - k
  {
    assert FollowedAt(s, k) && s.choices[k] == choices[k];
    if k < |s.choices| - 1 {
      FollowFrom(s, choices, k + 1);
    }
  }

  /** The end of the context always frees the drain, and a refused send ends it, the chunk counted as
      taken; before that end neither is possible. */
  lemma ContextFreesDrain(lines: seq<Line>, exitError: string, s: State)
    requires Reachable(lines, exitError, s) && s.drain.Going?
    ensures var k := s.drain.taken;
      && Next(s, Round(Cancel)).drain == (if s.ended then Over(k, Cancelled) else Going(k))
      && (k < |s.sent| && s.sent[k].Text? ==>
            && Next(s, Round(Read(false))).drain == (if s.ended then Over(k + 1, Cancelled) else Going(k))
            && Next(s, Round(Read(true))).drain == Going(k + 1))
  {
    ReachableInv(lines, exitError, s);
  }

  // ----- what a normal close may have lost -----

  lemma Then(lines: seq<Line>, exitError: string, s: State, a: Action) returns (s': State)
    requires Reachable(lines, exitError, s)
    ensures s' == Next(s, a) && Reachable(lines, exitError, s')
  {
    var actions :| s == Run(Initial(lines, exitError), actions);
    Runs.RunSnoc(Next, Initial(lines, exitError), actions, a);
    s' := Next(s, a);
    assert s' == Run(Initial(lines, exitError), actions + [a]);
  }

  /** A state in which the context has ended, the drain has taken all that was sent, which is no
      more than `n` events, and the executor is still at work. */
  ghost predicate InStep(lines: seq<Line>, exitError: string, s: State, n: nat) {
    && Reachable(lines, exitError, s)
    && s.ended && !s.executor.Shut? && s.drain == Going(|s.sent|)
    && |s.sent| <= n <= |StreamEvents(lines, exitError)|
    && !HasError(StreamEvents(lines, exitError)[..n])
  }

  lemma NextIsNoError(lines: seq<Line>, exitError: string, s: State, n: nat)
    requires InStep(lines, exitError, s, n) && s.pending != [] && |s.sent| < n
    ensures s.executor.Scanning? && !s.pending[0].Error?
  {
    ReachableInv(lines, exitError, s);
    var all := StreamEvents(lines, exitError);
    assert (s.sent + s.pending)[|s.sent|] == s.pending[0];
    assert s.sent + s.pending <= all;
    assert all[..n][|s.sent|] == s.pending[0];
  }

  /** One more event is sent and taken. */
  lemma Advance(lines: seq<Line>, exitError: string, s: State, n: nat) returns (s': State)
    requires InStep(lines, exitError, s, n) && s.pending != [] && |s.sent| < n
    ensures InStep(lines, exitError, s', n) && |s'.sent| == |s.sent| + 1
  {
    NextIsNoError(lines, exitError, s, n);
    s' := Then(lines, exitError, s, Send);
    s' := Then(lines, exitError, s', Round(Read(true)));
  }

  /** The drain finds the channel closed. */
  lemma SeeClosed(lines: seq<Line>, exitError: string, s: State) returns (s': State)
    requires Reachable(lines, exitError, s) && s.executor.Shut? && s.drain == Going(|s.sent|)
    ensures Reachable(lines, exitError, s') && ClosedNormally(s') && s'.sent == s.sent
  {
    s' := Then(lines, exitError, s, Round(Read(true)));
  }

  lemma ReadNext(lines: seq<Line>, exitError: string, s: State, n: nat) returns (s': State)
    requires InStep(lines, exitError, s, n) && s.executor.Scanning? && s.pending == [] && s.unread != []
    ensures InStep(lines, exitError, s', n) && s'.sent == s.sent && |s'.unread| < |s.unread|
  {
    s' := Then(lines, exitError, s, ReadLine);
  }

  lemma ExitNext(lines: seq<Line>, exitError: string, s: State, n: nat) returns (s': State)
    requires InStep(lines, exitError, s, n) && s.executor.Scanning? && s.pending == [] && s.unread == []
    ensures Reachable(lines, exitError, s') && s'.sent == s.sent && s'.drain == s.drain && s'.unread == s.unread
    ensures if s'.executor.Shut? then s.sent == StreamEvents(lines, exitError)
            else s'.executor.Reporting? && InStep(lines, exitError, s', n)
  {
    s' := Then(lines, exitError, s, Exit);
    if s'.executor.Shut? {
      ReachableInv(lines, exitError, s');
    }
  }

  /** The executor reads on, or comes to its end. */
  lemma ReadOn(lines: seq<Line>, exitError: string, s: State, n: nat) returns (s': State)
    requires InStep(lines, exitError, s, n) && s.pending == []
    ensures Reachable(lines, exitError, s') && s'.sent == s.sent && s'.drain == s.drain
    ensures if s'.executor.Shut? then s.sent == StreamEvents(lines, exitError) else InStep(lines, exitError, s', n)
    ensures s'.executor.Shut? || |s'.unread| < |s.unread|
            || (s'.unread == s.unread && s.executor.Scanning? && !s'.executor.Scanning?)
  {
    ReachableInv(lines, exitError, s);
    if s.unread == [] {
      s' := ExitNext(lines, exitError, s, n);
    } else {
      s' := ReadNext(lines, exitError, s, n);
    }
  }

  /** From there the executor can be cut, or can end, with exactly `n` events sent. */
  lemma {:induction false} ReachCut(lines: seq<Line>, exitError: string, s: State, n: nat) returns (s': State)
    requires InStep(lines, exitError, s, n)
    ensures Reachable(lines, exitError, s') && ClosedNormally(s')
    ensures s'.sent == StreamEvents(lines, exitError)[..n]
    decreases n - |s.sent|, |s.unread|, s.executor.Scanning?
  {
    if s.pending == [] {
      s' := ReadOn(lines, exitError, s, n);
      if s'.executor.Shut? {
        s' := SeeClosed(lines, exitError, s');
      } else {
        s' := ReachCut(lines, exitError, s', n);
      }
    } else if |s.sent| < n {
      s' := Advance(lines, exitError, s, n);
      s' := ReachCut(lines, exitError, s', n);
    } else {
      ReachableInv(lines, exitError, s);
      s' := Then(lines, exitError, s, Abandon);
      ReachableInv(lines, exitError, s');
      s' := SeeClosed(lines, exitError, s');
    }
  }

  /** Which answers a normal close can give, for every stream: the text of any beginning of it that
      holds no error, and of no other part of it. */
  lemma NormalClosesPossible(lines: seq<Line>, exitError: string, n: nat)
    requires n <= |StreamEvents(lines, exitError)|
    ensures (exists s :: Reachable(lines, exitError, s) && ClosedNormally(s)
                         && s.sent == StreamEvents(lines, exitError)[..n])
        <==> !HasError(StreamEvents(lines, exitError)[..n])
  {
    forall s | Reachable(lines, exitError, s) && ClosedNormally(s) ensures !HasError(s.sent) {
      ReachableInv(lines, exitError, s);
      TakenIsErrorFree(s);
    }
    if !HasError(StreamEvents(lines, exitError)[..n]) {
      var s := Initial(lines, exitError);
      assert s == Run(s, []);
      s := Then(lines, exitError, s, EndContext);
      s := ReachCut(lines, exitError, s, n);
    }
  }
}
