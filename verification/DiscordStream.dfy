/** Streaming an answer into chat messages: progressive edits behind a cursor, a new message
    when one overflows, and a last edit or send when the stream closes. Lengths are in bytes. */
module DiscordStream {
  import opened Seqs
  import opened Utf8
  import opened Splitter

  const MAX_LEN := 2000
  const OVERFLOW_AT := 1900
  const CURSOR_CHAR := '\U{258D}'
  const CURSOR := EncodeChar(CURSOR_CHAR)
  const EMPTY_RESPONSE := Ascii("(empty response)")

  /** What the loop's select delivers: a token, or a tick whose edit or send goes well or not. */
  datatype Event = Token(text: string) | Tick(ok: bool)

  function Stream(events: seq<Event>): string {
    if events == [] then ""
    else
      var rest, last := Stream(events[..|events| - 1]), events[|events| - 1];
      if last.Token? then rest + last.text else rest
  }

  /** What the events alone decide: whether there is a message to edit, the text not yet settled,
      and the texts given to editFinal so far. */
  datatype Buffered = Buffered(live: bool, buf: string, finals: seq<string>)

  function TakeEvent(b: Buffered, e: Event): Buffered {
    match e
    case Token(token) =>
      var buf := b.buf + token;
      if b.live && |Encode(buf)| > OVERFLOW_AT then Buffered(false, "", b.finals + [buf]) else b.(buf := buf)
    case Tick(ok) => if b.buf != "" && ok then b.(live := true) else b
  }

  function Buffering(events: seq<Event>): Buffered {
    if events == [] then Buffered(true, "", [])
    else TakeEvent(Buffering(events[..|events| - 1]), events[|events| - 1])
  }

  /** At the close a live message is finalised as well. */
  function AtClose(b: Buffered): seq<string> {
    if b.live && b.buf != "" then b.finals + [b.buf] else b.finals
  }

  /** All the texts that are split: those that overflowed and, if a message is then live, the last. */
  function Finals(events: seq<Event>): seq<string> {
    AtClose(Buffering(events))
  }

  predicate NoneTorn(finals: seq<string>, ws: Whitespace) {
    forall i :: 0 <= i < |finals| ==> NoTear(Encode(finals[i]), MAX_LEN, ws)
  }

  function Chars(s: string): set<char> {
    set c | c in s
  }

  lemma EmptyResponsePlain()
    ensures 0 < |EMPTY_RESPONSE| <= MAX_LEN
    ensures forall x :: x in EMPTY_RESPONSE ==> x.c != CURSOR_CHAR
  {
  }

  lemma EncodedShows(s: string, ws: Whitespace)
    ensures InkOf(Encode(s), ws) == Ink(s, ws)
    ensures UsesOnly([Encode(s)], Chars(s))
    ensures Encode(s) == [] <==> s == ""
  {
    RoundTrip(s);
    UnitsOf(s);
  }

  lemma AsMuchAppend(a: bool, x: string, x': string, b: bool, y: string, y': string)
    requires AsMuch(a, x, x') && AsMuch(b, y, y')
    ensures AsMuch(a && b, x + y, x' + y')
  {
  }

  method PostParts(msgs: seq<Bytes>, msgId: nat, parts: seq<Bytes>) returns (msgs': seq<Bytes>)
    requires |msgs| == msgId + 1 && parts != []
    ensures msgs' == msgs[..msgId] + parts
  {
    msgs' := msgs[msgId := parts[0]];
    for i := 1 to |parts|
      invariant msgs' == msgs[..msgId] + parts[..i]
    {
      msgs' := msgs' + [parts[i]];
    }
    assert parts[..|parts|] == parts;
  }

  /** editFinal: the live message, which is the latest, gets the first part, new messages the rest. */
  method EditFinal(msgs: seq<Bytes>, msgId: nat, text: Bytes, ws: Whitespace) returns (msgs': seq<Bytes>)
    requires |msgs| == msgId + 1
    ensures msgs' == msgs[..msgId] + Split(if text == [] then EMPTY_RESPONSE else text, MAX_LEN, ws)
    ensures text == [] ==> msgs' == msgs[..msgId] + [EMPTY_RESPONSE]
    ensures text != [] && !ws(REPLACEMENT) ==>
      AsMuch(NoTear(text, MAX_LEN, ws), Shown(msgs'[msgId..], ws), InkOf(text, ws))
    ensures forall i :: msgId <= i < |msgs'| ==> |msgs'[i]| <= 2000
  {
    var shown := if text == [] then EMPTY_RESPONSE else text;
    var parts := SplitMessage(shown, MAX_LEN, ws);
    var gaps := SplitSound(shown, MAX_LEN, ws);
    msgs' := PostParts(msgs, msgId, parts);
    assert msgs'[msgId..] == parts;
    if text != [] && !ws(REPLACEMENT) {
      SplitKeepsInk(text, MAX_LEN, ws);
    }
  }

  /** What a split of `text` behind settled messages shows. */
  lemma FinalShows(settled: seq<Bytes>, finals: seq<string>, text: string, ws: Whitespace)
    requires !ws(REPLACEMENT)
    requires AsMuch(NoneTorn(finals, ws), Shown(settled, ws), Ink(Concat(finals), ws))
    ensures var parts, finals' := Split(Encode(text), MAX_LEN, ws), finals + [text];
      AsMuch(NoneTorn(finals', ws), Shown(settled + parts, ws), Ink(Concat(finals'), ws))
  {
    var parts, finals' := Split(Encode(text), MAX_LEN, ws), finals + [text];
    ShownAppend(settled, parts, ws);
    ConcatSnoc(finals, text);
    InkAppend(Concat(finals), text, ws);
    EncodedShows(text, ws);
    SplitKeepsInk(Encode(text), MAX_LEN, ws);
    assert forall i :: 0 <= i < |finals| ==> finals'[i] == finals[i];
    assert finals'[|finals|] == text;
    assert NoneTorn(finals', ws) <==> NoneTorn(finals, ws) && NoTear(Encode(text), MAX_LEN, ws);
    AsMuchAppend(NoneTorn(finals, ws), Shown(settled, ws), Ink(Concat(finals), ws),
                 NoTear(Encode(text), MAX_LEN, ws), Shown(parts, ws), Ink(text, ws));
  }

  lemma FinalUses(settled: seq<Bytes>, text: string, ws: Whitespace, chars: set<char>)
    requires UsesOnly(settled, chars) && Chars(text) <= chars
    ensures UsesOnly(settled + Split(Encode(text), MAX_LEN, ws), chars)
  {
    EncodedShows(text, ws);
    assert UsesOnly([Encode(text)], chars);
    ChunksUse(Encode(text), MAX_LEN, ws, chars);
  }

  /** The loop's variables: the messages in the channel in the order they were created, the one
      being edited (-1 for none; it is always the latest) and the bytes not yet settled. */
  datatype Loop = Loop(msgs: seq<Bytes>, msgId: int, buf: Bytes)

  /** The messages that will not change any more. */
  function Settled(s: Loop): seq<Bytes>
    requires s.msgId >= 0 ==> |s.msgs| == s.msgId + 1
  {
    if s.msgId >= 0 then s.msgs[..s.msgId] else s.msgs
  }

  /** Settled messages show the texts settled so far, which together with the buffer are the
      stream; a live message without any buffered text is the placeholder of an empty stream. */
  ghost predicate Carries(s: Loop, b: Buffered, stream: string, ws: Whitespace) {
    && -1 <= s.msgId && (s.msgId >= 0 ==> |s.msgs| == s.msgId + 1)
    && (s.msgId >= 0 <==> b.live) && s.buf == Encode(b.buf)
    && Concat(b.finals) + b.buf == stream
    && AsMuch(NoneTorn(b.finals, ws), Shown(Settled(s), ws), Ink(Concat(b.finals), ws))
    && UsesOnly(Settled(s), Chars(stream))
    && (stream == "" <==> b.live && b.buf == "")
    && (stream == "" ==> |s.msgs| == 1)
  }

  lemma BufferCarries(s: Loop, b: Buffered, token: string, stream: string, ws: Whitespace)
    requires Carries(s, b, stream, ws)
    ensures var b' := b.(buf := b.buf + token);
      Carries(s.(buf := Encode(b'.buf)), b', stream + token, ws)
  {
    AppendAssociates(Concat(b.finals), b.buf, token);
    assert Chars(stream) <= Chars(stream + token);
  }

  /** The live message and new ones settle the buffer. */
  lemma SettleCarries(s: Loop, b: Buffered, stream: string, ws: Whitespace, msgs: seq<Bytes>)
    requires Carries(s, b, stream, ws) && b.live && b.buf != "" && !ws(REPLACEMENT)
    requires msgs == Settled(s) + Split(s.buf, MAX_LEN, ws)
    ensures Carries(Loop(msgs, -1, []), Buffered(false, "", b.finals + [b.buf]), stream, ws)
  {
    FinalShows(Settled(s), b.finals, b.buf, ws);
    FinalUses(Settled(s), b.buf, ws, Chars(stream));
    ConcatSnoc(b.finals, b.buf);
    assert stream + [] == stream;
  }

  /** An overflowing buffer settles the live message; the next tick with text opens a new one. */
  method OnToken(s: Loop, token: string, ghost b: Buffered, ghost stream: string, ws: Whitespace)
    returns (s': Loop)
    requires Carries(s, b, stream, ws) && !ws(REPLACEMENT)
    ensures Carries(s', TakeEvent(b, Token(token)), stream + token, ws)
  {
    BufferCarries(s, b, token, stream, ws);
    EncodeAppend(b.buf, token);
    s' := s.(buf := s.buf + Encode(token));
    if |s'.buf| > OVERFLOW_AT && s'.msgId >= 0 {
      var msgs := EditFinal(s'.msgs, s'.msgId, s'.buf, ws);
      SettleCarries(s', b.(buf := b.buf + token), stream + token, ws, msgs);
      s' := Loop(msgs, -1, []);
    }
  }

  method OnTick(s: Loop, ok: bool, ghost b: Buffered, ghost stream: string, ws: Whitespace) returns (s': Loop)
    requires Carries(s, b, stream, ws)
    ensures Carries(s', TakeEvent(b, Tick(ok)), stream, ws)
    ensures if ok && s.buf != []
            then && s'.buf == s.buf && Settled(s') == Settled(s)
                 && s'.msgs == Settled(s) + [s.buf + EncodeChar(CURSOR_CHAR)]
            else s' == s
  {
    EncodedShows(b.buf, ws);
    s' := s;
    if s.buf == [] {
      return;
    }
    if s.msgId < 0 {
      if ok {
        s' := s.(msgs := s.msgs + [s.buf + CURSOR], msgId := |s.msgs|);
        assert Settled(s') == Settled(s);
      }
    } else if ok {
      s' := s.(msgs := s.msgs[s.msgId := s.buf + CURSOR]);
      assert Settled(s') == Settled(s);
    }
  }

  method OnEvent(s: Loop, e: Event, ghost b: Buffered, ghost stream: string, ws: Whitespace) returns (s': Loop)
    requires Carries(s, b, stream, ws) && !ws(REPLACEMENT)
    ensures Carries(s', TakeEvent(b, e), if e.Token? then stream + e.text else stream, ws)
  {
    match e {
      case Token(token) => s' := OnToken(s, token, b, stream, ws);
      case Tick(ok) => s' := OnTick(s, ok, b, stream, ws);
    }
  }

  /** What the messages left behind show of the stream: all of it and no more, if none of the texts
      that were split is torn. */
  ghost predicate Delivers(msgs: seq<Bytes>, finals: seq<string>, stream: string, ws: Whitespace) {
    && AsMuch(NoneTorn(finals, ws), Shown(msgs, ws), Ink(stream, ws))
    && UsesOnly(msgs, Chars(stream))
  }

  /** The closing send takes what no message shows yet. */
  lemma SendDelivers(s: Loop, b: Buffered, stream: string, ws: Whitespace)
    requires Carries(s, b, stream, ws) && !b.live
    ensures Delivers(if s.buf != [] then s.msgs + [s.buf] else s.msgs, b.finals, stream, ws)
  {
    EncodedShows(b.buf, ws);
    InkAppend(Concat(b.finals), b.buf, ws);
    ShownAppend(s.msgs, [s.buf], ws);
    ShownOne(s.buf, ws);
    AsMuchAppend(NoneTorn(b.finals, ws), Shown(s.msgs, ws), Ink(Concat(b.finals), ws),
                 true, Shown([s.buf], ws), Ink(b.buf, ws));
    assert b.buf == "" ==> Concat(b.finals) + b.buf == Concat(b.finals);
    assert Chars(b.buf) <= Chars(stream);
  }

  lemma SettledDelivers(s: Loop, b: Buffered, stream: string, ws: Whitespace)
    requires Carries(s, b, stream, ws) && b.buf == "" && !b.live
    ensures Delivers(s.msgs, b.finals, stream, ws)
  {
    assert Concat(b.finals) + b.buf == Concat(b.finals);
  }

  method OnClose(s: Loop, ghost b: Buffered, ghost stream: string, ws: Whitespace) returns (msgs: seq<Bytes>)
    requires Carries(s, b, stream, ws) && !ws(REPLACEMENT)
    ensures stream == "" ==> msgs == [EMPTY_RESPONSE]
    ensures stream != "" ==> Delivers(msgs, AtClose(b), stream, ws)
  {
    if s.msgId < 0 {
      SendDelivers(s, b, stream, ws);
      msgs := s.msgs;
      if s.buf != [] {
        msgs := msgs + [s.buf];
      }
    } else {
      msgs := EditFinal(s.msgs, s.msgId, s.buf, ws);
      if stream == "" {
        assert Settled(s) == [];
      } else {
        EncodedShows(b.buf, ws);
        SettleCarries(s, b, stream, ws, msgs);
        SettledDelivers(Loop(msgs, -1, []), Buffered(false, "", b.finals + [b.buf]), stream, ws);
      }
    }
  }

  /** sendStreaming, when the placeholder, the final edits and the closing send succeed, and
      whatever the ticks' edits and sends do. For every order of tokens and ticks a reader of the
      messages left in the channel sees, in order, exactly the stream but for whitespace if no text
      given to editFinal is cut inside a character, and more otherwise; an empty stream leaves one
      message that says so; and no message shows the cursor unless the stream did. */
  method SendStreaming(events: seq<Event>, ws: Whitespace) returns (msgs: seq<Bytes>)
    requires !ws(CURSOR_CHAR) && !ws(REPLACEMENT)
    ensures Stream(events) == "" ==> msgs == [Ascii("(empty response)")]
    ensures Stream(events) != "" ==>
      if NoneTorn(Finals(events), ws) then Shown(msgs, ws) == Ink(Stream(events), ws)
      else |Shown(msgs, ws)| > |Ink(Stream(events), ws)|
    ensures Stream(events) != "" && Easy(Encode(Stream(events)), MAX_LEN) ==>
      Shown(msgs, ws) == Ink(Stream(events), ws)
    ensures CURSOR_CHAR !in Stream(events) ==> forall m, x :: m in msgs && x in m ==> x.c != CURSOR_CHAR
  {
    var s := Loop([CURSOR], 0, []);
    for i := 0 to |events|
      invariant Carries(s, Buffering(events[..i]), Stream(events[..i]), ws)
    {
      assert events[..i + 1][..i] == events[..i];
      s := OnEvent(s, events[i], Buffering(events[..i]), Stream(events[..i]), ws);
    }
    assert events[..|events|] == events;
    msgs := OnClose(s, Buffering(events), Stream(events), ws);
    if Easy(Encode(Stream(events)), MAX_LEN) {
      EasyStream(events, ws);
    }
    EmptyResponsePlain();
  }

  /** The texts that are split are consecutive pieces of the stream, from its beginning. */
  lemma {:induction false} FinalsOfStream(events: seq<Event>)
    ensures var b := Buffering(events); Concat(b.finals) + b.buf == Stream(events)
    ensures Concat(Finals(events)) <= Stream(events)
  {
    if events != [] {
      var init, last := events[..|events| - 1], events[|events| - 1];
      FinalsOfStream(init);
      var b := Buffering(init);
      if last.Token? {
        AppendAssociates(Concat(b.finals), b.buf, last.text);
        ConcatSnoc(b.finals, b.buf + last.text);
      }
    }
    ConcatSnoc(Buffering(events).finals, Buffering(events).buf);
  }

  /** A message is only finalised before the close when it overflows, and always then: what overflowed
      was longer than the threshold, and after a token a message that can still be edited is not. A
      tick that goes well shows whatever text there is; one that fails changes nothing. */
  lemma {:induction false} OverflowExact(events: seq<Event>)
    ensures var b := Buffering(events);
      && (forall i :: 0 <= i < |b.finals| ==> |Encode(b.finals[i])| > 1900)
      && (events == [] ==> b == Buffered(true, "", []))
      && (events != [] && events[|events| - 1].Token? && b.live ==> |Encode(b.buf)| <= 1900)
      && (events != [] && events[|events| - 1] == Tick(true) && b.buf != "" ==> b.live)
      && (events != [] && events[|events| - 1] == Tick(false) ==> b == Buffering(events[..|events| - 1]))
  {
    if events != [] {
      OverflowExact(events[..|events| - 1]);
    }
  }

  /** Text of one-byte characters, or with newlines often enough, is shown exactly. */
  lemma EasyStream(events: seq<Event>, ws: Whitespace)
    requires Easy(Encode(Stream(events)), MAX_LEN)
    ensures NoneTorn(Finals(events), ws)
  {
    FinalsOfStream(events);
    var finals, stream := Finals(events), Stream(events);
    forall i | 0 <= i < |finals| ensures NoTear(Encode(finals[i]), MAX_LEN, ws) {
      var pre, post := PieceOf(finals, i, stream);
      EncodeAppend(pre + finals[i], post);
      EncodeAppend(pre, finals[i]);
      EasyMiddle(Encode(pre), Encode(finals[i]), Encode(post), MAX_LEN);
      EasyIsExact(Encode(finals[i]), MAX_LEN, ws);
    }
  }

  lemma PieceOf(pieces: seq<string>, i: nat, whole: string) returns (pre: string, post: string)
    requires i < |pieces| && Concat(pieces) <= whole
    ensures whole == pre + pieces[i] + post
  {
    pre := Concat(pieces[..i]);
    assert pieces == pieces[..i] + [pieces[i]] + pieces[i + 1..];
    ConcatAppend(pieces[..i] + [pieces[i]], pieces[i + 1..]);
    ConcatSnoc(pieces[..i], pieces[i]);
    post := whole[|pre + pieces[i]|..];
  }

  /** A stream that is not shown as it is: one token a byte over the limit, its last character torn. */
  lemma TornStream(a: string, c: char, ws: Whitespace)
    requires |a| == MAX_LEN - 1 && OneByte(Encode(a)) && '\n' !in a && Width(c) > 1
    ensures Stream([Token(a + [c])]) == a + [c]
    ensures !NoneTorn(Finals([Token(a + [c])]), ws)
  {
    TearHappens(a, c, MAX_LEN, ws);
    EncodeAppend(a, [c]);
    OneByteLength(a);
    OneToken(a + [c]);
    assert Finals([Token(a + [c])])[0] == a + [c];
  }

  lemma OneToken(text: string)
    requires |Encode(text)| > OVERFLOW_AT
    ensures Stream([Token(text)]) == text && Finals([Token(text)]) == [text]
  {
    var events := [Token(text)];
    assert events[..0] == [];
    assert "" + text == text;
    assert Buffering(events) == TakeEvent(Buffered(true, "", []), events[0]);
  }
}
