/** Splitting a long text into messages of bounded length, counted in bytes. `ws` is the whitespace
    that is trimmed, character by character. */
module Splitter {
  import opened Seqs
  import opened Utf8

  const NEWLINE := Unit('\n', 0)

  predicate StartsBlank(u: Bytes, ws: Whitespace) {
    StartsChar(u) && ws(u[0].c)
  }

  predicate EndsBlank(u: Bytes, ws: Whitespace) {
    EndsChar(u) && ws(u[|u| - 1].c)
  }

  /** Whole whitespace characters and nothing else. */
  predicate Blank(u: Bytes, ws: Whitespace) {
    u == [] || (StartsBlank(u, ws) && Blank(u[First(u)..], ws))
  }

  function TrimLeft(u: Bytes, ws: Whitespace): (r: Bytes)
    ensures |r| <= |u|
  {
    if StartsBlank(u, ws) then TrimLeft(u[First(u)..], ws) else u
  }

  function TrimRight(u: Bytes, ws: Whitespace): (r: Bytes)
    ensures |r| <= |u|
  {
    if EndsBlank(u, ws) then TrimRight(u[..|u| - Width(u[|u| - 1].c)], ws) else u
  }

  function TrimSpace(u: Bytes, ws: Whitespace): (r: Bytes)
    ensures |r| <= |u|
  {
    TrimRight(TrimLeft(u, ws), ws)
  }

  lemma {:induction false} BlankAppend(a: Bytes, b: Bytes, ws: Whitespace)
    requires Blank(a, ws) && Blank(b, ws)
    ensures Blank(a + b, ws)
  {
    if a == [] {
      assert a + b == b;
    } else {
      assert (a + b)[First(a)..] == a[First(a)..] + b;
      BlankAppend(a[First(a)..], b, ws);
    }
  }

  lemma FirstIsBlank(u: Bytes, ws: Whitespace)
    requires StartsBlank(u, ws)
    ensures Blank(u[..First(u)], ws)
  {
    var e := u[..First(u)];
    assert StartsBlank(e, ws) && e[First(e)..] == [];
  }

  lemma LeftStep(u: Bytes, more: Bytes, rest: Bytes, ws: Whitespace)
    requires StartsBlank(u, ws) && Blank(more, ws) && u[First(u)..] == more + rest
    ensures u == (u[..First(u)] + more) + rest && Blank(u[..First(u)] + more, ws)
  {
    FirstIsBlank(u, ws);
    BlankAppend(u[..First(u)], more, ws);
    AppendAssociates(u[..First(u)], more, rest);
  }

  lemma {:induction false} TrimmedLeft(u: Bytes, ws: Whitespace) returns (left: Bytes)
    ensures u == left + TrimLeft(u, ws) && Blank(left, ws)
    ensures !StartsBlank(TrimLeft(u, ws), ws)
  {
    if StartsBlank(u, ws) {
      var more := TrimmedLeft(u[First(u)..], ws);
      LeftStep(u, more, TrimLeft(u[First(u)..], ws), ws);
      left := u[..First(u)] + more;
    } else {
      left := [];
    }
  }

  lemma RightStep(u: Bytes, k: nat, rest: Bytes, more: Bytes, ws: Whitespace)
    requires EndsBlank(u, ws) && k == |u| - Width(u[|u| - 1].c)
    requires Blank(more, ws) && u[..k] == rest + more
    ensures u == rest + (more + u[k..]) && Blank(more + u[k..], ws)
  {
    var last := u[k..];
    assert StartsBlank(last, ws) && last[..First(last)] == last;
    FirstIsBlank(last, ws);
    BlankAppend(more, last, ws);
    AppendAssociates(rest, more, last);
  }

  lemma StartsBefore(u: Bytes, k: nat, ws: Whitespace)
    requires k <= |u| && !StartsBlank(u, ws)
    ensures !StartsBlank(u[..k], ws)
    ensures EndsBlank(u, ws) && k == |u| - Width(u[|u| - 1].c) ==> k > 0
  {
    assert u[0..] == u;
  }

  lemma {:induction false} TrimmedRight(u: Bytes, ws: Whitespace) returns (right: Bytes)
    ensures u == TrimRight(u, ws) + right && Blank(right, ws)
    ensures !EndsBlank(TrimRight(u, ws), ws)
    ensures u != [] && !StartsBlank(u, ws) ==> TrimRight(u, ws) != [] && !StartsBlank(TrimRight(u, ws), ws)
  {
    if EndsBlank(u, ws) {
      var k := |u| - Width(u[|u| - 1].c);
      var more := TrimmedRight(u[..k], ws);
      RightStep(u, k, TrimRight(u[..k], ws), more, ws);
      if !StartsBlank(u, ws) {
        StartsBefore(u, k, ws);
      }
      right := more + u[k..];
    } else {
      right := [];
    }
  }

  /** Trimming leaves one piece of the text, with whole whitespace characters on both sides of it
      and none at its ends. */
  lemma Trimmed(u: Bytes, ws: Whitespace) returns (left: Bytes, right: Bytes)
    ensures u == left + TrimSpace(u, ws) + right && Blank(left, ws) && Blank(right, ws)
    ensures var t := TrimSpace(u, ws); !StartsBlank(t, ws) && !EndsBlank(t, ws)
    ensures u != [] && !StartsBlank(u, ws) ==> TrimSpace(u, ws) != []
  {
    left := TrimmedLeft(u, ws);
    right := TrimmedRight(TrimLeft(u, ws), ws);
  }

  /** `n` newlines in a row at `i`. */
  predicate BreakAt(s: Bytes, n: nat, i: int) {
    0 <= i <= |s| - n && forall k :: i <= k < i + n ==> s[k] == NEWLINE
  }

  /** The last index, not above `i`, where `n` newlines begin, or -1. */
  function LastBreak(s: Bytes, n: nat, i: int): (r: int)
    ensures r == -1 || 0 <= r <= i
    decreases i + 1
  {
    if i < 0 then -1 else if BreakAt(s, n, i) then i else LastBreak(s, n, i - 1)
  }

  lemma {:induction false} LastBreakExact(s: Bytes, n: nat, i: int)
    ensures LastBreak(s, n, i) == -1 || BreakAt(s, n, LastBreak(s, n, i))
    ensures forall k :: k <= i && BreakAt(s, n, k) ==> k <= LastBreak(s, n, i)
    decreases i + 1
  {
    if i >= 0 && !BreakAt(s, n, i) {
      LastBreakExact(s, n, i - 1);
    }
  }

  /** After a paragraph break if there is one, else after a newline, else at the limit. */
  function Cut(text: Bytes, maxLen: nat): (cut: nat)
    requires 1 <= maxLen < |text|
    ensures 1 <= cut <= maxLen
  {
    var paragraph, line := LastBreak(text, 2, maxLen - 2), LastBreak(text, 1, maxLen - 1);
    if paragraph > 0 then paragraph + 2 else if line > 0 then line + 1 else maxLen
  }

  function Chunks(text: Bytes, maxLen: nat, ws: Whitespace): seq<Bytes>
    requires maxLen >= 1
    decreases |text|
  {
    if |text| <= maxLen then if text != [] then [text] else []
    else
      var cut := Cut(text, maxLen);
      [TrimSpace(text[..cut], ws)] + Chunks(TrimSpace(text[cut..], ws), maxLen, ws)
  }

  function Split(text: Bytes, maxLen: nat, ws: Whitespace): seq<Bytes>
    requires maxLen >= 1
  {
    if |text| <= maxLen then [text] else Chunks(text, maxLen, ws)
  }

  method FindCut(text: Bytes, maxLen: nat) returns (cut: nat)
    requires 1 <= maxLen < |text|
    ensures cut == Cut(text, maxLen)
  {
    cut := maxLen;
    var idx := LastBreak(text, 2, maxLen - 2);
    if idx > 0 {
      cut := idx + 2;
    } else {
      idx := LastBreak(text, 1, maxLen - 1);
      if idx > 0 {
        cut := idx + 1;
      }
    }
  }

  /** One part, cut off and trimmed like what is left. */
  method SplitOne(text: Bytes, maxLen: nat, ws: Whitespace) returns (part: Bytes, rest: Bytes)
    requires 1 <= maxLen < |text|
    ensures part == TrimSpace(text[..Cut(text, maxLen)], ws) && |rest| < |text|
    ensures var chunks := Chunks(text, maxLen, ws);
      chunks != [] && part == chunks[0] && Chunks(rest, maxLen, ws) == chunks[1..]
  {
    var cut := FindCut(text, maxLen);
    ChunksStep(text, maxLen, ws, cut);
    part, rest := TrimSpace(text[..cut], ws), TrimSpace(text[cut..], ws);
  }

  method SplitMessage(input: Bytes, maxLen: nat, ws: Whitespace) returns (parts: seq<Bytes>)
    requires maxLen >= 1
    ensures parts == Split(input, maxLen, ws)
  {
    if |input| <= maxLen {
      return [input];
    }
    parts := SplitLong(input, maxLen, ws);
  }

  method SplitLong(input: Bytes, maxLen: nat, ws: Whitespace) returns (parts: seq<Bytes>)
    requires maxLen >= 1
    ensures parts == Chunks(input, maxLen, ws)
  {
    var text := input;
    parts := [];
    ghost var all := Chunks(input, maxLen, ws);
    ghost var todo := all;
    while |text| > maxLen
      invariant todo == Chunks(text, maxLen, ws)
      invariant |parts| <= |all| && parts == all[..|parts|] && todo == all[|parts|..]
      decreases |text|
    {
      var part;
      part, text := SplitOne(text, maxLen, ws);
      parts, todo := parts + [part], todo[1..];
    }
    ChunksLast(text, maxLen, ws);
    if text != [] {
      parts := parts + [text];
    }
  }

  lemma ChunksLast(text: Bytes, maxLen: nat, ws: Whitespace)
    requires 1 <= maxLen && |text| <= maxLen
    ensures Chunks(text, maxLen, ws) == if text != [] then [text] else []
  {
  }

  lemma ChunksStep(text: Bytes, maxLen: nat, ws: Whitespace, cut: nat)
    requires 1 <= maxLen < |text| && cut == Cut(text, maxLen)
    ensures Chunks(text, maxLen, ws) ==
      [TrimSpace(text[..cut], ws)] + Chunks(TrimSpace(text[cut..], ws), maxLen, ws)
    ensures |TrimSpace(text[cut..], ws)| < |text|
  {
  }

  /** The cut follows the last paragraph break of the first `maxLen` bytes; failing that,
      the last newline; a break at the very start does not count. */
  lemma CutPreference(text: Bytes, maxLen: nat, i: nat)
    requires 1 <= maxLen < |text|
    ensures 0 < i <= maxLen - 2 && BreakAt(text, 2, i) ==>
      i + 2 <= Cut(text, maxLen) && BreakAt(text, 2, Cut(text, maxLen) - 2)
    ensures 0 < i <= maxLen - 1 && BreakAt(text, 1, i) ==> BreakAt(text, 1, Cut(text, maxLen) - 1)
    ensures (forall k :: 0 < k <= maxLen - 2 ==> !BreakAt(text, 2, k)) && 0 < i <= maxLen - 1 && BreakAt(text, 1, i)
            ==> i + 1 <= Cut(text, maxLen)
    ensures Cut(text, maxLen) < maxLen ==> BreakAt(text, 1, Cut(text, maxLen) - 1)
    ensures Cut(text, maxLen) != maxLen ==> exists j :: 0 < j < maxLen && text[j] == NEWLINE
  {
    LastBreakExact(text, 2, maxLen - 2);
    LastBreakExact(text, 1, maxLen - 1);
    var paragraph, line := LastBreak(text, 2, maxLen - 2), LastBreak(text, 1, maxLen - 1);
    if paragraph > 0 {
      assert text[paragraph] == NEWLINE;
    } else if line > 0 {
      assert text[line] == NEWLINE;
    }
  }

  /** The gaps and the parts, alternating, a gap first and last. */
  function Weave(gaps: seq<Bytes>, parts: seq<Bytes>): Bytes
    requires |gaps| == |parts| + 1
  {
    if parts == [] then gaps[0] else gaps[0] + parts[0] + Weave(gaps[1..], parts[1..])
  }

  lemma {:induction false} WeaveTail(gaps: seq<Bytes>, parts: seq<Bytes>, tail: Bytes)
    requires |gaps| == |parts| + 1
    ensures Weave(gaps[|parts| := gaps[|parts|] + tail], parts) == Weave(gaps, parts) + tail
  {
    if parts != [] {
      WeaveTail(gaps[1..], parts[1..], tail);
      assert gaps[|parts| := gaps[|parts|] + tail][1..] == gaps[1..][|parts| - 1 := gaps[|parts|] + tail];
    }
  }

  predicate AllGaps(gaps: seq<Bytes>, ws: Whitespace) {
    forall i :: 0 <= i < |gaps| ==> Blank(gaps[i], ws)
  }

  /** Trimming at one cut only widens the gaps. */
  lemma WeaveCut(text: Bytes, cut: nat, ws: Whitespace, inner: seq<Bytes>, parts: seq<Bytes>)
    returns (gaps: seq<Bytes>)
    requires cut <= |text| && |inner| == |parts| + 1 && AllGaps(inner, ws)
    requires TrimSpace(text[cut..], ws) == Weave(inner, parts)
    ensures |gaps| == |parts| + 2 && AllGaps(gaps, ws)
    ensures text == Weave(gaps, [TrimSpace(text[..cut], ws)] + parts)
  {
    var l1, r1 := Trimmed(text[..cut], ws);
    var l2, r2 := Trimmed(text[cut..], ws);
    gaps := WeavePieces(l1, TrimSpace(text[..cut], ws), r1, l2, r2, ws, inner, parts);
    assert text == text[..cut] + text[cut..];
  }

  lemma WeavePieces(l1: Bytes, part: Bytes, r1: Bytes, l2: Bytes, r2: Bytes, ws: Whitespace,
                    inner: seq<Bytes>, parts: seq<Bytes>)
    returns (gaps: seq<Bytes>)
    requires |inner| == |parts| + 1 && AllGaps(inner, ws)
    requires Blank(l1, ws) && Blank(r1, ws) && Blank(l2, ws) && Blank(r2, ws)
    ensures |gaps| == |parts| + 2 && AllGaps(gaps, ws)
    ensures (l1 + part + r1) + (l2 + Weave(inner, parts) + r2) == Weave(gaps, [part] + parts)
  {
    BlankAppend(r1, l2, ws);
    var joined := WidenGaps(inner, parts, r1 + l2, r2, ws);
    gaps := [l1] + joined;
    WeaveFirst(l1, joined, part, parts, ws);
    Regroup(l1, part, r1, l2, Weave(inner, parts), r2);
  }

  lemma WeaveFirst(gap: Bytes, gaps: seq<Bytes>, part: Bytes, parts: seq<Bytes>, ws: Whitespace)
    requires |gaps| == |parts| + 1 && Blank(gap, ws) && AllGaps(gaps, ws)
    ensures Weave([gap] + gaps, [part] + parts) == gap + part + Weave(gaps, parts)
    ensures AllGaps([gap] + gaps, ws)
  {
    assert ([gap] + gaps)[1..] == gaps && ([part] + parts)[1..] == parts;
  }

  lemma WidenGaps(inner: seq<Bytes>, parts: seq<Bytes>, head: Bytes, tail: Bytes, ws: Whitespace)
    returns (gaps: seq<Bytes>)
    requires |inner| == |parts| + 1 && AllGaps(inner, ws) && Blank(head, ws) && Blank(tail, ws)
    ensures |gaps| == |inner| && AllGaps(gaps, ws)
    ensures Weave(gaps, parts) == head + (Weave(inner, parts) + tail)
  {
    var n := |parts|;
    BlankAppend(inner[n], tail, ws);
    WeaveTail(inner, parts, tail);
    var closed := inner[n := inner[n] + tail];
    BlankAppend(head, closed[0], ws);
    WeaveHead(closed, parts, head);
    gaps := closed[0 := head + closed[0]];
  }

  lemma Regroup(a: Bytes, b: Bytes, c: Bytes, d: Bytes, e: Bytes, f: Bytes)
    ensures (a + b + c) + (d + e + f) == a + b + ((c + d) + (e + f))
  {
  }

  lemma {:induction false} ChunksWeave(text: Bytes, maxLen: nat, ws: Whitespace) returns (gaps: seq<Bytes>)
    requires maxLen >= 1
    ensures |gaps| == |Chunks(text, maxLen, ws)| + 1 && AllGaps(gaps, ws)
    ensures text == Weave(gaps, Chunks(text, maxLen, ws))
    decreases |text|
  {
    if |text| <= maxLen {
      gaps := if text != [] then [[], []] else [[]];
      assert text != [] ==> Weave([[], []], [text]) == text + Weave([[]], []);
    } else {
      var cut := Cut(text, maxLen);
      ChunksStep(text, maxLen, ws, cut);
      var inner := ChunksWeave(TrimSpace(text[cut..], ws), maxLen, ws);
      gaps := WeaveCut(text, cut, ws, inner, Chunks(TrimSpace(text[cut..], ws), maxLen, ws));
    }
  }

  lemma WeaveHead(gaps: seq<Bytes>, parts: seq<Bytes>, head: Bytes)
    requires |gaps| == |parts| + 1
    ensures Weave(gaps[0 := head + gaps[0]], parts) == head + Weave(gaps, parts)
  {
    var gaps' := gaps[0 := head + gaps[0]];
    if parts != [] {
      assert gaps'[1..] == gaps[1..];
    }
  }

  /** What every split guarantees: at least one part, none too long, an empty part only in front;
      and the text is the parts in order with nothing but whitespace between and around them. */
  lemma SplitSound(text: Bytes, maxLen: nat, ws: Whitespace) returns (gaps: seq<Bytes>)
    requires maxLen >= 1
    ensures var parts := Split(text, maxLen, ws);
      && |parts| >= 1
      && Bounded(parts, maxLen)
      && |gaps| == |parts| + 1 && AllGaps(gaps, ws) && text == Weave(gaps, parts)
      && (|text| <= maxLen ==> gaps == [[], []])
  {
    if |text| <= maxLen {
      gaps := [[], []];
      assert Weave(gaps, [text]) == text + Weave([[]], []);
    } else {
      gaps := ChunksWeave(text, maxLen, ws);
      ChunksBounded(text, maxLen, ws);
    }
  }

  /** None too long, and only the first may be empty. */
  predicate Bounded(parts: seq<Bytes>, maxLen: nat) {
    && (forall i :: 0 <= i < |parts| ==> |parts[i]| <= maxLen)
    && (forall i :: 1 <= i < |parts| ==> parts[i] != [])
  }

  lemma TrimmedParts(text: Bytes, cut: nat, ws: Whitespace)
    requires 1 <= cut <= |text|
    ensures text != [] && !StartsBlank(text, ws) ==> TrimSpace(text[..cut], ws) != []
    ensures !StartsBlank(TrimSpace(text[cut..], ws), ws)
  {
    var l1, r1 := Trimmed(text[..cut], ws);
    var l2, r2 := Trimmed(text[cut..], ws);
    if !StartsBlank(text, ws) {
      StartsBefore(text, cut, ws);
    }
  }

  lemma BoundedNext(part: Bytes, parts: seq<Bytes>, maxLen: nat)
    requires |part| <= maxLen && Bounded(parts, maxLen) && (parts != [] ==> parts[0] != [])
    ensures Bounded([part] + parts, maxLen)
  {
  }

  lemma {:induction false} ChunksBounded(text: Bytes, maxLen: nat, ws: Whitespace)
    requires maxLen >= 1
    ensures var parts := Chunks(text, maxLen, ws);
      && Bounded(parts, maxLen)
      && (|text| > maxLen ==> parts != [])
      && (text != [] && !StartsBlank(text, ws) ==> parts != [] && parts[0] != [])
    decreases |text|
  {
    if |text| <= maxLen {
      ChunksLast(text, maxLen, ws);
    } else {
      var cut := Cut(text, maxLen);
      var part, rest := TrimSpace(text[..cut], ws), TrimSpace(text[cut..], ws);
      ChunksStep(text, maxLen, ws, cut);
      TrimmedParts(text, cut, ws);
      ChunksBounded(rest, maxLen, ws);
      if rest == [] {
        ChunksLast(rest, maxLen, ws);
      }
      BoundedNext(part, Chunks(rest, maxLen, ws), maxLen);
    }
  }

  /** No whitespace at either end. */
  predicate Neat(u: Bytes, ws: Whitespace) {
    !StartsBlank(u, ws) && !EndsBlank(u, ws)
  }

  predicate AllNeat(parts: seq<Bytes>, ws: Whitespace) {
    forall i :: 0 <= i < |parts| ==> Neat(parts[i], ws)
  }

  lemma {:induction false} ChunksNeat(text: Bytes, maxLen: nat, ws: Whitespace)
    requires maxLen >= 1 && (|text| <= maxLen ==> Neat(text, ws))
    ensures AllNeat(Chunks(text, maxLen, ws), ws)
    decreases |text|
  {
    if |text| <= maxLen {
      ChunksLast(text, maxLen, ws);
    } else {
      var cut := Cut(text, maxLen);
      var part, rest := TrimSpace(text[..cut], ws), TrimSpace(text[cut..], ws);
      ChunksStep(text, maxLen, ws, cut);
      TrimIsNeat(text[..cut], ws);
      TrimIsNeat(text[cut..], ws);
      ChunksNeat(rest, maxLen, ws);
      AllNeatNext(part, Chunks(rest, maxLen, ws), ws);
    }
  }

  lemma TrimIsNeat(u: Bytes, ws: Whitespace)
    ensures Neat(TrimSpace(u, ws), ws)
  {
    var left, right := Trimmed(u, ws);
  }

  lemma AllNeatNext(part: Bytes, parts: seq<Bytes>, ws: Whitespace)
    requires Neat(part, ws) && AllNeat(parts, ws)
    ensures AllNeat([part] + parts, ws)
  {
  }

  /** A text within the limit is left as it is; of a longer one every part is trimmed. */
  lemma SplitNeat(text: Bytes, maxLen: nat, ws: Whitespace)
    requires maxLen >= 1
    ensures if |text| <= maxLen then Split(text, maxLen, ws) == [text] else AllNeat(Split(text, maxLen, ws), ws)
  {
    if |text| > maxLen {
      ChunksNeat(text, maxLen, ws);
    }
  }

  // ----- what a reader sees of the parts -----

  /** What a reader sees of several messages, each decoded by itself, whitespace aside. */
  function Shown(parts: seq<Bytes>, ws: Whitespace): string {
    if parts == [] then "" else InkOf(parts[0], ws) + Shown(parts[1..], ws)
  }

  /** No cut of the split falls inside a character. */
  predicate NoTear(text: Bytes, maxLen: nat, ws: Whitespace)
    requires maxLen >= 1
    decreases |text|
  {
    |text| <= maxLen ||
    (!Torn(text, Cut(text, maxLen)) && NoTear(TrimSpace(text[Cut(text, maxLen)..], ws), maxLen, ws))
  }

  lemma {:induction false} BlankShowsNothing(blank: Bytes, u: Bytes, ws: Whitespace)
    requires Blank(blank, ws)
    ensures InkOf(blank + u, ws) == InkOf(u, ws)
  {
    if blank == [] {
      assert blank + u == u;
    } else {
      var all := blank + u;
      assert StartsChar(all) && First(all) == First(blank);
      InkOfStep(all, ws);
      assert all[First(blank)..] == blank[First(blank)..] + u;
      BlankShowsNothing(blank[First(blank)..], u, ws);
    }
  }

  lemma BlankBehindShowsNothing(u: Bytes, blank: Bytes, ws: Whitespace)
    requires Blank(blank, ws) && !ws(REPLACEMENT)
    ensures InkOf(u + blank, ws) == InkOf(u, ws)
  {
    var all := u + blank;
    NotTornBefore(all, |u|);
    InkOfCut(all, |u|, ws);
    assert all[..|u|] == u && all[|u|..] == blank;
    BlankShowsNothing(blank, [], ws);
    assert blank + [] == blank;
  }

  /** Trimming changes nothing that is seen. */
  lemma TrimShowsAll(u: Bytes, ws: Whitespace)
    requires !ws(REPLACEMENT)
    ensures InkOf(TrimSpace(u, ws), ws) == InkOf(u, ws)
  {
    var left, right := Trimmed(u, ws);
    var t := TrimSpace(u, ws);
    AppendAssociates(left, t, right);
    BlankShowsNothing(left, t + right, ws);
    BlankBehindShowsNothing(t, right, ws);
  }

  /** Either exactly what the whole shows, or more than that. */
  predicate AsMuch(exact: bool, shown: string, whole: string) {
    if exact then shown == whole else |shown| > |whole|
  }

  lemma ShowsNext(torn: bool, a: string, b: string, whole: string, exact: bool, more: string)
    requires Shows(torn, a, b, whole) && AsMuch(exact, more, b)
    ensures AsMuch(!torn && exact, a + more, whole)
  {
  }

  lemma {:induction false} ChunksShow(text: Bytes, maxLen: nat, ws: Whitespace)
    requires maxLen >= 1 && !ws(REPLACEMENT)
    ensures AsMuch(NoTear(text, maxLen, ws), Shown(Chunks(text, maxLen, ws), ws), InkOf(text, ws))
    decreases |text|
  {
    if |text| <= maxLen {
      ShownOne(text, ws);
    } else {
      var cut := Cut(text, maxLen);
      var rest := TrimSpace(text[cut..], ws);
      ChunksStep(text, maxLen, ws, cut);
      ChunksShow(rest, maxLen, ws);
      InkOfCut(text, cut, ws);
      TrimShowsAll(text[..cut], ws);
      TrimShowsAll(text[cut..], ws);
      var chunks := Chunks(rest, maxLen, ws);
      assert ([TrimSpace(text[..cut], ws)] + chunks)[1..] == chunks;
      ShowsNext(Torn(text, cut), InkOf(text[..cut], ws), InkOf(text[cut..], ws), InkOf(text, ws),
                NoTear(rest, maxLen, ws), Shown(chunks, ws));
    }
  }

  lemma ShownOne(text: Bytes, ws: Whitespace)
    ensures Shown([text], ws) == InkOf(text, ws)
    ensures text == [] ==> Shown([], ws) == InkOf(text, ws)
  {
    assert Shown([text], ws) == InkOf(text, ws) + Shown([], ws);
  }

  /** What the parts show: exactly what the text shows, but for whitespace, if no cut falls inside
      a character; otherwise more, since the pieces of a torn character are each replaced. */
  lemma SplitKeepsInk(text: Bytes, maxLen: nat, ws: Whitespace)
    requires maxLen >= 1 && !ws(REPLACEMENT)
    ensures var shown := Shown(Split(text, maxLen, ws), ws);
      if NoTear(text, maxLen, ws) then shown == InkOf(text, ws) else |shown| > |InkOf(text, ws)|
  {
    if |text| <= maxLen {
      ShownOne(text, ws);
    } else {
      ChunksShow(text, maxLen, ws);
    }
  }

  lemma {:induction false} ShownAppend(a: seq<Bytes>, b: seq<Bytes>, ws: Whitespace)
    ensures Shown(a + b, ws) == Shown(a, ws) + Shown(b, ws)
  {
    if a == [] {
      assert a + b == b;
    } else {
      assert (a + b)[1..] == a[1..] + b;
      ShownAppend(a[1..], b, ws);
    }
  }

  /** All bytes of these messages belong to these characters. */
  predicate UsesOnly(parts: seq<Bytes>, chars: set<char>) {
    forall p, x :: p in parts && x in p ==> x.c in chars
  }

  lemma TrimUses(u: Bytes, ws: Whitespace)
    ensures forall x :: x in TrimSpace(u, ws) ==> x in u
  {
    var left, right := Trimmed(u, ws);
  }

  lemma UsesNext(text: Bytes, part: Bytes, parts: seq<Bytes>, chars: set<char>)
    requires UsesOnly([text], chars) && UsesOnly(parts, chars) && forall x :: x in part ==> x in text
    ensures UsesOnly([part] + parts, chars)
  {
    assert text in [text];
  }

  lemma RestUses(text: Bytes, cut: nat, ws: Whitespace, chars: set<char>)
    requires cut <= |text| && UsesOnly([text], chars)
    ensures UsesOnly([TrimSpace(text[cut..], ws)], chars)
  {
    assert text in [text];
    TrimUses(text[cut..], ws);
  }

  /** Splitting adds nothing. */
  lemma {:induction false} ChunksUse(text: Bytes, maxLen: nat, ws: Whitespace, chars: set<char>)
    requires maxLen >= 1 && UsesOnly([text], chars)
    ensures UsesOnly(Chunks(text, maxLen, ws), chars)
    decreases |text|
  {
    if |text| <= maxLen {
      ChunksLast(text, maxLen, ws);
    } else {
      var cut := Cut(text, maxLen);
      var part, rest := TrimSpace(text[..cut], ws), TrimSpace(text[cut..], ws);
      ChunksStep(text, maxLen, ws, cut);
      TrimUses(text[..cut], ws);
      RestUses(text, cut, ws, chars);
      ChunksUse(rest, maxLen, ws, chars);
      UsesNext(text, part, Chunks(rest, maxLen, ws), chars);
    }
  }

  // ----- when a character is torn -----

  lemma {:induction false} WholeAppend(a: Bytes, b: Bytes)
    requires Whole(a)
    ensures Whole(a + b) <==> Whole(b)
  {
    if a == [] {
      assert a + b == b;
    } else {
      assert (a + b)[First(a)..] == a[First(a)..] + b;
      WholeAppend(a[First(a)..], b);
    }
  }

  lemma {:induction false} BlankIsWhole(u: Bytes, ws: Whitespace)
    requires Blank(u, ws)
    ensures Whole(u)
  {
    if u != [] {
      BlankIsWhole(u[First(u)..], ws);
    }
  }

  lemma TrimKeepsWhole(u: Bytes, ws: Whitespace)
    ensures Whole(TrimSpace(u, ws)) <==> Whole(u)
  {
    var left, right := Trimmed(u, ws);
    var t := TrimSpace(u, ws);
    BlankIsWhole(left, ws);
    BlankIsWhole(right, ws);
    AppendAssociates(left, t, right);
    WholeAppend(left, t + right);
    WholeBefore(t, right);
  }

  lemma WholeBefore(a: Bytes, b: Bytes)
    requires Whole(b)
    ensures Whole(a + b) <==> Whole(a)
  {
    if Whole(a) {
      WholeAppend(a, b);
    }
    if Whole(a + b) {
      WholeCut(a + b, |a|);
      assert (a + b)[..|a|] == a;
    }
  }

  predicate AllWhole(parts: seq<Bytes>) {
    forall i :: 0 <= i < |parts| ==> Whole(parts[i])
  }

  lemma AllWholeNext(part: Bytes, parts: seq<Bytes>)
    ensures AllWhole([part] + parts) <==> Whole(part) && AllWhole(parts)
  {
    var all := [part] + parts;
    assert all[0] == part;
    assert forall i :: 0 <= i < |parts| ==> parts[i] == all[i + 1];
  }

  /** A cut tears nothing exactly when the part before it is whole; then so is what is left. */
  lemma CutWhole(text: Bytes, cut: nat, ws: Whitespace)
    requires Whole(text) && cut <= |text|
    ensures Whole(TrimSpace(text[..cut], ws)) <==> !Torn(text, cut)
    ensures !Torn(text, cut) ==> Whole(TrimSpace(text[cut..], ws))
  {
    WholeCut(text, cut);
    TrimKeepsWhole(text[..cut], ws);
    TrimKeepsWhole(text[cut..], ws);
  }

  lemma {:induction false} ChunksWhole(text: Bytes, maxLen: nat, ws: Whitespace)
    requires maxLen >= 1 && Whole(text)
    ensures AllWhole(Chunks(text, maxLen, ws)) <==> NoTear(text, maxLen, ws)
    decreases |text|
  {
    if |text| <= maxLen {
      ChunksLast(text, maxLen, ws);
    } else {
      var cut := Cut(text, maxLen);
      var part, rest := TrimSpace(text[..cut], ws), TrimSpace(text[cut..], ws);
      ChunksStep(text, maxLen, ws, cut);
      CutWhole(text, cut, ws);
      AllWholeNext(part, Chunks(rest, maxLen, ws));
      if !Torn(text, cut) {
        ChunksWhole(rest, maxLen, ws);
      }
    }
  }

  /** For every text of whole characters: the parts consist of whole characters if and only if no
      cut falls inside one; and a cut does that exactly when it falls before a continuation byte. */
  lemma WholePartsIff(text: string, maxLen: nat, ws: Whitespace)
    requires maxLen >= 1
    ensures AllWhole(Split(Encode(text), maxLen, ws)) <==> NoTear(Encode(text), maxLen, ws)
    ensures |Encode(text)| > maxLen ==>
      var cut := Cut(Encode(text), maxLen); Torn(Encode(text), cut) <==> Encode(text)[cut].i > 0
  {
    RoundTrip(text);
    ChunksWhole(Encode(text), maxLen, ws);
    if |Encode(text)| > maxLen {
      WholeCut(Encode(text), Cut(Encode(text), maxLen));
    }
  }

  /** Characters of one byte only. */
  predicate OneByte(u: Bytes) {
    forall k :: 0 <= k < |u| ==> u[k].i == 0 && Width(u[k].c) == 1
  }

  predicate NewlineWithin(u: Bytes, k: nat, n: nat)
    requires k + n <= |u|
  {
    exists j :: k < j < k + n && u[j] == NEWLINE
  }

  /** Wherever a part might begin, a newline comes before the limit does. */
  predicate OftenBroken(u: Bytes, maxLen: nat) {
    forall k: nat :: k + maxLen <= |u| ==> NewlineWithin(u, k, maxLen)
  }

  predicate Easy(u: Bytes, maxLen: nat) {
    OneByte(u) || OftenBroken(u, maxLen)
  }

  lemma EasySlice(u: Bytes, maxLen: nat, a: nat, b: nat)
    requires Easy(u, maxLen) && a <= b <= |u|
    ensures Easy(u[a..b], maxLen)
  {
    if OftenBroken(u, maxLen) {
      forall k: nat | k + maxLen <= b - a ensures NewlineWithin(u[a..b], k, maxLen) {
        assert NewlineWithin(u, a + k, maxLen);
        var j :| a + k < j < a + k + maxLen && u[j] == NEWLINE;
        assert u[a..b][j - a] == NEWLINE;
      }
    }
  }

  /** Only a cut at the very limit can tear, in a text with no usable newline before the limit. */
  lemma OnlyHardCutsTear(text: Bytes, maxLen: nat)
    requires 1 <= maxLen < |text| && Torn(text, Cut(text, maxLen))
    ensures Cut(text, maxLen) == maxLen && forall j :: 0 < j < maxLen ==> text[j] != NEWLINE
  {
    var cut := Cut(text, maxLen);
    if BreakAt(text, 1, cut - 1) {
      NotTornBehind(text, cut);
    }
    forall j | 0 < j < maxLen ensures text[j] != NEWLINE {
      CutPreference(text, maxLen, j);
    }
    CutPreference(text, maxLen, 0);
  }

  lemma EasyCut(text: Bytes, maxLen: nat)
    requires 1 <= maxLen < |text| && Easy(text, maxLen)
    ensures !Torn(text, Cut(text, maxLen))
  {
    if OneByte(text) {
      NotTornBehind(text, Cut(text, maxLen));
    } else {
      assert NewlineWithin(text, 0, maxLen);
      var j :| 0 < j < maxLen && text[j] == NEWLINE;
      if Torn(text, Cut(text, maxLen)) {
        OnlyHardCutsTear(text, maxLen);
      }
    }
  }

  lemma EasyRest(text: Bytes, cut: nat, maxLen: nat, ws: Whitespace)
    requires cut <= |text| && Easy(text, maxLen)
    ensures Easy(TrimSpace(text[cut..], ws), maxLen)
  {
    assert text[cut..|text|] == text[cut..];
    EasySlice(text, maxLen, cut, |text|);
    var left, right := Trimmed(text[cut..], ws);
    EasyMiddle(left, TrimSpace(text[cut..], ws), right, maxLen);
  }

  lemma EasyMiddle(a: Bytes, b: Bytes, c: Bytes, maxLen: nat)
    requires Easy(a + b + c, maxLen)
    ensures Easy(b, maxLen)
  {
    Middle(a, b, c);
    EasySlice(a + b + c, maxLen, |a|, |a| + |b|);
  }

  /** Two conditions on the text alone under which no character is torn. */
  lemma {:induction false} EasyIsExact(text: Bytes, maxLen: nat, ws: Whitespace)
    requires maxLen >= 1 && Easy(text, maxLen)
    ensures NoTear(text, maxLen, ws)
    decreases |text|
  {
    if |text| > maxLen {
      EasyCut(text, maxLen);
      EasyRest(text, Cut(text, maxLen), maxLen, ws);
      EasyIsExact(TrimSpace(text[Cut(text, maxLen)..], ws), maxLen, ws);
    }
  }

  /** A text that the split tears: one byte less than the limit, without a newline, and then a
      character of more than one byte. */
  lemma TearHappens(a: string, c: char, maxLen: nat, ws: Whitespace)
    requires |a| == maxLen - 1 && OneByte(Encode(a)) && '\n' !in a && Width(c) > 1
    ensures |a + [c]| == maxLen && !NoTear(Encode(a + [c]), maxLen, ws)
    ensures !AllWhole(Split(Encode(a + [c]), maxLen, ws))
  {
    var text := Encode(a + [c]);
    EncodeAppend(a, [c]);
    OneByteLength(a);
    UnitsOf(a);
    assert text == Encode(a) + EncodeChar(c);
    assert forall k :: 0 <= k < |a| ==> text[k] in Encode(a);
    assert text[|a|] == Unit(c, 0) && text[maxLen] == Unit(c, 1);
    CutFollowsNewline(text, maxLen);
    WholePartsIff(a + [c], maxLen, ws);
  }

  lemma CutFollowsNewline(text: Bytes, maxLen: nat)
    requires 1 <= maxLen < |text|
    ensures Cut(text, maxLen) == maxLen || text[Cut(text, maxLen) - 1] == NEWLINE
  {
    CutPreference(text, maxLen, 0);
  }

  lemma {:induction false} OneByteLength(a: string)
    requires OneByte(Encode(a))
    ensures |Encode(a)| == |a|
  {
    if a != "" {
      assert Encode(a)[0].c == a[0] && Encode(a)[Width(a[0])..] == Encode(a[1..]);
      OneByteLength(a[1..]);
    }
  }

  lemma {:induction false} UnitsOf(a: string)
    ensures forall x :: x in Encode(a) ==> x.c in a
  {
    if a != "" {
      UnitsOf(a[1..]);
    }
  }
}
