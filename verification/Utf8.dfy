/** Text as bytes: a byte is known by the character it belongs to and its place in the encoding of
    that character. This is all that cutting and decoding pieces of well-formed text can tell. */
module Utf8 {

  datatype Unit = Unit(c: char, i: nat)

  type Bytes = seq<Unit>

  /** What each byte that belongs to no whole character is shown as. */
  const REPLACEMENT := '\U{FFFD}'

  function Width(c: char): (w: nat)
    ensures 1 <= w <= 4
  {
    if c as int < 0x80 then 1 else if c as int < 0x800 then 2 else if c as int < 0x10000 then 3 else 4
  }

  function EncodeChar(c: char): (u: Bytes)
    ensures |u| == Width(c)
  {
    seq(Width(c), i requires 0 <= i < Width(c) => Unit(c, i))
  }

  function Encode(s: string): Bytes {
    if s == "" then [] else EncodeChar(s[0]) + Encode(s[1..])
  }

  /** The encoding of characters that take one byte each. */
  function Ascii(s: string): (u: Bytes)
    ensures |u| == |s|
  {
    seq(|s|, i requires 0 <= i < |s| => Unit(s[i], 0))
  }

  /** A whole character comes first. */
  predicate StartsChar(u: Bytes) {
    u != [] && Width(u[0].c) <= |u| && forall j :: 0 <= j < Width(u[0].c) ==> u[j] == Unit(u[0].c, j)
  }

  /** A whole character comes last. */
  predicate EndsChar(u: Bytes) {
    u != [] && Width(u[|u| - 1].c) <= |u| &&
    var k := |u| - Width(u[|u| - 1].c);
    StartsChar(u[k..]) && u[k].c == u[|u| - 1].c
  }

  /** How many bytes decoding takes first. */
  function First(u: Bytes): (n: nat)
    requires u != []
    ensures 1 <= n <= |u|
  {
    if StartsChar(u) then Width(u[0].c) else 1
  }

  function Decode(u: Bytes): string {
    if u == [] then "" else [if StartsChar(u) then u[0].c else REPLACEMENT] + Decode(u[First(u)..])
  }

  /** `k` falls inside a whole character. */
  predicate Torn(u: Bytes, k: nat)
    requires k <= |u|
  {
    k > 0 && (First(u) > k || Torn(u[First(u)..], k - First(u)))
  }

  /** Nothing but whole characters. */
  predicate Whole(u: Bytes) {
    u == [] || (StartsChar(u) && Whole(u[First(u)..]))
  }

  /** How many characters `w` bytes can tell apart: 7 bits in one byte, else 5 per byte and one more. */
  function Capacity(w: nat): nat {
    if w == 0 then 0 else if w == 1 then 0x80 else Doubled(5 * w + 1)
  }

  function Doubled(n: nat): nat {
    if n == 0 then 1 else 2 * Doubled(n - 1)
  }

  /** A character takes as few bytes as can hold it, as section 3 of RFC 3629 has it. */
  lemma WidthIsLeast(c: char)
    ensures Capacity(Width(c) - 1) <= c as int < Capacity(Width(c))
  {
    assert Doubled(8) == 0x100;
    assert Doubled(11) == 0x800;
    assert Doubled(16) == 0x10000;
    assert Doubled(21) == 0x200000;
  }

  lemma {:induction false} EncodeAppend(a: string, b: string)
    ensures Encode(a + b) == Encode(a) + Encode(b)
  {
    if a == "" {
      assert a + b == b;
    } else {
      assert (a + b)[1..] == a[1..] + b;
      EncodeAppend(a[1..], b);
    }
  }

  /** Decoding undoes encoding. */
  lemma {:induction false} RoundTrip(s: string)
    ensures Decode(Encode(s)) == s && Whole(Encode(s))
  {
    if s != "" {
      var u := Encode(s);
      assert StartsChar(u) && u[0].c == s[0];
      assert u[First(u)..] == Encode(s[1..]);
      RoundTrip(s[1..]);
    }
  }

  lemma {:induction false} AsciiIsEncoding(s: string)
    requires forall i :: 0 <= i < |s| ==> Width(s[i]) == 1
    ensures Ascii(s) == Encode(s)
  {
    if s != "" {
      AsciiIsEncoding(s[1..]);
      assert Ascii(s) == [Unit(s[0], 0)] + Ascii(s[1..]);
    }
  }

  /** In whole characters the places inside one are those before a continuation byte; and cutting
      anywhere else leaves whole characters on both sides. */
  lemma {:induction false} WholeCut(u: Bytes, k: nat)
    requires Whole(u) && k <= |u|
    ensures Torn(u, k) <==> k < |u| && u[k].i > 0
    ensures Whole(u[..k]) <==> !Torn(u, k)
    ensures !Torn(u, k) ==> Whole(u[k..])
  {
    if k == 0 {
      assert u[0..] == u;
    } else {
      var n := First(u);
      if n <= k {
        WholeCut(u[n..], k - n);
        assert StartsChar(u[..k]) && u[..k][n..] == u[n..][..k - n];
        assert u[n..][k - n..] == u[k..];
      } else {
        assert !StartsChar(u[..k]);
      }
    }
  }

  /** A place behind a one-byte character is in no other. */
  lemma {:induction false} NotTornBehind(u: Bytes, k: nat)
    requires 0 < k <= |u| && u[k - 1].i == 0 && Width(u[k - 1].c) == 1
    ensures !Torn(u, k)
  {
    var n := First(u);
    if n < k {
      NotTornBehind(u[n..], k - n);
    }
  }

  /** Nor is a place before the first byte of a character, or the end. */
  lemma {:induction false} NotTornBefore(u: Bytes, k: nat)
    requires k <= |u| && (k < |u| ==> u[k].i == 0)
    ensures !Torn(u, k)
  {
    if k > 0 && First(u) <= k {
      NotTornBefore(u[First(u)..], k - First(u));
    }
  }

  // ----- what is left when whitespace does not count -----

  type Whitespace = char -> bool

  function Ink(s: string, ws: Whitespace): string {
    if s == "" then "" else (if ws(s[0]) then "" else [s[0]]) + Ink(s[1..], ws)
  }

  lemma {:induction false} InkAppend(a: string, b: string, ws: Whitespace)
    ensures Ink(a + b, ws) == Ink(a, ws) + Ink(b, ws)
  {
    if a == "" {
      assert a + b == b;
    } else {
      assert (a + b)[1..] == a[1..] + b;
      InkAppend(a[1..], b, ws);
    }
  }

  /** What a reader sees of these bytes, whitespace aside. */
  function InkOf(u: Bytes, ws: Whitespace): string {
    Ink(Decode(u), ws)
  }

  lemma InkOfStep(u: Bytes, ws: Whitespace)
    requires u != []
    ensures var c := if StartsChar(u) then u[0].c else REPLACEMENT;
      InkOf(u, ws) == (if ws(c) then "" else [c]) + InkOf(u[First(u)..], ws)
  {
    var c := if StartsChar(u) then u[0].c else REPLACEMENT;
    assert ([c] + Decode(u[First(u)..]))[1..] == Decode(u[First(u)..]);
  }

  /** Bytes from the middle of a character are all replaced. */
  lemma {:induction false} InkOfStray(stray: Bytes, u: Bytes, ws: Whitespace)
    requires forall j :: 0 <= j < |stray| ==> stray[j].i > 0
    requires !ws(REPLACEMENT)
    ensures |InkOf(stray + u, ws)| == |stray| + |InkOf(u, ws)|
  {
    if stray == [] {
      assert stray + u == u;
    } else {
      InkOfStep(stray + u, ws);
      assert (stray + u)[1..] == stray[1..] + u;
      InkOfStray(stray[1..], u, ws);
    }
  }

  /** Two pieces show together what the whole does, or more than that if a character is torn. */
  predicate Shows(torn: bool, a: string, b: string, whole: string) {
    if torn then |a| + |b| > |whole| else a + b == whole
  }

  lemma ShowsBehind(torn: bool, x: string, a: string, b: string, whole: string)
    requires Shows(torn, a, b, whole)
    ensures Shows(torn, x + a, b, x + whole)
  {
    assert (x + a) + b == x + (a + b);
  }

  /** Cutting between characters changes nothing that is seen; cutting inside one shows more. */
  lemma {:induction false} InkOfCut(u: Bytes, k: nat, ws: Whitespace)
    requires k <= |u| && !ws(REPLACEMENT)
    ensures Shows(Torn(u, k), InkOf(u[..k], ws), InkOf(u[k..], ws), InkOf(u, ws))
  {
    if k == 0 {
      assert u[0..] == u;
      assert InkOf(u[..0], ws) == "";
    } else if First(u) > k {
      InkOfStep(u, ws);
      InkOfTear(u, k, ws);
    } else {
      InkOfCut(u[First(u)..], k - First(u), ws);
      var x := InkOfHead(u, k, ws);
      var rest := u[First(u)..];
      ShowsBehind(Torn(u, k), x, InkOf(rest[..k - First(u)], ws), InkOf(u[k..], ws), InkOf(rest, ws));
    }
  }

  /** A cut at or behind the first character leaves what is shown of that in front. */
  lemma InkOfHead(u: Bytes, k: nat, ws: Whitespace) returns (x: string)
    requires u != [] && First(u) <= k <= |u|
    ensures var n := First(u);
      && u[n..][k - n..] == u[k..]
      && InkOf(u, ws) == x + InkOf(u[n..], ws)
      && InkOf(u[..k], ws) == x + InkOf(u[n..][..k - n], ws)
  {
    var n := First(u);
    var c := if StartsChar(u) then u[0].c else REPLACEMENT;
    assert StartsChar(u[..k]) <==> StartsChar(u);
    assert u[..k][n..] == u[n..][..k - n];
    InkOfStep(u, ws);
    InkOfStep(u[..k], ws);
    x := if ws(c) then "" else [c];
  }

  lemma InkOfTear(u: Bytes, k: nat, ws: Whitespace)
    requires 0 < k && u != [] && k < First(u) && !ws(REPLACEMENT)
    ensures |InkOf(u[..k], ws)| + |InkOf(u[k..], ws)| > 1 + |InkOf(u[First(u)..], ws)|
  {
    var n := First(u);
    assert u[k..] == u[k..n] + u[n..];
    InkOfStray(u[k..n], u[n..], ws);
    assert !StartsChar(u[..k]);
    InkOfStep(u[..k], ws);
  }
}
