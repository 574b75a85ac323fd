/** The string functions the list parsers rest on: strings.Split, strings.Join and strings.TrimSpace. */
module Text {
  /** The pieces between separators; always at least one. */
  function Split(s: string, sep: char): (r: seq<string>)
    ensures r != []
  {
    if s == "" then [""]
    else
      var rest := Split(s[1..], sep);
      if s[0] == sep then [""] + rest else [[s[0]] + rest[0]] + rest[1..]
  }

  function Join(parts: seq<string>, sep: string): string {
    if parts == [] then ""
    else if |parts| == 1 then parts[0]
    else parts[0] + sep + Join(parts[1..], sep)
  }

  function Occurrences(s: string, c: char): nat {
    if s == "" then 0 else (if s[0] == c then 1 else 0) + Occurrences(s[1..], c)
  }

  lemma Assoc<T>(u: seq<T>, v: seq<T>, w: seq<T>)
    ensures (u + v) + w == u + (v + w)
  {
  }

  predicate Without(s: string, c: char) {
    c !in s
  }

  ghost predicate AllWithout(parts: seq<string>, c: char) {
    forall i :: 0 <= i < |parts| ==> Without(parts[i], c)
  }

  lemma {:induction false} SplitLength(s: string, sep: char)
    ensures |Split(s, sep)| == Occurrences(s, sep) + 1
  {
    if s != "" { SplitLength(s[1..], sep); }
  }

  lemma {:induction false} SplitParts(s: string, sep: char)
    ensures AllWithout(Split(s, sep), sep)
  {
    if s != "" { SplitParts(s[1..], sep); }
  }

  lemma {:induction false} JoinSplit(s: string, sep: char)
    ensures Join(Split(s, sep), [sep]) == s
  {
    if s != "" {
      var rest := Split(s[1..], sep);
      JoinSplit(s[1..], sep);
      if s[0] == sep {
        assert ([""] + rest)[1..] == rest;
      } else {
        assert ([[s[0]] + rest[0]] + rest[1..])[1..] == rest[1..];
      }
      assert [s[0]] + s[1..] == s;
    }
  }

  lemma {:induction false} SplitWhole(s: string, sep: char)
    requires Without(s, sep)
    ensures Split(s, sep) == [s]
  {
    if s != "" {
      assert forall c :: c in s[1..] ==> c in s;
      SplitWhole(s[1..], sep);
      assert [s[0]] + s[1..] == s;
    }
  }

  /** Splitting text that holds a separator splits both sides of it. */
  lemma {:induction false} SplitAt(a: string, sep: char, b: string)
    ensures Split(a + [sep] + b, sep) == Split(a, sep) + Split(b, sep)
  {
    var s := a + [sep] + b;
    if a == "" {
      assert s[1..] == b;
    } else {
      assert s[1..] == a[1..] + [sep] + b;
      SplitAt(a[1..], sep, b);
    }
  }

  /** Split is the only way back from Join for a non-empty list of parts without separators. */
  lemma {:induction false} SplitJoin(parts: seq<string>, sep: char)
    requires parts != [] && AllWithout(parts, sep)
    ensures Split(Join(parts, [sep]), sep) == parts
  {
    assert Without(parts[0], sep);
    SplitWhole(parts[0], sep);
    if |parts| > 1 {
      SplitJoin(parts[1..], sep);
      SplitAt(parts[0], sep, Join(parts[1..], [sep]));
      assert [parts[0]] + parts[1..] == parts;
    }
  }

  // ---------- white space ----------

  /** Unicode white space, as unicode.IsSpace defines it. */
  predicate IsSpace(c: char) {
    var n := c as int;
    || 9 <= n <= 13 || n == 0x20 || n == 0x85 || n == 0xA0 || n == 0x1680 || 0x2000 <= n <= 0x200A
    || n == 0x2028 || n == 0x2029 || n == 0x202F || n == 0x205F || n == 0x3000
  }

  // The 25 characters of the Unicode property White_Space.
  const WHITE_SPACE :=
    "\t\n\U{0B}\U{0C}\r \U{85}\U{A0}\U{1680}\U{2000}\U{2001}\U{2002}\U{2003}\U{2004}\U{2005}\U{2006}\U{2007}\U{2008}\U{2009}\U{200A}\U{2028}\U{2029}\U{202F}\U{205F}\U{3000}"

  lemma SpacesExactly(c: char)
    ensures IsSpace(c) <==> c in WHITE_SPACE
  {
  }

  /** Every visible ASCII character survives trimming, wherever it stands. */
  lemma VisibleStays(s: string)
    requires forall i :: 0 <= i < |s| ==> '!' <= s[i] <= '~'
    ensures TrimSpace(s) == s
  {
    TrimSpaceTrims(s);
  }

  ghost predicate Blank(s: string) {
    forall i :: 0 <= i < |s| ==> IsSpace(s[i])
  }

  function TrimLeft(s: string): string {
    if s != "" && IsSpace(s[0]) then TrimLeft(s[1..]) else s
  }

  function TrimRight(s: string): string {
    if s != "" && IsSpace(s[|s| - 1]) then TrimRight(s[..|s| - 1]) else s
  }

  function TrimSpace(s: string): string {
    TrimRight(TrimLeft(s))
  }

  lemma {:induction false} TrimLeftBlank(w: string, s: string)
    requires Blank(w)
    ensures TrimLeft(w + s) == TrimLeft(s)
  {
    if w == "" {
      assert w + s == s;
    } else {
      assert (w + s)[1..] == w[1..] + s;
      TrimLeftBlank(w[1..], s);
    }
  }

  lemma {:induction false} TrimRightBlank(s: string, w: string)
    requires Blank(w)
    ensures TrimRight(s + w) == TrimRight(s)
  {
    if w == "" {
      assert s + w == s;
    } else {
      assert (s + w)[..|s + w| - 1] == s + w[..|w| - 1];
      TrimRightBlank(s, w[..|w| - 1]);
    }
  }

  lemma {:induction false} TrimLeftPast(s: string, w: string)
    requires Blank(w)
    ensures TrimSpace(s + w) == TrimSpace(s)
  {
    if s == "" {
      assert s + w == w + "";
      TrimLeftBlank(w, "");
    } else if IsSpace(s[0]) {
      assert (s + w)[1..] == s[1..] + w;
      TrimLeftPast(s[1..], w);
    } else {
      TrimRightBlank(s, w);
    }
  }

  /** White space around a text does not matter to TrimSpace. */
  lemma TrimAround(before: string, s: string, after: string)
    requires Blank(before) && Blank(after)
    ensures TrimSpace(before + s + after) == TrimSpace(s)
  {
    TrimLeftBlank(before, s);
    TrimLeftPast(before + s, after);
  }

  // Nothing left to trim.
  predicate Trimmed(s: string) {
    s == "" || (!IsSpace(s[0]) && !IsSpace(s[|s| - 1]))
  }

  lemma {:induction false} TrimLeftEnds(s: string)
    ensures TrimLeft(s) == "" || !IsSpace(TrimLeft(s)[0])
  {
    if s != "" && IsSpace(s[0]) { TrimLeftEnds(s[1..]); }
  }

  lemma {:induction false} TrimRightEnds(s: string)
    ensures TrimRight(s) <= s
    ensures TrimRight(s) == "" || !IsSpace(TrimRight(s)[|TrimRight(s)| - 1])
  {
    if s != "" && IsSpace(s[|s| - 1]) { TrimRightEnds(s[..|s| - 1]); }
  }

  /** TrimSpace leaves nothing to trim, and leaves alone what has nothing to trim. */
  lemma TrimSpaceTrims(s: string)
    ensures Trimmed(TrimSpace(s))
    ensures TrimSpace(s) == s <==> Trimmed(s)
  {
    TrimLeftEnds(s);
    TrimRightEnds(TrimLeft(s));
  }

  lemma {:induction false} TrimLeftCuts(s: string) returns (w: string)
    ensures s == w + TrimLeft(s) && Blank(w)
  {
    w := "";
    if s != "" && IsSpace(s[0]) {
      w := TrimLeftCuts(s[1..]);
      assert s == [s[0]] + s[1..];
      w := [s[0]] + w;
    }
  }

  lemma {:induction false} TrimRightCuts(s: string) returns (w: string)
    ensures s == TrimRight(s) + w && Blank(w)
  {
    w := "";
    if s != "" && IsSpace(s[|s| - 1]) {
      w := TrimRightCuts(s[..|s| - 1]);
      assert s == s[..|s| - 1] + [s[|s| - 1]];
      w := w + [s[|s| - 1]];
    }
  }

  // s is t with white space around it.
  ghost predicate Padded(s: string, t: string) {
    exists before: string, after: string :: Blank(before) && Blank(after) && s == before + t + after
  }

  /** TrimSpace takes away white space at the ends, all of it and nothing else. */
  lemma TrimExactly(s: string, t: string)
    ensures TrimSpace(s) == t <==> Trimmed(t) && Padded(s, t)
  {
    TrimSpaceTrims(s);
    var before := TrimLeftCuts(s);
    var after := TrimRightCuts(TrimLeft(s));
    assert s == before + TrimSpace(s) + after;
    if Trimmed(t) && Padded(s, t) {
      var u, v :| Blank(u) && Blank(v) && s == u + t + v;
      TrimAround(u, t, v);
      TrimSpaceTrims(t);
    }
  }

  lemma {:induction false} TrimLeftKeeps(s: string, c: char)
    requires Without(s, c)
    ensures Without(TrimLeft(s), c)
  {
    if s != "" && IsSpace(s[0]) {
      TrimLeftKeeps(s[1..], c);
    }
  }

  lemma TrimSpaceKeeps(s: string, c: char)
    requires Without(s, c)
    ensures Without(TrimSpace(s), c)
  {
    TrimLeftKeeps(s, c);
    TrimRightEnds(TrimLeft(s));
  }
}
