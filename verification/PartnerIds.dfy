/** Partner IDs from header lines (translation/transport.go, getPartnerIDs). */
module PartnerIds {
  import opened Text

  function TrimAll(parts: seq<string>): (r: seq<string>)
    ensures |r| == |parts| && forall i :: 0 <= i < |parts| ==> r[i] == TrimSpace(parts[i])
  {
    seq(|parts|, i requires 0 <= i < |parts| => TrimSpace(parts[i]))
  }

  /** The IDs of one header line: its comma-separated pieces, trimmed. */
  function LineIDs(line: string): seq<string> {
    TrimAll(Split(line, ','))
  }

  // The line is the pieces with commas between them, and each ID is its piece without the
  // white space around it.
  ghost predicate Lists(line: string, ids: seq<string>, pieces: seq<string>) {
    && pieces != [] && AllWithout(pieces, ',') && Join(pieces, ",") == line
    && |ids| == |pieces| && forall i :: 0 <= i < |ids| ==> Trimmed(ids[i]) && Padded(pieces[i], ids[i])
  }

  /** One line's IDs are the only list that the line can be read as. */
  lemma LineExactly(line: string, ids: seq<string>)
    ensures LineIDs(line) == ids <==> exists pieces :: Lists(line, ids, pieces)
  {
    if LineIDs(line) == ids {
      var pieces := Split(line, ',');
      JoinSplit(line, ',');
      SplitParts(line, ',');
      forall i | 0 <= i < |ids| ensures Trimmed(ids[i]) && Padded(pieces[i], ids[i]) {
        TrimExactly(pieces[i], ids[i]);
      }
      assert Lists(line, ids, pieces);
    }
    if pieces :| Lists(line, ids, pieces) {
      SplitJoin(pieces, ',');
      forall i | 0 <= i < |ids| ensures LineIDs(line)[i] == ids[i] {
        TrimExactly(pieces[i], ids[i]);
      }
    }
  }

  /** The IDs of all lines, in order. */
  function PartnerIDs(lines: seq<string>): seq<string> {
    if lines == [] then [] else PartnerIDs(lines[..|lines| - 1]) + LineIDs(lines[|lines| - 1])
  }

  // A header that is absent and one without lines both give the empty (nil) list.
  method GetPartnerIDs(h: map<string, seq<string>>, key: string) returns (partners: seq<string>)
    ensures partners == PartnerIDs(if key in h then h[key] else [])
  {
    partners := [];
    if key !in h {
      return;
    }
    var headers := h[key];
    for n := 0 to |headers|
      invariant partners == PartnerIDs(headers[..n])
    {
      var split := Split(headers[n], ',');
      var fields := new string[|split|](i requires 0 <= i < |split| => split[i]);
      for i := 0 to fields.Length
        invariant forall k :: 0 <= k < i ==> fields[k] == TrimSpace(split[k])
        invariant forall k :: i <= k < fields.Length ==> fields[k] == split[k]
      {
        fields[i] := TrimSpace(fields[i]);
      }
      assert fields[..] == LineIDs(headers[n]);
      assert headers[..n + 1][..n] == headers[..n];
      partners := partners + fields[..];
    }
    assert headers[..|headers|] == headers;
  }

  lemma OneMoreLine(lines: seq<string>, line: string)
    ensures PartnerIDs(lines + [line]) == PartnerIDs(lines) + LineIDs(line)
  {
    assert (lines + [line])[..|lines|] == lines;
  }

  lemma {:induction false} PartnerIDsAppend(a: seq<string>, b: seq<string>)
    ensures PartnerIDs(a + b) == PartnerIDs(a) + PartnerIDs(b)
  {
    if b == [] {
      assert a + b == a;
    } else {
      var init, line := b[..|b| - 1], b[|b| - 1];
      assert b == init + [line];
      Assoc(a, init, [line]);
      OneMoreLine(a + init, line);
      PartnerIDsAppend(a, init);
      Assoc(PartnerIDs(a), PartnerIDs(init), LineIDs(line));
    }
  }

  lemma OneLine(line: string)
    ensures PartnerIDs([line]) == LineIDs(line)
  {
  }

  // ---------- combining lines ----------

  // Optional white space between list members: spaces and tabs (section 5.6.3 of RFC 9110).
  ghost predicate OptionalWhiteSpace(s: string) {
    forall i :: 0 <= i < |s| ==> s[i] == ' ' || s[i] == '\t'
  }

  lemma {:induction false} SplitPadLeft(w: string, s: string)
    requires OptionalWhiteSpace(w)
    ensures Split(w + s, ',') == [w + Split(s, ',')[0]] + Split(s, ',')[1..]
  {
    if w == "" {
      assert w + s == s && w + Split(s, ',')[0] == Split(s, ',')[0];
    } else {
      assert (w + s)[1..] == w[1..] + s;
      SplitPadLeft(w[1..], s);
      assert [w[0]] + (w[1..] + Split(s, ',')[0]) == w + Split(s, ',')[0];
    }
  }

  lemma {:induction false} JoinPadRight(parts: seq<string>, w: string)
    requires parts != []
    ensures var last := |parts| - 1; Join(parts[last := parts[last] + w], ",") == Join(parts, ",") + w
  {
    var padded := parts[|parts| - 1 := parts[|parts| - 1] + w];
    if |parts| > 1 {
      JoinPadRight(parts[1..], w);
      assert padded[1..] == parts[1..][|parts| - 2 := parts[|parts| - 1] + w];
      assert parts[0] + "," + (Join(parts[1..], ",") + w) == parts[0] + "," + Join(parts[1..], ",") + w;
    }
  }

  lemma SplitPadRight(s: string, w: string)
    requires OptionalWhiteSpace(w)
    ensures var r := Split(s, ','); Split(s + w, ',') == r[|r| - 1 := r[|r| - 1] + w]
  {
    var r := Split(s, ',');
    JoinSplit(s, ',');
    SplitParts(s, ',');
    assert Without(r[|r| - 1], ',');
    JoinPadRight(r, w);
    SplitJoin(r[|r| - 1 := r[|r| - 1] + w], ',');
  }

  lemma LinePadLeft(w: string, s: string)
    requires OptionalWhiteSpace(w)
    ensures LineIDs(w + s) == LineIDs(s)
  {
    SplitPadLeft(w, s);
    TrimAround(w, Split(s, ',')[0], "");
    assert w + Split(s, ',')[0] + "" == w + Split(s, ',')[0];
  }

  lemma LinePadRight(s: string, w: string)
    requires OptionalWhiteSpace(w)
    ensures LineIDs(s + w) == LineIDs(s)
  {
    SplitPadRight(s, w);
    var r := Split(s, ',');
    TrimAround("", r[|r| - 1], w);
    assert "" + r[|r| - 1] + w == r[|r| - 1] + w;
  }

  lemma LineCombined(a: string, w1: string, w2: string, b: string)
    requires OptionalWhiteSpace(w1) && OptionalWhiteSpace(w2)
    ensures LineIDs(a + w1 + "," + w2 + b) == LineIDs(a) + LineIDs(b)
  {
    Assoc(a + w1 + ",", w2, b);
    SplitAt(a + w1, ',', w2 + b);
    LinePadRight(a, w1);
    LinePadLeft(w2, b);
  }

  /** Joining two adjacent lines with a comma and optional white space changes nothing (section 5.3 of RFC 9110). */
  lemma CombiningChangesNothing(before: seq<string>, a: string, w1: string, w2: string, b: string, after: seq<string>)
    requires OptionalWhiteSpace(w1) && OptionalWhiteSpace(w2)
    ensures PartnerIDs(before + [a + w1 + "," + w2 + b] + after) == PartnerIDs(before + [a, b] + after)
  {
    var joined := a + w1 + "," + w2 + b;
    LineCombined(a, w1, w2, b);
    PartnerIDsAppend(before + [joined], after);
    PartnerIDsAppend(before, [joined]);
    PartnerIDsAppend(before + [a, b], after);
    PartnerIDsAppend(before, [a, b]);
    assert [a, b] == [a] + [b];
    PartnerIDsAppend([a], [b]);
    OneLine(joined);
    OneLine(a);
    OneLine(b);
  }

  lemma LineNext(a: string, w: string, b: string)
    requires OptionalWhiteSpace(w)
    ensures LineIDs(a + ("," + w) + b) == LineIDs(a) + LineIDs(b)
  {
    LineCombined(a, "", w, b);
    assert a + "" + "," + w + b == a + ("," + w) + b;
  }

  /** All lines can be sent as one. */
  lemma {:induction false} OneLineForAll(lines: seq<string>, w: string)
    requires lines != [] && OptionalWhiteSpace(w)
    ensures PartnerIDs([Join(lines, "," + w)]) == PartnerIDs(lines)
  {
    OneLine(Join(lines, "," + w));
    OneLine(lines[0]);
    if |lines| == 1 {
      assert lines == [lines[0]];
    } else {
      var rest := Join(lines[1..], "," + w);
      OneLineForAll(lines[1..], w);
      OneLine(rest);
      LineNext(lines[0], w, rest);
      PartnerIDsAppend([lines[0]], lines[1..]);
      assert [lines[0]] + lines[1..] == lines;
    }
  }

  // ---------- the normal form ----------

  ghost predicate Normal(ids: seq<string>) {
    forall i :: 0 <= i < |ids| ==> Trimmed(ids[i]) && Without(ids[i], ',')
  }

  lemma LineNormal(line: string)
    ensures Normal(LineIDs(line))
  {
    var parts := Split(line, ',');
    SplitParts(line, ',');
    forall i | 0 <= i < |parts|
      ensures Trimmed(LineIDs(line)[i]) && Without(LineIDs(line)[i], ',')
    {
      assert Without(parts[i], ',');
      TrimSpaceTrims(parts[i]);
      TrimSpaceKeeps(parts[i], ',');
    }
  }

  function CountIDs(lines: seq<string>): nat {
    if lines == [] then 0 else CountIDs(lines[..|lines| - 1]) + Occurrences(lines[|lines| - 1], ',') + 1
  }

  /** Every ID is trimmed and comma-free, and each line gives one more than it has commas. */
  lemma {:induction false} OutputNormal(lines: seq<string>)
    ensures Normal(PartnerIDs(lines)) && |PartnerIDs(lines)| == CountIDs(lines)
  {
    if lines != [] {
      OutputNormal(lines[..|lines| - 1]);
      LineNormal(lines[|lines| - 1]);
      SplitLength(lines[|lines| - 1], ',');
    }
  }

  lemma {:induction false} NormalSurvives(ids: seq<string>)
    requires Normal(ids)
    ensures PartnerIDs(ids) == ids
  {
    if ids != [] {
      var init, id := ids[..|ids| - 1], ids[|ids| - 1];
      NormalSurvives(init);
      assert Trimmed(id) && Without(id, ',');
      SplitWhole(id, ',');
      TrimSpaceTrims(id);
      assert LineIDs(id) == [id];
    }
  }

  /** IDs of visible ASCII characters without commas arrive as they were sent, one per line or all in one. */
  lemma VisibleArrive(ids: seq<string>, w: string)
    requires forall i :: 0 <= i < |ids| ==> forall k :: 0 <= k < |ids[i]| ==> '!' <= ids[i][k] <= '~' && ids[i][k] != ','
    requires ids != [] && OptionalWhiteSpace(w)
    ensures PartnerIDs(ids) == ids && PartnerIDs([Join(ids, "," + w)]) == ids
  {
    assert Normal(ids);
    NormalSurvives(ids);
    OneLineForAll(ids, w);
  }

  /** A non-empty list of partner IDs is exactly one that, sent as one header, comes back. */
  lemma NormalForm(ids: seq<string>, w: string)
    requires ids != [] && OptionalWhiteSpace(w)
    ensures PartnerIDs([Join(ids, "," + w)]) == ids <==> Normal(ids)
  {
    OneLineForAll(ids, w);
    OutputNormal(ids);
    if Normal(ids) { NormalSurvives(ids); }
  }

  /** Sending the output as one header and parsing it again gives it back, however the lines came. */
  lemma OutputReturns(lines: seq<string>, w: string)
    requires PartnerIDs(lines) != [] && OptionalWhiteSpace(w)
    ensures PartnerIDs([Join(PartnerIDs(lines), "," + w)]) == PartnerIDs(lines)
  {
    OutputNormal(lines);
    NormalForm(PartnerIDs(lines), w);
  }
}
