/**
 HTTP header maps and the forwarding of their values (transaction/transactor.go), over maps
 that are iterated in any order.
 */
module Headers {
  import Text

  type HeaderMap = map<string, seq<string>>

  function Values(m: HeaderMap, k: string): seq<string> {
    if k in m then m[k] else []
  }

  // ---------- canonical keys, as net/textproto makes them ----------

  predicate TokenChar(c: char) {
    'a' <= c <= 'z' || 'A' <= c <= 'Z' || '0' <= c <= '9' || c in "!#$%&'*+-.^_`|~"
  }

  predicate Token(s: string) {
    forall i :: 0 <= i < |s| ==> TokenChar(s[i])
  }

  function Case(c: char, upper: bool): char {
    if upper && 'a' <= c <= 'z' then c - 'a' + 'A'
    else if !upper && 'A' <= c <= 'Z' then c - 'A' + 'a'
    else c
  }

  function Recase(s: string, upper: bool): string {
    if s == "" then "" else [Case(s[0], upper)] + Recase(s[1..], s[0] == '-')
  }

  function Canonical(k: string): string {
    if Token(k) then Recase(k, true) else k
  }

  lemma {:induction false} RecaseTwice(s: string, upper: bool)
    ensures Recase(Recase(s, upper), upper) == Recase(s, upper)
    ensures Token(s) ==> Token(Recase(s, upper))
  {
    if s != "" {
      var rest := s[1..];
      RecaseTwice(rest, s[0] == '-');
      assert Recase(s, upper)[1..] == Recase(rest, s[0] == '-');
      if Token(s) {
        assert TokenChar(s[0]);
        forall i | 0 <= i < |rest| ensures TokenChar(rest[i]) {
          assert rest[i] == s[i + 1];
        }
      }
    }
  }

  predicate CasedAt(s: string, upper: bool, i: nat)
    requires i < |s|
  {
    Case(s[i], if i == 0 then upper else s[i - 1] == '-') == s[i]
  }

  /** A key is canonical as soon as every letter has the case its place asks for. */
  lemma {:induction false} RecaseFixed(s: string, upper: bool)
    requires forall i :: 0 <= i < |s| ==> CasedAt(s, upper, i)
    ensures Recase(s, upper) == s
  {
    if s != "" {
      var rest, afterDash := s[1..], s[0] == '-';
      assert CasedAt(s, upper, 0);
      forall i | 0 <= i < |rest| ensures CasedAt(rest, afterDash, i) {
        assert CasedAt(s, upper, i + 1);
      }
      RecaseFixed(rest, afterDash);
      assert s == [s[0]] + rest;
    }
  }

  /** Making a key canonical a second time changes nothing. */
  lemma CanonicalTwice(k: string)
    ensures Canonical(Canonical(k)) == Canonical(k)
  {
    RecaseTwice(k, true);
  }

  // ---------- what is canonical about canonical keys ----------

  predicate Lower(c: char) {
    'a' <= c <= 'z'
  }

  predicate Upper(c: char) {
    'A' <= c <= 'Z'
  }

  // The same character, or the two cases of one letter.
  predicate SameLetter(c: char, d: char) {
    || c == d
    || (Lower(c) && Upper(d) && c as int - 'a' as int == d as int - 'A' as int)
    || (Upper(c) && Lower(d) && c as int - 'A' as int == d as int - 'a' as int)
  }

  // HTTP field names are the same name then.
  ghost predicate SameUpToCase(j: string, k: string) {
    |j| == |k| && forall i :: 0 <= i < |j| ==> SameLetter(j[i], k[i])
  }

  // A token: visible ASCII characters without delimiters (section 5.6.2 of RFC 9110).
  ghost predicate FieldName(s: string) {
    forall i :: 0 <= i < |s| ==> '!' <= s[i] <= '~' && s[i] !in "\"(),/:;<=>?@[\\]{}"
  }

  lemma TokenCharExactly(c: char)
    ensures TokenChar(c) <==> '!' <= c <= '~' && c !in "\"(),/:;<=>?@[\\]{}"
  {
  }

  lemma TokenExactly(s: string)
    ensures Token(s) <==> FieldName(s)
  {
    forall i | 0 <= i < |s|
      ensures TokenChar(s[i]) <==> '!' <= s[i] <= '~' && s[i] !in "\"(),/:;<=>?@[\\]{}"
    {
      TokenCharExactly(s[i]);
    }
  }

  lemma {:induction false} RecaseLetters(s: string, upper: bool)
    ensures var r := Recase(s, upper);
      && |r| == |s| && SameUpToCase(s, r)
      && forall i :: 0 <= i < |r| ==>
           if (if i == 0 then upper else s[i - 1] == '-') then !Lower(r[i]) else !Upper(r[i])
  {
    if s != "" {
      var rest := Recase(s[1..], s[0] == '-');
      RecaseLetters(s[1..], s[0] == '-');
      assert Recase(s, upper) == [Case(s[0], upper)] + rest;
      forall i | 0 < i < |s|
        ensures Recase(s, upper)[i] == rest[i - 1] && s[i] == s[1..][i - 1]
      {
      }
    }
  }

  /**
   The canonical form of a field name differs from it in the case of letters only: no letter
   at the start or after a hyphen is lower case, no other one is upper case. What is not a
   field name is left as it is.
   */
  lemma CanonicalLetters(k: string)
    ensures var c := Canonical(k);
      && |c| == |k| && SameUpToCase(k, c)
      && (!FieldName(k) ==> c == k)
      && (FieldName(k) ==> forall i :: 0 <= i < |c| ==> if i == 0 || c[i - 1] == '-' then !Lower(c[i]) else !Upper(c[i]))
  {
    TokenExactly(k);
    RecaseLetters(k, true);
  }

  lemma {:induction false} RecaseByCase(j: string, k: string, upper: bool)
    requires SameUpToCase(j, k)
    ensures Recase(j, upper) == Recase(k, upper)
  {
    if j != "" {
      assert SameLetter(j[0], k[0]);
      forall i | 0 <= i < |j[1..]| ensures SameLetter(j[1..][i], k[1..][i]) {
        assert SameLetter(j[i + 1], k[i + 1]);
      }
      RecaseByCase(j[1..], k[1..], j[0] == '-');
    }
  }

  lemma SameLetterChain(j: string, k: string, c: string)
    requires SameUpToCase(j, c) && SameUpToCase(k, c)
    ensures SameUpToCase(j, k)
  {
    forall i | 0 <= i < |j| ensures SameLetter(j[i], k[i]) {
      assert SameLetter(j[i], c[i]) && SameLetter(k[i], c[i]);
    }
  }

  lemma FieldNameByCase(j: string, k: string)
    requires SameUpToCase(j, k)
    ensures FieldName(j) <==> FieldName(k)
  {
    TokenExactly(j);
    TokenExactly(k);
    forall i | 0 <= i < |j| ensures TokenChar(j[i]) <==> TokenChar(k[i]) {
      assert SameLetter(j[i], k[i]);
    }
  }

  /** Two field names have one canonical form exactly when they differ in the case of letters only. */
  lemma SameCanonical(j: string, k: string)
    requires FieldName(j) && FieldName(k)
    ensures Canonical(j) == Canonical(k) <==> SameUpToCase(j, k)
  {
    TokenExactly(j);
    TokenExactly(k);
    RecaseLetters(j, true);
    RecaseLetters(k, true);
    if Canonical(j) == Canonical(k) { SameLetterChain(j, k, Canonical(j)); }
    if SameUpToCase(j, k) { RecaseByCase(j, k, true); }
  }

  // ---------- the header object ----------

  function Added(m: HeaderMap, k: string, vs: seq<string>): HeaderMap {
    if vs == [] then m else m[Canonical(k) := Values(m, Canonical(k)) + vs]
  }

  lemma AddedOneMore(m: HeaderMap, k: string, vs: seq<string>, v: string)
    ensures Added(Added(m, k, vs), k, [v]) == Added(m, k, vs + [v])
  {
    var c := Canonical(k);
    if vs == [] {
      assert vs + [v] == [v];
    } else {
      assert Values(m, c) + vs + [v] == Values(m, c) + (vs + [v]);
      assert m[c := Values(m, c) + vs][c := Values(m, c) + (vs + [v])] == m[c := Values(m, c) + (vs + [v])];
    }
  }

  lemma AddedUpTo(m: HeaderMap, k: string, vs: seq<string>, i: nat)
    requires i < |vs|
    ensures Added(Added(m, k, vs[..i]), k, [vs[i]]) == Added(m, k, vs[..i + 1])
  {
    assert vs[..i + 1] == vs[..i] + [vs[i]];
    AddedOneMore(m, k, vs[..i], vs[i]);
  }

  class Header {
    var m: HeaderMap

    constructor (m: HeaderMap)
      ensures this.m == m
    {
      this.m := m;
    }

    method Add(k: string, v: string)
      modifies this
      ensures m == Added(old(m), k, [v]) == old(m)[Canonical(k) := Values(old(m), Canonical(k)) + [v]]
    {
      m := m[Canonical(k) := Values(m, Canonical(k)) + [v]];
    }

    method Set(k: string, v: string)
      modifies this
      ensures m == old(m)[Canonical(k) := [v]]
    {
      m := m[Canonical(k) := [v]];
    }

    method Del(k: string)
      modifies this
      ensures m == old(m) - {Canonical(k)}
    {
      m := m - {Canonical(k)};
    }
  }

  // ---------- forwarding ----------

  // An order in which a map with these keys may be iterated.
  ghost predicate IsOrder(order: seq<string>, keys: set<string>) {
    && (forall i, j :: 0 <= i < j < |order| ==> order[i] != order[j])
    && (forall k :: k in order <==> k in keys)
  }

  function Forwarded(p: string, from: HeaderMap, order: seq<string>, to: HeaderMap): HeaderMap {
    if order == [] then to
    else
      var done, k := Forwarded(p, from, order[..|order| - 1], to), order[|order| - 1];
      if p <= k then Added(done, k, Values(from, k)) else done
  }

  lemma ForwardedSnoc(p: string, from: HeaderMap, order: seq<string>, k: string, to: HeaderMap)
    ensures var done := Forwarded(p, from, order, to);
      Forwarded(p, from, order + [k], to) == if p <= k then Added(done, k, Values(from, k)) else done
  {
  }

  lemma OrderGrows(order: seq<string>, keys: set<string>, rest: set<string>, k: string)
    requires IsOrder(order, keys - rest) && k in rest && rest <= keys
    ensures IsOrder(order + [k], keys - (rest - {k}))
  {
  }

  /** Whatever order the map is iterated in, the values are added key by key in that order. */
  method ForwardHeadersByPrefix(p: string, from: HeaderMap, to: Header) returns (ghost order: seq<string>)
    modifies to
    ensures IsOrder(order, from.Keys) && to.m == Forwarded(p, from, order, old(to.m))
  {
    order := [];
    var rest := from.Keys;
    while rest != {}
      invariant rest <= from.Keys && IsOrder(order, from.Keys - rest)
      invariant to.m == Forwarded(p, from, order, old(to.m))
      decreases |rest|
    {
      var headerKey :| headerKey in rest;
      ghost var before := to.m;
      if p <= headerKey {
        var headerValues := from[headerKey];
        for i := 0 to |headerValues|
          invariant to.m == Added(before, headerKey, headerValues[..i])
        {
          to.Add(headerKey, headerValues[i]);
          AddedUpTo(before, headerKey, headerValues, i);
        }
        assert headerValues[..|headerValues|] == headerValues;
      }
      ForwardedSnoc(p, from, order, headerKey, old(to.m));
      OrderGrows(order, from.Keys, rest, headerKey);
      order := order + [headerKey];
      rest := rest - {headerKey};
    }
  }

  // ---------- what a key holds afterwards ----------

  // What one key of the source adds to the canonical key c.
  function Share(p: string, from: HeaderMap, k: string, c: string): seq<string> {
    if p <= k && Canonical(k) == c then Values(from, k) else []
  }

  function Shares(p: string, from: HeaderMap, order: seq<string>, c: string): seq<string> {
    if order == [] then []
    else Shares(p, from, order[..|order| - 1], c) + Share(p, from, order[|order| - 1], c)
  }

  lemma AddedValues(m: HeaderMap, k: string, vs: seq<string>, c: string)
    ensures Values(Added(m, k, vs), c) == Values(m, c) + (if Canonical(k) == c then vs else [])
    ensures c in Added(m, k, vs) <==> c in m || (Canonical(k) == c && vs != [])
  {
  }

  lemma {:induction false} ForwardedValues(p: string, from: HeaderMap, order: seq<string>, to: HeaderMap, c: string)
    ensures var r := Forwarded(p, from, order, to);
      Values(r, c) == Values(to, c) + Shares(p, from, order, c) && (c in r <==> c in to || Shares(p, from, order, c) != [])
  {
    if order != [] {
      var init, k := order[..|order| - 1], order[|order| - 1];
      ForwardedValues(p, from, init, to, c);
      AddedValues(Forwarded(p, from, init, to), k, Values(from, k), c);
      Text.Assoc(Values(to, c), Shares(p, from, init, c), Share(p, from, k, c));
    }
  }

  lemma SharesSnoc(p: string, from: HeaderMap, order: seq<string>, k: string, c: string)
    ensures Shares(p, from, order + [k], c) == Shares(p, from, order, c) + Share(p, from, k, c)
  {
  }

  lemma {:induction false} SharesAppend(p: string, from: HeaderMap, a: seq<string>, b: seq<string>, c: string)
    ensures Shares(p, from, a + b, c) == Shares(p, from, a, c) + Shares(p, from, b, c)
  {
    if b == [] {
      assert a + b == a;
    } else {
      var init, k := b[..|b| - 1], b[|b| - 1];
      SharesAppend(p, from, a, init, c);
      assert b == init + [k];
      Text.Assoc(a, init, [k]);
      SharesSnoc(p, from, a + init, k, c);
      SharesSnoc(p, from, init, k, c);
      Text.Assoc(Shares(p, from, a, c), Shares(p, from, init, c), Share(p, from, k, c));
    }
  }

  lemma OneShare(p: string, from: HeaderMap, k: string, c: string)
    ensures Shares(p, from, [k], c) == Share(p, from, k, c)
  {
  }

  // ---------- when the order does not matter ----------

  // Two forwarded keys with one canonical form hold values that can be swapped.
  ghost predicate Commuting(p: string, from: HeaderMap) {
    forall j, k :: j in from && k in from && p <= j && p <= k && Canonical(j) == Canonical(k)
                   ==> from[j] + from[k] == from[k] + from[j]
  }

  ghost predicate OrderIrrelevant(p: string, from: HeaderMap, to: HeaderMap) {
    forall a, b :: IsOrder(a, from.Keys) && IsOrder(b, from.Keys) ==> Forwarded(p, from, a, to) == Forwarded(p, from, b, to)
  }

  lemma CommuteBoth(u: seq<string>, v: seq<string>, w: seq<string>)
    requires u + v == v + u && u + w == w + u
    ensures u + (v + w) == (v + w) + u
  {
    assert u + (v + w) == (u + v) + w;
    assert v + (u + w) == (v + u) + w;
    assert v + (w + u) == (v + w) + u;
  }

  lemma {:induction false} ShareCommutes(p: string, from: HeaderMap, k: string, order: seq<string>, c: string)
    requires Commuting(p, from) && k in from && forall x :: x in order ==> x in from
    ensures Share(p, from, k, c) + Shares(p, from, order, c) == Shares(p, from, order, c) + Share(p, from, k, c)
  {
    if order == [] {
      assert Share(p, from, k, c) + [] == [] + Share(p, from, k, c);
    } else {
      var init, x := order[..|order| - 1], order[|order| - 1];
      assert x in order && forall y :: y in init ==> y in order;
      ShareCommutes(p, from, k, init, c);
      PairCommutes(p, from, k, x, c);
      CommuteBoth(Share(p, from, k, c), Shares(p, from, init, c), Share(p, from, x, c));
    }
  }

  lemma PairCommutes(p: string, from: HeaderMap, j: string, k: string, c: string)
    requires Commuting(p, from) && j in from && k in from
    ensures Share(p, from, j, c) + Share(p, from, k, c) == Share(p, from, k, c) + Share(p, from, j, c)
  {
  }

  // A key can be taken out of the order and put at the end.
  lemma MoveToEnd(p: string, from: HeaderMap, a: seq<string>, k: string, b: seq<string>, c: string)
    requires Commuting(p, from) && k in from && forall x :: x in b ==> x in from
    ensures Shares(p, from, a + ([k] + b), c) == Shares(p, from, a + b, c) + Share(p, from, k, c)
  {
    SharesAppend(p, from, a, [k] + b, c);
    SharesAppend(p, from, [k], b, c);
    OneShare(p, from, k, c);
    SharesAppend(p, from, a, b, c);
    ShareCommutes(p, from, k, b, c);
    Rotate(Shares(p, from, a, c), Share(p, from, k, c), Shares(p, from, b, c));
  }

  lemma Rotate(u: seq<string>, v: seq<string>, w: seq<string>)
    requires v + w == w + v
    ensures u + (v + w) == (u + w) + v
  {
    assert u + (w + v) == (u + w) + v;
  }

  lemma MoveAt(p: string, from: HeaderMap, keys: set<string>, order: seq<string>, q: nat, c: string)
    requires Commuting(p, from) && keys <= from.Keys && IsOrder(order, keys) && q < |order|
    ensures var without := order[..q] + order[q + 1..];
      IsOrder(without, keys - {order[q]}) &&
      Shares(p, from, order, c) == Shares(p, from, without, c) + Share(p, from, order[q], c)
  {
    var a, k, b := order[..q], order[q], order[q + 1..];
    assert order == a + ([k] + b);
    assert k in order && forall x :: x in b ==> x in order;
    MoveToEnd(p, from, a, k, b, c);
    OrderWithout(keys, order, q);
  }

  lemma SomeMember(order: seq<string>)
    ensures order == [] || exists k :: k in order
  {
    assert order == [] || order[0] in order;
  }

  lemma OrderWithout(keys: set<string>, order: seq<string>, q: nat)
    requires IsOrder(order, keys) && q < |order|
    ensures IsOrder(order[..q] + order[q + 1..], keys - {order[q]})
  {
  }

  lemma {:induction false} OrdersAgree(p: string, from: HeaderMap, keys: set<string>, a: seq<string>, b: seq<string>, c: string)
    requires Commuting(p, from) && keys <= from.Keys && IsOrder(a, keys) && IsOrder(b, keys)
    ensures Shares(p, from, a, c) == Shares(p, from, b, c)
    decreases |a|
  {
    if a == [] {
      SomeMember(b);
    } else {
      var last := |a| - 1;
      assert a[last] in a;
      var q: nat :| q < |b| && b[q] == a[last];
      MoveAt(p, from, keys, a, last, c);
      MoveAt(p, from, keys, b, q, c);
      OrdersAgree(p, from, keys - {a[last]}, a[..last] + a[last + 1..], b[..q] + b[q + 1..], c);
    }
  }

  lemma {:induction false} OrderExists(keys: set<string>) returns (order: seq<string>)
    ensures IsOrder(order, keys)
    decreases |keys|
  {
    if keys == {} {
      order := [];
    } else {
      var k :| k in keys;
      var rest := OrderExists(keys - {k});
      order := rest + [k];
    }
  }

  lemma SameEverywhere(m: HeaderMap, n: HeaderMap)
    requires forall c :: (c in m <==> c in n) && Values(m, c) == Values(n, c)
    ensures m == n
  {
  }

  /** The result does not depend on the iteration order exactly when colliding keys hold swappable values. */
  lemma OrderMatters(p: string, from: HeaderMap, to: HeaderMap)
    ensures OrderIrrelevant(p, from, to) <==> Commuting(p, from)
  {
    if Commuting(p, from) {
      forall a, b | IsOrder(a, from.Keys) && IsOrder(b, from.Keys)
        ensures Forwarded(p, from, a, to) == Forwarded(p, from, b, to)
      {
        forall c ensures
          var m, n := Forwarded(p, from, a, to), Forwarded(p, from, b, to);
          (c in m <==> c in n) && Values(m, c) == Values(n, c)
        {
          ForwardedValues(p, from, a, to, c);
          ForwardedValues(p, from, b, to, c);
          OrdersAgree(p, from, from.Keys, a, b, c);
        }
        SameEverywhere(Forwarded(p, from, a, to), Forwarded(p, from, b, to));
      }
    } else {
      var j, k :| j in from && k in from && p <= j && p <= k && Canonical(j) == Canonical(k)
                  && from[j] + from[k] != from[k] + from[j];
      OrderShows(p, from, to, j, k);
    }
  }

  lemma SharesOfTwo(p: string, from: HeaderMap, j: string, k: string, rest: seq<string>, c: string)
    ensures Shares(p, from, [j] + [k] + rest, c) ==
            Share(p, from, j, c) + Share(p, from, k, c) + Shares(p, from, rest, c)
  {
    SharesAppend(p, from, [j] + [k], rest, c);
    SharesAppend(p, from, [j], [k], c);
    OneShare(p, from, j, c);
    OneShare(p, from, k, c);
  }

  lemma OrderOfTwo(keys: set<string>, j: string, k: string, rest: seq<string>)
    requires j in keys && k in keys && j != k && IsOrder(rest, keys - {j, k})
    ensures IsOrder([j] + [k] + rest, keys)
  {
  }

  lemma OrderShows(p: string, from: HeaderMap, to: HeaderMap, j: string, k: string)
    requires j in from && k in from && p <= j && p <= k && Canonical(j) == Canonical(k)
    requires from[j] + from[k] != from[k] + from[j]
    ensures !OrderIrrelevant(p, from, to)
  {
    var rest := OrderExists(from.Keys - {j, k});
    OrderOfTwo(from.Keys, j, k, rest);
    assert from.Keys - {k, j} == from.Keys - {j, k};
    OrderOfTwo(from.Keys, k, j, rest);
    SwapShows(p, from, to, j, k, rest);
  }

  lemma SwapShows(p: string, from: HeaderMap, to: HeaderMap, j: string, k: string, rest: seq<string>)
    requires j in from && k in from && p <= j && p <= k && Canonical(j) == Canonical(k)
    requires from[j] + from[k] != from[k] + from[j]
    ensures Forwarded(p, from, [j] + [k] + rest, to) != Forwarded(p, from, [k] + [j] + rest, to)
  {
    var c := Canonical(j);
    SharesOfTwo(p, from, j, k, rest, c);
    SharesOfTwo(p, from, k, j, rest, c);
    Cancel(Values(to, c), from[j] + from[k], from[k] + from[j], Shares(p, from, rest, c));
    SharesTell(p, from, [j] + [k] + rest, [k] + [j] + rest, to, c);
  }

  lemma SharesTell(p: string, from: HeaderMap, a: seq<string>, b: seq<string>, to: HeaderMap, c: string)
    requires Values(to, c) + Shares(p, from, a, c) != Values(to, c) + Shares(p, from, b, c)
    ensures Forwarded(p, from, a, to) != Forwarded(p, from, b, to)
  {
    ForwardedValues(p, from, a, to, c);
    ForwardedValues(p, from, b, to, c);
  }

  lemma Cancel(t: seq<string>, u: seq<string>, v: seq<string>, r: seq<string>)
    requires u != v && |u| == |v|
    ensures t + (u + r) != t + (v + r)
  {
    var i :| 0 <= i < |u| && u[i] != v[i];
    assert (t + (u + r))[|t| + i] == u[i];
    assert (t + (v + r))[|t| + i] == v[i];
  }

  /** A map that holds a key in two spellings, as only a map written by hand can: two orders differ. */
  lemma OrderMattersExample(to: HeaderMap)
    ensures var from: HeaderMap := map["X-a" := ["1"], "X-A" := ["2"]];
      && Forwarded("X", from, ["X-a", "X-A"], to) != Forwarded("X", from, ["X-A", "X-a"], to)
      && !OrderIrrelevant("X", from, to)
  {
    var from: HeaderMap := map["X-a" := ["1"], "X-A" := ["2"]];
    SpellingsCollide();
    assert from["X-a"] + from["X-A"] == ["1", "2"] && from["X-A"] + from["X-a"] == ["2", "1"];
    assert ["X-a"] + ["X-A"] + [] == ["X-a", "X-A"] && ["X-A"] + ["X-a"] + [] == ["X-A", "X-a"];
    assert "1" != "2" && ["1", "2"][0] != ["2", "1"][0];
    SwapShows("X", from, to, "X-a", "X-A", []);
    OrderShows("X", from, to, "X-a", "X-A");
  }

  lemma SpellingsCollide()
    ensures "X-a" != "X-A" && Canonical("X-a") == "X-A" == Canonical("X-A")
  {
    assert "X-a"[1..] == "-a" && "-a"[1..] == "a" && "a"[1..] == "";
    assert "X-A"[1..] == "-A" && "-A"[1..] == "A" && "A"[1..] == "";
    assert Recase("a", true) == "A" && Recase("A", true) == "A";
    assert Recase("-a", false) == "-A" && Recase("-A", false) == "-A";
    assert "X-a"[2] != "X-A"[2];
  }

  // ---------- canonical maps ----------

  ghost predicate AllCanonical(m: HeaderMap) {
    forall k :: k in m ==> Canonical(k) == k
  }

  lemma {:induction false} CanonicalShares(p: string, from: HeaderMap, order: seq<string>, c: string)
    requires AllCanonical(from) && (forall k :: k in order ==> k in from)
    requires forall i, j :: 0 <= i < j < |order| ==> order[i] != order[j]
    ensures Shares(p, from, order, c) == if c in order && p <= c then Values(from, c) else []
  {
    if order != [] {
      var init, k := order[..|order| - 1], order[|order| - 1];
      assert k in order;
      CanonicalShares(p, from, init, c);
      assert c in order <==> c in init || c == k;
      assert c == k ==> c !in init;
    }
  }

  /** A canonical map holds a field name in one spelling only, the canonical one. */
  lemma OneSpelling(m: HeaderMap, k: string, c: string)
    requires AllCanonical(m) && FieldName(k) && c in m && SameUpToCase(c, k)
    ensures c == Canonical(k)
  {
    FieldNameByCase(c, k);
    SameCanonical(c, k);
  }

  /** Forwarding a canonical map appends to each key the source's values iff the key has the prefix. */
  lemma CanonicalForward(p: string, from: HeaderMap, order: seq<string>, to: HeaderMap, c: string)
    requires AllCanonical(from) && IsOrder(order, from.Keys)
    ensures var r := Forwarded(p, from, order, to);
      && Values(r, c) == Values(to, c) + (if p <= c then Values(from, c) else [])
      && (c in r <==> c in to || (p <= c && Values(from, c) != []))
  {
    CanonicalShares(p, from, order, c);
    ForwardedValues(p, from, order, to, c);
  }

  lemma {:induction false} ForwardedCanonical(p: string, from: HeaderMap, order: seq<string>, to: HeaderMap)
    requires AllCanonical(to)
    ensures AllCanonical(Forwarded(p, from, order, to))
  {
    if order != [] {
      ForwardedCanonical(p, from, order[..|order| - 1], to);
      CanonicalTwice(order[|order| - 1]);
    }
  }
}
