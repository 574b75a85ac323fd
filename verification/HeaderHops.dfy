/** The two hops of a header from XMiDT to the client (transaction, translation and stat). */
module HeaderHops {
  import opened Headers

  const CONTENT_TYPE := "Content-Type"

  /** First hop: what the transactor keeps of the upstream headers. */
  method TransactHeaders(upstream: HeaderMap) returns (kept: Header)
    ensures fresh(kept) && AllCanonical(kept.m)
    ensures exists order :: IsOrder(order, upstream.Keys) && kept.m == Forwarded("X", upstream, order, map[])
  {
    kept := new Header(map[]);
    ghost var order := ForwardHeadersByPrefix("X", upstream, kept);
    ForwardedCanonical("X", upstream, order, map[]);
  }

  lemma FirstHop(upstream: HeaderMap, kept: HeaderMap, c: string)
    requires AllCanonical(upstream)
    requires exists order :: IsOrder(order, upstream.Keys) && kept == Forwarded("X", upstream, order, map[])
    ensures Values(kept, c) == Passed(upstream, c)
  {
    var order :| IsOrder(order, upstream.Keys) && kept == Forwarded("X", upstream, order, map[]);
    CanonicalForward("X", upstream, order, map[], c);
  }

  // What reaches the client from upstream under a key.
  function Passed(upstream: HeaderMap, c: string): seq<string> {
    if c != "" && c[0] == 'X' then Values(upstream, c) else []
  }

  // Of all spellings of the field name k the map holds c and no other.
  ghost predicate OnlySpelling(m: HeaderMap, k: string, c: string) {
    c in m && SameUpToCase(c, k) && forall d :: d in m && SameUpToCase(d, k) ==> d == c
  }

  lemma SpelledOnce(m: HeaderMap, k: string)
    requires AllCanonical(m) && FieldName(k) && Values(m, Canonical(k)) != []
    ensures OnlySpelling(m, k, Canonical(k)) && m[Canonical(k)] == Values(m, Canonical(k))
  {
    CanonicalLetters(k);
    forall d | d in m && SameUpToCase(d, k) ensures d == Canonical(k) {
      OneSpelling(m, k, d);
    }
    SameUpToCaseBack(k, Canonical(k));
  }

  lemma SameUpToCaseBack(j: string, k: string)
    requires SameUpToCase(j, k)
    ensures SameUpToCase(k, j)
  {
    forall i | 0 <= i < |j| ensures SameLetter(k[i], j[i]) {
      assert SameLetter(j[i], k[i]);
    }
  }

  lemma ContentTypeName()
    ensures FieldName(CONTENT_TYPE)
  {
    assert CONTENT_TYPE == ['C', 'o', 'n', 't', 'e', 'n', 't', '-', 'T', 'y', 'p', 'e'];
    TokenExactly(CONTENT_TYPE);
  }

  /** Second hop of the translation service; `decoded` tells whether a device response was found in the body. */
  method TranslationHeaders(kept: HeaderMap, tidKey: string, tid: string, decoded: bool, w: Header)
    requires AllCanonical(kept)
    modifies w
    ensures forall c :: c != Canonical(tidKey) && c != Canonical(CONTENT_TYPE) ==>
      Values(w.m, c) == Values(old(w.m), c) + Values(kept, c)
    ensures Canonical(tidKey) != Canonical(CONTENT_TYPE) ==> Values(w.m, Canonical(tidKey)) == [tid]
    ensures decoded ==> Values(w.m, Canonical(CONTENT_TYPE)) == ["application/json"]
    ensures !decoded && Canonical(tidKey) != Canonical(CONTENT_TYPE) ==>
      Values(w.m, Canonical(CONTENT_TYPE)) == Values(old(w.m), Canonical(CONTENT_TYPE)) + Values(kept, Canonical(CONTENT_TYPE))
    ensures AllCanonical(old(w.m)) ==> AllCanonical(w.m)
  {
    ghost var prior := w.m;
    ghost var order := ForwardHeadersByPrefix("", kept, w);
    if AllCanonical(prior) { ForwardedCanonical("", kept, order, prior); }
    CanonicalTwice(tidKey);
    CanonicalTwice(CONTENT_TYPE);
    forall c ensures Values(w.m, c) == Values(prior, c) + Values(kept, c) {
      CanonicalForward("", kept, order, prior, c);
    }
    w.Set(tidKey, tid);
    if decoded {
      w.Set(CONTENT_TYPE, "application/json");
    }
  }

  /** Second hop of the stat service, which sets the transaction ID before it forwards. */
  method StatHeaders(kept: HeaderMap, tidKey: string, tid: string, ok: bool, w: Header)
    requires AllCanonical(kept)
    modifies w
    ensures forall c :: c != Canonical(tidKey) && c != Canonical(CONTENT_TYPE) ==>
      Values(w.m, c) == Values(old(w.m), c) + Values(kept, c)
    ensures Values(w.m, Canonical(tidKey)) == [tid] + Values(kept, Canonical(tidKey))
    ensures Canonical(tidKey) != Canonical(CONTENT_TYPE) ==>
      Values(w.m, Canonical(CONTENT_TYPE)) ==
      (if ok then ["application/json"] else []) + Values(kept, Canonical(CONTENT_TYPE))
    ensures AllCanonical(old(w.m)) ==> AllCanonical(w.m)
  {
    CanonicalTwice(tidKey);
    CanonicalTwice(CONTENT_TYPE);
    if ok {
      w.Set(CONTENT_TYPE, "application/json");
    } else {
      w.Del(CONTENT_TYPE);
    }
    w.Set(tidKey, tid);
    ghost var prior := w.m;
    ghost var order := ForwardHeadersByPrefix("", kept, w);
    if AllCanonical(prior) { ForwardedCanonical("", kept, order, prior); }
    forall c ensures Values(w.m, c) == Values(prior, c) + Values(kept, c) {
      CanonicalForward("", kept, order, prior, c);
    }
  }

  lemma ContentTypeStays()
    ensures Canonical(CONTENT_TYPE) == CONTENT_TYPE
  {
    assert CONTENT_TYPE == ['C', 'o', 'n', 't', 'e', 'n', 't', '-', 'T', 'y', 'p', 'e'];
    RecaseFixed(CONTENT_TYPE, true);
  }

  /**
   Both hops of a translation response: every key but the transaction ID and Content-Type
   holds what the writer had followed by the upstream values iff the key starts with X, and
   the transaction ID is exactly this request's.
   */
  method TranslationResponse(upstream: HeaderMap, tidKey: string, tid: string, decoded: bool, w: Header)
    requires Canonical(tidKey) != CONTENT_TYPE
    modifies w
    ensures AllCanonical(upstream) ==> forall c :: c != Canonical(tidKey) && c != CONTENT_TYPE ==>
      Values(w.m, c) == Values(old(w.m), c) + Passed(upstream, c)
    ensures Values(w.m, Canonical(tidKey)) == [tid]
    ensures decoded ==> Values(w.m, CONTENT_TYPE) == ["application/json"]
    ensures !decoded && AllCanonical(upstream) ==> Values(w.m, CONTENT_TYPE) == Values(old(w.m), CONTENT_TYPE)
    ensures AllCanonical(old(w.m)) && FieldName(tidKey) ==> exists c :: OnlySpelling(w.m, tidKey, c) && w.m[c] == [tid]
    ensures AllCanonical(old(w.m)) && decoded ==>
      OnlySpelling(w.m, "Content-Type", "Content-Type") && w.m["Content-Type"] == ["application/json"]
  {
    ContentTypeStays();
    var kept := TransactHeaders(upstream);
    if AllCanonical(upstream) {
      forall c ensures Values(kept.m, c) == Passed(upstream, c) {
        FirstHop(upstream, kept.m, c);
      }
    }
    TranslationHeaders(kept.m, tidKey, tid, decoded, w);
    if AllCanonical(w.m) {
      ContentTypeName();
      if FieldName(tidKey) { SpelledOnce(w.m, tidKey); }
      if decoded { SpelledOnce(w.m, CONTENT_TYPE); }
    }
  }

  /** Both hops of a stat response: the request's transaction ID comes first and upstream's values follow it. */
  method StatResponse(upstream: HeaderMap, tidKey: string, tid: string, ok: bool, w: Header)
    requires Canonical(tidKey) != CONTENT_TYPE
    modifies w
    ensures AllCanonical(upstream) ==> forall c :: c != Canonical(tidKey) && c != CONTENT_TYPE ==>
      Values(w.m, c) == Values(old(w.m), c) + Passed(upstream, c)
    ensures AllCanonical(upstream) ==> Values(w.m, Canonical(tidKey)) == [tid] + Passed(upstream, Canonical(tidKey))
    ensures AllCanonical(upstream) ==> Values(w.m, CONTENT_TYPE) == if ok then ["application/json"] else []
    ensures AllCanonical(old(w.m)) && AllCanonical(upstream) && FieldName(tidKey) ==>
      exists c :: OnlySpelling(w.m, tidKey, c) && w.m[c] == [tid] + Passed(upstream, c)
  {
    ContentTypeStays();
    var kept := TransactHeaders(upstream);
    if AllCanonical(upstream) {
      forall c ensures Values(kept.m, c) == Passed(upstream, c) {
        FirstHop(upstream, kept.m, c);
      }
    }
    StatHeaders(kept.m, tidKey, tid, ok, w);
    if AllCanonical(w.m) && AllCanonical(upstream) && FieldName(tidKey) {
      SpelledOnce(w.m, tidKey);
    }
  }
}
