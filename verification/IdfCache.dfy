/** When a change made without an event leaves the cached idfs right, and when it does not. */
module IdfCaches {
  import opened JsStrings
  import opened TermFrequencies
  import opened TokenStores
  import opened IndexSpec

  /** What matters of `Math.log`. */
  ghost predicate LikeLog(log: real -> real) {
    log(1.0) == 0.0 && forall x, y :: x >= 1.0 && y >= 1.0 && log(x) == log(y) ==> x == y
  }

  /** In how many documents a term occurs. */
  function Frequency(s: State, t: Str): nat {
    |DocsOf(s.posts, t)|
  }

  /** Do two lengths of the store and two frequencies give one idf?  A term without documents has the idf
      of a term that is in all of them. */
  predicate SameRatio(length: nat, frequency: nat, length': nat, frequency': nat) {
    if frequency == 0 then frequency' == 0 || length' == frequency'
    else if frequency' == 0 then length == frequency
    else length * frequency' == length' * frequency
  }

  lemma SameQuotient(n: real, d: real, m: real, e: real)
    requires d > 0.0 && e > 0.0
    ensures n / d == m / e <==> n * e == m * d
  {
    assert n == n / d * d && m == m / e * e;
    if n / d == m / e {
      assert n * e == n / d * d * e == m / e * e * d == m * d;
    }
    if n * e == m * d {
      assert n / d * (d * e) == m / e * (d * e);
      CancelFactor(n / d, m / e, d * e);
    }
  }

  lemma CancelFactor(x: real, y: real, f: real)
    requires f > 0.0 && x * f == y * f
    ensures x == y
  {
    assert (x - y) * f == 0.0;
  }

  lemma QuotientOne(n: real, d: real)
    requires d > 0.0
    ensures n / d == 1.0 <==> n == d
  {
  }

  lemma SameIdf(log: real -> real, s: State, s': State, t: Str)
    requires LikeLog(log) && Frequency(s, t) <= s.length && Frequency(s', t) <= s'.length
    ensures IdfOf(log, s', t) == IdfOf(log, s, t) <==> SameRatio(s.length, Frequency(s, t), s'.length, Frequency(s', t))
  {
    var n, d, m, e := s.length as real, Frequency(s, t) as real, s'.length as real, Frequency(s', t) as real;
    if Frequency(s, t) > 0 {
      RatioAtLeastOne(n, d);
      QuotientOne(n, d);
    }
    if Frequency(s', t) > 0 {
      RatioAtLeastOne(m, e);
      QuotientOne(m, e);
    }
    if Frequency(s, t) > 0 && Frequency(s', t) > 0 {
      SameQuotient(n, d, m, e);
      Products(s.length, Frequency(s', t), s'.length, Frequency(s, t));
    }
  }

  /** Do two states give a term one idf? */
  predicate KeepsRatio(s: State, s': State, t: Str) {
    SameRatio(s.length, Frequency(s, t), s'.length, Frequency(s', t))
  }

  lemma Products(a: nat, b: nat, c: nat, d: nat)
    ensures (a as real) * (b as real) == (c as real) * (d as real) <==> a * b == c * d
  {
    assert (a as real) * (b as real) == (a * b) as real;
    assert (c as real) * (d as real) == (c * d) as real;
  }

  /** Whatever lies between two states with one cache: the later one is transparent exactly if every
      cached term's ratio is what it was. */
  lemma CacheSurvivesIff(log: real -> real, s: State, s': State)
    requires LikeLog(log) && Counted(s) && Counted(s') && Transparent(log, s) && s'.cache == s.cache
    ensures Transparent(log, s') <==> forall t :: t in s.cache ==> KeepsRatio(s, s', t)
  {
    hide LikeLog, IdfOf, SameRatio;
    forall t | t in s.cache
      ensures s'.cache[t] == IdfOf(log, s', t) <==> KeepsRatio(s, s', t)
    {
      SameIdf(log, s, s', t);
    }
  }

  // ---------------------------------------------------------------- silent add

  /** Does the token gain a document? */
  function Gained(s: State, fields: seq<Field>, doc: Document, t: Str): nat {
    if t in TokenSet(fields, doc) && !Posted(s.posts, t, doc.ref) then 1 else 0
  }

  lemma OneMoreDoc(docs: Docs, ref: Str, p: Posting)
    ensures |docs[ref := p]| == |docs| + if ref in docs then 0 else 1
  {
    assert docs[ref := p].Keys == docs.Keys + {ref};
    assert |docs[ref := p]| == |docs[ref := p].Keys| && |docs| == |docs.Keys|;
  }

  lemma AddFrequency(s: State, fields: seq<Field>, doc: Document, emit: bool, t: Str)
    ensures Frequency(Add(s, fields, doc, emit), t) == Frequency(s, t) + Gained(s, fields, doc, t)
  {
    if t in TokenSet(fields, doc) {
      OneMoreDoc(DocsOf(s.posts, t), doc.ref, Post(fields, doc, t));
    }
  }

  lemma AddCounted(s: State, fields: seq<Field>, doc: Document, emit: bool)
    requires Counted(s)
    ensures Counted(Add(s, fields, doc, emit))
  {
    var s' := Add(s, fields, doc, emit);
    forall t | t in s'.posts
      ensures |s'.posts[t]| <= s'.length
    {
      if t in TokenSet(fields, doc) {
        CountAdded(s, fields, doc, t);
      }
    }
  }

  lemma AddStepsLength(s: State, fields: seq<Field>, doc: Document)
    ensures var s' := Add(s, fields, doc, false);
            s'.length == s.length + |TokenSet(fields, doc)| && s'.cache == s.cache
  {
  }

  lemma AddRatio(s: State, fields: seq<Field>, doc: Document, s': State, t: Str)
    requires s' == Add(s, fields, doc, false)
    ensures KeepsRatio(s, s', t) <==>
            SameRatio(s.length, Frequency(s, t),
                      s.length + |TokenSet(fields, doc)|, Frequency(s, t) + Gained(s, fields, doc, t))
  {
    hide Add, SameRatio, TokenSet, Frequency, Gained;
    AddFrequency(s, fields, doc, false, t);
    AddStepsLength(s, fields, doc);
  }

  /** An `add` without an event, of a live reference or not, leaves the cache right exactly when the
      counters of every cached term keep their ratio. */
  lemma SilentAddIff(log: real -> real, s: State, fields: seq<Field>, doc: Document)
    requires LikeLog(log) && Counted(s) && Transparent(log, s)
    ensures Transparent(log, Add(s, fields, doc, false)) <==>
            forall t :: t in s.cache ==>
                          SameRatio(s.length, Frequency(s, t),
                                    s.length + |TokenSet(fields, doc)|, Frequency(s, t) + Gained(s, fields, doc, t))
  {
    hide LikeLog, Counted, Transparent, Add, SameRatio, KeepsRatio, TokenSet, Frequency, Gained;
    var s' := Add(s, fields, doc, false);
    AddCounted(s, fields, doc, false);
    AddStepsLength(s, fields, doc);
    CacheSurvivesIff(log, s, s');
    forall t | t in s.cache
      ensures KeepsRatio(s, s', t) <==>
              SameRatio(s.length, Frequency(s, t),
                        s.length + |TokenSet(fields, doc)|, Frequency(s, t) + Gained(s, fields, doc, t))
    {
      AddRatio(s, fields, doc, s', t);
    }
  }

  // ---------------------------------------------------------------- silent remove

  predicate HasToken(s: State, ref: Str, t: Str) {
    ref in s.docs && t in s.docs[ref]
  }

  lemma OneDocFewer(docs: Docs, ref: Str)
    requires ref in docs
    ensures |docs - {ref}| == |docs| - 1
  {
    assert (docs - {ref}).Keys == docs.Keys - {ref};
    assert |docs - {ref}| == |(docs - {ref}).Keys| && |docs| == |docs.Keys|;
  }

  lemma RemoveFrequency(s: State, ref: Str, emit: bool, t: Str)
    requires Coherent(s)
    ensures HasToken(s, ref, t) ==> Frequency(s, t) > 0
    ensures Frequency(Remove(s, ref, emit), t) == Frequency(s, t) - (if HasToken(s, ref, t) then 1 else 0)
  {
    if HasToken(s, ref, t) {
      assert Posted(s.posts, t, ref);
      OneDocFewer(s.posts[t], ref);
    }
  }

  lemma LostRatio(length: nat, frequency: nat)
    requires 1 <= frequency <= length
    ensures SameRatio(length, frequency, length, frequency - 1) <==> length == 1
  {
    if frequency > 1 {
      assert length * (frequency - 1) == length * frequency - length;
    }
  }

  lemma RemoveKeepsTheRest(s: State, ref: Str)
    ensures Remove(s, ref, false).cache == s.cache && Remove(s, ref, false).length == s.length
  {
  }

  lemma FrequencyFits(s: State, t: Str)
    requires Counted(s)
    ensures Frequency(s, t) <= s.length
  {
  }

  lemma RemoveRatio(s: State, ref: Str, s': State, t: Str)
    requires Coherent(s) && Counted(s) && s' == Remove(s, ref, false)
    ensures KeepsRatio(s, s', t) <==> s.length == 1 || !HasToken(s, ref, t)
  {
    hide Coherent, Counted, Remove, HasToken, Frequency, SameRatio;
    RemoveKeepsTheRest(s, ref);
    RemoveFrequency(s, ref, false, t);
    FrequencyFits(s, t);
    if HasToken(s, ref, t) {
      LostRatio(s.length, Frequency(s, t));
    } else {
      SameCounters(s.length, Frequency(s, t));
    }
  }

  lemma SameCounters(length: nat, frequency: nat)
    ensures SameRatio(length, frequency, length, frequency)
  {
  }

  /** A `remove` without an event leaves the cache right exactly when it removes nothing, or no term of
      the document is cached, or only one posting was ever made. */
  lemma SilentRemoveIff(log: real -> real, s: State, ref: Str)
    requires LikeLog(log) && Sound(s) && Transparent(log, s)
    ensures Transparent(log, Remove(s, ref, false)) <==>
            s.length == 1 || forall t :: t in s.cache ==> !HasToken(s, ref, t)
  {
    hide LikeLog, Transparent, Remove, SameRatio, KeepsRatio, HasToken, Frequency;
    var s' := Remove(s, ref, false);
    RemoveSound(s, ref, false);
    RemoveKeepsTheRest(s, ref);
    CacheSurvivesIff(log, s, s');
    forall t | t in s.cache
      ensures KeepsRatio(s, s', t) <==> s.length == 1 || !HasToken(s, ref, t)
    {
      RemoveRatio(s, ref, s', t);
    }
  }

  // ---------------------------------------------------------------- silent update

  lemma RemovedIsNotPosted(s: State, ref: Str, t: Str)
    requires Coherent(s)
    ensures !Posted(Remove(s, ref, false).posts, t, ref)
  {
    assert Posted(s.posts, t, ref) ==> HasToken(s, ref, t);
    if ref in s.docs {
      RemovePosts(s.posts, ref, s.docs[ref]);
    }
  }

  lemma UpdatePosts(s: State, fields: seq<Field>, doc: Document, emit: bool)
    ensures Update(s, fields, doc, emit).posts == Add(Remove(s, doc.ref, false), fields, doc, false).posts
  {
  }

  lemma UpdateFrequency(s: State, fields: seq<Field>, doc: Document, emit: bool, t: Str)
    requires Coherent(s)
    ensures HasToken(s, doc.ref, t) ==> Frequency(s, t) > 0
    ensures Frequency(Update(s, fields, doc, emit), t) == Updated(s, fields, doc, t)
  {
    hide Coherent, Add, Remove, Update, TokenSet;
    var removed := Remove(s, doc.ref, false);
    RemoveFrequency(s, doc.ref, false, t);
    AddFrequency(removed, fields, doc, false, t);
    RemovedIsNotPosted(s, doc.ref, t);
    UpdatePosts(s, fields, doc, emit);
  }

  lemma UpdateStepsLength(s: State, fields: seq<Field>, doc: Document)
    ensures var s' := Update(s, fields, doc, false);
            s'.length == s.length + |TokenSet(fields, doc)| && s'.cache == s.cache
  {
  }

  /** The frequency of a term after an update. */
  function Updated(s: State, fields: seq<Field>, doc: Document, t: Str): int {
    Frequency(s, t) - (if HasToken(s, doc.ref, t) then 1 else 0) + (if t in TokenSet(fields, doc) then 1 else 0)
  }

  predicate UpdateKeepsRatio(s: State, fields: seq<Field>, doc: Document, t: Str) {
    && Updated(s, fields, doc, t) >= 0
    && SameRatio(s.length, Frequency(s, t), s.length + |TokenSet(fields, doc)|, Updated(s, fields, doc, t))
  }

  lemma UpdateRatio(s: State, fields: seq<Field>, doc: Document, s': State, t: Str)
    requires Coherent(s) && s' == Update(s, fields, doc, false)
    ensures KeepsRatio(s, s', t) <==> UpdateKeepsRatio(s, fields, doc, t)
  {
    hide Coherent, Update, Updated, Frequency, SameRatio, TokenSet;
    UpdateFrequency(s, fields, doc, false, t);
    UpdateStepsLength(s, fields, doc);
  }

  /** An `update` without an event leaves the cache right exactly when the counters of every cached term
      keep their ratio: a term may lose the old document, gain the new one, or both. */
  lemma SilentUpdateIff(log: real -> real, s: State, fields: seq<Field>, doc: Document)
    requires LikeLog(log) && Sound(s) && Transparent(log, s) && [] !in TokenSet(fields, doc)
    ensures Transparent(log, Update(s, fields, doc, false)) <==>
            forall t :: t in s.cache ==> UpdateKeepsRatio(s, fields, doc, t)
  {
    hide LikeLog, Transparent, Update, KeepsRatio, UpdateKeepsRatio, TokenSet;
    var s' := Update(s, fields, doc, false);
    UpdateSound(s, fields, doc, false);
    UpdateStepsLength(s, fields, doc);
    CacheSurvivesIff(log, s, s');
    forall t | t in s.cache
      ensures KeepsRatio(s, s', t) <==> UpdateKeepsRatio(s, fields, doc, t)
    {
      UpdateRatio(s, fields, doc, s', t);
    }
  }
}
