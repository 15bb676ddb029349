/** What the entries of a document vector mean, from the postings and the counter of the token store. */
module TfIdfs {
  import opened JsStrings
  import opened TermFrequencies
  import opened TokenStores
  import opened Vectors
  import opened IndexSpec
  import opened IdfCaches
  import opened Indexes

  /** What matters of `Math.log` here. */
  ghost predicate Grows(log: real -> real) {
    log(1.0) == 0.0 && forall x, y :: 1.0 <= x < y ==> log(x) < log(y)
  }

  /** The state in which a document vector is made, and what is made in it. */
  ghost predicate Made(log: real -> real, s: State, ref: Str, entries: seq<Entry>, tokens: seq<Str>) {
    && Sound(s) && Transparent(log, s) && ref in s.docs
    && (forall k :: 0 <= k < |tokens| ==> tokens[k] in s.docs[ref])
    && Weighs(log, s, ref, entries, tokens)
  }

  lemma EntryPosted(s: State, ref: Str, token: Str)
    requires Sound(s) && ref in s.docs && token in s.docs[ref]
    ensures token in s.posts && ref in s.posts[token] && 1 <= |s.posts[token]| <= s.length
  {
    assert Posted(s.posts, token, ref);
    assert ref in s.posts[token].Keys && |s.posts[token]| == |s.posts[token].Keys|;
  }

  /** An entry is the posted frequency times one plus the logarithm of all postings ever made by the
      documents of the token, whatever has been cached. */
  lemma EntryIsTfIdf(log: real -> real, s: State, ref: Str, entries: seq<Entry>, tokens: seq<Str>, k: nat)
    requires Made(log, s, ref, entries, tokens) && k < |tokens|
    ensures var t := tokens[k];
            && t in s.posts && ref in s.posts[t] && 1 <= |s.posts[t]| <= s.length
            && entries[k].val == s.posts[t][ref].tf * (1.0 + log(s.length as real / |s.posts[t]| as real))
  {
    EntryPosted(s, ref, tokens[k]);
    assert DocsOf(s.posts, tokens[k]) == s.posts[tokens[k]];
  }

  lemma LogOfRatio(log: real -> real, length: nat, n: nat)
    requires Grows(log) && 1 <= n <= length
    ensures log(length as real / n as real) >= 0.0
    ensures log(length as real / n as real) == 0.0 <==> n == length
  {
    var x := length as real / n as real;
    RatioAtLeastOne(length as real, n as real);
    QuotientOne(length as real, n as real);
    assert x > 1.0 ==> log(1.0) < log(x);
  }

  lemma Times(tf: real, idf: real)
    ensures tf * idf == tf <==> tf == 0.0 || idf == 1.0
    ensures tf >= 0.0 && idf >= 1.0 ==> tf * idf >= tf
  {
    assert tf * idf - tf == tf * (idf - 1.0);
  }

  /** It is the frequency itself exactly if as many documents have the token as postings were ever made,
      and otherwise, for a positive frequency, it is more. */
  lemma EntryIsTfIff(log: real -> real, s: State, ref: Str, entries: seq<Entry>, tokens: seq<Str>, k: nat)
    requires Grows(log) && Made(log, s, ref, entries, tokens) && k < |tokens|
    ensures var t := tokens[k];
            && t in s.posts && ref in s.posts[t]
            && var tf := s.posts[t][ref].tf;
            && (entries[k].val == tf <==> tf == 0.0 || |s.posts[t]| == s.length)
            && (tf >= 0.0 ==> entries[k].val >= tf)
  {
    EntryIsTfIdf(log, s, ref, entries, tokens, k);
    var t := tokens[k];
    LogOfRatio(log, s.length, |s.posts[t]|);
    Times(s.posts[t][ref].tf, 1.0 + log(s.length as real / |s.posts[t]| as real));
  }

  lemma FewerIsMore(log: real -> real, length: nat, m: nat, n: nat)
    requires Grows(log) && 1 <= m <= length && 1 <= n <= length
    ensures log(length as real / m as real) > log(length as real / n as real) <==> m < n
  {
    var x, y := length as real / m as real, length as real / n as real;
    RatioAtLeastOne(length as real, m as real);
    RatioAtLeastOne(length as real, n as real);
    LargerQuotient(length as real, m as real, n as real);
    LargerQuotient(length as real, n as real, m as real);
  }

  lemma LargerQuotient(x: real, m: real, n: real)
    requires x > 0.0 && m > 0.0 && n > 0.0
    ensures m < n ==> x / m > x / n
  {
  }

  lemma LargerFactor(tf: real, a: real, b: real)
    requires tf > 0.0
    ensures tf * a > tf * b <==> a > b
  {
    assert tf * a - tf * b == tf * (a - b);
  }

  /** The same without the arithmetic. */
  function Product(x: real, y: real): real {
    x * y
  }

  function Rarity(log: real -> real, length: nat, n: nat): real
    requires n > 0
  {
    1.0 + log(length as real / n as real)
  }

  lemma EntryIsProduct(log: real -> real, s: State, ref: Str, entries: seq<Entry>, tokens: seq<Str>, k: nat)
    requires Made(log, s, ref, entries, tokens) && k < |tokens|
    ensures var t := tokens[k];
            && t in s.posts && ref in s.posts[t] && 1 <= |s.posts[t]| <= s.length
            && entries[k].val == Product(s.posts[t][ref].tf, Rarity(log, s.length, |s.posts[t]|))
  {
    EntryIsTfIdf(log, s, ref, entries, tokens, k);
  }

  lemma RarerIsLarger(log: real -> real, length: nat, m: nat, n: nat, tf: real)
    requires Grows(log) && 1 <= m <= length && 1 <= n <= length && tf > 0.0
    ensures Product(tf, Rarity(log, length, m)) > Product(tf, Rarity(log, length, n)) <==> m < n
  {
    FewerIsMore(log, length, m, n);
    LargerFactor(tf, Rarity(log, length, m), Rarity(log, length, n));
  }

  /** Of two tokens of one document with equal positive frequencies, the one in fewer documents weighs more. */
  lemma RarerWeighsMore(log: real -> real, s: State, ref: Str, entries: seq<Entry>, tokens: seq<Str>, k: nat, l: nat)
    requires Grows(log) && Made(log, s, ref, entries, tokens) && k < |tokens| && l < |tokens|
    requires forall t :: t in tokens ==> t in s.posts && ref in s.posts[t]
    requires s.posts[tokens[k]][ref].tf == s.posts[tokens[l]][ref].tf > 0.0
    ensures entries[k].val > entries[l].val <==> |s.posts[tokens[k]]| < |s.posts[tokens[l]]|
  {
    hide Made, Grows, Product, Rarity;
    EntryIsProduct(log, s, ref, entries, tokens, k);
    EntryIsProduct(log, s, ref, entries, tokens, l);
    RarerIsLarger(log, s.length, |s.posts[tokens[k]]|, |s.posts[tokens[l]]|, s.posts[tokens[k]][ref].tf);
  }

  lemma CrossTimes(a: real, b: real, idf: real)
    ensures Product(a, idf) * b == Product(b, idf) * a
  {
  }

  /** One token weighs in two documents in the ratio of its frequencies there. */
  lemma WeightsInRatio(log: real -> real, s: State, ref: Str, es: seq<Entry>, ts: seq<Str>, k: nat,
                       ref': Str, es': seq<Entry>, ts': seq<Str>, l: nat)
    requires Made(log, s, ref, es, ts) && Made(log, s, ref', es', ts')
    requires k < |ts| && l < |ts'| && ts[k] == ts'[l]
    ensures var t := ts[k];
            && t in s.posts && ref in s.posts[t] && ref' in s.posts[t]
            && es[k].val * s.posts[t][ref'].tf == es'[l].val * s.posts[t][ref].tf
  {
    hide Made, Product, Rarity;
    EntryIsProduct(log, s, ref, es, ts, k);
    EntryIsProduct(log, s, ref', es', ts', l);
    var t := ts[k];
    CrossTimes(s.posts[t][ref].tf, s.posts[t][ref'].tf, Rarity(log, s.length, |s.posts[t]|));
  }
}
