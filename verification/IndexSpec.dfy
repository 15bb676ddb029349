/**
 lunr.Index on values: what add, remove, update, idf and search do to the forward store, the
 inverted index, the corpus and the idf cache, and what every run of them keeps.
 */
module IndexSpec {
  import opened Wrappers
  import opened JsStrings
  import opened TermFrequencies
  import opened TokenStores

  /** The state of an index.  `length` is the counter of the token store, which only grows. */
  datatype State = State(
    docs: map<Str, set<Str>>,
    posts: Postings,
    corpus: set<Str>,
    length: nat,
    cache: map<Str, real>)

  const EMPTY := State(map[], map[], {}, 0, map[])

  /** The tokens of a document: those of all its fields. */
  function TokenSet(fields: seq<Field>, doc: Document): set<Str> {
    set k, w | 0 <= k < |fields| && w in doc.Tokens(fields[k].name) :: w
  }

  // ---------------------------------------------------------------- operations

  function Post(fields: seq<Field>, doc: Document, token: Str): Posting {
    Posting(doc.ref, Tf(fields, doc, token))
  }

  /** The document posted under each of `tokens`. */
  function AddDoc(posts: Postings, fields: seq<Field>, doc: Document, tokens: set<Str>): Postings {
    map t | t in posts.Keys + tokens ::
      if t in tokens then DocsOf(posts, t)[doc.ref := Post(fields, doc, t)] else DocsOf(posts, t)
  }

  /** The reference taken out under each of `tokens`. */
  function RemoveDoc(posts: Postings, ref: Str, tokens: set<Str>): Postings {
    map t | t in posts && (t in tokens ==> posts[t] - {ref} != map[]) ::
      if t in tokens then posts[t] - {ref} else posts[t]
  }

  function Emit(s: State, emit: bool): State {
    if emit then s.(cache := map[]) else s
  }

  /** A document added with the given tokens, before any event. */
  function AddSet(s: State, fields: seq<Field>, doc: Document, tokens: set<Str>): State {
    State(s.docs[doc.ref := tokens], AddDoc(s.posts, fields, doc, tokens), s.corpus + tokens,
          s.length + |tokens|, s.cache)
  }

  function Add(s: State, fields: seq<Field>, doc: Document, emit: bool): State {
    Emit(AddSet(s, fields, doc, TokenSet(fields, doc)), emit)
  }

  function Remove(s: State, ref: Str, emit: bool): State {
    if ref !in s.docs then s
    else Emit(s.(docs := s.docs - {ref}, posts := RemoveDoc(s.posts, ref, s.docs[ref])), emit)
  }

  function Update(s: State, fields: seq<Field>, doc: Document, emit: bool): State {
    Emit(Add(Remove(s, doc.ref, false), fields, doc, false), emit)
  }

  /** The idf of a term computed afresh; `log` is `Math.log`. */
  function IdfOf(log: real -> real, s: State, term: Str): real {
    var documentFrequency := |DocsOf(s.posts, term)|;
    if documentFrequency > 0 then 1.0 + log(s.length as real / documentFrequency as real) else 1.0
  }

  function Idf(log: real -> real, s: State, term: Str): State {
    if term in s.cache then s else s.(cache := s.cache[term := IdfOf(log, s, term)])
  }

  // ---------------------------------------------------------------- invariants

  predicate Posted(posts: Postings, token: Str, ref: Str) {
    token in posts && ref in posts[token]
  }

  /** A reference is posted under a token exactly when its live document has the token. */
  ghost predicate Coherent(s: State) {
    forall t, r :: Posted(s.posts, t, r) <==> r in s.docs && t in s.docs[r]
  }

  /** Every live token is in the corpus; no token is empty; none is without documents. */
  ghost predicate Stored(s: State) {
    && (forall t :: t in s.posts ==> t in s.corpus && t != [] && s.posts[t] != map[])
    && (forall r :: r in s.docs ==> s.docs[r] <= s.corpus)
  }

  /** No token has more documents than postings were ever added. */
  ghost predicate Counted(s: State) {
    forall t :: t in s.posts ==> |s.posts[t]| <= s.length
  }

  ghost predicate Sound(s: State) {
    Coherent(s) && Stored(s) && Counted(s)
  }

  ghost predicate Transparent(log: real -> real, s: State) {
    forall t :: t in s.cache ==> s.cache[t] == IdfOf(log, s, t)
  }

  // ---------------------------------------------------------------- add

  lemma AddPosts(posts: Postings, fields: seq<Field>, doc: Document, tokens: set<Str>)
    ensures forall t, r :: Posted(AddDoc(posts, fields, doc, tokens), t, r) <==>
                           Posted(posts, t, r) || (t in tokens && r == doc.ref)
  {
  }

  /** Adding keeps the index coherent exactly when the reference is not live, or its old tokens are
      all among the new ones: otherwise the old postings stay behind. */
  lemma AddCoherentIff(s: State, fields: seq<Field>, doc: Document, emit: bool)
    requires Coherent(s)
    ensures Coherent(Add(s, fields, doc, emit)) <==>
            (doc.ref in s.docs ==> s.docs[doc.ref] <= TokenSet(fields, doc))
  {
    var tokens, s' := TokenSet(fields, doc), Add(s, fields, doc, emit);
    if doc.ref in s.docs && !(s.docs[doc.ref] <= tokens) {
      OldPostingsStay(s, fields, doc, emit, tokens, s');
    } else {
      NewPostingsAgree(s, fields, doc, emit, tokens, s');
    }
  }

  lemma NewPostingsAgree(s: State, fields: seq<Field>, doc: Document, emit: bool, tokens: set<Str>, s': State)
    requires Coherent(s) && tokens == TokenSet(fields, doc) && s' == Add(s, fields, doc, emit)
    requires doc.ref in s.docs ==> s.docs[doc.ref] <= tokens
    ensures Coherent(s')
  {
    AddPosts(s.posts, fields, doc, tokens);
    assert s'.posts == AddDoc(s.posts, fields, doc, tokens) && s'.docs == s.docs[doc.ref := tokens];
    forall t, r
      ensures Posted(s'.posts, t, r) <==> r in s'.docs && t in s'.docs[r]
    {
      assert Posted(s.posts, t, r) <==> r in s.docs && t in s.docs[r];
    }
  }

  lemma OldPostingsStay(s: State, fields: seq<Field>, doc: Document, emit: bool, tokens: set<Str>, s': State)
    requires Coherent(s) && tokens == TokenSet(fields, doc) && s' == Add(s, fields, doc, emit)
    requires doc.ref in s.docs && !(s.docs[doc.ref] <= tokens)
    ensures exists t :: Posted(s'.posts, t, doc.ref) && t !in s'.docs[doc.ref]
    ensures !Coherent(s')
  {
    var t :| t in s.docs[doc.ref] && t !in tokens;
    assert Posted(s.posts, t, doc.ref);
    AddPosts(s.posts, fields, doc, tokens);
    assert Posted(s'.posts, t, doc.ref) && t !in s'.docs[doc.ref];
  }

  lemma CountAdded(s: State, fields: seq<Field>, doc: Document, t: Str)
    requires Counted(s) && t in TokenSet(fields, doc)
    ensures |DocsOf(s.posts, t)[doc.ref := Post(fields, doc, t)]| <= s.length + |TokenSet(fields, doc)|
  {
    var tokens := TokenSet(fields, doc);
    assert |tokens| >= 1 by {
      assert |tokens - {t}| + 1 == |tokens|;
    }
    var before := DocsOf(s.posts, t);
    assert before[doc.ref := Post(fields, doc, t)].Keys == before.Keys + {doc.ref};
  }

  lemma AddSound(s: State, fields: seq<Field>, doc: Document, emit: bool)
    requires Sound(s) && doc.ref !in s.docs && [] !in TokenSet(fields, doc)
    ensures Sound(Add(s, fields, doc, emit))
  {
    var tokens := TokenSet(fields, doc);
    var s' := Add(s, fields, doc, emit);
    AddCoherentIff(s, fields, doc, emit);
    forall t | t in s'.posts
      ensures |s'.posts[t]| <= s'.length && t in s'.corpus && t != [] && s'.posts[t] != map[]
    {
      if t in tokens {
        CountAdded(s, fields, doc, t);
        assert doc.ref in s'.posts[t];
      }
    }
  }

  /** The frequencies that stand under `ref` for each of `tokens`, added up. */
  function PostedSum(posts: Postings, ref: Str, tokens: seq<Str>): real {
    if tokens == [] then 0.0
    else (if Posted(posts, tokens[0], ref) then posts[tokens[0]][ref].tf else 0.0) + PostedSum(posts, ref, tokens[1..])
  }

  lemma {:induction false} PostedAreTfs(posts: Postings, fields: seq<Field>, doc: Document, all: set<Str>,
                                        tokens: seq<Str>)
    requires forall w :: w in tokens ==> w in all
    ensures PostedSum(AddDoc(posts, fields, doc, all), doc.ref, tokens) == TfSum(fields, doc, tokens)
  {
    if tokens != [] {
      assert forall w :: w in tokens[1..] ==> w in tokens;
      PostedAreTfs(posts, fields, doc, all, tokens[1..]);
      assert tokens[0] in all;
    }
  }

  /** What `add` posts for a document adds up, over its distinct tokens, to the boosts of the fields
      that have any. */
  lemma PostedTfIsConserved(s: State, fields: seq<Field>, doc: Document, emit: bool, tokens: seq<Str>)
    requires Distinct(tokens) && forall w :: w in tokens <==> w in TokenSet(fields, doc)
    ensures PostedSum(Add(s, fields, doc, emit).posts, doc.ref, tokens) == BoostSum(fields, doc)
  {
    PostedAreTfs(s.posts, fields, doc, TokenSet(fields, doc), tokens);
    TfIsConserved(fields, doc, tokens);
  }

  // ---------------------------------------------------------------- remove

  lemma RemovePosts(posts: Postings, ref: Str, tokens: set<Str>)
    ensures forall t, r :: Posted(RemoveDoc(posts, ref, tokens), t, r) <==>
                           Posted(posts, t, r) && !(t in tokens && r == ref)
  {
    forall t, r
      ensures Posted(RemoveDoc(posts, ref, tokens), t, r) <==> Posted(posts, t, r) && !(t in tokens && r == ref)
    {
      if Posted(posts, t, r) && t in tokens && r != ref {
        assert r in posts[t] - {ref};
      }
    }
  }

  lemma RemoveSound(s: State, ref: Str, emit: bool)
    requires Sound(s)
    ensures Sound(Remove(s, ref, emit))
  {
    if ref in s.docs {
      var s' := Remove(s, ref, emit);
      RemovePosts(s.posts, ref, s.docs[ref]);
      forall t, r
        ensures Posted(s'.posts, t, r) <==> r in s'.docs && t in s'.docs[r]
      {
        assert Posted(s.posts, t, r) <==> r in s.docs && t in s.docs[r];
      }
      forall t | t in s'.posts
        ensures |s'.posts[t]| <= s'.length
      {
        assert (s.posts[t] - {ref}).Keys <= s.posts[t].Keys;
        SmallerDocs(s.posts[t] - {ref}, s.posts[t]);
      }
    }
  }

  lemma SmallerDocs(a: Docs, b: Docs)
    requires a.Keys <= b.Keys
    ensures |a| <= |b|
  {
    assert b.Keys == a.Keys + (b.Keys - a.Keys);
    assert |a| == |a.Keys| && |b| == |b.Keys|;
  }

  /** What an update does is what removing and adding do. */
  lemma UpdateSound(s: State, fields: seq<Field>, doc: Document, emit: bool)
    requires Sound(s) && [] !in TokenSet(fields, doc)
    ensures Sound(Update(s, fields, doc, emit))
  {
    RemoveSound(s, doc.ref, false);
    AddSound(Remove(s, doc.ref, false), fields, doc, false);
  }

  // ---------------------------------------------------------------- the idf cache

  /** The argument of the logarithm is never below 1. */
  lemma LogArgument(s: State, term: Str)
    requires Counted(s) && |DocsOf(s.posts, term)| > 0
    ensures s.length as real / |DocsOf(s.posts, term)| as real >= 1.0
  {
    var n, d := s.length as real, |DocsOf(s.posts, term)| as real;
    assert n >= d;
    RatioAtLeastOne(n, d);
  }

  lemma RatioAtLeastOne(n: real, d: real)
    requires n >= d > 0.0
    ensures n / d >= 1.0
  {
  }

  lemma IdfKeepsTransparent(log: real -> real, s: State, term: Str)
    requires Transparent(log, s)
    ensures Transparent(log, Idf(log, s, term))
  {
    var s' := Idf(log, s, term);
    assert forall t :: IdfOf(log, s', t) == IdfOf(log, s, t);
  }

  // ---------------------------------------------------------------- runs

  datatype Op =
    | AddOp(added: Document, emit: bool)
    | RemoveOp(ref: Str, emit: bool)
    | UpdateOp(updated: Document, emit: bool)
    | IdfOp(term: Str)

  function Apply(log: real -> real, fields: seq<Field>, s: State, op: Op): State {
    match op
    case AddOp(doc, emit) => Add(s, fields, doc, emit)
    case RemoveOp(ref, emit) => Remove(s, ref, emit)
    case UpdateOp(doc, emit) => Update(s, fields, doc, emit)
    case IdfOp(term) => Idf(log, s, term)
  }

  function Run(log: real -> real, fields: seq<Field>, s: State, ops: seq<Op>): State
    decreases |ops|
  {
    if ops == [] then s else Run(log, fields, Apply(log, fields, s, ops[0]), ops[1..])
  }

  /** What a caller has to respect: no empty tokens, and `add` only for a reference not live. */
  predicate Proper(fields: seq<Field>, s: State, op: Op) {
    match op
    case AddOp(doc, _) => doc.ref !in s.docs && [] !in TokenSet(fields, doc)
    case RemoveOp(_, _) => true
    case UpdateOp(doc, _) => [] !in TokenSet(fields, doc)
    case IdfOp(_) => true
  }

  predicate ProperRun(log: real -> real, fields: seq<Field>, s: State, ops: seq<Op>)
    decreases |ops|
  {
    ops == [] || (Proper(fields, s, ops[0]) && ProperRun(log, fields, Apply(log, fields, s, ops[0]), ops[1..]))
  }

  lemma ApplySound(log: real -> real, fields: seq<Field>, s: State, op: Op)
    requires Sound(s) && Proper(fields, s, op)
    ensures Sound(Apply(log, fields, s, op))
  {
    match op
    case AddOp(doc, emit) => AddSound(s, fields, doc, emit);
    case RemoveOp(ref, emit) => RemoveSound(s, ref, emit);
    case UpdateOp(doc, emit) => UpdateSound(s, fields, doc, emit);
    case IdfOp(_) =>
  }

  /** The inverted index and the forward store agree in every state of every proper run. */
  lemma {:induction false} RunsStaySound(log: real -> real, fields: seq<Field>, s: State, ops: seq<Op>)
    requires Sound(s) && ProperRun(log, fields, s, ops)
    ensures Sound(Run(log, fields, s, ops))
    decreases |ops|
  {
    if ops != [] {
      ApplySound(log, fields, s, ops[0]);
      RunsStaySound(log, fields, Apply(log, fields, s, ops[0]), ops[1..]);
    }
  }

  /** Is there a change, made without an event, that no later event has followed? */
  predicate DirtyAfter(s: State, op: Op, dirty: bool) {
    match op
    case AddOp(_, emit) => !emit
    case RemoveOp(ref, emit) => if ref in s.docs then !emit else dirty
    case UpdateOp(_, emit) => !emit
    case IdfOp(_) => dirty
  }

  predicate Dirty(log: real -> real, fields: seq<Field>, s: State, ops: seq<Op>, dirty: bool)
    decreases |ops|
  {
    if ops == [] then dirty
    else Dirty(log, fields, Apply(log, fields, s, ops[0]), ops[1..], DirtyAfter(s, ops[0], dirty))
  }

  /** The cache never shows, whenever the last change has been followed by an event: each cached
      value is the value computed afresh. */
  lemma {:induction false} CacheIsTransparent(
    log: real -> real, fields: seq<Field>, s: State, ops: seq<Op>, dirty: bool)
    requires !dirty ==> Transparent(log, s)
    ensures !Dirty(log, fields, s, ops, dirty) ==> Transparent(log, Run(log, fields, s, ops))
    decreases |ops|
  {
    if ops != [] {
      if ops[0].IdfOp? && !dirty {
        IdfKeepsTransparent(log, s, ops[0].term);
      }
      CacheIsTransparent(log, fields, Apply(log, fields, s, ops[0]), ops[1..], DirtyAfter(s, ops[0], dirty));
    }
  }

  predicate AllEmit(ops: seq<Op>) {
    forall k :: 0 <= k < |ops| && !ops[k].IdfOp? ==> ops[k].emit
  }

  lemma {:induction false} EmittingRunsAreClean(log: real -> real, fields: seq<Field>, s: State, ops: seq<Op>)
    requires AllEmit(ops)
    ensures !Dirty(log, fields, s, ops, false)
    decreases |ops|
  {
    if ops != [] {
      EmittingRunsAreClean(log, fields, Apply(log, fields, s, ops[0]), ops[1..]);
    }
  }

  lemma RunFirst(log: real -> real, fields: seq<Field>, s: State, op: Op, rest: seq<Op>)
    ensures Run(log, fields, s, [op] + rest) == Run(log, fields, Apply(log, fields, s, op), rest)
    ensures ProperRun(log, fields, s, [op] + rest) <==>
            Proper(fields, s, op) && ProperRun(log, fields, Apply(log, fields, s, op), rest)
  {
    assert ([op] + rest)[1..] == rest;
  }

  /** One document with one token. */
  function Single(word: Str): Document {
    Document(word, map[[] := [word]])
  }

  const ONE_FIELD := [Field([], 1.0)]

  lemma SingleTokens(word: Str)
    ensures TokenSet(ONE_FIELD, Single(word)) == {word}
  {
    assert ONE_FIELD[0].name == [] && Single(word).Tokens([]) == [word];
    assert word in Single(word).Tokens(ONE_FIELD[0].name);
  }

  lemma SingleAdded(s: State, word: Str, emit: bool, t: Str)
    ensures var s' := Add(s, ONE_FIELD, Single(word), emit);
            && DocsOf(s'.posts, t) == (if t == word then DocsOf(s.posts, t)[word := Post(ONE_FIELD, Single(word), t)]
                                       else DocsOf(s.posts, t))
            && s'.length == s.length + 1
            && s'.cache == if emit then map[] else s.cache
  {
    SingleTokens(word);
  }

  lemma IdfOfOne(log: real -> real, s: State, term: Str, x: real)
    requires |DocsOf(s.posts, term)| == 1 && s.length as real == x
    ensures IdfOf(log, s, term) == 1.0 + log(x)
  {
    assert x / 1.0 == x;
  }

  /** An idf cached when the term had one of one postings, looked at when it has one of two. */
  lemma StaleIdf(log: real -> real, a: Str, s1: State, s3: State)
    requires log(1.0) != log(2.0)
    requires |DocsOf(s1.posts, a)| == 1 && s1.length == 1 && s1.cache == map[]
    requires |DocsOf(s3.posts, a)| == 1 && s3.length == 2 && s3.cache == Idf(log, s1, a).cache
    ensures !Transparent(log, s3)
  {
    IdfOfOne(log, s1, a, 1.0);
    IdfOfOne(log, s3, a, 2.0);
    assert a in s3.cache && s3.cache[a] == IdfOf(log, s1, a);
  }

  lemma ThreeOps(log: real -> real, fields: seq<Field>, s: State, op1: Op, op2: Op, op3: Op)
    ensures var s1 := Apply(log, fields, s, op1);
            var s2 := Apply(log, fields, s1, op2);
            && Run(log, fields, s, [op1] + ([op2] + ([op3] + []))) == Apply(log, fields, s2, op3)
            && (ProperRun(log, fields, s, [op1] + ([op2] + ([op3] + []))) <==>
                Proper(fields, s, op1) && Proper(fields, s1, op2) && Proper(fields, s2, op3))
  {
    hide Apply, Proper;
    var s1 := Apply(log, fields, s, op1);
    var s2 := Apply(log, fields, s1, op2);
    RunFirst(log, fields, s2, op3, []);
    RunFirst(log, fields, s1, op2, [op3] + []);
    RunFirst(log, fields, s, op1, [op2] + ([op3] + []));
  }

  lemma StaleAfterThree(log: real -> real, a: Str, b: Str, s1: State, s2: State)
    requires log(1.0) != log(2.0) && a != b && a != [] && b != []
    requires s1 == Add(EMPTY, ONE_FIELD, Single(a), true) && s2 == Idf(log, s1, a)
    ensures Single(a).ref !in EMPTY.docs && [] !in TokenSet(ONE_FIELD, Single(a))
    ensures Single(b).ref !in s2.docs && [] !in TokenSet(ONE_FIELD, Single(b))
    ensures !Transparent(log, Add(s2, ONE_FIELD, Single(b), false))
  {
    hide Transparent, TokenSet, IdfOf, Post;
    SingleAdded(EMPTY, a, true, a);
    SingleAdded(s2, b, false, a);
    StaleIdf(log, a, s1, Add(s2, ONE_FIELD, Single(b), false));
    SingleTokens(a);
    SingleTokens(b);
  }

  /** After a silent change the cache does show: one document, one cached term, one silent `add`. */
  lemma SilentAddLeavesStaleIdf(log: real -> real)
    requires log(1.0) != log(2.0)
    ensures exists fields, ops :: ProperRun(log, fields, EMPTY, ops) && !Transparent(log, Run(log, fields, EMPTY, ops))
  {
    hide Transparent, Add, Idf, TokenSet, Run, ProperRun;
    var a, b: Str := [97], [98];
    assert a[0] != b[0];
    var s1 := Add(EMPTY, ONE_FIELD, Single(a), true);
    StaleAfterThree(log, a, b, s1, Idf(log, s1, a));
    ThreeOps(log, ONE_FIELD, EMPTY, AddOp(Single(a), true), IdfOp(a), AddOp(Single(b), false));
  }

  // ---------------------------------------------------------------- search

  /** The documents under any live token that the query token is a prefix of. */
  function Matches(posts: Postings, q: Str): set<Str> {
    set t, r | t in Expansion(posts, q) && r in posts[t] :: r
  }

  function Found(posts: Postings, query: seq<Str>): set<Str> {
    if query == [] then {}
    else if |query| == 1 then Matches(posts, query[0])
    else Found(posts, query[..|query| - 1]) * Matches(posts, query[|query| - 1])
  }

  ghost predicate HasPrefixed(tokens: set<Str>, q: Str) {
    exists t :: t in tokens && q <= t
  }

  lemma {:induction false} FoundMeansAll(posts: Postings, query: seq<Str>)
    requires query != []
    ensures forall r :: r in Found(posts, query) <==> forall k :: 0 <= k < |query| ==> r in Matches(posts, query[k])
  {
    if |query| > 1 {
      var front := query[..|query| - 1];
      FoundMeansAll(posts, front);
      forall r
        ensures r in Found(posts, query) <==> forall k :: 0 <= k < |query| ==> r in Matches(posts, query[k])
      {
        assert query == front + [query[|query| - 1]];
        assert (forall k :: 0 <= k < |front| ==> r in Matches(posts, front[k]))
          <==> (forall k :: 0 <= k < |query| - 1 ==> r in Matches(posts, query[k])) by {
          assert forall k :: 0 <= k < |front| ==> front[k] == query[k];
        }
      }
    }
  }

  lemma MatchesMeaning(s: State, q: Str, r: Str)
    requires Coherent(s)
    ensures r in Matches(s.posts, q) <==> q != [] && r in s.docs && HasPrefixed(s.docs[r], q)
  {
    if r in Matches(s.posts, q) {
      var t :| t in Expansion(s.posts, q) && r in s.posts[t];
      assert Posted(s.posts, t, r);
    }
    if q != [] && r in s.docs && HasPrefixed(s.docs[r], q) {
      var t :| t in s.docs[r] && q <= t;
      assert Posted(s.posts, t, r);
    }
  }

  /** What the last operation on a reference leaves: its tokens, if it is live. */
  function LastTokens(fields: seq<Field>, ops: seq<Op>, ref: Str): Option<set<Str>>
    decreases |ops|
  {
    if ops == [] then None
    else
      match ops[|ops| - 1]
      case AddOp(doc, _) => if doc.ref == ref then Some(TokenSet(fields, doc))
      else LastTokens(fields, ops[..|ops| - 1], ref)
      case UpdateOp(doc, _) => if doc.ref == ref then Some(TokenSet(fields, doc))
      else LastTokens(fields, ops[..|ops| - 1], ref)
      case RemoveOp(gone, _) => if gone == ref then None else LastTokens(fields, ops[..|ops| - 1], ref)
      case IdfOp(_) => LastTokens(fields, ops[..|ops| - 1], ref)
  }

  lemma {:induction false} RunMore(log: real -> real, fields: seq<Field>, s: State, ops: seq<Op>, op: Op)
    ensures Run(log, fields, s, ops + [op]) == Apply(log, fields, Run(log, fields, s, ops), op)
    decreases |ops|
  {
    if ops == [] {
      assert ops + [op] == [op];
    } else {
      assert (ops + [op])[0] == ops[0] && (ops + [op])[1..] == ops[1..] + [op];
      RunMore(log, fields, Apply(log, fields, s, ops[0]), ops[1..], op);
    }
  }

  lemma ApplyDocs(log: real -> real, fields: seq<Field>, s: State, op: Op, ref: Str)
    ensures var docs := Apply(log, fields, s, op).docs;
            var before := if ref in s.docs then Some(s.docs[ref]) else None;
            var after := if ref in docs then Some(docs[ref]) else None;
            match op
            case AddOp(doc, _) => after == if doc.ref == ref then Some(TokenSet(fields, doc)) else before
            case UpdateOp(doc, _) => after == if doc.ref == ref then Some(TokenSet(fields, doc)) else before
            case RemoveOp(gone, _) => after == if gone == ref then None else before
            case IdfOp(_) => after == before
  {
    hide TokenSet, AddDoc, RemoveDoc;
  }

  /** The live documents are those that the last operation on their reference added or updated, with the tokens
      that it gave them. */
  lemma {:induction false} LastOpDecides(log: real -> real, fields: seq<Field>, ops: seq<Op>, ref: Str)
    ensures var docs := Run(log, fields, EMPTY, ops).docs;
            LastTokens(fields, ops, ref) == if ref in docs then Some(docs[ref]) else None
    decreases |ops|
  {
    if ops != [] {
      var front, last := ops[..|ops| - 1], ops[|ops| - 1];
      assert ops == front + [last];
      hide Apply, Run, TokenSet;
      LastOpDecides(log, fields, front, ref);
      RunMore(log, fields, EMPTY, front, last);
      ApplyDocs(log, fields, Run(log, fields, EMPTY, front), last, ref);
    }
  }

  /** So what a search finds after any proper run is said by the operations alone. */
  lemma SearchAfterRun(log: real -> real, fields: seq<Field>, ops: seq<Op>, query: seq<Str>, r: Str)
    requires ProperRun(log, fields, EMPTY, ops)
    ensures var tokens := LastTokens(fields, ops, r);
            r in Found(Run(log, fields, EMPTY, ops).posts, query) <==>
                 && query != [] && tokens.Some?
                 && forall k :: 0 <= k < |query| ==> query[k] != [] && HasPrefixed(tokens.value, query[k])
  {
    assert Sound(EMPTY);
    RunsStaySound(log, fields, EMPTY, ops);
    LastOpDecides(log, fields, ops, r);
    SearchMeaning(Run(log, fields, EMPTY, ops), query, r);
  }

  /** What a search means: a live document is found exactly when every query token is a non-empty
      prefix of one of its tokens; nothing is found for an empty query. */
  lemma SearchMeaning(s: State, query: seq<Str>, r: Str)
    requires Coherent(s)
    ensures r in Found(s.posts, query) <==>
            && query != [] && r in s.docs
            && forall k :: 0 <= k < |query| ==> query[k] != [] && HasPrefixed(s.docs[r], query[k])
  {
    if query != [] {
      FoundMeansAll(s.posts, query);
      forall k | 0 <= k < |query|
        ensures r in Matches(s.posts, query[k]) <==> query[k] != [] && r in s.docs && HasPrefixed(s.docs[r], query[k])
      {
        MatchesMeaning(s, query[k], r);
      }
      assert query[0] == query[0];
    }
  }
}
