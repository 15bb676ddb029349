/** lunr.Index: the object, its stores and its methods, proved against IndexSpec. */
module Indexes {
  import opened JsStrings
  import opened SortedSets
  import opened TermFrequencies
  import opened TokenStores
  import opened DocumentStores
  import opened Vectors
  import opened IndexSpec

  function Elements(s: seq<Str>): set<Str> {
    set e | e in s
  }

  function DocSets(contents: map<Str, seq<Str>>): map<Str, set<Str>> {
    map r | r in contents :: Elements(contents[r])
  }

  lemma DocSetsSet(contents: map<Str, seq<Str>>, id: Str, tokens: seq<Str>)
    ensures DocSets(contents[id := tokens]) == DocSets(contents)[id := Elements(tokens)]
  {
  }

  lemma DocSetsRemove(contents: map<Str, seq<Str>>, id: Str)
    ensures DocSets(contents - {id}) == DocSets(contents) - {id}
  {
  }

  lemma {:induction false} ElementsCount(s: seq<Str>)
    requires Increasing(s)
    ensures |Elements(s)| == |s|
  {
    if s != [] {
      TailMembers(s);
      ElementsCount(s[1..]);
      assert Elements(s) == Elements(s[1..]) + {s[0]};
    }
  }

  /** Posting under one more token. */
  lemma AddDocMore(posts: Postings, fields: seq<Field>, doc: Document, tokens: set<Str>, t: Str)
    requires t !in tokens
    ensures AddPosting(AddDoc(posts, fields, doc, tokens), t, Post(fields, doc, t)) ==
            AddDoc(posts, fields, doc, tokens + {t})
  {
  }

  lemma RemoveDocMore(posts: Postings, ref: Str, tokens: set<Str>, t: Str)
    requires t !in tokens && forall k :: k in posts ==> posts[k] != map[]
    ensures RemovePosting(RemoveDoc(posts, ref, tokens), t, ref) == RemoveDoc(posts, ref, tokens + {t})
  {
    var before := RemoveDoc(posts, ref, tokens);
    assert DocsOf(before, t) == DocsOf(posts, t);
  }

  lemma IsAddSet(s: State, s': State, fields: seq<Field>, doc: Document, tokens: set<Str>)
    requires s'.docs == s.docs[doc.ref := tokens] && s'.posts == AddDoc(s.posts, fields, doc, tokens)
    requires s'.corpus == s.corpus + tokens && s'.length == s.length + |tokens| && s'.cache == s.cache
    ensures s' == AddSet(s, fields, doc, tokens)
  {
  }

  class Index {
    var fields: seq<Field>
    const documentStore: Store
    const tokenStore: TokenStore
    const corpusTokens: SortedSet
    var idfCache: map<Str, real>
    /** `Math.log` */
    const log: real -> real

    ghost predicate Valid()
      reads documentStore, tokenStore, tokenStore.repr, corpusTokens
    {
      documentStore.Valid() && tokenStore.Valid() && corpusTokens.Valid()
    }

    ghost function View(): State
      reads this`idfCache, documentStore, tokenStore, corpusTokens
    {
      State(DocSets(documentStore.store), tokenStore.Contents(), corpusTokens.Members(), tokenStore.length, idfCache)
    }

    constructor (log: real -> real)
      ensures Valid() && View() == EMPTY && fields == [] && this.log == log
      ensures fresh(documentStore) && fresh(tokenStore) && fresh(corpusTokens) && fresh(tokenStore.repr)
    {
      this.log := log;
      fields, idfCache := [], map[];
      documentStore := new Store();
      tokenStore := new TokenStore();
      corpusTokens := new SortedSet();
    }

    /** What the listeners that the constructor installs do on an event. */
    method Emit(emitEvent: bool)
      requires Valid()
      modifies this`idfCache
      ensures Valid() && View() == IndexSpec.Emit(old(View()), emitEvent)
    {
      if emitEvent {
        idfCache := map[];
      }
    }

    /** The tokens of all fields, gathered in a sorted set: its elements. */
    method Gather(doc: Document) returns (tokens: seq<Str>)
      ensures Increasing(tokens) && Elements(tokens) == TokenSet(fields, doc) && |tokens| == |TokenSet(fields, doc)|
    {
      var all := new SortedSet();
      for i := 0 to |fields|
        invariant all.Valid() && all.Members() == TokenSet(fields[..i], doc)
      {
        all.Add(doc.Tokens(fields[i].name));
        assert TokenSet(fields[..i + 1], doc) ==
               TokenSet(fields[..i], doc) + (set w | w in doc.Tokens(fields[i].name)) by {
          assert fields[..i + 1] == fields[..i] + [fields[i]];
          forall w | w in doc.Tokens(fields[i].name)
            ensures w in TokenSet(fields[..i + 1], doc)
          {
            assert fields[..i + 1][i] == fields[i];
          }
          forall w | w in TokenSet(fields[..i], doc)
            ensures w in TokenSet(fields[..i + 1], doc)
          {
            var k :| 0 <= k < i && w in doc.Tokens(fields[..i][k].name);
            assert fields[..i + 1][k] == fields[..i][k];
          }
        }
      }
      assert fields[..|fields|] == fields;
      tokens := all.elements;
      ElementsCount(tokens);
    }

    /** The loop of `add` over the document's tokens. */
    method PostAll(doc: Document, tokens: seq<Str>)
      requires tokenStore.Valid() && Increasing(tokens) && [] !in Elements(tokens)
      modifies tokenStore, tokenStore.repr
      ensures tokenStore.Valid() && (forall o :: o in tokenStore.repr && o !in old(tokenStore.repr) ==> fresh(o))
      ensures tokenStore.Contents() == AddDoc(old(tokenStore.Contents()), fields, doc, Elements(tokens))
      ensures tokenStore.length == old(tokenStore.length) + |tokens|
    {
      ghost var posts := tokenStore.Contents();
      assert AddDoc(posts, fields, doc, {}) == posts;
      for i := 0 to |tokens|
        invariant tokenStore.Valid() && (forall o :: o in tokenStore.repr && o !in old(tokenStore.repr) ==> fresh(o))
        invariant tokenStore.Contents() == AddDoc(posts, fields, doc, Elements(tokens[..i]))
        invariant tokenStore.length == old(tokenStore.length) + i
      {
        var token := tokens[i];
        var tf := ComputeTf(fields, doc, token);
        tokenStore.Add(token, Posting(doc.ref, tf));
        assert tokens[..i + 1] == tokens[..i] + [token];
        assert Elements(tokens[..i + 1]) == Elements(tokens[..i]) + {token};
        LtIrreflexive(token);
        AddDocMore(posts, fields, doc, Elements(tokens[..i]), token);
      }
      assert tokens[..|tokens|] == tokens;
    }

    /** The forward store and the corpus take the tokens. */
    method Keep(ref: Str, tokens: seq<Str>)
      requires documentStore.Valid() && corpusTokens.Valid() && Increasing(tokens)
      modifies documentStore, corpusTokens
      ensures documentStore.Valid() && corpusTokens.Valid()
      ensures DocSets(documentStore.store) == DocSets(old(documentStore.store))[ref := Elements(tokens)]
      ensures corpusTokens.Members() == old(corpusTokens.Members()) + Elements(tokens)
    {
      documentStore.Set(ref, tokens);
      DocSetsSet(old(documentStore.store), ref, tokens);
      corpusTokens.Add(tokens);
    }

    /** `add` up to its event, given the gathered tokens. */
    method AddTokens(doc: Document, tokens: seq<Str>)
      requires Valid() && Increasing(tokens) && [] !in Elements(tokens)
      modifies documentStore, corpusTokens, tokenStore, tokenStore.repr
      ensures Valid() && (forall o :: o in tokenStore.repr && o !in old(tokenStore.repr) ==> fresh(o))
      ensures View().docs == old(View()).docs[doc.ref := Elements(tokens)]
      ensures View().posts == AddDoc(old(View()).posts, fields, doc, Elements(tokens))
      ensures View().corpus == old(View()).corpus + Elements(tokens)
      ensures View().length == old(View()).length + |tokens|
    {
      Keep(doc.ref, tokens);
      PostAll(doc, tokens);
    }

    /** `add` with its event, given the gathered tokens. */
    method AddGathered(doc: Document, tokens: seq<Str>, emitEvent: bool, ghost gathered: set<Str>)
      requires Valid() && Increasing(tokens) && Elements(tokens) == gathered && |tokens| == |gathered|
      requires [] !in gathered
      modifies this`idfCache, documentStore, corpusTokens, tokenStore, tokenStore.repr
      ensures Valid() && (forall o :: o in tokenStore.repr && o !in old(tokenStore.repr) ==> fresh(o))
      ensures View() == IndexSpec.Emit(AddSet(old(View()), fields, doc, gathered), emitEvent)
    {
      hide TokenStore.Valid, SortedSet.Valid, Store.Valid;
      ghost var before := View();
      AddTokens(doc, tokens);
      IsAddSet(before, View(), fields, doc, gathered);
      Emit(emitEvent);
    }

    method Add(doc: Document, emitEvent: bool)
      requires Valid() && [] !in TokenSet(fields, doc)
      modifies this`idfCache, documentStore, corpusTokens, tokenStore, tokenStore.repr
      ensures Valid() && (forall o :: o in tokenStore.repr && o !in old(tokenStore.repr) ==> fresh(o))
      ensures View() == IndexSpec.Add(old(View()), fields, doc, emitEvent)
    {
      var tokens := Gather(doc);
      AddGathered(doc, tokens, emitEvent, TokenSet(fields, doc));
    }

    /** The loop of `remove` over the document's tokens. */
    method UnpostAll(ref: Str, tokens: seq<Str>)
      requires tokenStore.Valid() && Increasing(tokens)
      modifies tokenStore, tokenStore.repr
      ensures tokenStore.Valid() && tokenStore.repr == old(tokenStore.repr)
      ensures tokenStore.length == old(tokenStore.length)
      ensures tokenStore.Contents() == RemoveDoc(old(tokenStore.Contents()), ref, Elements(tokens))
    {
      ghost var posts := tokenStore.Contents();
      assert RemoveDoc(posts, ref, {}) == posts;
      for i := 0 to |tokens|
        invariant tokenStore.Valid() && tokenStore.repr == old(tokenStore.repr)
        invariant tokenStore.length == old(tokenStore.length)
        invariant tokenStore.Contents() == RemoveDoc(posts, ref, Elements(tokens[..i]))
      {
        tokenStore.Remove(tokens[i], ref);
        assert tokens[..i + 1] == tokens[..i] + [tokens[i]];
        assert Elements(tokens[..i + 1]) == Elements(tokens[..i]) + {tokens[i]};
        LtIrreflexive(tokens[i]);
        RemoveDocMore(posts, ref, Elements(tokens[..i]), tokens[i]);
      }
      assert tokens[..|tokens|] == tokens;
    }

    /** The forward store gives the tokens up. */
    method Forget(ref: Str) returns (tokens: seq<Str>)
      requires documentStore.Valid() && ref in documentStore.store
      modifies documentStore
      ensures documentStore.Valid()
      ensures tokens == old(documentStore.store)[ref] && Increasing(tokens)
      ensures DocSets(documentStore.store) == DocSets(old(documentStore.store)) - {ref}
    {
      tokens := documentStore.Get(ref);
      documentStore.Remove(ref);
      DocSetsRemove(old(documentStore.store), ref);
    }

    method Remove(docRef: Str, emitEvent: bool)
      requires Valid()
      modifies this`idfCache, documentStore, tokenStore, tokenStore.repr
      ensures Valid() && tokenStore.repr == old(tokenStore.repr)
      ensures View() == IndexSpec.Remove(old(View()), docRef, emitEvent)
    {
      var live := documentStore.Has(docRef);
      if live {
        var tokens := Forget(docRef);
        UnpostAll(docRef, tokens);
        Emit(emitEvent);
      }
    }

    method Update(doc: Document, emitEvent: bool)
      requires Valid() && [] !in TokenSet(fields, doc)
      modifies this`idfCache, documentStore, corpusTokens, tokenStore, tokenStore.repr
      ensures Valid() && (forall o :: o in tokenStore.repr && o !in old(tokenStore.repr) ==> fresh(o))
      ensures View() == IndexSpec.Update(old(View()), fields, doc, emitEvent)
    {
      Remove(doc.ref, false);
      Add(doc, false);
      Emit(emitEvent);
    }

    method Idf(term: Str) returns (idf: real)
      requires Valid()
      modifies this`idfCache
      ensures Valid() && View() == IndexSpec.Idf(log, old(View()), term)
      ensures term in idfCache && idf == idfCache[term]
    {
      if term in idfCache {
        return idfCache[term];
      }
      var documentFrequency := tokenStore.Count(term);
      idf := 1.0;
      if documentFrequency > 0 {
        idf := 1.0 + log(tokenStore.length as real / documentFrequency as real);
      }
      idfCache := idfCache[term := idf];
    }

    /** The tf-idf of a token of a live document: the posting it reads is there. */
    method TfIdf(ref: Str, token: Str, ghost start: State) returns (value: real)
      requires Valid() && OnlyIdfsAdded(log, start, View())
      requires Posted(start.posts, token, ref)
      modifies this`idfCache
      ensures Valid() && OnlyIdfsAdded(log, start, View())
      ensures value == Weight(log, start, ref, token)
    {
      hide TokenStore.Valid, SortedSet.Valid, Store.Valid;
      ghost var before := View();
      var docs := tokenStore.Get(token);
      var tf := docs[ref].tf;
      var idf := Idf(token);
      IdfsAddUp(log, start, before, View(), token);
      value := tf * idf;
    }

    /** One turn of the loop of `documentVector`: the entry's place in the corpus and its value. */
    method Coordinate(ref: Str, token: Str, ghost start: State) returns (entry: Entry)
      requires Valid() && Sound(start) && OnlyIdfsAdded(log, start, View())
      requires ref in start.docs && token in start.docs[ref]
      modifies this`idfCache
      ensures Valid() && OnlyIdfsAdded(log, start, View())
      ensures 0 <= entry.idx < |corpusTokens.elements| && corpusTokens.elements[entry.idx] == token
      ensures entry.val == Weight(log, start, ref, token)
    {
      LivePosting(start, ref, token);
      var value := TfIdf(ref, token, start);
      IndexOfExact(corpusTokens.elements, token);
      entry := Entry(IndexOf(corpusTokens.elements, token, 0, 0).value, value);
    }

    /** The entries that the loop of `documentVector` inserts: every posting it reads is there, and
        the places in the corpus increase. */
    method Coordinates(ref: Str, tokens: seq<Str>, ghost start: State) returns (entries: seq<Entry>)
      requires Valid() && start == View() && Sound(start) && Increasing(tokens)
      requires ref in start.docs && Elements(tokens) == start.docs[ref]
      modifies this`idfCache
      ensures Valid() && OnlyIdfsAdded(log, start, View())
      ensures StrictlyIncreasing(entries) && Describes(entries, tokens, corpusTokens.elements)
      ensures Weighs(log, start, ref, entries, tokens)
    {
      entries := [];
      for i := 0 to |tokens|
        invariant Valid() && OnlyIdfsAdded(log, start, View())
        invariant StrictlyIncreasing(entries) && Describes(entries, tokens[..i], corpusTokens.elements)
        invariant Weighs(log, start, ref, entries, tokens[..i])
      {
        var entry := Coordinate(ref, tokens[i], start);
        NextPlaceIsLater(entries, tokens, i, corpusTokens.elements, entry);
        NextWeight(log, start, ref, entries, tokens, i, entry);
        entries := entries + [entry];
      }
      assert tokens[..|tokens|] == tokens;
    }

    /** The vector of a live document: one entry per token, at the token's place in the corpus. */
    method DocumentVector(ref: Str) returns (vector: Vector)
      requires Valid() && Sound(View()) && ref in View().docs
      modifies this`idfCache
      ensures Valid() && OnlyIdfsAdded(log, old(View()), View())
      ensures fresh(vector) && vector.Valid() && StrictlyIncreasing(vector.entries)
      ensures Describes(vector.entries, documentStore.store[ref], corpusTokens.elements)
      ensures Weighs(log, old(View()), ref, vector.entries, documentStore.store[ref])
    {
      var tokens := documentStore.Get(ref);
      var entries := Coordinates(ref, tokens, View());
      vector := FromEntries(entries);
    }

    /** `queryTokens.some(has)` */
    method HasSome(query: seq<Str>) returns (found: bool)
      requires Valid()
      ensures found ==> query != []
      ensures !found ==> forall k :: 0 <= k < |query| ==> Matches(View().posts, query[k]) == {}
    {
      for i := 0 to |query|
        invariant forall k :: 0 <= k < i ==> Matches(View().posts, query[k]) == {}
      {
        var has := tokenStore.Has(query[i]);
        if has {
          return true;
        }
        if query[i] != [] {
          tokenStore.NothingBelow(query[i]);
        }
        assert Expansion(View().posts, query[i]) == {};
      }
      return false;
    }

    /** The documents under one expanded key, joined to those found so far. */
    method JoinKey(key: Str, memo: SortedSet, ghost start: State) returns (joined: SortedSet)
      requires Valid() && memo.Valid() && OnlyIdfsAdded(log, start, View())
      modifies this`idfCache
      ensures Valid() && OnlyIdfsAdded(log, start, View())
      ensures fresh(joined) && joined.Valid() && joined.Members() == memo.Members() + DocsOf(start.posts, key).Keys
    {
      hide TokenStore.Valid, SortedSet.Valid, Store.Valid, OnlyIdfsAdded, DocsOf;
      ghost var before := View();
      var idf := Idf(key);
      IdfsAddUp(log, start, before, View(), key);
      var docs := tokenStore.Get(key);
      joined := JoinDocs(docs, memo);
    }

    /** The fold by union over the expanded keys. */
    method JoinKeys(keys: seq<Str>, ghost start: State) returns (found: SortedSet)
      requires Valid() && OnlyIdfsAdded(log, start, View())
      modifies this`idfCache
      ensures Valid() && OnlyIdfsAdded(log, start, View())
      ensures fresh(found) && found.Valid() && found.Members() == UnderKeys(start.posts, keys)
    {
      hide TokenStore.Valid, SortedSet.Valid, Store.Valid, DocsOf, OnlyIdfsAdded;
      assert UnderKeys(start.posts, keys[..0]) == {};
      found := new SortedSet();
      for i := 0 to |keys|
        invariant Valid() && OnlyIdfsAdded(log, start, View())
        invariant fresh(found) && found.Valid() && found.Members() == UnderKeys(start.posts, keys[..i])
      {
        found := JoinKey(keys[i], found, start);
        UnderOneMore(start.posts, keys[..i], keys[i]);
        assert keys[..i + 1] == keys[..i] + [keys[i]];
      }
      assert keys[..|keys|] == keys;
    }

    /** One query token: the documents under its expansion. */
    method ExpandDocs(token: Str, ghost start: State) returns (found: SortedSet)
      requires Valid() && OnlyIdfsAdded(log, start, View())
      modifies this`idfCache
      ensures Valid() && OnlyIdfsAdded(log, start, View())
      ensures fresh(found) && found.Valid() && found.Members() == Matches(start.posts, token)
    {
      hide TokenStore.Valid, SortedSet.Valid, Store.Valid, Matches, UnderKeys;
      var keys := tokenStore.Expand(token, []);
      ExpandedAll(keys, Expansion(start.posts, token));
      UnderExpansion(start.posts, keys, token);
      found := JoinKeys(keys, start);
    }

    /** `queryTokens.forEach`: one set of documents per query token. */
    method CollectSets(query: seq<Str>, ghost start: State) returns (documentSets: seq<SortedSet>)
      requires Valid() && start == View()
      modifies this`idfCache
      ensures Valid() && OnlyIdfsAdded(log, start, View()) && |documentSets| == |query|
      ensures forall k :: 0 <= k < |query| ==> IsMatchSet(documentSets[k], start.posts, query[k])
    {
      documentSets := [];
      for i := 0 to |query|
        invariant Valid() && OnlyIdfsAdded(log, start, View()) && |documentSets| == i
        invariant forall k :: 0 <= k < i ==> IsMatchSet(documentSets[k], start.posts, query[k])
      {
        var found := ExpandDocs(query[i], start);
        assert IsMatchSet(found, start.posts, query[i]);
        documentSets := documentSets + [found];
      }
    }

    /** The document vectors of all results: none of them reads a missing posting. */
    method VectorsOf(refs: seq<Str>, ghost start: State)
      requires Valid() && Sound(start) && OnlyIdfsAdded(log, start, View())
      requires forall k :: 0 <= k < |refs| ==> refs[k] in start.docs
      modifies this`idfCache
      ensures Valid() && OnlyIdfsAdded(log, start, View())
    {
      for i := 0 to |refs|
        invariant Valid() && OnlyIdfsAdded(log, start, View())
      {
        ghost var before := View();
        var vector := DocumentVector(refs[i]);
        OnlyIdfsTwice(log, start, before, View());
      }
    }

    /** The documents that match: each query token expanded and joined, the results intersected.
        The scores, and the order they give, are not part of the model. */
    method Search(query: seq<Str>) returns (refs: seq<Str>)
      requires Valid() && Sound(View())
      modifies this`idfCache
      ensures Valid() && OnlyIdfsAdded(log, old(View()), View())
      ensures Increasing(refs) && Elements(refs) == Found(old(View()).posts, query)
    {
      ghost var start := View();
      var hasSomeToken := HasSome(query);
      if !hasSomeToken {
        NothingFound(start.posts, query);
        return [];
      }
      var documentSets := CollectSets(query, start);
      var documentSet := IntersectAll(documentSets, start.posts, query);
      refs := documentSet.elements;
      FoundAreLive(start, query, refs);
      VectorsOf(refs, start);
    }
  }

  method KeysOf(docs: Docs) returns (refs: seq<Str>)
    ensures Elements(refs) == docs.Keys
  {
    refs := [];
    var keys := docs.Keys;
    while keys != {}
      invariant keys <= docs.Keys && forall r :: r in refs <==> r in docs.Keys - keys
      decreases keys
    {
      var key :| key in keys;
      refs := refs + [key];
      keys := keys - {key};
    }
  }

  /** The references of one token in a set of their own, joined to `memo`. */
  method JoinDocs(docs: Docs, memo: SortedSet) returns (joined: SortedSet)
    requires memo.Valid()
    ensures fresh(joined) && joined.Valid() && joined.Members() == memo.Members() + docs.Keys
  {
    var refs := KeysOf(docs);
    var keySet := new SortedSet();
    keySet.Add(refs);
    joined := memo.Union(keySet);
  }

  /** `documentSets.reduce(intersect)`, which starts from the first set. */
  method IntersectAll(sets: seq<SortedSet>, ghost posts: Postings, ghost query: seq<Str>) returns (result: SortedSet)
    requires |sets| == |query| > 0
    requires forall k :: 0 <= k < |query| ==> IsMatchSet(sets[k], posts, query[k])
    ensures result.Valid() && result.Members() == Found(posts, query)
  {
    result := sets[0];
    for i := 1 to |sets|
      invariant result.Valid() && result.Members() == Found(posts, query[..i])
    {
      result := result.Intersect(sets[i]);
      assert query[..i + 1][..i] == query[..i];
    }
    assert query[..|query|] == query;
  }

  ghost predicate IsMatchSet(documents: SortedSet, posts: Postings, token: Str)
    reads documents
  {
    documents.Valid() && documents.Members() == Matches(posts, token)
  }

  lemma FoundAreLive(s: State, query: seq<Str>, refs: seq<Str>)
    requires Sound(s) && Elements(refs) == Found(s.posts, query)
    ensures forall k :: 0 <= k < |refs| ==> refs[k] in s.docs
  {
    forall k | 0 <= k < |refs|
      ensures refs[k] in s.docs
    {
      assert refs[k] in Elements(refs);
      SearchMeaning(s, query, refs[k]);
    }
  }

  ghost function UnderKeys(posts: Postings, keys: seq<Str>): set<Str> {
    set k, r | k in keys && k in posts && r in posts[k] :: r
  }

  lemma UnderOneMore(posts: Postings, keys: seq<Str>, key: Str)
    ensures UnderKeys(posts, keys + [key]) == UnderKeys(posts, keys) + DocsOf(posts, key).Keys
  {
    assert key in keys + [key];
  }

  lemma ExpandedAll(out: seq<Str>, found: set<Str>)
    requires Expanded([], out, found)
    ensures forall k :: k in out <==> k in found
  {
    assert out[0..] == out;
  }

  lemma UnderExpansion(posts: Postings, keys: seq<Str>, token: Str)
    requires forall k :: k in keys <==> k in Expansion(posts, token)
    ensures UnderKeys(posts, keys) == Matches(posts, token)
  {
  }

  lemma NothingFound(posts: Postings, query: seq<Str>)
    requires forall k :: 0 <= k < |query| ==> Matches(posts, query[k]) == {}
    ensures Found(posts, query) == {}
  {
    if query != [] {
      FoundMeansAll(posts, query);
      forall r
        ensures r !in Found(posts, query)
      {
        assert r !in Matches(posts, query[0]);
      }
    }
  }

  lemma OnlyIdfsTwice(log: real -> real, s0: State, s1: State, s2: State)
    requires OnlyIdfsAdded(log, s0, s1) && OnlyIdfsAdded(log, s1, s2)
    ensures OnlyIdfsAdded(log, s0, s2)
  {
    assert forall t :: IdfOf(log, s1, t) == IdfOf(log, s0, t);
  }

  /** Nothing but the cache changes, and what it gains is right. */
  ghost predicate OnlyIdfsAdded(log: real -> real, s: State, s': State) {
    && s' == s.(cache := s'.cache)
    && (forall t :: t in s.cache ==> t in s'.cache)
    && forall t :: t in s'.cache ==> s'.cache[t] == if t in s.cache then s.cache[t] else IdfOf(log, s, t)
  }

  lemma IdfsAddUp(log: real -> real, s0: State, s1: State, s2: State, term: Str)
    requires OnlyIdfsAdded(log, s0, s1) && s2 == IndexSpec.Idf(log, s1, term)
    ensures OnlyIdfsAdded(log, s0, s2)
  {
    assert IdfOf(log, s1, term) == IdfOf(log, s0, term);
  }

  /** Entry `k` stands at the place of token `k` in the corpus. */
  ghost predicate Describes(entries: seq<Entry>, tokens: seq<Str>, corpus: seq<Str>) {
    |entries| == |tokens| && forall k :: 0 <= k < |tokens| ==>
                                           0 <= entries[k].idx < |corpus| && corpus[entries[k].idx] == tokens[k]
  }

  function TfIn(posts: Postings, token: Str, ref: Str): real {
    if ref in DocsOf(posts, token) then DocsOf(posts, token)[ref].tf else 0.0
  }

  /** What `idf` answers in a state: the cached value, or else the computed one. */
  function IdfSeen(log: real -> real, s: State, token: Str): real {
    if token in s.cache then s.cache[token] else IdfOf(log, s, token)
  }

  /** The tf-idf of a token in a document. */
  function Weight(log: real -> real, s: State, ref: Str, token: Str): real {
    TfIn(s.posts, token, ref) * IdfSeen(log, s, token)
  }

  /** Entry `k` holds the tf-idf of token `k`. */
  ghost predicate Weighs(log: real -> real, s: State, ref: Str, entries: seq<Entry>, tokens: seq<Str>) {
    |entries| == |tokens| && forall k :: 0 <= k < |tokens| ==> entries[k].val == Weight(log, s, ref, tokens[k])
  }

  lemma NextWeight(log: real -> real, s: State, ref: Str, entries: seq<Entry>, tokens: seq<Str>, i: nat, e: Entry)
    requires i < |tokens| && Weighs(log, s, ref, entries, tokens[..i]) && e.val == Weight(log, s, ref, tokens[i])
    ensures Weighs(log, s, ref, entries + [e], tokens[..i + 1])
  {
    var more := entries + [e];
    forall k | 0 <= k < i + 1
      ensures more[k].val == Weight(log, s, ref, tokens[..i + 1][k])
    {
      if k < i {
        assert tokens[..i][k] == tokens[..i + 1][k] && more[k] == entries[k];
      }
    }
  }

  lemma LivePosting(s: State, ref: Str, token: Str)
    requires Sound(s) && ref in s.docs && token in s.docs[ref]
    ensures Posted(s.posts, token, ref) && token in s.corpus
  {
    assert Posted(s.posts, token, ref);
  }

  /** Places in the corpus follow the order of the tokens, so the next entry goes to the end. */
  lemma NextPlaceIsLater(entries: seq<Entry>, tokens: seq<Str>, i: nat, corpus: seq<Str>, e: Entry)
    requires Increasing(tokens) && Increasing(corpus) && i < |tokens|
    requires 0 <= e.idx < |corpus| && corpus[e.idx] == tokens[i]
    requires StrictlyIncreasing(entries) && Describes(entries, tokens[..i], corpus)
    ensures StrictlyIncreasing(entries + [e]) && Describes(entries + [e], tokens[..i + 1], corpus)
  {
    if entries != [] {
      var last := entries[i - 1].idx;
      assert corpus[last] == tokens[..i][i - 1] == tokens[i - 1];
      if last > e.idx {
        LtAsymmetric(corpus[e.idx], corpus[last]);
      }
      LtIrreflexive(corpus[e.idx]);
    }
    assert tokens[..i + 1] == tokens[..i] + [tokens[i]];
  }
}
