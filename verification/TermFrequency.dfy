/** The term frequencies that `lunr.Index.add` posts for one document. */
module TermFrequencies {
  import opened JsStrings

  datatype Field = Field(name: Str, boost: real)

  /** A document: its reference, and for each field name the tokens the pipeline lets through. */
  datatype Document = Document(ref: Str, text: map<Str, seq<Str>>) {
    function Tokens(name: Str): seq<Str> {
      if name in text then text[name] else []
    }
  }

  function Count(tokens: seq<Str>, token: Str): nat {
    if tokens == [] then 0 else (if tokens[0] == token then 1 else 0) + Count(tokens[1..], token)
  }

  function Share(tokens: seq<Str>, token: Str, boost: real): real {
    if tokens == [] then 0.0 else Count(tokens, token) as real / |tokens| as real * boost
  }

  /** The fold over the fields, from the left. */
  function Tf(fields: seq<Field>, doc: Document, token: Str): real {
    if fields == [] then 0.0
    else
      var last := fields[|fields| - 1];
      Tf(fields[..|fields| - 1], doc, token) + Share(doc.Tokens(last.name), token, last.boost)
  }

  method ComputeTf(fields: seq<Field>, doc: Document, token: Str) returns (tf: real)
    ensures tf == Tf(fields, doc, token)
  {
    tf := 0.0;
    for i := 0 to |fields|
      invariant tf == Tf(fields[..i], doc, token)
    {
      tf := tf + Share(doc.Tokens(fields[i].name), token, fields[i].boost);
      assert fields[..i + 1][..i] == fields[..i];
    }
    assert fields[..|fields|] == fields;
  }

  // ---------------------------------------------------------------- conservation

  function TfSum(fields: seq<Field>, doc: Document, tokens: seq<Str>): real {
    if tokens == [] then 0.0 else Tf(fields, doc, tokens[0]) + TfSum(fields, doc, tokens[1..])
  }

  /** The boosts of the fields that have tokens. */
  function BoostSum(fields: seq<Field>, doc: Document): real {
    if fields == [] then 0.0
    else
      var last := fields[|fields| - 1];
      BoostSum(fields[..|fields| - 1], doc) + (if doc.Tokens(last.name) == [] then 0.0 else last.boost)
  }

  function CountSum(text: seq<Str>, tokens: seq<Str>): nat {
    if tokens == [] then 0 else Count(text, tokens[0]) + CountSum(text, tokens[1..])
  }

  function ShareSum(text: seq<Str>, tokens: seq<Str>, boost: real): real {
    if tokens == [] then 0.0 else Share(text, tokens[0], boost) + ShareSum(text, tokens[1..], boost)
  }

  predicate Distinct(tokens: seq<Str>) {
    forall i, j :: 0 <= i < j < |tokens| ==> tokens[i] != tokens[j]
  }

  lemma {:induction false} CountOneMore(w: Str, text: seq<Str>, tokens: seq<Str>)
    requires Distinct(tokens)
    ensures CountSum([w] + text, tokens) == CountSum(text, tokens) + (if w in tokens then 1 else 0)
  {
    if tokens != [] {
      CountOneMore(w, text, tokens[1..]);
      assert ([w] + text)[1..] == text;
      assert tokens == [tokens[0]] + tokens[1..];
    }
  }

  lemma {:induction false} CountNothing(tokens: seq<Str>)
    ensures CountSum([], tokens) == 0
  {
    if tokens != [] {
      CountNothing(tokens[1..]);
    }
  }

  /** Counting every distinct token of a text counts the text. */
  lemma {:induction false} CountsAddUp(text: seq<Str>, tokens: seq<Str>)
    requires Distinct(tokens) && forall w :: w in text ==> w in tokens
    ensures CountSum(text, tokens) == |text|
  {
    if text == [] {
      CountNothing(tokens);
    } else {
      CountsAddUp(text[1..], tokens);
      CountOneMore(text[0], text[1..], tokens);
      assert text == [text[0]] + text[1..];
    }
  }

  lemma Distribute(a: real, b: real, n: real, boost: real)
    requires n != 0.0
    ensures a / n * boost + b / n * boost == (a + b) / n * boost
  {
    assert a / n + b / n == (a + b) / n;
  }

  lemma {:induction false} SharesAddUp(text: seq<Str>, tokens: seq<Str>, boost: real)
    requires text != []
    ensures ShareSum(text, tokens, boost) == CountSum(text, tokens) as real / |text| as real * boost
  {
    if tokens != [] {
      SharesAddUp(text, tokens[1..], boost);
      Distribute(Count(text, tokens[0]) as real, CountSum(text, tokens[1..]) as real, |text| as real, boost);
    }
  }

  lemma {:induction false} EmptyShares(tokens: seq<Str>, boost: real)
    ensures ShareSum([], tokens, boost) == 0.0
  {
    if tokens != [] {
      EmptyShares(tokens[1..], boost);
    }
  }

  lemma WholeShare(n: real, boost: real)
    requires n != 0.0
    ensures n / n * boost == boost
  {
  }

  /** The shares of one field over all tokens are its boost. */
  lemma FieldAddsUp(text: seq<Str>, tokens: seq<Str>, boost: real)
    requires Distinct(tokens) && forall w :: w in text ==> w in tokens
    ensures ShareSum(text, tokens, boost) == if text == [] then 0.0 else boost
  {
    hide ShareSum, CountSum, Distinct;
    if text == [] {
      EmptyShares(tokens, boost);
    } else {
      SharesAddUp(text, tokens, boost);
      CountsAddUp(text, tokens);
      WholeShare(|text| as real, boost);
    }
  }

  lemma {:induction false} TfSumSplits(fields: seq<Field>, doc: Document, tokens: seq<Str>)
    requires fields != []
    ensures var last := fields[|fields| - 1];
            TfSum(fields, doc, tokens)
            == TfSum(fields[..|fields| - 1], doc, tokens) + ShareSum(doc.Tokens(last.name), tokens, last.boost)
  {
    if tokens != [] {
      TfSumSplits(fields, doc, tokens[1..]);
    }
  }

  lemma {:induction false} TfOfNoFields(doc: Document, tokens: seq<Str>)
    ensures TfSum([], doc, tokens) == 0.0
  {
    if tokens != [] {
      TfOfNoFields(doc, tokens[1..]);
    }
  }

  /** Whatever the fields, even repeated ones: the frequencies of a document's distinct tokens
      add up to the boosts of its fields that have any token. */
  lemma {:induction false} TfIsConserved(fields: seq<Field>, doc: Document, tokens: seq<Str>)
    requires Distinct(tokens)
    requires forall k, w :: 0 <= k < |fields| && w in doc.Tokens(fields[k].name) ==> w in tokens
    ensures TfSum(fields, doc, tokens) == BoostSum(fields, doc)
  {
    if fields == [] {
      TfOfNoFields(doc, tokens);
    } else {
      var last := fields[|fields| - 1];
      TfSumSplits(fields, doc, tokens);
      FieldAddsUp(doc.Tokens(last.name), tokens, last.boost);
      TfIsConserved(fields[..|fields| - 1], doc, tokens);
    }
  }

  lemma {:induction false} CountPositive(text: seq<Str>, token: Str)
    ensures Count(text, token) > 0 <==> token in text
  {
    if text != [] {
      CountPositive(text[1..], token);
    }
  }

  lemma SharePositive(text: seq<Str>, token: Str, boost: real)
    requires boost > 0.0
    ensures Share(text, token, boost) >= 0.0
    ensures Share(text, token, boost) > 0.0 <==> token in text
  {
    CountPositive(text, token);
    if text != [] {
      var c, n := Count(text, token) as real, |text| as real;
      assert c == 0.0 ==> c / n * boost == 0.0;
      assert c > 0.0 ==> c / n > 0.0;
    }
  }

  /** With positive boosts, exactly the tokens of the document have a positive frequency. */
  lemma {:induction false} TfPositive(fields: seq<Field>, doc: Document, token: Str)
    requires forall k :: 0 <= k < |fields| ==> fields[k].boost > 0.0
    ensures Tf(fields, doc, token) >= 0.0
    ensures Tf(fields, doc, token) > 0.0 <==> exists k :: 0 <= k < |fields| && token in doc.Tokens(fields[k].name)
  {
    if fields != [] {
      var last := fields[|fields| - 1];
      TfPositive(fields[..|fields| - 1], doc, token);
      SharePositive(doc.Tokens(last.name), token, last.boost);
    }
  }

  // ---------------------------------------------------------------- counting

  /** A token is counted as often as it occurs. */
  lemma {:induction false} CountIsMultiplicity(text: seq<Str>, token: Str)
    ensures Count(text, token) == multiset(text)[token]
  {
    if text != [] {
      CountIsMultiplicity(text[1..], token);
      assert text == [text[0]] + text[1..];
    }
  }

  lemma CrossShares(text: seq<Str>, a: Str, b: Str, boost: real)
    ensures Share(text, a, boost) * Count(text, b) as real == Share(text, b, boost) * Count(text, a) as real
  {
    hide Count;
    if text != [] {
      CrossQuotients(Count(text, a) as real, Count(text, b) as real, |text| as real, boost);
    }
  }

  lemma CrossQuotients(a: real, b: real, n: real, boost: real)
    requires n > 0.0
    ensures (a / n * boost) * b == (b / n * boost) * a
  {
    assert a / n * b == b / n * a;
  }

  /** Within one field, frequencies are in the ratio of the numbers of occurrences. */
  lemma TfInRatio(field: Field, doc: Document, a: Str, b: Str)
    ensures var text := multiset(doc.Tokens(field.name));
            Tf([field], doc, a) * text[b] as real == Tf([field], doc, b) * text[a] as real
  {
    hide Share, Tf, Count;
    var text := doc.Tokens(field.name);
    CountIsMultiplicity(text, a);
    CountIsMultiplicity(text, b);
    CrossShares(text, a, b, field.boost);
    TfOfOne(field, doc, a);
    TfOfOne(field, doc, b);
  }

  lemma TfOfOne(field: Field, doc: Document, token: Str)
    ensures Tf([field], doc, token) == Share(doc.Tokens(field.name), token, field.boost)
  {
    assert [field][..0] == [];
  }

  /** Fields add up. */
  lemma {:induction false} TfOfFields(first: seq<Field>, second: seq<Field>, doc: Document, token: Str)
    ensures Tf(first + second, doc, token) == Tf(first, doc, token) + Tf(second, doc, token)
    decreases |second|
  {
    if second == [] {
      assert first + second == first;
    } else {
      var all := first + second;
      assert all[..|all| - 1] == first + second[..|second| - 1];
      TfOfFields(first, second[..|second| - 1], doc, token);
    }
  }
}
