/** lunr.Pipeline and the stop-word filter: what reaches the index. */
module Pipelines {
  import opened Wrappers
  import opened JsStrings
  import opened SortedSets

  /** A stage maps a token, its place and all tokens to a token, or to undefined, which drops it. */
  type Stage = (Str, nat, seq<Str>) -> Option<Str>

  /** What becomes of `token`, which stands for the `i`-th of `tokens`. */
  function RunToken(stack: seq<Stage>, token: Str, i: nat, tokens: seq<Str>): Option<Str> {
    if stack == [] then Some(token)
    else match stack[0](token, i, tokens)
         case None => None
         case Some(next) => RunToken(stack[1..], next, i, tokens)
  }

  /** Those of the first `n` tokens that every stage lets through, in order. */
  function RunFirst(stack: seq<Stage>, tokens: seq<Str>, n: nat): seq<Str>
    requires n <= |tokens|
  {
    if n == 0 then []
    else
      var last := RunToken(stack, tokens[n - 1], n - 1, tokens);
      RunFirst(stack, tokens, n - 1) + (if last.Some? then [last.value] else [])
  }

  /** `run`, with its two loops and the early exit of the inner one. */
  method Run(stack: seq<Stage>, tokens: seq<Str>) returns (out: seq<Str>)
    ensures out == RunFirst(stack, tokens, |tokens|)
  {
    out := [];
    for i := 0 to |tokens|
      invariant out == RunFirst(stack, tokens, i)
    {
      var token := Some(tokens[i]);
      var j := 0;
      while j < |stack|
        invariant 0 <= j <= |stack| && token.Some?
        invariant RunToken(stack[j..], token.value, i, tokens) == RunToken(stack, tokens[i], i, tokens)
      {
        assert stack[j..][0] == stack[j] && stack[j..][1..] == stack[j + 1..];
        token := stack[j](token.value, i, tokens);
        if token.None? {
          break;
        }
        j := j + 1;
      }
      assert token == RunToken(stack, tokens[i], i, tokens);
      if token.Some? {
        out := out + [token.value];
      }
    }
  }

  /** Does the `k`-th token get through? */
  predicate Survives(stack: seq<Stage>, tokens: seq<Str>, k: nat)
    requires k < |tokens|
  {
    RunToken(stack, tokens[k], k, tokens).Some?
  }

  /** How many of the first `n` do. */
  function Survivors(stack: seq<Stage>, tokens: seq<Str>, n: nat): nat
    requires n <= |tokens|
  {
    if n == 0 then 0 else Survivors(stack, tokens, n - 1) + if Survives(stack, tokens, n - 1) then 1 else 0
  }

  /** Every token that all stages let through comes out, once and at its place among them, as what they make
      of it; and nothing else does. */
  lemma {:induction false} SurvivorsComeOut(stack: seq<Stage>, tokens: seq<Str>, n: nat)
    requires n <= |tokens|
    ensures |RunFirst(stack, tokens, n)| == Survivors(stack, tokens, n)
    ensures forall k: nat :: k < n && Survives(stack, tokens, k) ==>
                               && Survivors(stack, tokens, k) < |RunFirst(stack, tokens, n)|
                               && Some(RunFirst(stack, tokens, n)[Survivors(stack, tokens, k)]) ==
                                  RunToken(stack, tokens[k], k, tokens)
  {
    if n > 0 {
      SurvivorsComeOut(stack, tokens, n - 1);
    }
  }

  function StopWordFilter(stopWords: seq<Str>): Stage {
    (token: Str, _: nat, _: seq<Str>) => if IndexOf(stopWords, token, 0, 0).None? then Some(token) else None
  }

  /** A pipeline is its stages one after the other: what the first ones let through is what the others
      are given, with the same place and list. */
  lemma {:induction false} StagesCompose(first: seq<Stage>, second: seq<Stage>, token: Str, i: nat, tokens: seq<Str>)
    ensures RunToken(first + second, token, i, tokens) ==
            match RunToken(first, token, i, tokens)
            case None => None
            case Some(between) => RunToken(second, between, i, tokens)
  {
    if first == [] {
      assert first + second == second;
    } else {
      assert (first + second)[0] == first[0] && (first + second)[1..] == first[1..] + second;
      if first[0](token, i, tokens).Some? {
        StagesCompose(first[1..], second, first[0](token, i, tokens).value, i, tokens);
      }
    }
  }

  lemma FilterDecides(stopWords: seq<Str>, token: Str, i: nat, tokens: seq<Str>)
    requires Increasing(stopWords)
    ensures RunToken([StopWordFilter(stopWords)], token, i, tokens) == if token in stopWords then None else Some(token)
  {
    var filter := StopWordFilter(stopWords);
    assert [filter][0] == filter && [filter][1..] == [];
    IndexOfExact(stopWords, token);
  }

  /** The filter alone keeps exactly the tokens outside the list, unchanged, in order. */
  lemma {:induction false} FilterKeepsTheOthers(stopWords: seq<Str>, tokens: seq<Str>, n: nat)
    requires Increasing(stopWords) && n <= |tokens|
    ensures var stack := [StopWordFilter(stopWords)];
            forall k: nat :: k < n ==>
                               && (Survives(stack, tokens, k) <==> tokens[k] !in stopWords)
                               && (tokens[k] !in stopWords ==>
                                     && Survivors(stack, tokens, k) < |RunFirst(stack, tokens, n)|
                                     && RunFirst(stack, tokens, n)[Survivors(stack, tokens, k)] == tokens[k])
  {
    var stack := [StopWordFilter(stopWords)];
    SurvivorsComeOut(stack, tokens, n);
    forall k: nat | k < n
      ensures RunToken(stack, tokens[k], k, tokens) == if tokens[k] in stopWords then None else Some(tokens[k])
    {
      FilterDecides(stopWords, tokens[k], k, tokens);
    }
  }

  /** Behind a sorted stop list as its last stage, a pipeline lets no stop word through; so with
      the empty string on the list, as in lunr's own, no empty token ever reaches the index. */
  lemma {:induction false} NoStopWordPasses(stack: seq<Stage>, stopWords: seq<Str>, tokens: seq<Str>, n: nat)
    requires Increasing(stopWords) && n <= |tokens|
    ensures forall t :: t in RunFirst(stack + [StopWordFilter(stopWords)], tokens, n) ==> t !in stopWords
  {
    if n > 0 {
      var filter := StopWordFilter(stopWords);
      NoStopWordPasses(stack, stopWords, tokens, n - 1);
      StagesCompose(stack, [filter], tokens[n - 1], n - 1, tokens);
      var last := RunToken(stack + [filter], tokens[n - 1], n - 1, tokens);
      if last.Some? {
        var between := RunToken(stack, tokens[n - 1], n - 1, tokens).value;
        assert [filter][0] == filter && [filter][1..] == [];
        IndexOfExact(stopWords, between);
      }
    }
  }
}
