/** lunr.Vector: a linked list of (index, value) nodes, and the dot product of two of them. */
module Vectors {
  datatype Entry = Entry(idx: int, val: real)

  // ---------------------------------------------------------------- the specification

  predicate StrictlyIncreasing(s: seq<Entry>) {
    forall i, j :: 0 <= i < j < |s| ==> s[i].idx < s[j].idx
  }

  predicate Ascending(s: seq<Entry>) {
    forall i, j :: 0 <= i < j < |s| ==> s[i].idx <= s[j].idx
  }

  /** Where `insert` puts an index: before the first later node with a larger one, never before
      the head. */
  function Place(s: seq<Entry>, idx: int, from: nat): (at: nat)
    requires 1 <= from <= |s|
    ensures from <= at <= |s|
    ensures forall k :: from <= k < at ==> s[k].idx <= idx
    ensures at < |s| ==> idx < s[at].idx
    decreases |s| - from
  {
    if from == |s| || idx < s[from].idx then from else Place(s, idx, from + 1)
  }

  function WithEntry(s: seq<Entry>, e: Entry): seq<Entry> {
    if s == [] then [e]
    else
      var at := Place(s, e.idx, 1);
      s[..at] + [e] + s[at..]
  }

  /** `insert` keeps an ascending list ascending exactly when the new index does not belong before
      the head. */
  lemma InsertKeepsAscending(s: seq<Entry>, e: Entry)
    requires Ascending(s)
    ensures Ascending(WithEntry(s, e)) <==> s == [] || s[0].idx <= e.idx
  {
    if s != [] {
      var at := Place(s, e.idx, 1);
      var t := WithEntry(s, e);
      assert t[0] == s[0] && t[at] == e;
      if s[0].idx <= e.idx {
        forall i, j | 0 <= i < j < |t|
          ensures t[i].idx <= t[j].idx
        {
          assert t[i] == if i < at then s[i] else if i == at then e else s[i - 1];
          assert t[j] == if j < at then s[j] else if j == at then e else s[j - 1];
        }
      }
    }
  }

  /** Does the list have an entry at the index? */
  predicate HasIndex(s: seq<Entry>, idx: int) {
    exists k :: 0 <= k < |s| && s[k].idx == idx
  }

  lemma WithEntryAt(s: seq<Entry>, e: Entry, at: nat, k: nat)
    requires s != [] && at == Place(s, e.idx, 1) && k <= |s|
    ensures |WithEntry(s, e)| == |s| + 1
    ensures WithEntry(s, e)[k] == if k < at then s[k] else if k == at then e else s[k - 1]
  {
  }

  lemma WithEntryHas(s: seq<Entry>, e: Entry, idx: int)
    ensures HasIndex(WithEntry(s, e), idx) <==> HasIndex(s, idx) || idx == e.idx
  {
    var t := WithEntry(s, e);
    if s == [] {
      assert t[0] == e;
    } else {
      var at := Place(s, e.idx, 1);
      assert t[at] == e;
      forall k | 0 <= k < |s|
        ensures s[k] == t[if k < at then k else k + 1]
      {
        WithEntryAt(s, e, at, if k < at then k else k + 1);
      }
      forall k | 0 <= k < |t|
        ensures t[k] == if k < at then s[k] else if k == at then e else s[k - 1]
      {
        WithEntryAt(s, e, at, k);
      }
    }
  }

  /** It keeps a strictly increasing list strictly increasing exactly when the index, besides, is not
      there yet. */
  lemma InsertKeepsIncreasing(s: seq<Entry>, e: Entry)
    requires StrictlyIncreasing(s)
    ensures StrictlyIncreasing(WithEntry(s, e)) <==> s == [] || (s[0].idx <= e.idx && !HasIndex(s, e.idx))
  {
    if s != [] {
      var at, t := Place(s, e.idx, 1), WithEntry(s, e);
      assert t[0] == s[0] && t[at] == e;
      if s[0].idx <= e.idx && !HasIndex(s, e.idx) {
        InsertKeepsAscending(s, e);
        forall i, j | 0 <= i < j < |t|
          ensures t[i].idx < t[j].idx
        {
          WithEntryAt(s, e, at, i);
          WithEntryAt(s, e, at, j);
        }
      } else if s[0].idx <= e.idx {
        var k :| 0 <= k < |s| && s[k].idx == e.idx;
        WithEntryAt(s, e, at, if k < at then k else k + 1);
      }
    }
  }

  lemma IncreasingBefore(s: seq<Entry>, e: Entry)
    requires StrictlyIncreasing(WithEntry(s, e))
    ensures StrictlyIncreasing(s)
  {
    if s != [] {
      var at := Place(s, e.idx, 1);
      forall i, j | 0 <= i < j < |s|
        ensures s[i].idx < s[j].idx
      {
        WithEntryAt(s, e, at, if i < at then i else i + 1);
        WithEntryAt(s, e, at, if j < at then j else j + 1);
      }
    }
  }

  /** What insertions one after the other make of an empty vector. */
  function Built(es: seq<Entry>): seq<Entry> {
    if es == [] then [] else WithEntry(Built(es[..|es| - 1]), es[|es| - 1])
  }

  lemma {:induction false} BuiltHas(es: seq<Entry>, idx: int)
    ensures HasIndex(Built(es), idx) <==> HasIndex(es, idx)
    ensures es != [] ==> Built(es) != [] && Built(es)[0] == es[0]
  {
    if es != [] {
      var front, last := es[..|es| - 1], es[|es| - 1];
      BuiltHas(front, idx);
      WithEntryHas(Built(front), last, idx);
      HasLast(front, last, idx);
      assert es == front + [last];
      assert front != [] ==> front[0] == es[0];
    }
  }

  lemma HasLast(front: seq<Entry>, last: Entry, idx: int)
    ensures HasIndex(front + [last], idx) <==> HasIndex(front, idx) || last.idx == idx
  {
    var es := front + [last];
    assert es[|front|] == last;
    assert forall k :: 0 <= k < |front| ==> es[k] == front[k];
  }

  /** The first index the least, and none twice. */
  predicate LeastFirst(es: seq<Entry>) {
    && (forall k :: 0 <= k < |es| ==> es[0].idx <= es[k].idx)
    && (forall i, j :: 0 <= i < j < |es| ==> es[i].idx != es[j].idx)
  }

  /** Insertions build a strictly increasing vector exactly when none but the first is of the least index
      and no index is inserted twice. */
  lemma {:induction false} BuiltIncreasing(es: seq<Entry>)
    ensures StrictlyIncreasing(Built(es)) <==> LeastFirst(es)
  {
    if es != [] {
      var front, last := es[..|es| - 1], es[|es| - 1];
      BuiltIncreasing(front);
      BuiltHas(front, last.idx);
      if StrictlyIncreasing(Built(es)) {
        IncreasingBefore(Built(front), last);
      }
      if StrictlyIncreasing(Built(front)) {
        InsertKeepsIncreasing(Built(front), last);
        OneMoreLeast(front, last);
        assert es == front + [last];
      }
      assert LeastFirst(es) ==> LeastFirst(front);
    }
  }

  lemma OneMoreLeast(front: seq<Entry>, last: Entry)
    requires LeastFirst(front)
    ensures LeastFirst(front + [last]) <==> front == [] || (front[0].idx <= last.idx && !HasIndex(front, last.idx))
  {
    var es := front + [last];
    assert es[|front|] == last;
    assert forall k :: 0 <= k < |front| ==> es[k] == front[k];
  }

  /** An index beyond all others goes to the end. */
  lemma InsertAtEnd(s: seq<Entry>, e: Entry)
    requires StrictlyIncreasing(s) && (s != [] ==> s[|s| - 1].idx < e.idx)
    ensures WithEntry(s, e) == s + [e] && StrictlyIncreasing(WithEntry(s, e))
  {
    if s != [] {
      assert forall k :: 0 <= k < |s| ==> s[k].idx < e.idx;
      assert Place(s, e.idx, 1) == |s|;
      assert s[..|s|] == s && s[|s|..] == [];
    }
  }

  /** What one entry contributes: its product with every entry of the other vector at its index. */
  function Contribution(e: Entry, t: seq<Entry>): real {
    if t == [] then 0.0
    else (if t[0].idx == e.idx then e.val * t[0].val else 0.0) + Contribution(e, t[1..])
  }

  /** The dot product of two sparse vectors: all products of values at equal indexes. */
  function DotProduct(s: seq<Entry>, t: seq<Entry>): real {
    if s == [] then 0.0 else Contribution(s[0], t) + DotProduct(s[1..], t)
  }

  lemma {:induction false} NoContribution(e: Entry, t: seq<Entry>)
    requires forall k :: 0 <= k < |t| ==> t[k].idx != e.idx
    ensures Contribution(e, t) == 0.0
  {
    if t != [] {
      NoContribution(e, t[1..]);
    }
  }

  /** Dropping a head that no index of the other vector meets changes nothing. */
  lemma {:induction false} DropHead(s: seq<Entry>, t: seq<Entry>)
    requires t != [] && forall k :: 0 <= k < |s| ==> s[k].idx != t[0].idx
    ensures DotProduct(s, t) == DotProduct(s, t[1..])
  {
    if s != [] {
      assert Contribution(s[0], t) == Contribution(s[0], t[1..]);
      DropHead(s[1..], t);
    }
  }

  lemma {:induction false} NoDot(s: seq<Entry>)
    ensures DotProduct(s, []) == 0.0
  {
    if s != [] {
      NoDot(s[1..]);
    }
  }

  // One turn of the merge loop of `dot`, in its three cases.

  lemma SkipLeft(s: seq<Entry>, t: seq<Entry>)
    requires StrictlyIncreasing(t) && s != [] && t != [] && s[0].idx < t[0].idx
    ensures DotProduct(s, t) == DotProduct(s[1..], t)
  {
    NoContribution(s[0], t);
  }

  lemma SkipRight(s: seq<Entry>, t: seq<Entry>)
    requires StrictlyIncreasing(s) && s != [] && t != [] && s[0].idx > t[0].idx
    ensures DotProduct(s, t) == DotProduct(s, t[1..])
  {
    DropHead(s, t);
  }

  lemma Match(s: seq<Entry>, t: seq<Entry>)
    requires StrictlyIncreasing(s) && StrictlyIncreasing(t) && s != [] && t != [] && s[0].idx == t[0].idx
    ensures DotProduct(s, t) == s[0].val * t[0].val + DotProduct(s[1..], t[1..])
  {
    NoContribution(s[0], t[1..]);
    assert Contribution(s[0], t) == s[0].val * t[0].val;
    DropHead(s[1..], t);
  }

  /** What the loop of `dot` adds up, on any two lists: after a match both sides move on. */
  function MergeDot(s: seq<Entry>, t: seq<Entry>): real
    decreases |s| + |t|
  {
    if s == [] || t == [] then 0.0
    else if s[0].idx < t[0].idx then MergeDot(s[1..], t)
    else if s[0].idx > t[0].idx then MergeDot(s, t[1..])
    else s[0].val * t[0].val + MergeDot(s[1..], t[1..])
  }

  /** On strictly increasing lists it is the dot product. */
  lemma {:induction false} MergeIsDot(s: seq<Entry>, t: seq<Entry>)
    requires StrictlyIncreasing(s) && StrictlyIncreasing(t)
    ensures MergeDot(s, t) == DotProduct(s, t)
    decreases |s| + |t|
  {
    if s == [] || t == [] {
      NoDot(s);
    } else if s[0].idx < t[0].idx {
      SkipLeft(s, t);
      MergeIsDot(s[1..], t);
    } else if s[0].idx > t[0].idx {
      SkipRight(s, t);
      MergeIsDot(s, t[1..]);
    } else {
      Match(s, t);
      MergeIsDot(s[1..], t[1..]);
    }
  }

  predicate Weights(s: seq<Entry>) {
    forall k :: 0 <= k < |s| ==> s[k].val >= 0.0
  }

  lemma {:induction false} ContributionMonotone(e: Entry, t: seq<Entry>)
    requires e.val >= 0.0 && Weights(t)
    ensures Contribution(e, t) >= 0.0
  {
    if t != [] {
      ContributionMonotone(e, t[1..]);
      assert e.val * t[0].val >= 0.0;
    }
  }

  lemma {:induction false} DotMonotone(s: seq<Entry>, t: seq<Entry>)
    requires Weights(s) && Weights(t) && t != []
    ensures DotProduct(s, t) >= DotProduct(s, t[1..])
  {
    if s != [] {
      DotMonotone(s[1..], t);
      assert s[0].val * t[0].val >= 0.0;
    }
  }

  /** On other lists it may miss products, but with weights that are not negative it counts none twice. */
  lemma {:induction false} MergeNeverExceeds(s: seq<Entry>, t: seq<Entry>)
    requires Weights(s) && Weights(t)
    ensures MergeDot(s, t) <= DotProduct(s, t)
    decreases |s| + |t|
  {
    if s == [] || t == [] {
      NoDot(s);
    } else if s[0].idx < t[0].idx {
      ContributionMonotone(s[0], t);
      MergeNeverExceeds(s[1..], t);
    } else if s[0].idx > t[0].idx {
      DotMonotone(s, t);
      MergeNeverExceeds(s, t[1..]);
    } else {
      ContributionMonotone(s[0], t[1..]);
      DotMonotone(s[1..], t);
      MergeNeverExceeds(s[1..], t[1..]);
    }
  }

  // When `dot` is right, the other list being strictly increasing, as document vectors are.

  /** What the merge finds at an index: the value of the first entry that is not below it, if that is at
      the index. */
  function First(s: seq<Entry>, idx: int): real {
    if s == [] then 0.0
    else if s[0].idx < idx then First(s[1..], idx)
    else if s[0].idx == idx then s[0].val
    else 0.0
  }

  /** And what there is. */
  function Total(s: seq<Entry>, idx: int): real {
    if s == [] then 0.0 else (if s[0].idx == idx then s[0].val else 0.0) + Total(s[1..], idx)
  }

  function Times(x: real, y: real): real {
    x * y
  }

  function Firsts(s: seq<Entry>, t: seq<Entry>): real {
    if t == [] then 0.0 else Times(First(s, t[0].idx), t[0].val) + Firsts(s, t[1..])
  }

  lemma {:induction false} FirstsOfTail(s: seq<Entry>, t: seq<Entry>)
    requires s != [] && forall k :: 0 <= k < |t| ==> s[0].idx < t[k].idx
    ensures Firsts(s, t) == Firsts(s[1..], t)
  {
    if t != [] {
      FirstsOfTail(s, t[1..]);
    }
  }

  lemma {:induction false} FirstsOfNone(t: seq<Entry>)
    ensures Firsts([], t) == 0.0
  {
    if t != [] {
      FirstsOfNone(t[1..]);
    }
  }

  /** Whatever the order of the one list, the merge adds up what it finds at each index of the other. */
  lemma {:induction false} MergeFindsFirsts(s: seq<Entry>, t: seq<Entry>)
    requires StrictlyIncreasing(t)
    ensures MergeDot(s, t) == Firsts(s, t)
    decreases |s| + |t|
  {
    if s == [] {
      FirstsOfNone(t);
    } else if t != [] {
      if s[0].idx < t[0].idx {
        MergeFindsFirsts(s[1..], t);
        FirstsOfTail(s, t);
      } else if s[0].idx > t[0].idx {
        MergeFindsFirsts(s, t[1..]);
      } else {
        MergeFindsFirsts(s[1..], t[1..]);
        FirstsOfTail(s, t[1..]);
      }
    }
  }

  lemma {:induction false} DotOfHead(s: seq<Entry>, t: seq<Entry>)
    requires t != []
    ensures DotProduct(s, t) == Times(Total(s, t[0].idx), t[0].val) + DotProduct(s, t[1..])
  {
    if s != [] {
      DotOfHead(s[1..], t);
    }
  }

  predicate Positive(s: seq<Entry>) {
    forall k :: 0 <= k < |s| ==> s[k].val > 0.0
  }

  /** No entry at the index stands behind one that is not below it. */
  predicate Uncovered(s: seq<Entry>, idx: int) {
    forall i, j :: 0 <= i < j < |s| && s[j].idx == idx ==> s[i].idx < idx
  }

  lemma {:induction false} TotalOfNone(s: seq<Entry>, idx: int)
    requires Positive(s)
    ensures Total(s, idx) >= 0.0
    ensures Total(s, idx) == 0.0 <==> !HasIndex(s, idx)
  {
    if s != [] {
      TotalOfNone(s[1..], idx);
      HasHead(s, idx);
    }
  }

  lemma HasHead(s: seq<Entry>, idx: int)
    requires s != []
    ensures HasIndex(s, idx) <==> s[0].idx == idx || HasIndex(s[1..], idx)
  {
    assert forall k :: 0 < k < |s| ==> s[k] == s[1..][k - 1];
  }

  lemma UncoveredHead(s: seq<Entry>, idx: int)
    requires s != []
    ensures s[0].idx < idx ==> (Uncovered(s, idx) <==> Uncovered(s[1..], idx))
    ensures s[0].idx >= idx ==> (Uncovered(s, idx) <==> !HasIndex(s[1..], idx))
  {
    assert forall k :: 0 < k < |s| ==> s[k] == s[1..][k - 1];
  }

  /** The merge finds all there is at an index exactly when nothing covers it. */
  lemma {:induction false} FirstIsTotal(s: seq<Entry>, idx: int)
    requires Positive(s)
    ensures First(s, idx) <= Total(s, idx)
    ensures First(s, idx) == Total(s, idx) <==> Uncovered(s, idx)
  {
    if s != [] {
      FirstIsTotal(s[1..], idx);
      TotalOfNone(s[1..], idx);
      UncoveredHead(s, idx);
    }
  }

  /** For positive values, `dot` is the dot product exactly when each index that the two lists share
      exceeds all that stand before it. */
  lemma {:induction false} DotIsRightIff(s: seq<Entry>, t: seq<Entry>)
    requires Positive(s) && Positive(t) && StrictlyIncreasing(t)
    ensures MergeDot(s, t) <= DotProduct(s, t)
    ensures MergeDot(s, t) == DotProduct(s, t) <==> forall k :: 0 <= k < |t| ==> Uncovered(s, t[k].idx)
  {
    MergeFindsFirsts(s, t);
    FirstsAreTotals(s, t);
  }

  lemma {:induction false} FirstsAreTotals(s: seq<Entry>, t: seq<Entry>)
    requires Positive(s) && Positive(t)
    ensures Firsts(s, t) <= DotProduct(s, t)
    ensures Firsts(s, t) == DotProduct(s, t) <==> forall k :: 0 <= k < |t| ==> Uncovered(s, t[k].idx)
  {
    hide Times, First, Total, Uncovered;
    if t == [] {
      NoDot(s);
    } else {
      FirstsAreTotals(s, t[1..]);
      DotOfHead(s, t);
      FirstIsTotal(s, t[0].idx);
      Scaled(First(s, t[0].idx), Total(s, t[0].idx), t[0].val);
      AllUncovered(s, t);
    }
  }

  lemma AllUncovered(s: seq<Entry>, t: seq<Entry>)
    requires t != []
    ensures (forall k :: 0 <= k < |t| ==> Uncovered(s, t[k].idx)) <==>
            Uncovered(s, t[0].idx) && forall k :: 0 <= k < |t[1..]| ==> Uncovered(s, t[1..][k].idx)
  {
    assert forall k :: 0 < k < |t| ==> t[k] == t[1..][k - 1];
  }

  lemma Scaled(a: real, b: real, x: real)
    requires a <= b && x > 0.0
    ensures Times(a, x) <= Times(b, x)
    ensures Times(a, x) == Times(b, x) <==> a == b
  {
    assert b * x - a * x == (b - a) * x;
  }

  /** So the vectors with positive values whose dot product with every document vector is right are
      exactly the strictly increasing ones. */
  lemma AlwaysRightIff(s: seq<Entry>)
    requires Positive(s)
    ensures (forall t :: StrictlyIncreasing(t) ==> MergeDot(s, t) == DotProduct(s, t)) <==> StrictlyIncreasing(s)
  {
    if StrictlyIncreasing(s) {
      forall t | StrictlyIncreasing(t)
        ensures MergeDot(s, t) == DotProduct(s, t)
      {
        MergeIsDot(s, t);
      }
    } else {
      var i, j :| 0 <= i < j < |s| && s[i].idx >= s[j].idx;
      var t := [Entry(s[j].idx, 1.0)];
      DotIsRightIff(s, t);
      assert !Uncovered(s, t[0].idx);
    }
  }

  /** And one that insertions have built is right exactly when the first index was the least and none was
      inserted twice. */
  lemma BuiltIsRightIff(es: seq<Entry>)
    requires Positive(es)
    ensures (forall t :: StrictlyIncreasing(t) ==> MergeDot(Built(es), t) == DotProduct(Built(es), t)) <==>
            LeastFirst(es)
  {
    BuiltPositive(es);
    AlwaysRightIff(Built(es));
    BuiltIncreasing(es);
  }

  lemma {:induction false} BuiltPositive(es: seq<Entry>)
    requires Positive(es)
    ensures Positive(Built(es))
  {
    if es != [] {
      BuiltPositive(es[..|es| - 1]);
    }
  }

  /** An index inserted twice counts once. */
  lemma TwiceMisses(x: real, idx: int)
    ensures var e := Entry(idx, x);
            MergeDot(Built([e, e]), [e]) == x * x && DotProduct(Built([e, e]), [e]) == x * x + x * x
  {
    var e := Entry(idx, x);
    assert [e, e][..1] == [e] && [e][..0] == [];
    assert Built([e]) == [e] && Built([e, e]) == [e, e];
    assert [e, e][1..] == [e] && [e][1..] == [];
    assert Contribution(e, [e]) == x * x + Contribution(e, []);
    assert DotProduct([e, e], [e]) == Contribution(e, [e]) + DotProduct([e], [e]);
    assert DotProduct([e], [e]) == Contribution(e, [e]) + DotProduct([], [e]);
  }

  /** One that belongs before the head is missed. */
  lemma LateHeadMisses(x: real, y: real, low: int, high: int)
    requires low < high
    ensures var s := WithEntry(WithEntry([], Entry(high, y)), Entry(low, x));
            var t := WithEntry(WithEntry([], Entry(low, x)), Entry(high, y));
            MergeDot(s, t) == y * y && DotProduct(s, t) == y * y + x * x
  {
    var h, l := Entry(high, y), Entry(low, x);
    var s, t := [h, l], [l, h];
    assert WithEntry(WithEntry([], h), l) == s && WithEntry(WithEntry([], l), h) == t;
    assert t[1..] == [h] && s[1..] == [l] && [h][1..] == [];
    assert MergeDot(s, t) == MergeDot(s, [h]) == y * y + MergeDot([l], []);
    assert Contribution(h, t) == Contribution(h, [h]) == y * y + Contribution(h, []);
    assert Contribution(l, t) == x * x + Contribution(l, [h]) && Contribution(l, [h]) == Contribution(l, []);
    assert DotProduct(s, t) == Contribution(h, t) + DotProduct([l], t);
    assert DotProduct([l], t) == Contribution(l, t) + DotProduct([], t);
  }

  // ---------------------------------------------------------------- the linked list

  class Node {
    const idx: int
    const val: real
    var next: Node?

    constructor (idx: int, val: real, next: Node?)
      ensures this.idx == idx && this.val == val && this.next == next
    {
      this.idx, this.val, this.next := idx, val, next;
    }
  }

  class Vector {
    var list: Node?
    var length: nat
    /** The nodes in list order, what they hold, and all of them as a set. */
    ghost var nodes: seq<Node>
    ghost var entries: seq<Entry>
    ghost var repr: set<Node>

    ghost predicate Valid()
      reads this, repr
    {
      && length == |nodes| == |entries|
      && list == NodeAt(0)
      && (forall i, j :: Apart(i, j))
      && (forall i :: Chained(i))
    }

    ghost predicate Apart(i: int, j: int)
      reads this`nodes
    {
      0 <= i < j < |nodes| ==> nodes[i] != nodes[j]
    }

    ghost predicate Chained(i: int)
      reads this`nodes, this`entries, this`repr, repr
    {
      0 <= i < |nodes| == |entries| ==>
        nodes[i] in repr && entries[i] == Entry(nodes[i].idx, nodes[i].val) && nodes[i].next == NodeAt(i + 1)
    }

    ghost function NodeAt(i: nat): Node?
      reads this`nodes
    {
      if i < |nodes| then nodes[i] else null
    }

    constructor ()
      ensures Valid() && entries == [] && repr == {}
    {
      list, length, nodes, entries, repr := null, 0, [], [], {};
    }

    method Insert(idx: int, val: real)
      requires Valid()
      modifies this, repr
      ensures Valid() && entries == WithEntry(old(entries), Entry(idx, val))
      ensures repr >= old(repr) && forall n :: n in repr && n !in old(repr) ==> fresh(n)
    {
      if list == null {
        list := new Node(idx, val, null);
        length, nodes, entries, repr := length + 1, [list], [Entry(idx, val)], repr + {list};
        return;
      }
      assert Chained(0);
      var prev, next := list, list.next;
      ghost var at := 1;
      while next != null && !(idx < next.idx)
        invariant 1 <= at <= |nodes| && prev == nodes[at - 1] && next == NodeAt(at)
        invariant Place(entries, idx, at) == Place(entries, idx, 1)
        decreases |nodes| - at
      {
        assert Chained(at);
        prev, next := next, next.next;
        at := at + 1;
      }
      assert Chained(at - 1) && Chained(at);
      assert Place(entries, idx, 1) == at;
      Link(prev, next, Entry(idx, val), at);
    }

    /** `prev.next = new Node(idx, val, next)` and `length++` */
    method Link(prev: Node, next: Node?, e: Entry, ghost at: nat)
      requires Valid() && 1 <= at <= |nodes| && prev == nodes[at - 1] && next == NodeAt(at)
      modifies this`length, this`nodes, this`entries, this`repr, prev`next
      ensures Valid() && entries == old(entries)[..at] + [e] + old(entries)[at..]
      ensures repr >= old(repr) && forall n :: n in repr && n !in old(repr) ==> fresh(n)
    {
      var node := new Node(e.idx, e.val, next);
      ghost var before, after := nodes, nodes[..at] + [node] + nodes[at..];
      ghost var entries' := entries[..at] + [e] + entries[at..];
      forall i | 0 <= i < |before|
        ensures before[i] != node && (i != at - 1 ==> before[i] != prev)
      {
        assert Chained(i) && Apart(i, at - 1) && Apart(at - 1, i);
      }
      forall i, j | 0 <= i < j < |after|
        ensures after[i] != after[j]
      {
        assert Apart(i, j) && Apart(i, j - 1) && Apart(i - 1, j - 1);
      }
      label linked:
      prev.next := node;
      nodes, entries, repr := after, entries', repr + {node};
      length := length + 1;
      forall i
        ensures Chained(i)
      {
        if 0 <= i < at {
          assert old@linked(Chained(i));
          assert nodes[i] == before[i] && entries[i] == old(entries)[i];
          assert i + 1 < at ==> nodes[i + 1] == before[i + 1];
        } else if at < i < |nodes| {
          assert old@linked(Chained(i - 1));
          assert nodes[i] == before[i - 1] && entries[i] == old(entries)[i - 1];
          assert NodeAt(i + 1) == if i < |before| then before[i] else null;
        } else if i == at {
          assert NodeAt(i + 1) == if at < |before| then before[at] else null;
        }
      }
    }

    method Dot(other: Vector) returns (dotProduct: real)
      requires Valid() && other.Valid()
      ensures dotProduct == MergeDot(entries, other.entries)
      ensures StrictlyIncreasing(entries) && StrictlyIncreasing(other.entries) ==>
                dotProduct == DotProduct(entries, other.entries)
    {
      var node, otherNode := list, other.list;
      dotProduct := 0.0;
      ghost var i, j := 0, 0;
      ghost var s, t := entries, other.entries;
      assert s[0..] == s && t[0..] == t;
      while node != null && otherNode != null
        invariant 0 <= i <= |s| && 0 <= j <= |t|
        invariant node == NodeAt(i) && otherNode == other.NodeAt(j)
        invariant dotProduct + MergeDot(s[i..], t[j..]) == MergeDot(s, t)
        decreases |s| + |t| - i - j
      {
        assert Chained(i) && other.Chained(j);
        assert s[i..][1..] == s[i + 1..] && t[j..][1..] == t[j + 1..];
        if node.idx < otherNode.idx {
          node, i := node.next, i + 1;
        } else if node.idx > otherNode.idx {
          otherNode, j := otherNode.next, j + 1;
        } else {
          dotProduct := dotProduct + node.val * otherNode.val;
          node, otherNode := node.next, otherNode.next;
          i, j := i + 1, j + 1;
        }
      }
      if StrictlyIncreasing(s) && StrictlyIncreasing(t) {
        MergeIsDot(s, t);
      }
    }
  }

  /** Insertion of strictly increasing entries, which only appends. */
  method FromEntries(entries: seq<Entry>) returns (vector: Vector)
    requires StrictlyIncreasing(entries)
    ensures fresh(vector) && vector.Valid() && vector.entries == entries
  {
    vector := new Vector();
    for i := 0 to |entries|
      invariant fresh(vector) && vector.Valid() && vector.entries == entries[..i]
      invariant forall n :: n in vector.repr ==> fresh(n)
    {
      InsertAtEnd(entries[..i], entries[i]);
      vector.Insert(entries[i].idx, entries[i].val);
      assert entries[..i + 1] == entries[..i] + [entries[i]];
    }
    assert entries[..|entries|] == entries;
  }
}
