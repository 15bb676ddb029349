/** lunr.SortedSet: an array kept strictly increasing, searched by halving. */
module SortedSets {
  import opened Wrappers
  import opened JsStrings

  predicate Increasing(s: seq<Str>) {
    forall i, j :: 0 <= i < j < |s| ==> Lt(s[i], s[j])
  }

  lemma TailMembers(s: seq<Str>)
    requires Increasing(s) && s != []
    ensures forall e :: e in s[1..] <==> e in s && e != s[0]
  {
    LtIrreflexive(s[0]);
    assert s == [s[0]] + s[1..];
    assert forall k :: 0 <= k < |s[1..]| ==> s[1..][k] == s[k + 1];
  }

  /** A strictly increasing array is determined by its members. */
  lemma {:induction false} IncreasingUnique(s: seq<Str>, t: seq<Str>)
    requires Increasing(s) && Increasing(t)
    requires forall e :: e in s <==> e in t
    ensures s == t
  {
    assert (s != [] ==> s[0] in s) && (t != [] ==> t[0] in t);
    if s != [] {
      if s[0] != t[0] {
        var i :| 0 <= i < |s| && s[i] == t[0];
        var j :| 0 <= j < |t| && t[j] == s[0];
        LtAsymmetric(s[0], t[0]);
        assert false;
      }
      TailMembers(s);
      TailMembers(t);
      IncreasingUnique(s[1..], t[1..]);
    }
  }

  /** `indexOf`, with the default of `end` (an `end` of 0 means the length): both searches stop
      for any array, sorted or not. */
  function IndexOf(elements: seq<Str>, elem: Str, start: nat, end: nat): (r: Option<nat>)
    requires start <= (if end == 0 then |elements| else end) <= |elements|
    ensures r.Some? ==> r.value < |elements| && elements[r.value] == elem
    decreases (if end == 0 then |elements| else end) - start
  {
    var stop := if end == 0 then |elements| else end;
    var sectionLength := stop - start;
    var pivot := start + sectionLength / 2;
    if sectionLength <= 1 then
      if pivot < |elements| && elements[pivot] == elem then Some(pivot) else None
    else if Lt(elements[pivot], elem) then IndexOf(elements, elem, pivot, stop)
    else if Lt(elem, elements[pivot]) then IndexOf(elements, elem, start, pivot)
    else if elements[pivot] == elem then Some(pivot)
    else None
  }

  /** `locationFor`; None is the undefined it returns for an empty array or a present element. */
  function LocationFor(elements: seq<Str>, elem: Str, start: nat, end: nat): (r: Option<nat>)
    requires start <= (if end == 0 then |elements| else end) <= |elements|
    ensures r.Some? ==> r.value <= |elements|
    decreases (if end == 0 then |elements| else end) - start
  {
    var stop := if end == 0 then |elements| else end;
    var sectionLength := stop - start;
    var pivot := start + sectionLength / 2;
    if sectionLength <= 1 then
      if pivot < |elements| && Lt(elem, elements[pivot]) then Some(pivot)
      else if pivot < |elements| && Lt(elements[pivot], elem) then Some(pivot + 1)
      else None
    else if Lt(elements[pivot], elem) then LocationFor(elements, elem, pivot, stop)
    else if Lt(elem, elements[pivot]) then LocationFor(elements, elem, start, pivot)
    else None
  }

  /** The part of the array outside [start, stop) is on the wrong side of `elem`. */
  predicate Brackets(elements: seq<Str>, elem: Str, start: nat, stop: nat) {
    && start <= stop <= |elements|
    && (forall i :: 0 <= i < start ==> Lt(elements[i], elem))
    && (forall i :: stop <= i < |elements| ==> Lt(elem, elements[i]))
  }

  /** Which way the search turns at `pivot`. */
  lemma SidesOfPivot(elements: seq<Str>, elem: Str, pivot: nat, at: nat)
    requires Increasing(elements) && at < |elements| && pivot < |elements| && elements[at] == elem
    ensures Lt(elements[pivot], elem) <==> pivot < at
    ensures Lt(elem, elements[pivot]) <==> at < pivot
  {
    LtIrreflexive(elem);
    if pivot < at {
      LtAsymmetric(elements[pivot], elem);
    } else if at < pivot {
      LtAsymmetric(elem, elements[pivot]);
    }
  }

  lemma {:induction false} IndexOfFinds(elements: seq<Str>, elem: Str, start: nat, stop: nat, at: nat)
    requires Increasing(elements) && start <= at < stop <= |elements| && elements[at] == elem
    ensures IndexOf(elements, elem, start, stop) == Some(at)
    decreases stop - start
  {
    var pivot := start + (stop - start) / 2;
    SidesOfPivot(elements, elem, pivot, at);
    if stop - start > 1 {
      if pivot < at {
        IndexOfFinds(elements, elem, pivot, stop, at);
      } else if at < pivot {
        IndexOfFinds(elements, elem, start, pivot, at);
      }
    }
  }

  /** On a sorted array, `indexOf` answers the position exactly when the element is there. */
  lemma IndexOfExact(elements: seq<Str>, elem: Str)
    requires Increasing(elements)
    ensures IndexOf(elements, elem, 0, 0).Some? <==> elem in elements
    ensures forall at :: 0 <= at < |elements| && elements[at] == elem ==> IndexOf(elements, elem, 0, 0) == Some(at)
  {
    forall at | 0 <= at < |elements| && elements[at] == elem
      ensures IndexOf(elements, elem, 0, 0) == Some(at)
    {
      IndexOfFinds(elements, elem, 0, |elements|, at);
      assert IndexOf(elements, elem, 0, 0) == IndexOf(elements, elem, 0, |elements|);
    }
  }

  lemma RaiseStart(elements: seq<Str>, elem: Str, start: nat, stop: nat, pivot: nat)
    requires Increasing(elements) && Brackets(elements, elem, start, stop) && start <= pivot < stop
    requires Lt(elements[pivot], elem)
    ensures Brackets(elements, elem, pivot, stop)
    ensures stop == pivot + 1 ==> Brackets(elements, elem, stop, stop)
  {
    forall i | 0 <= i <= pivot
      ensures Lt(elements[i], elem)
    {
      if i < pivot {
        LtTransitive(elements[i], elements[pivot], elem);
      }
    }
  }

  lemma LowerStop(elements: seq<Str>, elem: Str, start: nat, stop: nat, pivot: nat)
    requires Increasing(elements) && Brackets(elements, elem, start, stop) && start <= pivot < stop
    requires Lt(elem, elements[pivot])
    ensures Brackets(elements, elem, start, pivot)
  {
    forall i | pivot <= i < |elements|
      ensures Lt(elem, elements[i])
    {
      if pivot < i {
        LtTransitive(elem, elements[pivot], elements[i]);
      }
    }
  }

  lemma {:induction false} LocationForBrackets(elements: seq<Str>, elem: Str, start: nat, stop: nat)
    requires Increasing(elements) && elem !in elements && start < stop && Brackets(elements, elem, start, stop)
    ensures var r := LocationFor(elements, elem, start, stop);
            r.Some? && Brackets(elements, elem, r.value, r.value)
    decreases stop - start
  {
    var pivot := start + (stop - start) / 2;
    var p := elements[pivot];
    LtTotal(p, elem);
    assert p in elements;
    if Lt(p, elem) {
      LtAsymmetric(p, elem);
      RaiseStart(elements, elem, start, stop, pivot);
      if stop - start > 1 { LocationForBrackets(elements, elem, pivot, stop); }
    } else {
      LowerStop(elements, elem, start, stop, pivot);
      if stop - start > 1 { LocationForBrackets(elements, elem, start, pivot); }
    }
  }

  /** For an absent element of a non-empty sorted array, `locationFor` answers the one position
      at which inserting keeps the array sorted. */
  lemma LocationForExact(elements: seq<Str>, elem: Str, at: nat)
    requires Increasing(elements) && elem !in elements && elements != [] && at <= |elements|
    ensures LocationFor(elements, elem, 0, 0) == Some(at) <==> Increasing(elements[..at] + [elem] + elements[at..])
  {
    LocationForBrackets(elements, elem, 0, |elements|);
    assert LocationFor(elements, elem, 0, 0) == LocationFor(elements, elem, 0, |elements|);
    var r := LocationFor(elements, elem, 0, 0).value;
    var inserted := elements[..at] + [elem] + elements[at..];
    if at == r {
      InsertKeepsIncreasing(elements, elem, at);
    } else if at < r {
      LtAsymmetric(elements[at], elem);
      assert inserted[at] == elem && inserted[at + 1] == elements[at];
    } else {
      LtAsymmetric(elem, elements[at - 1]);
      assert inserted[at] == elem && inserted[at - 1] == elements[at - 1];
    }
  }

  lemma InsertKeepsIncreasing(elements: seq<Str>, elem: Str, at: nat)
    requires Increasing(elements) && Brackets(elements, elem, at, at)
    ensures Increasing(elements[..at] + [elem] + elements[at..])
  {
    var inserted := elements[..at] + [elem] + elements[at..];
    forall i, j | 0 <= i < j < |inserted|
      ensures Lt(inserted[i], inserted[j])
    {
      assert inserted[i] == if i < at then elements[i] else if i == at then elem else elements[i - 1];
      assert inserted[j] == if j < at then elements[j] else if j == at then elem else elements[j - 1];
    }
  }

  /** The array after the splice of `add`; splicing at undefined inserts at the front. */
  function Inserted(elements: seq<Str>, elem: Str): seq<Str> {
    var location := LocationFor(elements, elem, 0, 0);
    var at := if location.Some? then location.value else 0;
    elements[..at] + [elem] + elements[at..]
  }

  lemma InsertedIsSorted(elements: seq<Str>, elem: Str)
    requires Increasing(elements) && elem !in elements
    ensures Increasing(Inserted(elements, elem))
    ensures forall e :: e in Inserted(elements, elem) <==> e in elements || e == elem
  {
    var location := LocationFor(elements, elem, 0, 0);
    var at := if location.Some? then location.value else 0;
    if elements != [] {
      LocationForBrackets(elements, elem, 0, |elements|);
      assert LocationFor(elements, elem, 0, 0) == LocationFor(elements, elem, 0, |elements|);
    }
    InsertKeepsIncreasing(elements, elem, at);
    assert elements == elements[..at] + elements[at..];
  }

  class SortedSet {
    var length: nat
    var elements: seq<Str>

    ghost predicate Valid()
      reads this
    {
      length == |elements| && Increasing(elements)
    }

    ghost function Members(): set<Str>
      reads this
    {
      set e | e in elements
    }

    constructor ()
      ensures Valid() && Members() == {}
    {
      length, elements := 0, [];
    }

    constructor Clone(other: SortedSet)
      requires other.Valid()
      ensures Valid() && elements == other.elements
    {
      elements := other.elements;
      length := |other.elements|;
    }

    /** One argument of `add`: skipped when present, else spliced in at its location. */
    method AddOne(element: Str)
      requires Increasing(elements)
      modifies this`elements
      ensures Increasing(elements)
      ensures forall e :: e in elements <==> e in old(elements) || e == element
    {
      if IndexOf(elements, element, 0, 0).Some? {
        return;
      }
      IndexOfExact(elements, element);
      InsertedIsSorted(elements, element);
      var location := LocationFor(elements, element, 0, 0);
      var at := if location.Some? then location.value else 0;
      elements := elements[..at] + [element] + elements[at..];
    }

    method Add(args: seq<Str>)
      requires Valid()
      modifies this
      ensures Valid() && Members() == old(Members()) + (set a | a in args)
    {
      for k := 0 to |args|
        invariant Increasing(elements)
        invariant forall e :: e in elements <==> e in old(elements) || e in args[..k]
      {
        AddOne(args[k]);
        assert args[..k + 1] == args[..k] + [args[k]];
      }
      assert args[..|args|] == args;
      length := |elements|;
    }

    method Intersect(other: SortedSet) returns (result: SortedSet)
      requires Valid() && other.Valid()
      ensures fresh(result) && result.Valid() && result.Members() == Members() * other.Members()
    {
      result := new SortedSet();
      var i, j := 0, 0;
      while i <= length - 1 && j <= other.length - 1
        invariant 0 <= i <= length && 0 <= j <= other.length && fresh(result) && result.Valid()
        invariant Common(elements, other.elements, i, j) == result.Members()
        invariant Split(elements, other.elements, i, j)
        decreases length + other.length - i - j
      {
        var a, b := elements[i], other.elements[j];
        LtTotal(a, b);
        SplitAdvances(elements, other.elements, i, j);
        if a == b {
          result.Add([a]);
          i, j := i + 1, j + 1;
        } else if Lt(a, b) {
          i := i + 1;
        } else {
          j := j + 1;
        }
      }
      SplitDone(elements, other.elements, i, j);
    }

    method Union(other: SortedSet) returns (result: SortedSet)
      requires Valid() && other.Valid()
      ensures fresh(result) && result.Valid() && result.Members() == Members() + other.Members()
    {
      var longSet, shortSet := this, other;
      if length < other.length {
        longSet, shortSet := other, this;
      }
      result := new SortedSet.Clone(longSet);
      result.Add(shortSet.elements);
    }
  }

  ghost function Common(a: seq<Str>, b: seq<Str>, i: nat, j: nat): set<Str>
    requires i <= |a| && j <= |b|
  {
    set e | e in a[..i] && e in b[..j]
  }

  /** Everything already passed on one side is below what is still ahead on the other. */
  ghost predicate Split(a: seq<Str>, b: seq<Str>, i: nat, j: nat) {
    && (forall p, q :: 0 <= p < i <= |a| && j <= q < |b| ==> Lt(a[p], b[q]))
    && (forall p, q :: i <= p < |a| && 0 <= q < j <= |b| ==> Lt(b[q], a[p]))
  }

  lemma SplitAdvances(a: seq<Str>, b: seq<Str>, i: nat, j: nat)
    requires Increasing(a) && Increasing(b) && Split(a, b, i, j) && i < |a| && j < |b|
    ensures a[i] == b[j] ==> Split(a, b, i + 1, j + 1) && Common(a, b, i + 1, j + 1) == Common(a, b, i, j) + {a[i]}
    ensures Lt(a[i], b[j]) ==> Split(a, b, i + 1, j) && Common(a, b, i + 1, j) == Common(a, b, i, j)
    ensures Lt(b[j], a[i]) ==> Split(a, b, i, j + 1) && Common(a, b, i, j + 1) == Common(a, b, i, j)
  {
    assert a[..i + 1] == a[..i] + [a[i]] && b[..j + 1] == b[..j] + [b[j]];
    assert forall q :: 0 <= q < j ==> Lt(b[q], a[i]);
    assert forall p :: 0 <= p < i ==> Lt(a[p], b[j]);
    LtIrreflexive(a[i]);
    LtIrreflexive(b[j]);
    if Lt(a[i], b[j]) {
      forall q | j < q < |b| ensures Lt(a[i], b[q]) { LtTransitive(a[i], b[j], b[q]); }
    }
    if Lt(b[j], a[i]) {
      forall p | i < p < |a| ensures Lt(b[j], a[p]) { LtTransitive(b[j], a[i], a[p]); }
    }
  }

  lemma SplitDone(a: seq<Str>, b: seq<Str>, i: nat, j: nat)
    requires Split(a, b, i, j) && i <= |a| && j <= |b| && (i == |a| || j == |b|)
    ensures Common(a, b, i, j) == (set e | e in a) * (set e | e in b)
  {
    forall e | e in a && e in b
      ensures e in Common(a, b, i, j)
    {
      var p :| 0 <= p < |a| && a[p] == e;
      var q :| 0 <= q < |b| && b[q] == e;
      LtIrreflexive(e);
      assert a[..i][p] == e && b[..j][q] == e;
    }
  }
}
