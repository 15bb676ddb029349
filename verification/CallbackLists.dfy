/**
 jQuery.Callbacks: the closure variables of one callback list as a value, and each
 operation of its public object as a function on that value.  The loops that run user
 code are in CallbackMachine.
 */
module CallbackLists {
  import opened Wrappers
  import opened Sequences

  /** The identity of the context and arguments passed to one fire. */
  type Payload = nat

  datatype Settlement = Pending | Resolved | Rejected

  /** What can sit in a list: a user function, or one of the three functions that a
      Deferred installs (set the state, disable another list, lock another list). */
  datatype Callback =
    | User(id: nat)
    | SetState(to: Settlement)
    | DisableList(target: nat)
    | LockList(target: nat)

  datatype Options = Options(once: bool, memory: bool, unique: bool, stopOnFalse: bool)

  /** `list` is `""` once the object is spent, which differs from an empty array: `spent`
      records that.  Every falsy value of `memory` is None. */
  datatype CallbackList = CallbackList(
    options: Options,
    spent: bool,
    list: seq<Callback>,
    queue: seq<Payload>,
    firingIndex: int,
    memory: Option<Payload>,
    firing: bool,
    fired: bool,
    locked: bool)

  function Fresh(options: Options): CallbackList {
    CallbackList(options, false, [], [], -1, None, false, false, false)
  }

  // ---------------------------------------------------------------- editing a list

  /** The pushes of `add`: with `unique`, a callback already present is skipped. */
  function Pushed(list: seq<Callback>, unique: bool, fns: seq<Callback>): seq<Callback>
    decreases |fns|
  {
    if fns == [] then list
    else Pushed(if unique && fns[0] in list then list else list + [fns[0]], unique, fns[1..])
  }

  /** The callbacks that `add` really appends. */
  function Appended(list: seq<Callback>, unique: bool, fns: seq<Callback>): (news: seq<Callback>)
    ensures Pushed(list, unique, fns) == list + news
    ensures !unique ==> news == fns
    decreases |fns|
  {
    if fns == [] then []
    else if unique && fns[0] in list then
      Appended(list, unique, fns[1..])
    else
      var rest := Appended(list + [fns[0]], unique, fns[1..]);
      assert list + ([fns[0]] + rest) == (list + [fns[0]]) + rest;
      [fns[0]] + rest
  }

  lemma {:induction false} AppendedFromFns(list: seq<Callback>, unique: bool, fns: seq<Callback>)
    ensures forall f :: f in Appended(list, unique, fns) ==> f in fns
    decreases |fns|
  {
    if fns != [] {
      AppendedFromFns(if unique && fns[0] in list then list else list + [fns[0]], unique, fns[1..]);
    }
  }

  predicate AllUsers(fns: seq<Callback>) {
    forall j :: 0 <= j < |fns| ==> fns[j].User?
  }

  lemma UsersAppended(list: seq<Callback>, unique: bool, fns: seq<Callback>)
    requires AllUsers(list) && AllUsers(fns)
    ensures AllUsers(Pushed(list, unique, fns))
  {
    var news := Appended(list, unique, fns);
    AppendedFromFns(list, unique, fns);
    assert forall j :: 0 <= j < |news| ==> news[j] in news && news[j] in fns;
  }

  predicate NoDuplicates(s: seq<Callback>) {
    forall j, k :: 0 <= j < k < |s| ==> s[j] != s[k]
  }

  /** With `unique`, a list without duplicates stays so, and has every callback passed to `add`. */
  lemma {:induction false} UniqueStaysUnique(list: seq<Callback>, fns: seq<Callback>)
    requires NoDuplicates(list)
    ensures NoDuplicates(Pushed(list, true, fns))
    ensures forall f :: f in Pushed(list, true, fns) <==> f in list || f in fns
    decreases |fns|
  {
    if fns != [] {
      UniqueStaysUnique(if fns[0] in list then list else list + [fns[0]], fns[1..]);
    }
  }

  /** `add` re-fires when the list holds memory and is idle. */
  predicate AddFires(c: CallbackList) {
    !c.spent && c.memory.Some? && !c.firing
  }

  function Add(c: CallbackList, fns: seq<Callback>): CallbackList {
    if c.spent then c
    else
      var aimed := if AddFires(c)
                   then c.(firingIndex := |c.list| - 1, queue := c.queue + [c.memory.value])
                   else c;
      aimed.(list := Pushed(c.list, c.options.unique, fns))
  }

  /** All occurrences of `f` taken out, the order of the others kept. */
  function Without(s: seq<Callback>, f: Callback): (r: seq<Callback>)
    ensures f !in r && |r| <= |s|
    ensures f !in s ==> r == s
  {
    if s == [] then []
    else if s[0] == f then Without(s[1..], f)
    else [s[0]] + Without(s[1..], f)
  }

  lemma {:induction false} WithoutConcat(a: seq<Callback>, b: seq<Callback>, f: Callback)
    ensures Without(a + b, f) == Without(a, f) + Without(b, f)
  {
    if a == [] {
      assert a + b == b;
    } else {
      WithoutConcat(a[1..], b, f);
      assert (a + b)[0] == a[0] && (a + b)[1..] == a[1..] + b;
      assert Without(a + b, f) == if a[0] == f then Without(a[1..] + b, f) else [a[0]] + Without(a[1..] + b, f);
      Associates([a[0]], Without(a[1..], f), Without(b, f));
    }
  }

  /** The position of the first `f` at or after `from`; `inArray` gives -1 for None. */
  function InArray(f: Callback, s: seq<Callback>, from: nat): (r: Option<nat>)
    requires from <= |s|
    ensures r.Some? ==> from <= r.value < |s| && s[r.value] == f && f !in s[from..r.value]
    ensures r.None? ==> f !in s[from..]
    decreases |s| - from
  {
    if from == |s| then None
    else if s[from] == f then Some(from)
    else
      var r := InArray(f, s, from + 1);
      assert s[from..] == [s[from]] + s[from + 1..];
      assert r.Some? ==> s[from..r.value] == [s[from]] + s[from + 1..r.value];
      r
  }

  function Splice(list: seq<Callback>, at: nat): (r: seq<Callback>)
    requires at < |list|
    ensures |r| == |list| - 1
  {
    list[..at] + list[at + 1..]
  }

  /** The loop of `remove`, from position `from` on: each hit is spliced out, and the firing
      index follows when the hit is at or before it. */
  function RemoveFrom(list: seq<Callback>, firingIndex: int, f: Callback, from: nat): (seq<Callback>, int)
    requires from <= |list|
    decreases |list|
  {
    match InArray(f, list, from)
    case None => (list, firingIndex)
    case Some(at) =>
      RemoveFrom(Splice(list, at), if at <= firingIndex then firingIndex - 1 else firingIndex, f, at)
  }

  function Remove(c: CallbackList, f: Callback): CallbackList {
    var (list, firingIndex) := RemoveFrom(c.list, c.firingIndex, f, 0);
    c.(list := list, firingIndex := firingIndex)
  }

  function Empty(c: CallbackList): CallbackList {
    if c.spent then c else c.(list := [])
  }

  function Disable(c: CallbackList): CallbackList {
    c.(locked := true, queue := [], list := [], spent := true, memory := None)
  }

  function Lock(c: CallbackList): CallbackList {
    var l := c.(locked := true, queue := []);
    if c.memory.None? then l.(list := [], spent := true) else l
  }

  /** `fireWith` only queues; `FireWithStarts` says when it then enters the firing loop. */
  function Enqueue(c: CallbackList, a: Payload): CallbackList {
    if c.locked then c else c.(queue := c.queue + [a])
  }

  predicate FireWithStarts(c: CallbackList) {
    !c.locked && !c.firing
  }

  // ---------------------------------------------------------------- steps of `fire`

  function Begin(c: CallbackList): CallbackList {
    c.(locked := c.options.once, fired := true, firing := true)
  }

  function Shift(c: CallbackList): CallbackList
    requires c.queue != []
  {
    c.(memory := Some(c.queue[0]), queue := c.queue[1..])
  }

  /** A callback returned false on a stopOnFalse list. */
  function Stop(c: CallbackList): CallbackList {
    c.(firingIndex := |c.list|, memory := None)
  }

  function Finish(c: CallbackList): CallbackList {
    var m := if c.options.memory then c.memory else None;
    var d := c.(memory := m, firing := false);
    if !c.locked then d
    else if m.Some? then d.(list := [], spent := false)
    else d.(list := [], spent := true)
  }

  // ---------------------------------------------------------------- the to-do list

  function Suffix(s: seq<Callback>, n: int): seq<Callback> {
    if 0 <= n <= |s| then s[n..] else []
  }

  /** What the current round still has to call. */
  function ToDo(c: CallbackList): seq<Callback> {
    Suffix(c.list, c.firingIndex + 1)
  }

  lemma WithoutSplice(list: seq<Callback>, at: nat, f: Callback)
    requires at < |list| && list[at] == f
    ensures Without(Splice(list, at), f) == Without(list, f)
  {
    var tail := list[at + 1..];
    assert list == list[..at] + ([f] + tail) && ([f] + tail)[1..] == tail;
    WithoutConcat(list[..at], tail, f);
    WithoutConcat(list[..at], [f] + tail, f);
  }

  /** How many of the first `n` callbacks differ from `f`. */
  function Kept(list: seq<Callback>, n: int, f: Callback): nat
    requires 0 <= n <= |list|
  {
    |Without(list[..n], f)|
  }

  lemma KeptSplice(list: seq<Callback>, at: nat, n: nat, f: Callback)
    requires at < |list| && list[at] == f && n <= |list|
    ensures at < n ==> Kept(Splice(list, at), n - 1, f) == Kept(list, n, f)
    ensures n <= at ==> Kept(Splice(list, at), n, f) == Kept(list, n, f)
  {
    if at < n {
      assert list[..n][at] == f;
      WithoutSplice(list[..n], at, f);
      assert Splice(list, at)[..n - 1] == Splice(list[..n], at);
    } else {
      assert Splice(list, at)[..n] == list[..n];
    }
  }

  /** The state after the first splice of the loop of `remove`. */
  lemma RemoveFromStep(list: seq<Callback>, firingIndex: int, f: Callback, from: nat, at: nat)
    requires from <= |list| && f !in list[..from] && -1 <= firingIndex
    requires InArray(f, list, from) == Some(at)
    ensures at < |list| && list[at] == f && f !in Splice(list, at)[..at]
    ensures RemoveFrom(list, firingIndex, f, from)
         == RemoveFrom(Splice(list, at), if at <= firingIndex then firingIndex - 1 else firingIndex, f, at)
  {
    assert list[..at] == list[..from] + list[from..at];
    assert Splice(list, at)[..at] == list[..at];
  }

  /** What the loop of `remove` comes to: the list filtered, and the firing index moved to the same
      place in it. */
  predicate Filtered(list: seq<Callback>, firingIndex: int, f: Callback, result: (seq<Callback>, int)) {
    && result.0 == Without(list, f)
    && -1 <= firingIndex && -1 <= result.1
    && if firingIndex < |list| then result.1 + 1 == Kept(list, firingIndex + 1, f) else result.1 >= |result.0|
  }

  lemma FilteredStep(list: seq<Callback>, firingIndex: int, f: Callback, at: nat, result: (seq<Callback>, int))
    requires at < |list| && list[at] == f && -1 <= firingIndex
    requires Filtered(Splice(list, at), if at <= firingIndex then firingIndex - 1 else firingIndex, f, result)
    ensures Filtered(list, firingIndex, f, result)
  {
    WithoutSplice(list, at, f);
    if firingIndex < |list| {
      KeptSplice(list, at, firingIndex + 1, f);
    }
  }

  lemma {:induction false} RemoveFromFilters(list: seq<Callback>, firingIndex: int, f: Callback, from: nat)
    requires from <= |list| && f !in list[..from] && -1 <= firingIndex
    ensures Filtered(list, firingIndex, f, RemoveFrom(list, firingIndex, f, from))
    decreases |list|
  {
    match InArray(f, list, from)
    case None =>
      assert list == list[..from] + list[from..];
      assert firingIndex < |list| ==> f !in list[..firingIndex + 1];
    case Some(at) =>
      RemoveFromStep(list, firingIndex, f, from, at);
      var next := if at <= firingIndex then firingIndex - 1 else firingIndex;
      RemoveFromFilters(Splice(list, at), next, f, at);
      FilteredStep(list, firingIndex, f, at, RemoveFrom(Splice(list, at), next, f, at));
  }

  lemma WithoutSuffix(list: seq<Callback>, n: nat, f: Callback)
    requires n <= |list|
    ensures Kept(list, n, f) <= |Without(list, f)|
    ensures Without(list, f)[Kept(list, n, f)..] == Without(list[n..], f)
    ensures n == 0 ==> Kept(list, n, f) == 0
  {
    assert list == list[..n] + list[n..];
    WithoutConcat(list[..n], list[n..], f);
  }

  lemma SuffixInside(s: seq<Callback>, n: nat)
    requires n <= |s|
    ensures Suffix(s, n) == s[n..]
  {
  }

  lemma SuffixOutside(s: seq<Callback>, n: nat)
    requires n > |s|
    ensures Suffix(s, n) == []
  {
  }

  lemma FilteredSuffix(list: seq<Callback>, firingIndex: int, f: Callback, l: seq<Callback>, k: int)
    requires Filtered(list, firingIndex, f, (l, k))
    ensures Suffix(l, k + 1) == Without(Suffix(list, firingIndex + 1), f)
    ensures firingIndex == -1 ==> k == -1
  {
    hide Without, Kept, Suffix;
    if firingIndex < |list| {
      var n: nat := firingIndex + 1;
      WithoutSuffix(list, n, f);
      SuffixInside(list, n);
      SuffixInside(l, Kept(list, n, f));
    } else {
      SuffixOutside(list, firingIndex + 1);
      SuffixOutside(l, k + 1);
    }
  }

  /** Removing a callback, at any moment of a firing: the list and what is still to be called
      lose exactly that callback, and nothing is called twice or skipped. */
  lemma RemoveFiltersToDo(c: CallbackList, f: Callback)
    requires -1 <= c.firingIndex
    ensures Remove(c, f) == c.(list := Without(c.list, f), firingIndex := Remove(c, f).firingIndex)
    ensures ToDo(Remove(c, f)) == Without(ToDo(c), f)
    ensures -1 <= Remove(c, f).firingIndex
    ensures c.firingIndex == -1 ==> Remove(c, f).firingIndex == -1
  {
    hide RemoveFrom, Without, Kept, Suffix;
      var (l, k) := RemoveFrom(c.list, c.firingIndex, f, 0);
    RemoveFromFilters(c.list, c.firingIndex, f, 0);
    assert Remove(c, f) == c.(list := l, firingIndex := k);
    FilteredSuffix(c.list, c.firingIndex, f, l, k);
  }

  /** Adding while the list fires: the new callbacks join the current round, except that after
      `empty` the stale firing index makes the round skip the first ones.  All new callbacks
      run in this round exactly when the index is still inside the list. */
  lemma AddWhileFiring(c: CallbackList, fns: seq<Callback>)
    requires !c.spent && c.firing && -1 <= c.firingIndex
    ensures var news := Appended(c.list, c.options.unique, fns);
            var skipped := c.firingIndex + 1 - |c.list|;
            && Add(c, fns).list == c.list + news
            && (skipped <= 0 ==> ToDo(Add(c, fns)) == ToDo(c) + news)
            && (skipped > 0 ==> ToDo(Add(c, fns)) == if skipped <= |news| then news[skipped..] else [])
            && (news != [] ==> (ToDo(Add(c, fns)) == ToDo(c) + news <==> c.firingIndex < |c.list|))
  {
    SuffixOfMore(c.list, Appended(c.list, c.options.unique, fns), c.firingIndex + 1);
  }

  lemma SuffixOfMore(list: seq<Callback>, news: seq<Callback>, k: nat)
    ensures k <= |list| ==> (list + news)[k..] == list[k..] + news
    ensures |list| < k <= |list| + |news| ==> (list + news)[k..] == news[k - |list|..] && |news[k - |list|..]| < |news|
  {
  }

  /** Adding to an idle list that remembers a fire aims the next round at the new callbacks
      only, with the remembered arguments at the end of the queue. */
  lemma AddToIdleMemory(c: CallbackList, fns: seq<Callback>)
    requires AddFires(c)
    ensures ToDo(Begin(Add(c, fns))) == Appended(c.list, c.options.unique, fns)
    ensures Begin(Add(c, fns)).queue == c.queue + [c.memory.value]
    ensures Begin(Add(c, fns)).list == c.list + Appended(c.list, c.options.unique, fns)
  {
    var news := Appended(c.list, c.options.unique, fns);
    assert (c.list + news)[|c.list|..] == news;
  }
}
