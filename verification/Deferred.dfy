/**
 jQuery.Deferred as three callback lists wired together: each of the first two starts with
 functions that set the state, disable the other list and lock the third.  Runs are runs of the
 callback machine in which user code resolves, rejects, notifies and registers callbacks, at the
 top level or inside any callback.
 */
module Deferred {
  import opened Wrappers
  import opened Sequences
  import opened CallbackLists
  import opened CallbackMachine

  const DONE: nat := 0
  const FAIL: nat := 1
  const PROGRESS: nat := 2

  const ONCE_MEMORY := Options(true, true, false, false)
  const MEMORY := Options(false, true, false, false)

  function Outcome(k: nat): Settlement {
    if k == DONE then Resolved else Rejected
  }

  function Built(k: nat): seq<Callback>
    requires k < 2
  {
    [SetState(Outcome(k)), DisableList(1 - k), LockList(PROGRESS)]
  }

  /** What the constructor leaves; the history of a run starts after it. */
  function New(): World {
    var empty := World([Fresh(ONCE_MEMORY), Fresh(ONCE_MEMORY), Fresh(MEMORY)], [], Pending, []);
    AddIn(AddIn(empty, DONE, Built(DONE)), FAIL, Built(FAIL)).(log := [])
  }

  /** The moves of user code: `resolve`, `reject` and `notify` fire; `done`, `fail` and
      `progress` add user functions. */
  predicate Allowed(m: Move) {
    match m
    case Issue(Add(i, fns)) => i < 3 && AllUsers(fns)
    case Issue(FireWith(i, _)) => i < 3
    case Issue(_) => false
    case Return(_) => true
    case Tick => true
  }

  // ---------------------------------------------------------------- reading the history

  /** What was registered on a list and what it called, both in order. */
  datatype ListHistory = ListHistory(registered: seq<Callback>, called: seq<Callback>, args: seq<Option<Payload>>)

  /** The first accepted `resolve` or `reject` with its arguments, and the two settling lists. */
  datatype History = History(settled: Option<(nat, Payload)>, done: ListHistory, fail: ListHistory) {
    function Of(k: nat): ListHistory {
      if k == DONE then done else fail
    }

    function With(k: nat, h: ListHistory): History {
      if k == DONE then this.(done := h) else this.(fail := h)
    }
  }

  function Extend(h: History, e: Event): History {
    match e
    case Registered(i, fns) =>
      if i < 2 then h.With(i, h.Of(i).(registered := h.Of(i).registered + fns)) else h
    case Accepted(i, a, _) =>
      if i < 2 && h.settled.None? then h.(settled := Some((i, a))) else h
    case Called(i, f, args) =>
      if i < 2 && f.User?
      then h.With(i, h.Of(i).(called := h.Of(i).called + [f], args := h.Of(i).args + [args]))
      else h
    case _ => h
  }

  const NO_HISTORY := History(None, ListHistory([], [], []), ListHistory([], [], []))

  function Read(log: seq<Event>): History {
    if log == [] then NO_HISTORY else Extend(Read(log[..|log| - 1]), log[|log| - 1])
  }

  lemma ReadNote(log: seq<Event>, e: Event)
    ensures Read(log + [e]) == Extend(Read(log), e)
  {
    assert (log + [e])[..|log|] == log;
  }

  // ---------------------------------------------------------------- the winning list

  /** The list still starts with the three built-in functions. */
  predicate Armed(c: CallbackList, k: nat)
    requires k < 2
  {
    |c.list| >= 3 && c.list[..3] == Built(k)
  }

  /** The user callbacks that the list still has to call in this round. */
  function PendingUsers(c: CallbackList, k: nat): seq<Callback>
    requires k < 2
  {
    var skip := if Armed(c, k) then 3 else 0;
    var from := if c.firingIndex + 1 > skip then c.firingIndex + 1 else skip;
    if from <= |c.list| then c.list[from..] else []
  }

  /** How many of the built-in functions have run. */
  function Executed(c: CallbackList, pc: Option<Pc>, k: nat): int
    requires k < 2
  {
    if pc.None? || !Armed(c, k) || (pc == Some(Outer) && c.queue == []) then 3
    else if c.firingIndex + 1 < 3 then c.firingIndex + 1
    else 3
  }

  predicate Untouched(c: CallbackList, k: nat, h: ListHistory)
    requires k < 2
  {
    && c == Fresh(ONCE_MEMORY).(list := Built(k) + h.registered)
    && AllUsers(h.registered)
    && h.called == [] && h.args == []
  }

  predicate Dead(c: CallbackList) {
    c.spent && c.locked && !c.firing && c.list == []
  }

  /** The list that was accepted first, with arguments `a`, at any point of its firing. */
  predicate Winner(c: CallbackList, pc: Option<Pc>, k: nat, a: Payload, h: ListHistory)
    requires k < 2
  {
    && c.options == ONCE_MEMORY && !c.spent && c.locked
    && AllUsers(if Armed(c, k) then c.list[3..] else c.list)
    && c.firing == pc.Some?
    && (forall j :: 0 <= j < |h.args| ==> h.args[j] == Some(a))
    && (Executed(c, pc, k) < 3 ==> h.called == [])
    && match pc
       case None =>
         c.memory == Some(a) && c.queue == [] && c.list == [] && c.firingIndex == -1 && h.called == h.registered
       case Some(Outer) =>
         && c.firingIndex == -1
         && (if c.queue == [] then c.memory == Some(a) && h.called == h.registered
             else && c.queue == [a] && (c.memory == None || c.memory == Some(a))
                  && h.registered == h.called + PendingUsers(c, k))
       case Some(_) =>
         && c.queue == [] && c.memory == Some(a) && -1 <= c.firingIndex < |c.list|
         && h.registered == h.called + PendingUsers(c, k)
         && (pc == Some(Calling) && Armed(c, k) ==> 3 <= c.firingIndex)
  }

  /** The losing list and the state, after `n` of the built-in functions ran. */
  predicate Aftermath(n: int, other: CallbackList, k: nat, state: Settlement, h: ListHistory)
    requires k < 2
  {
    && state == (if n >= 1 then Outcome(k) else Pending)
    && (if n >= 2 then Dead(other) && h.called == [] else Untouched(other, 1 - k, h))
  }

  predicate Open(done: CallbackList, fail: CallbackList, state: Settlement, h: History) {
    state == Pending && Untouched(done, DONE, h.done) && Untouched(fail, FAIL, h.fail)
  }

  predicate Won(c: CallbackList, pc: Option<Pc>, other: CallbackList, state: Settlement, k: nat, a: Payload, h: History)
    requires k < 2
  {
    && Winner(c, pc, k, a, h.Of(k))
    && Aftermath(Executed(c, pc, k), other, k, state, h.Of(1 - k))
  }

  /** The invariant, with the history `h` and the two program counters given. */
  predicate Core(w: World, h: History, donePc: Option<Pc>, failPc: Option<Pc>) {
    && |w.lists| == 3
    && AllUsers(w.lists[PROGRESS].list)
    && match h.settled
       case None => Open(w.lists[DONE], w.lists[FAIL], w.state, h) && donePc == None && failPc == None
       case Some((k, a)) =>
         if k == DONE then Won(w.lists[DONE], donePc, w.lists[FAIL], w.state, DONE, a, h) && failPc == None
         else k == FAIL && Won(w.lists[FAIL], failPc, w.lists[DONE], w.state, FAIL, a, h) && donePc == None
  }

  predicate Now(w: World) {
    Core(w, Read(w.log), PcOf(w.stack, DONE), PcOf(w.stack, FAIL))
  }

  predicate DeferredInv(w: World) {
    Inv(w) && Now(w)
  }

  // ---------------------------------------------------------------- edits of the winning list

  lemma NotArmed(c: CallbackList, k: nat)
    requires k < 2 && AllUsers(c.list)
    ensures !Armed(c, k)
  {
    if |c.list| >= 3 {
      assert c.list[..3][0] == c.list[0];
    }
  }

  lemma ArmedAdd(c: CallbackList, c': CallbackList, k: nat, fns: seq<Callback>)
    requires k < 2 && AllUsers(fns) && c' == c.(list := c.list + fns)
    requires AllUsers(if Armed(c, k) then c.list[3..] else c.list)
    ensures Armed(c', k) == Armed(c, k)
    ensures AllUsers(if Armed(c', k) then c'.list[3..] else c'.list)
  {
    if Armed(c, k) {
      assert c'.list[..3] == c.list[..3];
      assert c'.list[3..] == c.list[3..] + fns;
    } else {
      NotArmed(c', k);
    }
  }

  lemma PendingAdd(c: CallbackList, c': CallbackList, k: nat, fns: seq<Callback>)
    requires k < 2 && c' == c.(list := c.list + fns) && Armed(c', k) == Armed(c, k)
    requires c.firingIndex < |c.list|
    ensures PendingUsers(c', k) == PendingUsers(c, k) + fns
  {
    var skip := if Armed(c, k) then 3 else 0;
    var from := if c.firingIndex + 1 > skip then c.firingIndex + 1 else skip;
    assert from <= |c.list|;
    assert (c.list + fns)[from..] == c.list[from..] + fns;
  }

  /** Registering on the winning list while it fires: the round in progress will call it. */
  lemma AddWinnerFiring(c: CallbackList, c': CallbackList, k: nat, a: Payload, h: ListHistory, fns: seq<Callback>)
    requires k < 2 && AllUsers(fns) && Winner(c, Some(Calling), k, a, h)
    requires c' == c.(list := c.list + fns)
    ensures Winner(c', Some(Calling), k, a, h.(registered := h.registered + fns))
    ensures Executed(c', Some(Calling), k) == 3
  {
    assert Armed(c', k) == Armed(c, k) && AllUsers(if Armed(c', k) then c'.list[3..] else c'.list) by {
      ArmedAdd(c, c', k, fns);
    }
    assert h.registered + fns == h.called + PendingUsers(c', k) by {
      PendingAdd(c, c', k, fns);
      Associates(h.called, PendingUsers(c, k), fns);
    }
    assert -1 <= c'.firingIndex < |c'.list|;
  }

  /** Registering on the winning list after it fired: it fires again, for the new ones only. */
  lemma AddWinnerIdle(c: CallbackList, c': CallbackList, k: nat, a: Payload, h: ListHistory, fns: seq<Callback>)
    requires k < 2 && AllUsers(fns) && Winner(c, None, k, a, h)
    requires c' == c.(list := fns, queue := [a], firing := true, fired := true)
    ensures Winner(c', Some(Outer), k, a, h.(registered := h.registered + fns))
    ensures Executed(c', Some(Outer), k) == 3
  {
    NotArmed(c', k);
  }

  /** The first accepted `resolve` or `reject` starts the winning list. */
  lemma UntouchedWins(c: CallbackList, c': CallbackList, k: nat, a: Payload, h: ListHistory)
    requires k < 2 && Untouched(c, k, h)
    requires c' == c.(queue := [a], locked := true, firing := true, fired := true)
    ensures Winner(c', Some(Outer), k, a, h) && Executed(c', Some(Outer), k) == 0
  {
    assert c'.list[..3] == Built(k) && c'.list[3..] == h.registered;
  }

  // ---------------------------------------------------------------- ticks of the winning list

  lemma ShiftWinner(c: CallbackList, k: nat, a: Payload, h: ListHistory)
    requires k < 2 && Winner(c, Some(Outer), k, a, h) && c.queue != []
    ensures Winner(Shift(c), Some(Inner), k, a, h)
    ensures Executed(Shift(c), Some(Inner), k) == Executed(c, Some(Outer), k)
  {
    var s := Shift(c);
    assert Armed(s, k) == Armed(c, k);
    assert PendingUsers(s, k) == PendingUsers(c, k);
  }

  lemma FinishWinner(c: CallbackList, k: nat, a: Payload, h: ListHistory)
    requires k < 2 && Winner(c, Some(Outer), k, a, h) && c.queue == []
    ensures Winner(Finish(c), None, k, a, h)
    ensures Executed(c, Some(Outer), k) == 3 && Executed(Finish(c), None, k) == 3
  {
  }

  /** The inner loop ends: everything registered has been called. */
  lemma RoundEnds(c: CallbackList, k: nat, a: Payload, h: ListHistory)
    requires k < 2 && Winner(c, Some(Inner), k, a, h) && |c.list| <= c.firingIndex + 1
    ensures Winner(c.(firingIndex := -1), Some(Outer), k, a, h)
    ensures Executed(c, Some(Inner), k) == 3 && Executed(c.(firingIndex := -1), Some(Outer), k) == 3
  {
    var c' := c.(firingIndex := -1);
    assert Armed(c', k) == Armed(c, k);
    assert PendingUsers(c, k) == [];
  }

  /** A built-in function runs. */
  lemma BuiltInRuns(c: CallbackList, c': CallbackList, k: nat, a: Payload, h: ListHistory)
    requires k < 2 && Winner(c, Some(Inner), k, a, h) && Executed(c, Some(Inner), k) < 3
    requires c' == c.(firingIndex := c.firingIndex + 1)
    ensures c'.firingIndex < |c.list| && c'.list[c'.firingIndex] == Built(k)[c'.firingIndex]
    ensures Winner(c', Some(Inner), k, a, h)
    ensures Executed(c', Some(Inner), k) == Executed(c, Some(Inner), k) + 1 == c'.firingIndex + 1
  {
    assert c.list[..3][c'.firingIndex] == c.list[c'.firingIndex];
    assert Armed(c', k);
    assert PendingUsers(c', k) == PendingUsers(c, k);
  }

  /** A user callback is called: the first that was registered and not yet called. */
  lemma UserRuns(c: CallbackList, c': CallbackList, k: nat, a: Payload, h: ListHistory, f: Callback)
    requires k < 2 && Winner(c, Some(Inner), k, a, h) && Executed(c, Some(Inner), k) == 3
    requires c' == c.(firingIndex := c.firingIndex + 1) && c'.firingIndex < |c.list|
    requires f == c.list[c'.firingIndex]
    ensures f.User?
    ensures Winner(c', Some(Calling), k, a, h.(called := h.called + [f], args := h.args + [c.memory]))
    ensures Executed(c', Some(Calling), k) == 3
  {
    NextPending(c, c', k, f);
    CalledMoves(h.called, f, PendingUsers(c', k));
  }

  lemma Peel(s: seq<Callback>, n: nat)
    requires n < |s|
    ensures s[n..] == [s[n]] + s[n + 1..]
  {
  }

  lemma NextPending(c: CallbackList, c': CallbackList, k: nat, f: Callback)
    requires k < 2 && -1 <= c.firingIndex && (Armed(c, k) ==> 3 <= c.firingIndex + 1)
    requires c' == c.(firingIndex := c.firingIndex + 1) && c'.firingIndex < |c.list| && f == c.list[c'.firingIndex]
    requires AllUsers(if Armed(c, k) then c.list[3..] else c.list)
    ensures f.User? && Armed(c', k) == Armed(c, k) && PendingUsers(c, k) == [f] + PendingUsers(c', k)
  {
    var n: nat := c'.firingIndex;
    Peel(c.list, n);
    if Armed(c, k) {
      assert Armed(c', k) && c.list[3..][n - 3] == f;
    } else {
      assert !Armed(c', k);
    }
  }

  lemma CalledMoves(called: seq<Callback>, f: Callback, rest: seq<Callback>)
    ensures called + ([f] + rest) == (called + [f]) + rest
  {
  }

  lemma ReturnWinner(c: CallbackList, k: nat, a: Payload, h: ListHistory)
    requires k < 2 && Winner(c, Some(Calling), k, a, h)
    ensures Winner(c, Some(Inner), k, a, h)
    ensures Executed(c, Some(Calling), k) == 3 && Executed(c, Some(Inner), k) == 3
  {
  }

  // ---------------------------------------------------------------- every step keeps the invariant

  /** The two settling lists, the state and the history stay; the progress list may change. */
  lemma ProgressOnly(w: World, w': World)
    requires Now(w) && |w'.lists| == 3
    requires w'.lists[DONE] == w.lists[DONE] && w'.lists[FAIL] == w.lists[FAIL]
    requires AllUsers(w'.lists[PROGRESS].list) && w'.state == w.state
    requires PcOf(w'.stack, DONE) == PcOf(w.stack, DONE) && PcOf(w'.stack, FAIL) == PcOf(w.stack, FAIL)
    requires Read(w'.log) == Read(w.log)
    ensures Now(w')
  {
  }

  lemma PushProgress(stack: seq<Frame>)
    ensures PcOf(stack + [Frame(PROGRESS, Outer)], DONE) == PcOf(stack, DONE)
    ensures PcOf(stack + [Frame(PROGRESS, Outer)], FAIL) == PcOf(stack, FAIL)
  {
    PcOfPush(stack, Frame(PROGRESS, Outer), DONE);
    PcOfPush(stack, Frame(PROGRESS, Outer), FAIL);
  }

  lemma AddFiresEffect(w: World, i: nat, fns: seq<Callback>, news: seq<Callback>)
    requires i < |w.lists| && AddFires(w.lists[i]) && news == Appended(w.lists[i].list, w.lists[i].options.unique, fns)
    ensures AddIn(w, i, fns) == w.(
                                lists := w.lists[i := Begin(CallbackLists.Add(w.lists[i], fns))],
                                stack := w.stack + [Frame(i, Outer)],
                                log := w.log + [Registered(i, news)]
                                + [Accepted(i, w.lists[i].memory.value, |w.lists[i].list|)])
    ensures Read(AddIn(w, i, fns).log)
         == Extend(Extend(Read(w.log), Registered(i, news)), Accepted(i, w.lists[i].memory.value, |w.lists[i].list|))
  {
    ReadNote(w.log, Registered(i, news));
    ReadNote(w.log + [Registered(i, news)], Accepted(i, w.lists[i].memory.value, |w.lists[i].list|));
  }

  lemma AddQuietEffect(w: World, i: nat, fns: seq<Callback>, news: seq<Callback>)
    requires i < |w.lists| && !w.lists[i].spent && !AddFires(w.lists[i])
    requires news == Appended(w.lists[i].list, w.lists[i].options.unique, fns)
    ensures AddIn(w, i, fns) ==
            w.(lists := w.lists[i := CallbackLists.Add(w.lists[i], fns)], log := w.log + [Registered(i, news)])
    ensures Read(AddIn(w, i, fns).log) == Extend(Read(w.log), Registered(i, news))
  {
    ReadNote(w.log, Registered(i, news));
  }

  lemma FireEffect(w: World, i: nat, a: Payload)
    requires i < |w.lists| && FireWithStarts(w.lists[i])
    ensures FireIn(w, i, a) == w.(lists := w.lists[i := Begin(Enqueue(w.lists[i], a))],
                               stack := w.stack + [Frame(i, Outer)],
                               log := w.log + [Accepted(i, a, 0)])
    ensures Read(FireIn(w, i, a).log) == Extend(Read(w.log), Accepted(i, a, 0))
  {
    ReadNote(w.log, Accepted(i, a, 0));
  }

  /** Registering on the progress list leaves everything else as it reads. */
  lemma AddProgressEffect(w: World, w': World, fns: seq<Callback>)
    requires |w.lists| == 3 && AllUsers(w.lists[PROGRESS].list) && AllUsers(fns) && w' == AddIn(w, PROGRESS, fns)
    ensures |w'.lists| == 3 && w'.lists[DONE] == w.lists[DONE] && w'.lists[FAIL] == w.lists[FAIL]
    ensures AllUsers(w'.lists[PROGRESS].list) && w'.state == w.state && Read(w'.log) == Read(w.log)
    ensures PcOf(w'.stack, DONE) == PcOf(w.stack, DONE) && PcOf(w'.stack, FAIL) == PcOf(w.stack, FAIL)
  {
    var c := w.lists[PROGRESS];
    if !c.spent {
      var news := Appended(c.list, c.options.unique, fns);
      UsersAppended(c.list, c.options.unique, fns);
      if AddFires(c) {
        AddFiresEffect(w, PROGRESS, fns, news);
        PushProgress(w.stack);
      } else {
        AddQuietEffect(w, PROGRESS, fns, news);
      }
    }
  }

  lemma AddProgress(w: World, w': World, fns: seq<Callback>)
    requires Now(w) && AllUsers(fns) && w' == AddIn(w, PROGRESS, fns)
    ensures Now(w')
  {
    AddProgressEffect(w, w', fns);
    ProgressOnly(w, w');
  }

  lemma FireProgress(w: World, w': World, a: Payload)
    requires Now(w) && w' == FireIn(w, PROGRESS, a)
    ensures Now(w')
  {
    if !w.lists[PROGRESS].locked {
      ReadNote(w.log, Accepted(PROGRESS, a, 0));
      PushProgress(w.stack);
      ProgressOnly(w, w');
    }
  }

  lemma TopMoves(stack: seq<Frame>, stack': seq<Frame>, pc: Pc, i: nat)
    requires stack != [] && stack[|stack| - 1].on != i
    requires stack' == stack[..|stack| - 1] + [Frame(stack[|stack| - 1].on, pc)]
    ensures PcOf(stack', i) == PcOf(stack, i)
  {
    PcOfSetTop(stack, pc, i);
  }

  /** The progress list takes a turn at its inner loop, or one of its callbacks returns. */
  lemma ProgressMoves(w: World, w': World, pc: Pc)
    requires Now(w) && w.stack != [] && Top(w).on == PROGRESS && |w'.lists| == 3
    requires w'.stack == SetTop(w, pc).stack && w'.state == w.state
    requires w'.lists[DONE] == w.lists[DONE] && w'.lists[FAIL] == w.lists[FAIL]
    requires w'.lists[PROGRESS].list == w.lists[PROGRESS].list
    requires Read(w'.log) == Read(w.log)
    ensures Now(w')
  {
    TopMoves(w.stack, w'.stack, pc, DONE);
    TopMoves(w.stack, w'.stack, pc, FAIL);
    ProgressOnly(w, w');
  }

  // What a tick does, whatever the invariant says.

  lemma ShiftEffect(w: World, i: nat)
    requires w.stack != [] && Top(w) == Frame(i, Outer) && i < |w.lists| && w.lists[i].queue != []
    ensures Step(w, Tick) == w.(lists := w.lists[i := Shift(w.lists[i])], stack := SetTop(w, Inner).stack,
                             log := w.log + [Started(i, w.lists[i].queue[0])])
    ensures Read(Step(w, Tick).log) == Read(w.log)
  {
    ReadNote(w.log, Started(i, w.lists[i].queue[0]));
  }

  lemma FinishEffect(w: World, i: nat)
    requires w.stack != [] && Top(w) == Frame(i, Outer) && i < |w.lists| && w.lists[i].queue == []
    ensures var w' := Step(w, Tick);
            && w' == w.(lists := w.lists[i := Finish(w.lists[i])], stack := w.stack[..|w.stack| - 1], log := w'.log)
            && Read(w'.log) == Read(w.log)
  {
    ReadNote(w.log, Retired(i));
  }

  lemma CallUserEffect(w: World, i: nat, c: CallbackList, f: Callback)
    requires w.stack != [] && Top(w) == Frame(i, Inner) && i < |w.lists| && c == w.lists[i]
    requires 0 <= c.firingIndex + 1 < |c.list| && f == c.list[c.firingIndex + 1] && f.User?
    ensures Step(w, Tick) == w.(lists := w.lists[i := c.(firingIndex := c.firingIndex + 1)],
                             stack := SetTop(w, Calling).stack, log := w.log + [Called(i, f, c.memory)])
    ensures Read(Step(w, Tick).log) == Extend(Read(w.log), Called(i, f, c.memory))
  {
    hide Read;
    ReadNote(w.log, Called(i, f, c.memory));
  }

  lemma EndEffect(w: World, i: nat)
    requires w.stack != [] && Top(w) == Frame(i, Inner) && i < |w.lists|
    requires |w.lists[i].list| <= w.lists[i].firingIndex + 1
    ensures Step(w, Tick) == w.(lists := w.lists[i := w.lists[i].(firingIndex := -1)], stack := SetTop(w, Outer).stack,
                             log := w.log + [Ended(i)])
    ensures Read(Step(w, Tick).log) == Read(w.log)
  {
    hide Read;
    ReadNote(w.log, Ended(i));
  }

  lemma TickProgressOuter(w: World, w': World)
    requires Now(w) && StackShape(w.stack) && w.stack != [] && Top(w) == Frame(PROGRESS, Outer)
    requires w' == Step(w, Tick)
    ensures Now(w')
  {
    if w.lists[PROGRESS].queue != [] {
      ShiftEffect(w, PROGRESS);
      ProgressMoves(w, w', Inner);
    } else {
      TickProgressFinish(w, w');
    }
  }

  lemma TickProgressFinish(w: World, w': World)
    requires Now(w) && StackShape(w.stack) && w.stack != [] && Top(w) == Frame(PROGRESS, Outer)
    requires w.lists[PROGRESS].queue == [] && w' == Step(w, Tick)
    ensures Now(w')
  {
    FinishEffect(w, PROGRESS);
    PcOfPop(w.stack, DONE);
    PcOfPop(w.stack, FAIL);
    ProgressOnly(w, w');
  }

  lemma TickProgressInnerEffect(w: World, w': World, c: CallbackList, pc: Pc)
    requires |w.lists| == 3 && c == w.lists[PROGRESS] && AllUsers(c.list) && -1 <= c.firingIndex
    requires w.stack != [] && Top(w) == Frame(PROGRESS, Inner) && w' == Step(w, Tick)
    requires pc == if c.firingIndex + 1 < |c.list| then Calling else Outer
    ensures |w'.lists| == 3 && w'.stack == SetTop(w, pc).stack && w'.state == w.state
    ensures w'.lists[DONE] == w.lists[DONE] && w'.lists[FAIL] == w.lists[FAIL]
    ensures w'.lists[PROGRESS].list == c.list && Read(w'.log) == Read(w.log)
  {
    if c.firingIndex + 1 < |c.list| {
      CallUserEffect(w, PROGRESS, c, c.list[c.firingIndex + 1]);
    } else {
      EndEffect(w, PROGRESS);
    }
  }

  lemma TickProgressInner(w: World, w': World)
    requires Now(w) && w.stack != [] && Top(w) == Frame(PROGRESS, Inner)
    requires -1 <= w.lists[PROGRESS].firingIndex && w' == Step(w, Tick)
    ensures Now(w')
  {
    var c := w.lists[PROGRESS];
    var pc := if c.firingIndex + 1 < |c.list| then Calling else Outer;
    TickProgressInnerEffect(w, w', c, pc);
    ProgressMoves(w, w', pc);
  }

  lemma ReturnProgress(w: World, w': World, isFalse: bool)
    requires Now(w) && Enabled(w, Return(isFalse)) && Top(w).on == PROGRESS
    requires w' == Step(w, Return(isFalse))
    ensures Now(w')
  {
    ReadNote(w.log, Stopped(PROGRESS));
    ProgressMoves(w, w', Inner);
  }

  lemma AddOpen(w: World, w': World, i: nat, fns: seq<Callback>)
    requires Now(w) && i < 2 && AllUsers(fns) && Read(w.log).settled == None && w' == AddIn(w, i, fns)
    ensures Now(w')
  {
    var h := Read(w.log);
    var c := w.lists[i];
    var c' := c.(list := c.list + fns);
    assert Untouched(c, i, h.Of(i));
    assert Appended(c.list, c.options.unique, fns) == fns;
    AddQuietEffect(w, i, fns, fns);
    Associates(Built(i), h.Of(i).registered, fns);
    OpenMoves(w, w', i, fns);
  }

  lemma OpenMoves(w: World, w': World, i: nat, fns: seq<Callback>)
    requires Now(w) && i < 2 && AllUsers(fns) && Read(w.log).settled == None
    requires w'.lists == w.lists[i := w.lists[i].(list := w.lists[i].list + fns)]
    requires w'.stack == w.stack && w'.state == w.state
    requires Read(w'.log) == Extend(Read(w.log), Registered(i, fns))
    requires w.lists[i].list + fns == Built(i) + (Read(w.log).Of(i).registered + fns)
    ensures Now(w')
  {
    hide Read;
  }

  lemma FireOpen(w: World, w': World, i: nat, a: Payload)
    requires Now(w) && i < 2 && Read(w.log).settled == None && w' == FireIn(w, i, a)
    ensures Now(w')
    ensures Read(w'.log) == Read(w.log).(settled := Some((i, a)))
  {
    var h := Read(w.log);
    var c := w.lists[i];
    assert Untouched(c, i, h.Of(i));
    FireEffect(w, i, a);
    var c' := Begin(Enqueue(c, a));
    PcOfPush(w.stack, Frame(i, Outer), DONE);
    PcOfPush(w.stack, Frame(i, Outer), FAIL);
    assert [] + [a] == [a];
    UntouchedWins(c, c', i, a, h.Of(i));
    assert Won(c', Some(Outer), w.lists[1 - i], w.state, i, a, h);
  }

  /** The invariant once list `k` has been accepted with `a`. */
  predicate SettledNow(w: World, k: nat, a: Payload) {
    && k < 2 && |w.lists| == 3 && AllUsers(w.lists[PROGRESS].list) && Read(w.log).settled == Some((k, a))
    && Won(w.lists[k], PcOf(w.stack, k), w.lists[1 - k], w.state, k, a, Read(w.log))
    && PcOf(w.stack, 1 - k) == None
  }

  lemma SettledParts(w: World, k: nat, a: Payload)
    requires Now(w) && Read(w.log).settled == Some((k, a))
    ensures SettledNow(w, k, a)
  {
  }

  lemma SettledWhole(w: World, k: nat, a: Payload)
    requires SettledNow(w, k, a)
    ensures Now(w)
  {
  }

  /** Only the winning list and what the history says of it change. */
  lemma WinnerOnly(w: World, w': World, k: nat, a: Payload, pc: Option<Pc>, h: ListHistory)
    requires SettledNow(w, k, a)
    requires |w'.lists| == 3 && w'.state == w.state
    requires w'.lists[1 - k] == w.lists[1 - k] && w'.lists[PROGRESS] == w.lists[PROGRESS]
    requires Winner(w'.lists[k], pc, k, a, h)
    requires Executed(w'.lists[k], pc, k) == Executed(w.lists[k], PcOf(w.stack, k), k)
    requires Read(w'.log) == Read(w.log).With(k, h)
    requires PcOf(w'.stack, k) == pc && PcOf(w'.stack, 1 - k) == PcOf(w.stack, 1 - k)
    ensures Now(w')
  {
    SettledWhole(w', k, a);
  }

  /** While user code is in control of a settled Deferred, the built-in functions have run. */
  lemma SettledInControl(w: World, k: nat, a: Payload)
    requires DeferredInv(w) && UserInControl(w) && Read(w.log).settled == Some((k, a))
    ensures k < 2 && PcOf(w.stack, k) in {None, Some(Calling)}
    ensures Executed(w.lists[k], PcOf(w.stack, k), k) == 3
    ensures Winner(w.lists[k], PcOf(w.stack, k), k, a, Read(w.log).Of(k))
    ensures Aftermath(3, w.lists[1 - k], k, w.state, Read(w.log).Of(1 - k))
  {
    SettledParts(w, k, a);
    ReadStack(w, k);
  }

  /** Once settled, firing either settling list again and registering on the loser do nothing. */
  lemma SettledIgnores(w: World, k: nat, a: Payload, fns: seq<Callback>, b: Payload)
    requires DeferredInv(w) && UserInControl(w) && Read(w.log).settled == Some((k, a))
    ensures k < 2 && AddIn(w, 1 - k, fns) == w
    ensures FireIn(w, k, b) == w && FireIn(w, 1 - k, b) == w
  {
    SettledInControl(w, k, a);
  }

  lemma IdleAdd(c: CallbackList, k: nat, a: Payload, h: ListHistory, fns: seq<Callback>)
    requires k < 2 && AllUsers(fns) && Winner(c, None, k, a, h)
    ensures AddFires(c) && !c.options.unique && c.memory == Some(a)
    ensures Winner(Begin(CallbackLists.Add(c, fns)), Some(Outer), k, a, h.(registered := h.registered + fns))
    ensures Executed(Begin(CallbackLists.Add(c, fns)), Some(Outer), k) == 3 == Executed(c, None, k)
  {
    var c' := c.(list := fns, queue := [a], firing := true, fired := true);
    AddWinnerIdle(c, c', k, a, h, fns);
    assert Appended(c.list, false, fns) == fns;
    assert [] + fns == fns;
    assert Begin(CallbackLists.Add(c, fns)) == c';
  }

  lemma AddSettledIdle(w: World, w': World, k: nat, a: Payload, fns: seq<Callback>)
    requires SettledNow(w, k, a) && AllUsers(fns)
    requires PcOf(w.stack, k) == None && Winner(w.lists[k], None, k, a, Read(w.log).Of(k))
    requires w' == AddIn(w, k, fns)
    ensures Now(w')
  {
    var h := Read(w.log).Of(k);
    IdleAdd(w.lists[k], k, a, h, fns);
    AddFiresEffect(w, k, fns, fns);
    PcOfPush(w.stack, Frame(k, Outer), k);
    PcOfPush(w.stack, Frame(k, Outer), 1 - k);
    WinnerOnly(w, w', k, a, Some(Outer), h.(registered := h.registered + fns));
  }

  lemma AddSettledFiring(w: World, w': World, k: nat, a: Payload, fns: seq<Callback>)
    requires SettledNow(w, k, a) && AllUsers(fns)
    requires PcOf(w.stack, k) == Some(Calling) && Winner(w.lists[k], Some(Calling), k, a, Read(w.log).Of(k))
    requires Executed(w.lists[k], Some(Calling), k) == 3
    requires w' == AddIn(w, k, fns)
    ensures Now(w')
  {
    var c, h := w.lists[k], Read(w.log).Of(k);
    assert Appended(c.list, c.options.unique, fns) == fns;
    AddWinnerFiring(c, c.(list := c.list + fns), k, a, h, fns);
    assert w' == Note(Put(w, k, c.(list := c.list + fns)), Registered(k, fns));
    ReadNote(w.log, Registered(k, fns));
    WinnerOnly(w, w', k, a, Some(Calling), h.(registered := h.registered + fns));
  }

  lemma TopIsWinner(w: World, k: nat)
    requires DeferredInv(w) && w.stack != [] && Top(w).on == k && k < 2
    ensures Read(w.log).settled.Some? && Read(w.log).settled.value.0 == k
    ensures PcOf(w.stack, k) == Some(Top(w).pc)
    ensures StackShape(w.stack)
  {
    ReadStack(w, k);
  }

  /** The state while the winning list is the innermost activation. */
  predicate OnTop(w: World, k: nat, a: Payload, pc: Pc) {
    && SettledNow(w, k, a) && StackShape(w.stack) && w.stack != []
    && Top(w) == Frame(k, pc)
    && PcOf(w.stack, k) == Some(pc)
    && Winner(w.lists[k], Some(pc), k, a, Read(w.log).Of(k))
  }

  lemma ReturnEffect(w: World, w': World, k: nat, a: Payload, isFalse: bool)
    requires OnTop(w, k, a, Calling) && w' == Step(w, Return(isFalse))
    ensures w' == w.(stack := SetTop(w, Inner).stack)
  {
  }

  lemma ReturnSettled(w: World, w': World, k: nat, a: Payload, isFalse: bool)
    requires OnTop(w, k, a, Calling) && w' == Step(w, Return(isFalse))
    ensures Now(w')
  {
    hide Winner, Executed, Aftermath, Read, Step;
    var c := w.lists[k];
    ReturnEffect(w, w', k, a, isFalse);
    ReturnWinner(c, k, a, Read(w.log).Of(k));
    PcOfSetTop(w.stack, Inner, k);
    PcOfSetTop(w.stack, Inner, 1 - k);
    WinnerOnly(w, w', k, a, Some(Inner), Read(w.log).Of(k));
  }

  lemma TickStartSettled(w: World, w': World, k: nat, a: Payload)
    requires OnTop(w, k, a, Outer) && w' == Step(w, Tick) && w.lists[k].queue != []
    ensures Now(w')
  {
    hide Winner, Executed, Aftermath, Step, Read;
    ShiftWinner(w.lists[k], k, a, Read(w.log).Of(k));
    ShiftEffect(w, k);
    PcOfSetTop(w.stack, Inner, k);
    PcOfSetTop(w.stack, Inner, 1 - k);
    WinnerOnly(w, w', k, a, Some(Inner), Read(w.log).Of(k));
  }

  lemma TickFinishSettled(w: World, w': World, k: nat, a: Payload)
    requires OnTop(w, k, a, Outer) && w' == Step(w, Tick) && w.lists[k].queue == []
    ensures Now(w')
  {
    hide Winner, Executed, Aftermath, Step, Read;
    FinishWinner(w.lists[k], k, a, Read(w.log).Of(k));
    FinishEffect(w, k);
    PcOfPop(w.stack, k);
    PcOfPop(w.stack, 1 - k);
    WinnerOnly(w, w', k, a, None, Read(w.log).Of(k));
  }

  lemma TickEndSettled(w: World, w': World, k: nat, a: Payload)
    requires OnTop(w, k, a, Inner) && w' == Step(w, Tick)
    requires |w.lists[k].list| <= w.lists[k].firingIndex + 1
    ensures Now(w')
  {
    hide Winner, Executed, Aftermath, Step, Read;
    RoundEnds(w.lists[k], k, a, Read(w.log).Of(k));
    EndEffect(w, k);
    PcOfSetTop(w.stack, Outer, k);
    PcOfSetTop(w.stack, Outer, 1 - k);
    WinnerOnly(w, w', k, a, Some(Outer), Read(w.log).Of(k));
  }

  lemma ExtendCalled(h: History, k: nat, f: Callback, args: Option<Payload>)
    requires k < 2 && f.User?
    ensures Extend(h, Called(k, f, args)) ==
            h.With(k, h.Of(k).(called := h.Of(k).called + [f], args := h.Of(k).args + [args]))
  {
  }

  lemma WinnerPlace(w: World, k: nat, a: Payload)
    requires OnTop(w, k, a, Inner)
    ensures k < 2 && |w.lists| == 3 && -1 <= w.lists[k].firingIndex
  {
  }

  lemma TickUserSettled(w: World, w': World, k: nat, a: Payload, c: CallbackList, h: ListHistory, f: Callback)
    requires OnTop(w, k, a, Inner) && w' == Step(w, Tick)
    requires c == w.lists[k] && h == Read(w.log).Of(k) && Executed(c, Some(Inner), k) == 3
    requires c.firingIndex + 1 < |c.list| && f == c.list[c.firingIndex + 1]
    ensures Now(w')
  {
    hide Winner, Executed, Aftermath, Step, Read, PcOf, Extend, SettledNow, Now;
    WinnerPlace(w, k, a);
    UserRuns(c, c.(firingIndex := c.firingIndex + 1), k, a, h, f);
    ExtendCalled(Read(w.log), k, f, c.memory);
    CallUserEffect(w, k, c, f);
    PcOfSetTop(w.stack, Calling, k);
    PcOfSetTop(w.stack, Calling, 1 - k);
    WinnerOnly(w, w', k, a, Some(Calling), h.(called := h.called + [f], args := h.args + [c.memory]));
  }

  lemma TickBuiltIn(w: World, w': World, k: nat, a: Payload)
    requires OnTop(w, k, a, Inner) && w' == Step(w, Tick)
    requires Executed(w.lists[k], Some(Inner), k) < 3
    ensures Now(w')
  {
    var c := w.lists[k];
    var c' := c.(firingIndex := c.firingIndex + 1);
    BuiltInRuns(c, c', k, a, Read(w.log).Of(k));
    BuiltInEffect(w, w', k, c');
    SettledWhole(w', k, a);
  }

  /** A built-in function is called: what it does, by its place in the list. */
  lemma BuiltInCalled(w: World, k: nat, c': CallbackList, at: World, f: Callback)
    requires |w.lists| == 3 && w.stack != [] && k < 2 && Top(w) == Frame(k, Inner)
    requires c' == w.lists[k].(firingIndex := w.lists[k].firingIndex + 1) && 0 <= c'.firingIndex < 3
    requires c'.firingIndex < |c'.list| && f == c'.list[c'.firingIndex] == Built(k)[c'.firingIndex]
    requires at == Note(Put(w, k, c'), Called(k, f, w.lists[k].memory))
    ensures Step(w, Tick) == Apply(at, f) && Read(at.log) == Read(w.log)
    ensures |at.lists| == 3 && at.lists[k] == c' && at.stack == w.stack && at.state == w.state
    ensures at.lists[1 - k] == w.lists[1 - k] && at.lists[PROGRESS] == w.lists[PROGRESS]
  {
    hide Read;
    ReadNote(w.log, Called(k, f, w.lists[k].memory));
  }

  lemma BuiltInApplied(w: World, k: nat, n: nat, f: Callback)
    requires |w.lists| == 3 && w.stack != [] && k < 2 && n < 3 && f == Built(k)[n]
    ensures var w' := Apply(w, f);
            && |w'.lists| == 3 && w'.stack == w.stack && w'.lists[k] == w.lists[k] && Read(w'.log) == Read(w.log)
            && w'.state == (if n == 0 then Outcome(k) else w.state)
            && w'.lists[1 - k] == (if n == 1 then CallbackLists.Disable(w.lists[1 - k]) else w.lists[1 - k])
            && w'.lists[PROGRESS] == if n == 2 then CallbackLists.Lock(w.lists[PROGRESS]) else w.lists[PROGRESS]
  {
    hide Read;
    ReadNote(w.log, Cleared(1 - k, true));
    ReadNote(w.log, Cleared(PROGRESS, w.lists[PROGRESS].memory.None?));
  }

  lemma BuiltInEffect(w: World, w': World, k: nat, c': CallbackList)
    requires |w.lists| == 3 && w.stack != [] && k < 2 && Top(w) == Frame(k, Inner) && w' == Step(w, Tick)
    requires c' == w.lists[k].(firingIndex := w.lists[k].firingIndex + 1) && 0 <= c'.firingIndex < 3
    requires c'.firingIndex < |c'.list| && c'.list[c'.firingIndex] == Built(k)[c'.firingIndex]
    ensures |w'.lists| == 3 && w'.stack == w.stack && w'.lists[k] == c' && Read(w'.log) == Read(w.log)
    ensures w'.state == if c'.firingIndex == 0 then Outcome(k) else w.state
    ensures w'.lists[1 - k] == if c'.firingIndex == 1 then CallbackLists.Disable(w.lists[1 - k]) else w.lists[1 - k]
    ensures w'.lists[PROGRESS] == if c'.firingIndex == 2 then CallbackLists.Lock(w.lists[PROGRESS])
                                  else w.lists[PROGRESS]
  {
    hide Step, Apply, Read;
    var f := c'.list[c'.firingIndex];
    var at := Note(Put(w, k, c'), Called(k, f, w.lists[k].memory));
    BuiltInCalled(w, k, c', at, f);
    BuiltInApplied(at, k, c'.firingIndex, f);
  }

  lemma StepKeepsDeferred(w: World, m: Move)
    requires DeferredInv(w) && Allowed(m)
    ensures DeferredInv(Step(w, m))
  {
    StepKeepsInv(w, m);
    if Enabled(w, m) {
      match m
      case Issue(command) => CommandKeepsDeferred(w, Step(w, m), command);
      case Return(isFalse) =>
        if Top(w).on == PROGRESS {
          ReturnProgress(w, Step(w, m), isFalse);
        } else {
          InnermostWins(w, Top(w).on, Top(w).pc);
          ReturnSettled(w, Step(w, m), Top(w).on, Read(w.log).settled.value.1, isFalse);
        }
      case Tick => TickKeepsDeferred(w, Step(w, m));
    }
  }

  lemma InnermostWins(w: World, k: nat, pc: Pc)
    requires DeferredInv(w) && w.stack != [] && Top(w) == Frame(k, pc) && k < 2
    ensures Read(w.log).settled.Some? && OnTop(w, k, Read(w.log).settled.value.1, pc)
  {
    TopIsWinner(w, k);
    SettledParts(w, k, Read(w.log).settled.value.1);
  }

  lemma TickKeepsDeferred(w: World, w': World)
    requires DeferredInv(w) && Enabled(w, Tick) && w' == Step(w, Tick)
    ensures Now(w')
  {
    var k := Top(w).on;
    if k == PROGRESS {
      if Top(w).pc == Outer { TickProgressOuter(w, w'); } else { TickProgressInner(w, w'); }
    } else {
      InnermostWins(w, k, Top(w).pc);
      var a := Read(w.log).settled.value.1;
      if Top(w).pc == Outer {
        if w.lists[k].queue != [] { TickStartSettled(w, w', k, a); } else { TickFinishSettled(w, w', k, a); }
      } else if Executed(w.lists[k], Some(Inner), k) < 3 {
        TickBuiltIn(w, w', k, a);
      } else if |w.lists[k].list| <= w.lists[k].firingIndex + 1 {
        TickEndSettled(w, w', k, a);
      } else {
        var c := w.lists[k];
        TickUserSettled(w, w', k, a, c, Read(w.log).Of(k), c.list[c.firingIndex + 1]);
      }
    }
  }

  lemma AddKeepsDeferred(w: World, w': World, i: nat, fns: seq<Callback>)
    requires DeferredInv(w) && UserInControl(w) && i < 3 && AllUsers(fns) && w' == AddIn(w, i, fns)
    ensures Now(w')
  {
    if i == PROGRESS {
      AddProgress(w, w', fns);
    } else if Read(w.log).settled == None {
      AddOpen(w, w', i, fns);
    } else {
      AddKeepsSettled(w, w', i, Read(w.log).settled.value.0, Read(w.log).settled.value.1, fns);
    }
  }

  lemma ThreeLists(w: World)
    requires Now(w)
    ensures |w.lists| == 3
  {
  }

  lemma FireSettled(w: World, w': World, i: nat, a: Payload)
    requires DeferredInv(w) && UserInControl(w) && i < 2 && w' == FireIn(w, i, a)
    requires Read(w.log).settled != None
    ensures w' == w
  {
    var k := Read(w.log).settled.value.0;
    SettledIgnores(w, k, Read(w.log).settled.value.1, [], a);
    assert i == k || i == 1 - k;
  }

  lemma FireKeepsDeferred(w: World, w': World, i: nat, a: Payload)
    requires DeferredInv(w) && UserInControl(w) && i < 3 && w' == FireIn(w, i, a)
    ensures Now(w')
  {
    ThreeLists(w);
    hide Inv, Now, FireIn, Read;
    if i == PROGRESS {
      FireProgress(w, w', a);
    } else if Read(w.log).settled == None {
      FireOpen(w, w', i, a);
    } else {
      FireSettled(w, w', i, a);
    }
  }

  lemma CommandKeepsDeferred(w: World, w': World, command: Command)
    requires DeferredInv(w) && Allowed(Issue(command)) && UserInControl(w) && w' == Perform(w, command)
    ensures Now(w')
  {
    match command
    case Add(i, fns) => AddKeepsDeferred(w, w', i, fns);
    case FireWith(i, a) => FireKeepsDeferred(w, w', i, a);
  }

  lemma AddKeepsSettled(w: World, w': World, i: nat, k: nat, a: Payload, fns: seq<Callback>)
    requires DeferredInv(w) && UserInControl(w) && i < 2 && AllUsers(fns) && w' == AddIn(w, i, fns)
    requires Read(w.log).settled == Some((k, a))
    ensures Now(w')
  {
    SettledInControl(w, k, a);
    SettledParts(w, k, a);
    if i != k {
      SettledIgnores(w, k, a, fns, a);
    } else if PcOf(w.stack, k) == None {
      AddSettledIdle(w, w', k, a, fns);
    } else {
      AddSettledFiring(w, w', k, a, fns);
    }
  }

  // ---------------------------------------------------------------- what every run shows

  lemma NewLists()
    ensures New() == World([Fresh(ONCE_MEMORY).(list := Built(DONE)), Fresh(ONCE_MEMORY).(list := Built(FAIL)),
                            Fresh(MEMORY)],
                           [], Pending, [])
  {
    var empty := World([Fresh(ONCE_MEMORY), Fresh(ONCE_MEMORY), Fresh(MEMORY)], [], Pending, []);
    AddQuietEffect(empty, DONE, Built(DONE), Built(DONE));
    var one := AddIn(empty, DONE, Built(DONE));
    AddQuietEffect(one, FAIL, Built(FAIL), Built(FAIL));
    assert [] + Built(DONE) == Built(DONE) && [] + Built(FAIL) == Built(FAIL);
  }

  lemma NewIsOpen(w: World)
    requires w == New()
    ensures Read(w.log) == NO_HISTORY && Now(w)
  {
    NewLists();
    assert Built(DONE) + [] == Built(DONE) && Built(FAIL) + [] == Built(FAIL);
    assert Untouched(w.lists[DONE], DONE, NO_HISTORY.done) && Untouched(w.lists[FAIL], FAIL, NO_HISTORY.fail);
  }

  lemma IdleInv(w: World)
    requires w.stack == [] && forall i :: 0 <= i < |w.lists| ==> ListShape(w.lists[i]) && !w.lists[i].firing
    ensures Inv(w)
  {
  }

  lemma NewIsShaped(w: World)
    requires w == New()
    ensures Inv(w)
  {
    NewLists();
    IdleInv(w);
  }

  lemma NewIsReady()
    ensures DeferredInv(New()) && Read(New().log) == NO_HISTORY
  {
    NewIsOpen(New());
    NewIsShaped(New());
  }

  predicate AllAllowed(moves: seq<Move>) {
    forall j :: 0 <= j < |moves| ==> Allowed(moves[j])
  }

  lemma {:induction false} RunKeepsDeferred(w: World, moves: seq<Move>)
    requires DeferredInv(w) && AllAllowed(moves)
    ensures DeferredInv(Run(w, moves))
    decreases |moves|
  {
    if moves != [] {
      StepKeepsDeferred(w, moves[0]);
      RunKeepsDeferred(Step(w, moves[0]), moves[1..]);
    }
  }

  /** What a caller can see of a Deferred at any moment of any run: nothing before it settles;
      then only the accepted side is called, a prefix of its registrations in order, each with
      the accepted arguments; the state is the accepted side or not yet written. */
  predicate Observed(w: World, h: History) {
    match h.settled
    case None => w.state == Pending && h.done.called == [] && h.fail.called == []
    case Some((k, a)) =>
      && k < 2
      && (w.state == Outcome(k) || (w.state == Pending && h.Of(k).called == []))
      && h.Of(1 - k).called == []
      && h.Of(k).called <= h.Of(k).registered
      && (forall j :: 0 <= j < |h.Of(k).args| ==> h.Of(k).args[j] == Some(a))
      && (w.stack == [] ==> w.state == Outcome(k) && h.Of(k).called == h.Of(k).registered)
  }

  lemma InvObserved(w: World)
    requires DeferredInv(w)
    ensures Observed(w, Read(w.log))
  {
    var h := Read(w.log);
    if h.settled.Some? {
      var (k, a) := h.settled.value;
      SettledParts(w, k, a);
    }
  }

  /** A Deferred settles at most once, whatever user code does inside or outside callbacks. */
  lemma SettlesOnce(moves: seq<Move>)
    requires AllAllowed(moves)
    ensures Observed(Run(New(), moves), Read(Run(New(), moves).log))
  {
    NewIsReady();
    RunKeepsDeferred(New(), moves);
    InvObserved(Run(New(), moves));
  }

  /** What decides the outcome: the first `resolve` or `reject` that user code issues. */
  function Decision(w: World, m: Move): Option<(nat, Payload)> {
    if Enabled(w, m) && m.Issue? && m.command.FireWith? && m.command.on < 2
    then Some((m.command.on, m.command.payload)) else None
  }

  lemma AddReads(w: World, i: nat, fns: seq<Callback>)
    requires i < |w.lists|
    ensures i >= 2 || w.lists[i].spent || !AddFires(w.lists[i]) ==>
              Read(AddIn(w, i, fns).log).settled == Read(w.log).settled
    ensures Read(w.log).settled.Some? ==> Read(AddIn(w, i, fns).log).settled == Read(w.log).settled
    ensures i < 2 && !w.lists[i].spent && !w.lists[i].options.unique ==>
              Read(AddIn(w, i, fns).log).Of(i).registered == Read(w.log).Of(i).registered + fns
  {
    var c := w.lists[i];
    if !c.spent {
      var news := Appended(c.list, c.options.unique, fns);
      if AddFires(c) {
        AddFiresEffect(w, i, fns, news);
      } else {
        AddQuietEffect(w, i, fns, news);
      }
    }
  }

  lemma AddDecidesNothing(w: World, i: nat, fns: seq<Callback>)
    requires DeferredInv(w) && i < 3
    ensures Read(AddIn(w, i, fns).log).settled == Read(w.log).settled
  {
    AddReads(w, i, fns);
    if i < 2 && Read(w.log).settled == None {
      assert Untouched(w.lists[i], i, Read(w.log).Of(i));
    }
  }

  lemma FireDecides(w: World, i: nat, a: Payload)
    requires DeferredInv(w) && UserInControl(w) && i < 3
    ensures Read(FireIn(w, i, a).log).settled
         == if Read(w.log).settled.Some? then Read(w.log).settled else if i < 2 then Some((i, a)) else None
    ensures Read(w.log).settled.Some? && i < 2 ==> FireIn(w, i, a) == w
  {
    ThreeLists(w);
    hide Inv, Now, FireIn, Read;
    if i == PROGRESS {
      ProgressReads(w, a);
    } else if Read(w.log).settled == None {
      FireOpen(w, FireIn(w, i, a), i, a);
    } else {
      var k := Read(w.log).settled.value.0;
      SettledIgnores(w, k, Read(w.log).settled.value.1, [], a);
      assert i == k || i == 1 - k;
    }
  }

  lemma ProgressReads(w: World, a: Payload)
    requires |w.lists| == 3
    ensures Read(FireIn(w, PROGRESS, a).log) == Read(w.log)
  {
    ReadNote(w.log, Accepted(PROGRESS, a, 0));
  }

  /** A step settles exactly when nothing was settled and user code resolves or rejects; the
      first such call is never undone, and later ones change nothing at all. */
  lemma FirstDecisionWins(w: World, m: Move, w': World)
    requires DeferredInv(w) && Allowed(m) && w' == Step(w, m)
    ensures Read(w'.log).settled == if Read(w.log).settled.Some? then Read(w.log).settled else Decision(w, m)
    ensures Read(w.log).settled.Some? && Decision(w, m).Some? ==> w' == w
  {
    hide DeferredInv;
    if Enabled(w, m) {
      match m
      case Issue(Add(i, fns)) => AddDecidesNothing(w, i, fns);
      case Issue(FireWith(i, a)) => FireDecides(w, i, a);
      case Return(_) => ReadNote(w.log, Stopped(Top(w).on));
      case Tick => TickReads(w);
    }
  }

  predicate AcceptsNothing(log: seq<Event>, log': seq<Event>) {
    log <= log' && forall j :: |log| <= j < |log'| ==> !log'[j].Accepted?
  }

  lemma {:induction false} SettledStays(log: seq<Event>, log': seq<Event>)
    requires AcceptsNothing(log, log')
    ensures Read(log').settled == Read(log).settled
    decreases |log'|
  {
    if |log'| > |log| {
      var front := log'[..|log'| - 1];
      SettledStays(log, front);
    } else {
      assert log' == log;
    }
  }

  lemma TickAcceptsNothing(w: World)
    requires Enabled(w, Tick)
    ensures AcceptsNothing(w.log, Step(w, Tick).log)
  {
  }

  lemma TickReads(w: World)
    requires w.stack != [] && Top(w).on < |w.lists|
    ensures Read(Step(w, Tick).log).settled == Read(w.log).settled
  {
    if Enabled(w, Tick) {
      TickAcceptsNothing(w);
      SettledStays(w.log, Step(w, Tick).log);
    }
  }

  /** Every function passed to `done` or `fail` is recorded, in order, as long as its side can
      still win: so on the winning side every registration is called exactly once. */
  lemma RegistrationsAreKept(w: World, i: nat, fns: seq<Callback>)
    requires DeferredInv(w) && UserInControl(w) && i < 2 && AllUsers(fns)
    requires Read(w.log).settled.Some? ==> Read(w.log).settled.value.0 == i
    ensures Read(AddIn(w, i, fns).log).Of(i).registered == Read(w.log).Of(i).registered + fns
  {
    if Read(w.log).settled.Some? {
      SettledInControl(w, i, Read(w.log).settled.value.1);
    } else {
      assert Untouched(w.lists[i], i, Read(w.log).Of(i));
    }
    AddReads(w, i, fns);
  }
}
