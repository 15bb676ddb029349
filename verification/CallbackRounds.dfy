/**
 What one round of a firing list calls, whatever the callbacks themselves do.
 */
module CallbackRounds {
  import opened Wrappers
  import opened CallbackLists
  import opened CallbackMachine

  // ---------------------------------------------------------------- a round started by `add`

  function StartCount(log: seq<Event>, i: nat): nat {
    if log == [] then 0
    else StartCount(log[..|log| - 1], i) + (if log[|log| - 1].Started? && log[|log| - 1].on == i then 1 else 0)
  }

  lemma StartsNote(log: seq<Event>, e: Event, i: nat)
    ensures StartCount(log + [e], i) == StartCount(log, i) + (if e.Started? && e.on == i then 1 else 0)
  {
    assert (log + [e])[..|log|] == log;
  }

  lemma {:induction false} NoStarts(log: seq<Event>, more: seq<Event>, i: nat)
    requires forall k :: 0 <= k < |more| ==> !(more[k].Started? && more[k].on == i)
    ensures StartCount(log + more, i) == StartCount(log, i)
  {
    if more == [] {
      assert log + more == log;
    } else {
      var front, last := more[..|more| - 1], more[|more| - 1];
      NoStarts(log, front, i);
      StartsNote(log + front, last, i);
      assert log + more == (log + front) + [last];
    }
  }

  predicate NoNewRound(log: seq<Event>, log': seq<Event>, i: nat) {
    log <= log' && forall k :: |log| <= k < |log'| ==> !(log'[k].Started? && log'[k].on == i)
  }

  lemma CommandAppends(w: World, command: Command, i: nat)
    requires Enabled(w, Issue(command))
    ensures NoNewRound(w.log, Perform(w, command).log, i)
  {
  }

  lemma InnerAppends(w: World, i: nat)
    requires Enabled(w, Tick)
    ensures NoNewRound(w.log, TickInner(w).log, i)
  {
  }

  lemma StepAppends(w: World, m: Move, i: nat)
    ensures StartsRound(w, m, i) ==> Step(w, m).log == w.log + [Started(i, w.lists[i].queue[0])]
    ensures !StartsRound(w, m, i) ==> NoNewRound(w.log, Step(w, m).log, i)
  {
    hide Perform, TickInner;
    if Enabled(w, m) {
      match m
      case Issue(command) => CommandAppends(w, command, i);
      case Return(_) =>
      case Tick =>
        if Top(w).pc != Outer {
          InnerAppends(w, i);
        }
    }
  }

  /** A step only adds to the log, and only an outer tick starts a round. */
  lemma StepLog(w: World, m: Move, i: nat)
    ensures w.log <= Step(w, m).log
    ensures StartCount(Step(w, m).log, i) == StartCount(w.log, i) + (if StartsRound(w, m, i) then 1 else 0)
  {
    StepAppends(w, m, i);
    if StartsRound(w, m, i) {
      StartsNote(w.log, Started(i, w.lists[i].queue[0]), i);
    } else {
      var more := Step(w, m).log[|w.log|..];
      assert Step(w, m).log == w.log + more;
      NoStarts(w.log, more, i);
    }
  }

  predicate StartsRound(w: World, m: Move, i: nat) {
    m.Tick? && Enabled(w, m) && Top(w) == Frame(i, Outer) && w.lists[i].queue != []
  }

  predicate AddsOnly(m: Move, i: nat, allowed: seq<Callback>) {
    m.Issue? && m.command.Add? && m.command.on == i ==> forall f :: f in m.command.fns ==> f in allowed
  }

  /** From position `from` on, every call on list `i` is of an allowed callback with `a`. */
  predicate CallsAllowed(log: seq<Event>, from: nat, i: nat, allowed: seq<Callback>, a: Payload) {
    forall k :: from <= k < |log| && log[k].Called? && log[k].on == i ==>
                  log[k].fn in allowed && log[k].args == Some(a)
  }

  /** The list is inside the round: what it may still call is allowed, and its arguments are `a`. */
  predicate RoundAllows(c: CallbackList, allowed: seq<Callback>, a: Payload) {
    && (c.memory.Some? ==> c.memory.value == a)
    && forall f :: f in ToDo(c) ==> f in allowed
  }

  predicate InRound(w: World, i: nat, allowed: seq<Callback>, a: Payload) {
    i < |w.lists| &&
    forall k :: 0 <= k < |w.stack| && w.stack[k].on == i && w.stack[k].pc != Outer ==>
                  RoundAllows(w.lists[i], allowed, a)
  }

  /** The activations in progress stay, and list `i` stays within what is allowed. */
  lemma RoundCarriesOver(w: World, w': World, i: nat, allowed: seq<Callback>, a: Payload)
    requires InRound(w, i, allowed, a) && |w'.lists| == |w.lists|
    requires RoundAllows(w.lists[i], allowed, a) ==> RoundAllows(w'.lists[i], allowed, a)
    requires forall k :: 0 <= k < |w'.stack| && w'.stack[k].on == i && w'.stack[k].pc != Outer ==>
                           k < |w.stack| && w.stack[k].on == i && w.stack[k].pc != Outer
    ensures InRound(w', i, allowed, a)
  {
  }

  lemma CommandKeepsAllowed(c: CallbackList, command: Command, allowed: seq<Callback>, a: Payload)
    requires ListShape(c) && c.firing && RoundAllows(c, allowed, a)
    requires AddsOnly(Issue(command), command.on, allowed)
    ensures RoundAllows(CommandOn(c, command), allowed, a)
  {
    match command
    case Add(_, fns) =>
      if !c.spent {
        AddWhileFiring(c, fns);
        AppendedFromFns(c.list, c.options.unique, fns);
      }
    case Remove(_, f) =>
      RemoveFiltersToDo(c, f);
      WithoutIsPart(ToDo(c), f);
    case Empty(_) =>
    case Disable(_) =>
    case Lock(_) =>
    case FireWith(_, _) => assert ToDo(Enqueue(c, command.payload)) == ToDo(c);
  }

  /** The list a command leaves when it does not start a round. */
  function CommandOn(c: CallbackList, command: Command): CallbackList {
    match command
    case Add(_, fns) => CallbackLists.Add(c, fns)
    case Remove(_, f) => CallbackLists.Remove(c, f)
    case Empty(_) => CallbackLists.Empty(c)
    case Disable(_) => CallbackLists.Disable(c)
    case Lock(_) => CallbackLists.Lock(c)
    case FireWith(_, p) => Enqueue(c, p)
  }

  /** What a command does to the stack and to list `i`. */
  lemma CommandEffect(w: World, command: Command, i: nat)
    requires Enabled(w, Issue(command)) && i < |w.lists|
    ensures var w' := Perform(w, command);
            && |w'.lists| == |w.lists|
            && (w'.stack == w.stack
                || (w'.stack == w.stack + [Frame(command.on, Outer)] && !w.lists[command.on].firing))
            && (command.on != i ==> w'.lists[i] == w.lists[i])
            && (command.on == i && w.lists[i].firing ==>
                  w'.lists[i] == CommandOn(w.lists[i], command) && w'.stack == w.stack)
  {
  }

  lemma CommandKeepsRound(w: World, command: Command, i: nat, allowed: seq<Callback>, a: Payload)
    requires Inv(w) && Enabled(w, Issue(command)) && InRound(w, i, allowed, a)
    requires AddsOnly(Issue(command), i, allowed)
    ensures InRound(Perform(w, command), i, allowed, a)
  {
    var w' := Perform(w, command);
    CommandEffect(w, command, i);
    if command.on == i && !w.lists[i].firing {
      assert forall k :: 0 <= k < |w.stack| ==> w.stack[k].on != i;
      assert forall k :: 0 <= k < |w'.stack| && w'.stack[k].on == i ==> w'.stack[k].pc == Outer;
    } else {
      if command.on == i && RoundAllows(w.lists[i], allowed, a) {
        CommandKeepsAllowed(w.lists[i], command, allowed, a);
      }
      RoundCarriesOver(w, w', i, allowed, a);
    }
  }

  lemma {:induction false} WithoutIsPart(s: seq<Callback>, f: Callback)
    ensures forall g :: g in Without(s, f) ==> g in s
  {
    if s != [] {
      WithoutIsPart(s[1..], f);
    }
  }

  /** The effect of a built-in callback on a list that may be in its round. */
  lemma BuiltInKeepsAllowed(c: CallbackList, allowed: seq<Callback>, a: Payload)
    requires RoundAllows(c, allowed, a)
    ensures RoundAllows(CallbackLists.Disable(c), allowed, a)
    ensures RoundAllows(CallbackLists.Lock(c), allowed, a)
  {
    assert ToDo(CallbackLists.Disable(c)) == [];
    assert ToDo(CallbackLists.Lock(c)) == [] || ToDo(CallbackLists.Lock(c)) == ToDo(c);
  }

  lemma CallKeepsAllowed(c: CallbackList, allowed: seq<Callback>, a: Payload)
    requires -1 <= c.firingIndex && c.firingIndex + 1 < |c.list| && RoundAllows(c, allowed, a)
    ensures RoundAllows(c.(firingIndex := c.firingIndex + 1), allowed, a)
    ensures c.list[c.firingIndex + 1] in allowed
  {
    assert c.list[c.firingIndex + 1] == ToDo(c)[0];
    assert ToDo(c.(firingIndex := c.firingIndex + 1)) == ToDo(c)[1..];
  }

  /** What one call in the inner loop does to list `i`, whichever list is firing. */
  lemma CallEffect(w: World, i: nat)
    requires Enabled(w, Tick) && Top(w).pc == Inner && i < |w.lists|
    requires 0 <= w.lists[Top(w).on].firingIndex + 1 < |w.lists[Top(w).on].list|
    ensures var w' := TickInner(w);
            var on := Top(w).on;
            var c := w.lists[on];
            var base := if on == i then c.(firingIndex := c.firingIndex + 1) else w.lists[i];
            && |w'.lists| == |w.lists|
            && (w'.lists[i] == base || w'.lists[i] == CallbackLists.Disable(base)
                || w'.lists[i] == CallbackLists.Lock(base))
            && |w'.stack| == |w.stack|
            && (forall k :: 0 <= k < |w.stack| ==> w'.stack[k].on == w.stack[k].on)
            && (forall k :: 0 <= k < |w.stack| - 1 ==> w'.stack[k] == w.stack[k])
            && var called := w.log + [Called(on, c.list[c.firingIndex + 1], c.memory)];
            w'.log == called || exists e: Event :: e.Cleared? && w'.log == called + [e]
  {
    var on := Top(w).on;
    var c := w.lists[on];
    match c.list[c.firingIndex + 1]
    case User(_) =>
    case SetState(_) =>
    case DisableList(j) =>
    case LockList(j) =>
  }

  predicate CallsNothing(log: seq<Event>, log': seq<Event>) {
    log <= log' && forall k :: |log| <= k < |log'| ==> !log'[k].Called?
  }

  /** A call keeps the round within what is allowed. */
  lemma CallKeepsRound(w: World, i: nat, allowed: seq<Callback>, a: Payload)
    requires Inv(w) && Enabled(w, Tick) && Top(w).pc == Inner && InRound(w, i, allowed, a)
    requires w.lists[Top(w).on].firingIndex + 1 < |w.lists[Top(w).on].list|
    ensures InRound(TickInner(w), i, allowed, a)
  {
    hide RoundAllows, Inv, TickInner;
    var on := Top(w).on;
    var c := w.lists[on];
    TopInShape(w);
    CallEffect(w, i);
    if on == i {
      assert w.stack[|w.stack| - 1].on == i && RoundAllows(c, allowed, a);
      CallKeepsAllowed(c, allowed, a);
      BuiltInKeepsAllowed(c.(firingIndex := c.firingIndex + 1), allowed, a);
    } else if RoundAllows(w.lists[i], allowed, a) {
      BuiltInKeepsAllowed(w.lists[i], allowed, a);
    }
    RoundCarriesOver(w, TickInner(w), i, allowed, a);
  }

  /** And it is of an allowed callback, with the arguments of the round. */
  lemma CallIsAllowed(w: World, i: nat, allowed: seq<Callback>, a: Payload, from: nat)
    requires Inv(w) && Enabled(w, Tick) && Top(w).pc == Inner && InRound(w, i, allowed, a)
    requires w.lists[Top(w).on].firingIndex + 1 < |w.lists[Top(w).on].list|
    requires CallsAllowed(w.log, from, i, allowed, a)
    ensures CallsAllowed(TickInner(w).log, from, i, allowed, a)
  {
    var on := Top(w).on;
    var c := w.lists[on];
    TopInShape(w);
    CallEffect(w, i);
    if on == i {
      assert w.stack[|w.stack| - 1].on == i && RoundAllows(c, allowed, a);
      CallKeepsAllowed(c, allowed, a);
      assert c.memory == Some(a);
    }
  }

  lemma RoundEndKeepsRound(w: World, i: nat, allowed: seq<Callback>, a: Payload)
    requires Inv(w) && Enabled(w, Tick) && Top(w).pc == Inner && InRound(w, i, allowed, a)
    requires w.lists[Top(w).on].firingIndex + 1 >= |w.lists[Top(w).on].list|
    ensures InRound(TickInner(w), i, allowed, a) && CallsNothing(w.log, TickInner(w).log)
  {
    var w', on := TickInner(w), Top(w).on;
    if on == i {
      assert forall k :: 0 <= k < |w.stack| - 1 ==> w.stack[k].on != i;
    } else {
      RoundCarriesOver(w, w', i, allowed, a);
    }
  }

  lemma CommandCallsNothing(w: World, command: Command)
    requires Enabled(w, Issue(command))
    ensures CallsNothing(w.log, Perform(w, command).log)
  {
  }

  lemma ReturnKeepsRound(w: World, isFalse: bool, i: nat, allowed: seq<Callback>, a: Payload)
    requires Inv(w) && Enabled(w, Return(isFalse)) && InRound(w, i, allowed, a)
    ensures InRound(ReturnIn(w, isFalse), i, allowed, a) && CallsNothing(w.log, ReturnIn(w, isFalse).log)
  {
    assert ToDo(Stop(w.lists[Top(w).on])) == [];
    RoundCarriesOver(w, ReturnIn(w, isFalse), i, allowed, a);
  }

  lemma OuterKeepsRound(w: World, i: nat, allowed: seq<Callback>, a: Payload)
    requires Inv(w) && Enabled(w, Tick) && Top(w).pc == Outer && InRound(w, i, allowed, a) && !StartsRound(w, Tick, i)
    ensures InRound(TickOuter(w), i, allowed, a) && CallsNothing(w.log, TickOuter(w).log)
  {
    var on, w' := Top(w).on, TickOuter(w);
    if on == i {
      OuterLeavesRound(w, i, allowed, a);
    } else {
      OuterElsewhere(w, i, allowed, a);
    }
  }

  /** The list's own activation, between rounds, returns. */
  lemma OuterLeavesRound(w: World, i: nat, allowed: seq<Callback>, a: Payload)
    requires Inv(w) && w.stack != [] && Top(w) == Frame(i, Outer) && i < |w.lists| && w.lists[i].queue == []
    ensures InRound(TickOuter(w), i, allowed, a) && CallsNothing(w.log, TickOuter(w).log)
  {
    hide RoundAllows;
    assert forall k :: 0 <= k < |w.stack| - 1 ==> w.stack[k].on != i;
  }

  lemma OuterElsewhere(w: World, i: nat, allowed: seq<Callback>, a: Payload)
    requires Inv(w) && w.stack != [] && Top(w).pc == Outer && Top(w).on != i && Top(w).on < |w.lists|
    requires InRound(w, i, allowed, a)
    ensures InRound(TickOuter(w), i, allowed, a) && CallsNothing(w.log, TickOuter(w).log)
  {
    hide Inv, RoundAllows;
    RoundCarriesOver(w, TickOuter(w), i, allowed, a);
  }

  lemma StepKeepsRound(w: World, m: Move, i: nat, allowed: seq<Callback>, a: Payload, from: nat)
    requires Inv(w) && InRound(w, i, allowed, a) && AddsOnly(m, i, allowed)
    requires CallsAllowed(w.log, from, i, allowed, a) && !StartsRound(w, m, i)
    ensures InRound(Step(w, m), i, allowed, a)
    ensures CallsAllowed(Step(w, m).log, from, i, allowed, a)
  {
    if Enabled(w, m) {
      match m
      case Issue(command) =>
        CommandKeepsRound(w, command, i, allowed, a);
        CommandCallsNothing(w, command);
      case Return(isFalse) =>
        ReturnKeepsRound(w, isFalse, i, allowed, a);
      case Tick =>
        if Top(w).pc == Outer {
          OuterKeepsRound(w, i, allowed, a);
        } else if w.lists[Top(w).on].firingIndex + 1 < |w.lists[Top(w).on].list| {
          CallKeepsRound(w, i, allowed, a);
          CallIsAllowed(w, i, allowed, a, from);
        } else {
          RoundEndKeepsRound(w, i, allowed, a);
        }
    }
  }

  lemma {:induction false} RunKeepsRound(
    w: World, moves: seq<Move>, i: nat, allowed: seq<Callback>, a: Payload, from: nat)
    requires Inv(w) && InRound(w, i, allowed, a) && CallsAllowed(w.log, from, i, allowed, a)
    requires forall k :: 0 <= k < |moves| ==> AddsOnly(moves[k], i, allowed)
    requires StartCount(Run(w, moves).log, i) == StartCount(w.log, i)
    ensures CallsAllowed(Run(w, moves).log, from, i, allowed, a)
    decreases |moves|
  {
    if moves != [] {
      StepLog(w, moves[0], i);
      StartsGrow(Step(w, moves[0]), moves[1..], i);
      StepKeepsInv(w, moves[0]);
      StepKeepsRound(w, moves[0], i, allowed, a, from);
      RunKeepsRound(Step(w, moves[0]), moves[1..], i, allowed, a, from);
    }
  }

  lemma {:induction false} StartsGrow(w: World, moves: seq<Move>, i: nat)
    ensures StartCount(w.log, i) <= StartCount(Run(w, moves).log, i)
    decreases |moves|
  {
    if moves != [] {
      StepLog(w, moves[0], i);
      StartsGrow(Step(w, moves[0]), moves[1..], i);
    }
  }

  /** The first tick of a round that may only call what is allowed. */
  lemma FirstTick(w: World, i: nat, allowed: seq<Callback>, a: Payload, from: nat)
    requires Inv(w) && w.stack != [] && Top(w) == Frame(i, Outer)
    requires w.lists[i].queue == [a] && forall f :: f in ToDo(w.lists[i]) ==> f in allowed
    requires CallsAllowed(w.log, from, i, allowed, a)
    ensures var w' := Step(w, Tick);
            InRound(w', i, allowed, a) && CallsAllowed(w'.log, from, i, allowed, a) && StartsRound(w, Tick, i)
  {
    var w' := Step(w, Tick);
    assert w'.lists[i] == Shift(w.lists[i]) && ToDo(w'.lists[i]) == ToDo(w.lists[i]);
    assert w'.log == w.log + [Started(i, a)];
  }

  lemma {:induction false} AddedRoundAllows(
    w: World, moves: seq<Move>, i: nat, allowed: seq<Callback>, a: Payload, from: nat)
    requires Inv(w) && w.stack != [] && Top(w) == Frame(i, Outer)
    requires w.lists[i].queue == [a] && forall f :: f in ToDo(w.lists[i]) ==> f in allowed
    requires CallsAllowed(w.log, from, i, allowed, a)
    requires forall k :: 0 <= k < |moves| ==> AddsOnly(moves[k], i, allowed)
    requires StartCount(Run(w, moves).log, i) <= StartCount(w.log, i) + 1
    ensures CallsAllowed(Run(w, moves).log, from, i, allowed, a)
    decreases |moves|
  {
    if moves != [] {
      StepLog(w, moves[0], i);
      if moves[0].Tick? {
        var w' := Step(w, Tick);
        FirstTick(w, i, allowed, a, from);
        StepKeepsInv(w, Tick);
        StartsGrow(w', moves[1..], i);
        RunKeepsRound(w', moves[1..], i, allowed, a, from);
      } else {
        AddedRoundAllows(w, moves[1..], i, allowed, a, from);
      }
    }
  }

  lemma AddIsAimed(w: World, i: nat, fns: seq<Callback>)
    requires Inv(w) && UserInControl(w) && i < |w.lists| && AddFires(w.lists[i])
    ensures var w' := AddIn(w, i, fns);
            var news := Appended(w.lists[i].list, w.lists[i].options.unique, fns);
            && Inv(w')
            && w'.stack == w.stack + [Frame(i, Outer)]
            && w'.lists[i].queue == [w.lists[i].memory.value]
            && ToDo(w'.lists[i]) == news
            && w'.log == w.log + [Registered(i, news), Accepted(i, w.lists[i].memory.value, |w.lists[i].list|)]
            && StartCount(w'.log, i) == StartCount(w.log, i)
  {
    var c := w.lists[i];
    var news := Appended(c.list, c.options.unique, fns);
    AddKeepsInv(w, i, fns);
    AddToIdleMemory(c, fns);
    assert AddIn(w, i, fns).lists[i] == Begin(CallbackLists.Add(c, fns));
    StartsNote(w.log, Registered(i, news), i);
    StartsNote(w.log + [Registered(i, news)], Accepted(i, c.memory.value, |c.list|), i);
    assert w.log + [Registered(i, news)] + [Accepted(i, c.memory.value, |c.list|)]
        == w.log + [Registered(i, news), Accepted(i, c.memory.value, |c.list|)];
  }

  /** `add` on an idle list that holds memory: until the list starts another round, it calls
      nothing but callbacks passed to this `add` or to an `add` made during the round, and it
      calls them with the remembered arguments - whatever any callback does meanwhile. */
  lemma AddReplaysOnlyNewCallbacks(
    w: World, i: nat, fns: seq<Callback>, w': World, moves: seq<Move>, allowed: seq<Callback>)
    requires Inv(w) && UserInControl(w) && i < |w.lists| && AddFires(w.lists[i])
    requires w' == AddIn(w, i, fns)
    requires forall f :: f in fns ==> f in allowed
    requires forall k :: 0 <= k < |moves| ==> AddsOnly(moves[k], i, allowed)
    requires StartCount(Run(w', moves).log, i) <= StartCount(w.log, i) + 1
    ensures CallsAllowed(Run(w', moves).log, |w.log|, i, allowed, w.lists[i].memory.value)
  {
    hide Inv, AddIn, Run, CallsAllowed, StartCount, ToDo;
    AddIsAimed(w, i, fns);
    AppendedFromFns(w.lists[i].list, w.lists[i].options.unique, fns);
    AddedRoundAllows(w', moves, i, allowed, w.lists[i].memory.value, |w.log|);
  }

  // ---------------------------------------------------------------- a round of quiet callbacks

  /** Each of `n` callbacks is called and returns. */
  function QuietMoves(n: nat): seq<Move> {
    if n == 0 then [] else [Tick, Return(false)] + QuietMoves(n - 1)
  }

  function CallsOf(i: nat, fns: seq<Callback>, a: Payload): (events: seq<Event>)
    ensures |events| == |fns|
  {
    if fns == [] then [] else [Called(i, fns[0], Some(a))] + CallsOf(i, fns[1..], a)
  }

  /** The world after the callbacks `fns` were called with `a` and returned. */
  function AfterCalls(w: World, i: nat, fns: seq<Callback>, a: Payload): World
    requires i < |w.lists|
  {
    var c := w.lists[i];
    Put(w, i, c.(firingIndex := c.firingIndex + |fns|)).(log := w.log + CallsOf(i, fns, a))
  }

  lemma AfterCallsStep(w: World, i: nat, fns: seq<Callback>, a: Payload)
    requires i < |w.lists| && fns != []
    ensures AfterCalls(AfterCalls(w, i, fns[..1], a), i, fns[1..], a) == AfterCalls(w, i, fns, a)
  {
    assert fns[..1][1..] == [];
    assert CallsOf(i, fns[..1], a) == [Called(i, fns[0], Some(a))];
    assert (w.log + CallsOf(i, fns[..1], a)) + CallsOf(i, fns[1..], a) == w.log + CallsOf(i, fns, a);
    var c := w.lists[i];
    var c' := c.(firingIndex := c.firingIndex + 1);
    var c'' := c.(firingIndex := c.firingIndex + |fns|);
    assert w.lists[i := c'][i := c''] == w.lists[i := c''];
  }

  lemma RunTwo(w: World, a: Move, b: Move)
    ensures Run(w, [a, b]) == Step(Step(w, a), b)
  {
    assert [a, b][1..] == [b] && [b][1..] == [];
    assert Run(w, [a, b]) == Run(Step(w, a), [b]) == Run(Step(Step(w, a), b), []);
  }

  /** The world in the middle of a call of the next callback. */
  function DuringCall(w: World, i: nat, a: Payload): World
    requires i < |w.lists| && w.stack != [] && ToDo(w.lists[i]) != []
  {
    var c := w.lists[i];
    w.(lists := w.lists[i := c.(firingIndex := c.firingIndex + 1)],
    stack := w.stack[..|w.stack| - 1] + [Frame(i, Calling)],
    log := w.log + [Called(i, ToDo(c)[0], Some(a))])
  }

  lemma TickCalls(w: World, i: nat, a: Payload)
    requires w.stack != [] && Top(w) == Frame(i, Inner) && i < |w.lists|
    requires w.lists[i].memory == Some(a) && ToDo(w.lists[i]) != [] && ToDo(w.lists[i])[0].User?
    ensures Step(w, Tick) == DuringCall(w, i, a)
  {
    assert ToDo(w.lists[i])[0] == w.lists[i].list[w.lists[i].firingIndex + 1];
  }

  lemma ReturnComesBack(w: World, i: nat)
    requires w.stack != [] && Top(w) == Frame(i, Calling) && i < |w.lists|
    ensures Step(w, Return(false)) == w.(stack := w.stack[..|w.stack| - 1] + [Frame(i, Inner)])
  {
    assert w.lists[i := w.lists[i]] == w.lists;
  }

  lemma QuietCall(w: World, i: nat, a: Payload, todo: seq<Callback>)
    requires w.stack != [] && Top(w) == Frame(i, Inner) && i < |w.lists|
    requires w.lists[i].memory == Some(a) && todo == ToDo(w.lists[i]) && todo != [] && todo[0].User?
    ensures Run(w, [Tick, Return(false)]) == AfterCalls(w, i, todo[..1], a)
  {
    RunTwo(w, Tick, Return(false));
    TickCalls(w, i, a);
    ReturnComesBack(DuringCall(w, i, a), i);
    assert DuringCall(w, i, a).stack[..|w.stack| - 1] + [Frame(i, Inner)] == w.stack;
    assert todo[..1][1..] == [];
    assert CallsOf(i, todo[..1], a) == [Called(i, todo[0], Some(a))];
  }

  lemma AfterOneCall(w: World, i: nat, a: Payload, todo: seq<Callback>)
    requires i < |w.lists| && w.lists[i].memory == Some(a) && todo == ToDo(w.lists[i]) && todo != []
    ensures var back := AfterCalls(w, i, todo[..1], a);
            && ToDo(back.lists[i]) == todo[1..] && back.stack == w.stack && |back.lists| == |w.lists|
            && back.lists[i].memory == Some(a) && back.lists[i].firingIndex == w.lists[i].firingIndex + 1
  {
  }

  lemma {:induction false} QuietCalls(w: World, i: nat, a: Payload, todo: seq<Callback>, moves: seq<Move>)
    requires w.stack != [] && Top(w) == Frame(i, Inner) && i < |w.lists|
    requires w.lists[i].memory == Some(a) && AllUsers(todo) && -1 <= w.lists[i].firingIndex
    requires todo == ToDo(w.lists[i]) && moves == QuietMoves(|todo|)
    ensures Run(w, moves) == AfterCalls(w, i, todo, a)
    decreases |todo|
  {
    if todo == [] {
      assert w.lists[i := w.lists[i]] == w.lists;
      assert w.log + CallsOf(i, todo, a) == w.log;
    } else {
      QuietCall(w, i, a, todo);
      AfterOneCall(w, i, a, todo);
      var back := AfterCalls(w, i, todo[..1], a);
      QuietCalls(back, i, a, todo[1..], QuietMoves(|todo| - 1));
      QuietCallsJoin(w, i, a, todo, QuietMoves(|todo| - 1), back);
    }
  }

  lemma QuietCallsJoin(w: World, i: nat, a: Payload, todo: seq<Callback>, rest: seq<Move>, back: World)
    requires i < |w.lists| && todo != [] && back == AfterCalls(w, i, todo[..1], a)
    requires Run(w, [Tick, Return(false)]) == back && Run(back, rest) == AfterCalls(back, i, todo[1..], a)
    ensures Run(w, [Tick, Return(false)] + rest) == AfterCalls(w, i, todo, a)
  {
    RunConcat(w, [Tick, Return(false)], rest);
    AfterCallsStep(w, i, todo, a);
  }

  /** One whole activation of `fire` on a list that nothing disturbs. */
  function QuietRound(n: nat): seq<Move> {
    [Tick] + QuietMoves(n) + [Tick, Tick]
  }

  lemma QuietStart(w: World, i: nat, a: Payload, stack: seq<Frame>)
    requires i < |w.lists| && w.stack == stack + [Frame(i, Outer)] && w.lists[i].queue == [a]
    ensures Step(w, Tick) == Put(w, i, w.lists[i].(memory := Some(a), queue := [])).(
                             stack := stack + [Frame(i, Inner)], log := w.log + [Started(i, a)])
  {
    var c := w.lists[i];
    assert Top(w) == Frame(i, Outer) && w.stack[..|stack|] == stack;
    assert c.queue[1..] == [] && Shift(c) == c.(memory := Some(a), queue := []);
  }

  /** What the list becomes in the middle of the round and at its end. */
  lemma MiddleOfRound(w: World, i: nat, a: Payload, started: World, todo: seq<Callback>, called: World)
    requires i < |w.lists| && todo == ToDo(w.lists[i]) && -1 <= w.lists[i].firingIndex
    requires started.lists == w.lists[i := w.lists[i].(memory := Some(a), queue := [])]
    requires called == AfterCalls(started, i, todo, a)
    ensures called.lists[i].(firingIndex := -1) == w.lists[i].(memory := Some(a), queue := [], firingIndex := -1)
    ensures ToDo(called.lists[i]) == [] && called.lists[i].queue == []
    ensures called.stack == started.stack && called.log == started.log + CallsOf(i, todo, a)
    ensures var c := Finish(w.lists[i].(memory := Some(a), queue := [], firingIndex := -1));
            called.lists[i := c] == w.lists[i := c]
  {
    var c := w.lists[i];
    assert ToDo(c) == [] || c.firingIndex + |todo| + 1 == |c.list|;
  }

  function Retirement(i: nat, c: CallbackList): seq<Event> {
    if c.locked then [Retired(i)] else []
  }

  lemma InnerEnd(w: World, i: nat, stack: seq<Frame>)
    requires i < |w.lists| && w.stack == stack + [Frame(i, Inner)] && ToDo(w.lists[i]) == []
    ensures Step(w, Tick) == Put(w, i, w.lists[i].(firingIndex := -1)).(
                             stack := stack + [Frame(i, Outer)], log := w.log + [Ended(i)])
  {
    var c := w.lists[i];
    assert 0 <= c.firingIndex + 1 < |c.list| ==> |ToDo(c)| > 0;
    assert Top(w) == Frame(i, Inner) && w.stack[..|stack|] == stack;
  }

  lemma OuterEnd(w: World, i: nat, stack: seq<Frame>)
    requires i < |w.lists| && w.stack == stack + [Frame(i, Outer)] && w.lists[i].queue == []
    ensures Step(w, Tick) == Put(w, i, Finish(w.lists[i])).(stack := stack, log := w.log + Retirement(i, w.lists[i]))
  {
    assert Top(w) == Frame(i, Outer) && w.stack[..|stack|] == stack;
  }

  lemma QuietEnd(w: World, i: nat, stack: seq<Frame>, c: CallbackList)
    requires i < |w.lists| && w.stack == stack + [Frame(i, Inner)]
    requires ToDo(w.lists[i]) == [] && w.lists[i].queue == [] && c == w.lists[i].(firingIndex := -1)
    ensures Run(w, [Tick, Tick]) ==
            Put(w, i, Finish(c)).(stack := stack, log := w.log + ([Ended(i)] + Retirement(i, c)))
  {
    InnerEnd(w, i, stack);
    OuterEnd(Step(w, Tick), i, stack);
    RunTwo(w, Tick, Tick);
    assert w.lists[i := c][i := Finish(c)] == w.lists[i := Finish(c)];
    assert (w.log + [Ended(i)]) + Retirement(i, c) == w.log + ([Ended(i)] + Retirement(i, c));
  }

  lemma RoundRuns(w: World, n: nat)
    ensures Run(w, QuietRound(n)) == Run(Run(Step(w, Tick), QuietMoves(n)), [Tick, Tick])
  {
    RunConcat(w, [Tick] + QuietMoves(n), [Tick, Tick]);
    RunConcat(w, [Tick], QuietMoves(n));
    assert [Tick][1..] == [] && Run(w, [Tick]) == Step(w, Tick);
  }

  /** What a whole undisturbed activation leaves in the log. */
  function RoundLog(i: nat, c: CallbackList, todo: seq<Callback>, a: Payload): seq<Event> {
    [Started(i, a)] + CallsOf(i, todo, a) + ([Ended(i)] + Retirement(i, c))
  }

  lemma QuietRoundRuns(w: World, i: nat, a: Payload, stack: seq<Frame>)
    requires i < |w.lists| && w.stack == stack + [Frame(i, Outer)]
    requires w.lists[i].queue == [a] && AllUsers(ToDo(w.lists[i])) && -1 <= w.lists[i].firingIndex
    ensures var todo := ToDo(w.lists[i]);
            Run(w, QuietRound(|todo|)) ==
            Put(w, i, Finish(w.lists[i].(memory := Some(a), queue := [], firingIndex := -1)))
            .(stack := stack, log := w.log + RoundLog(i, w.lists[i], todo, a))
  {
    var todo := ToDo(w.lists[i]);
    var started := Step(w, Tick);
    QuietStart(w, i, a, stack);
    assert ToDo(started.lists[i]) == todo;
    QuietCalls(started, i, a, todo, QuietMoves(|todo|));
    var called := AfterCalls(started, i, todo, a);
    MiddleOfRound(w, i, a, started, todo, called);
    QuietEnd(called, i, stack, called.lists[i].(firingIndex := -1));
    RoundRuns(w, |todo|);
    LogsJoin(w.log, [Started(i, a)], CallsOf(i, todo, a), [Ended(i)] + Retirement(i, w.lists[i]));
  }

  lemma LogsJoin(a: seq<Event>, b: seq<Event>, c: seq<Event>, d: seq<Event>)
    ensures ((a + b) + c) + d == a + ((b + c) + d)
  {
  }

  /** `fire` on an idle unlocked list calls every callback once, in list order, and the round ends. */
  lemma FireCallsTheList(w: World, i: nat, a: Payload)
    requires Inv(w) && UserInControl(w) && i < |w.lists| && FireWithStarts(w.lists[i])
    requires AllUsers(w.lists[i].list)
    ensures var c := w.lists[i];
            var w' := Run(FireIn(w, i, a), QuietRound(|c.list|));
            w'.log == w.log + [Accepted(i, a, 0)] + RoundLog(i, Begin(c), c.list, a) && w'.stack == w.stack
  {
    var fired := FireIn(w, i, a);
    assert ToDo(fired.lists[i]) == w.lists[i].list;
    QuietRoundRuns(fired, i, a, w.stack);
  }

  /** `add` on an idle list that remembers `a` calls the callbacks it appends, once each and in
      order, with `a`, and nothing else. */
  lemma AddCallsTheNewOnes(w: World, i: nat, fns: seq<Callback>)
    requires Inv(w) && UserInControl(w) && i < |w.lists| && AddFires(w.lists[i])
    requires AllUsers(fns)
    ensures var c := w.lists[i];
            var a := c.memory.value;
            var news := Appended(c.list, c.options.unique, fns);
            var w' := Run(AddIn(w, i, fns), QuietRound(|news|));
            && w'.log == w.log + [Registered(i, news), Accepted(i, a, |c.list|)] + RoundLog(i, Begin(c), news, a)
            && w'.stack == w.stack
  {
    var c := w.lists[i];
    var news := Appended(c.list, c.options.unique, fns);
    AddIsAimed(w, i, fns);
    AppendedFromFns(c.list, c.options.unique, fns);
    assert AllUsers(news) by {
      assert forall k :: 0 <= k < |news| ==> news[k] in news;
    }
    QuietRoundRuns(AddIn(w, i, fns), i, c.memory.value, w.stack);
  }
}
