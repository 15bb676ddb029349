/**
 What the history of a list says of it: whether it is locked, whether it was ever fired, what it
 remembers; and so which fires it accepts and which registrations make it fire again.
 */
module CallbackStatus {
  import opened Wrappers
  import opened Sequences
  import opened CallbackLists
  import opened CallbackMachine
  import opened CallbackLedgers
  import opened CallbackRounds

  datatype Status = Status(locked: bool, fired: bool, memory: Option<Payload>)

  /** A list that starts to fire is locked exactly if it fires only once; `disable` and `lock` lock it;
      a round leaves its arguments behind, unless a callback stops it or the list is spent. */
  function After(s: Status, once: bool, e: Event): Status {
    match e
    case Accepted(_, _, _) => s.(locked := once, fired := true)
    case Cleared(_, spent) => s.(locked := true, memory := if spent then None else s.memory)
    case Started(_, a) => s.(memory := Some(a))
    case Stopped(_) => s.(memory := None)
    case _ => s
  }

  function ReadStatus(base: Status, once: bool, log: seq<Event>, i: nat): Status {
    if log == [] then base
    else
      var before, last := ReadStatus(base, once, log[..|log| - 1], i), log[|log| - 1];
      if last.on == i then After(before, once, last) else before
  }

  lemma StatusNote(base: Status, once: bool, log: seq<Event>, e: Event, i: nat)
    ensures ReadStatus(base, once, log + [e], i) ==
            if e.on == i then After(ReadStatus(base, once, log, i), once, e) else ReadStatus(base, once, log, i)
  {
    assert (log + [e])[..|log|] == log;
  }

  function StatusOf(c: CallbackList): Status {
    Status(c.locked, c.fired, c.memory)
  }

  /** What is read is what is there; an idle locked list without memory is spent. */
  predicate Agrees(s: Status, c: CallbackList) {
    && c.locked == s.locked && c.fired == s.fired
    && (c.options.memory ==> c.memory == s.memory)
    && (!c.firing && c.locked && c.memory.None? ==> c.spent)
    && (c.firing ==> c.fired && (c.options.once ==> c.locked))
  }

  predicate StatusHolds(base: Status, options: Options, w: World, i: nat) {
    && i < |w.lists| && w.lists[i].options == options && ListShape(w.lists[i])
    && Agrees(ReadStatus(base, options.once, w.log, i), w.lists[i])
  }

  // ---------------------------------------------------------------- every step

  /** No event of this list, and nothing that matters of it changes. */
  lemma Unnoted(base: Status, options: Options, w: World, w': World, i: nat)
    requires StatusHolds(base, options, w, i) && w'.log == w.log && i < |w'.lists| && ListShape(w'.lists[i])
    requires w'.lists[i].options == w.lists[i].options
    requires Agrees(StatusOf(w.lists[i]), w'.lists[i])
    ensures StatusHolds(base, options, w', i)
  {
  }

  /** One event, of this list or of another. */
  lemma Noted(base: Status, options: Options, w: World, w': World, i: nat, e: Event)
    requires StatusHolds(base, options, w, i) && w'.log == w.log + [e] && i < |w'.lists| && ListShape(w'.lists[i])
    requires w'.lists[i].options == w.lists[i].options
    requires e.on != i ==> w'.lists[i] == w.lists[i]
    requires e.on == i ==>
               forall s :: Agrees(s, w.lists[i]) ==> Agrees(After(s, options.once, e), w'.lists[i])
    ensures StatusHolds(base, options, w', i)
  {
    StatusNote(base, options.once, w.log, e, i);
  }

  lemma InShape(w: World, i: nat)
    requires Inv(w) && i < |w.lists|
    ensures ListShape(w.lists[i])
  {
  }

  lemma AddKeepsStatus(base: Status, options: Options, w: World, on: nat, fns: seq<Callback>, i: nat)
    requires StatusHolds(base, options, w, i) && on < |w.lists| && Inv(AddIn(w, on, fns))
    ensures StatusHolds(base, options, AddIn(w, on, fns), i)
  {
    hide Inv, ReadStatus;
    var c, w' := w.lists[on], AddIn(w, on, fns);
    InShape(w', i);
    if !c.spent {
      if AddFires(c) {
        RefireKeepsStatus(base, options, w, on, fns, i);
      } else {
        Noted(base, options, w, w', i, Registered(on, Appended(c.list, c.options.unique, fns)));
      }
    }
  }

  lemma RefireKeepsStatus(base: Status, options: Options, w: World, on: nat, fns: seq<Callback>, i: nat)
    requires StatusHolds(base, options, w, i) && on < |w.lists| && AddFires(w.lists[on])
    requires ListShape(AddIn(w, on, fns).lists[i])
    ensures StatusHolds(base, options, AddIn(w, on, fns), i)
  {
    hide ReadStatus;
    var c, w' := w.lists[on], AddIn(w, on, fns);
    var registered := Registered(on, Appended(c.list, c.options.unique, fns));
    var accepted := Accepted(on, c.memory.value, |c.list|);
    StatusNote(base, options.once, w.log, registered, i);
    StatusNote(base, options.once, w.log + [registered], accepted, i);
    assert w'.log == (w.log + [registered]) + [accepted];
  }

  lemma FireKeepsStatus(base: Status, options: Options, w: World, on: nat, a: Payload, i: nat)
    requires StatusHolds(base, options, w, i) && on < |w.lists| && Inv(FireIn(w, on, a))
    ensures StatusHolds(base, options, FireIn(w, on, a), i)
  {
    var w' := FireIn(w, on, a);
    assert i < |w'.lists| && ListShape(w'.lists[i]);
    if !w.lists[on].locked {
      Noted(base, options, w, w', i, Accepted(on, a, 0));
    }
  }

  lemma ClearKeepsStatus(base: Status, options: Options, w: World, on: nat, i: nat)
    requires StatusHolds(base, options, w, i)
    ensures StatusHolds(base, options, DisableIn(w, on), i) && StatusHolds(base, options, LockIn(w, on), i)
  {
    if on < |w.lists| {
      Noted(base, options, w, DisableIn(w, on), i, Cleared(on, true));
      Noted(base, options, w, LockIn(w, on), i, Cleared(on, w.lists[on].memory.None?));
    }
  }

  lemma EditKeepsStatus(base: Status, options: Options, w: World, command: Command, i: nat)
    requires StatusHolds(base, options, w, i) && command.on < |w.lists| && (command.Remove? || command.Empty?)
    requires Inv(Perform(w, command))
    ensures StatusHolds(base, options, Perform(w, command), i)
  {
    var w' := Perform(w, command);
    assert i < |w'.lists| && ListShape(w'.lists[i]);
    var e := if command.Remove? then Removed(command.on, command.fn) else Emptied(command.on);
    if command.Remove? || !w.lists[command.on].spent {
      Noted(base, options, w, w', i, e);
    }
  }

  lemma StartKeepsStatus(base: Status, options: Options, w: World, w': World, on: nat, i: nat)
    requires StatusHolds(base, options, w, i) && on < |w.lists| && w.lists[on].queue != []
    requires w'.lists == w.lists[on := Shift(w.lists[on])]
    requires w'.log == w.log + [Started(on, w.lists[on].queue[0])]
    ensures StatusHolds(base, options, w', i)
  {
    hide ReadStatus;
    Noted(base, options, w, w', i, Started(on, w.lists[on].queue[0]));
  }

  lemma FinishKeepsStatus(base: Status, options: Options, w: World, w': World, on: nat, i: nat)
    requires StatusHolds(base, options, w, i) && on < |w.lists|
    requires w'.lists == w.lists[on := Finish(w.lists[on])] && ListShape(w'.lists[i])
    requires w'.log == w.log + if w.lists[on].locked then [Retired(on)] else []
    ensures StatusHolds(base, options, w', i)
  {
    hide ReadStatus;
    if w.lists[on].locked {
      Noted(base, options, w, w', i, Retired(on));
    } else {
      Unnoted(base, options, w, w', i);
    }
  }

  lemma OuterKeepsStatus(base: Status, options: Options, w: World, i: nat)
    requires StatusHolds(base, options, w, i) && w.stack != [] && Top(w).on < |w.lists| && Inv(TickOuter(w))
    ensures StatusHolds(base, options, TickOuter(w), i)
  {
    hide Inv, ReadStatus, Finish, Shift;
    var on, w' := Top(w).on, TickOuter(w);
    InShape(w', i);
    if w.lists[on].queue != [] {
      StartKeepsStatus(base, options, w, w', on, i);
    } else {
      FinishKeepsStatus(base, options, w, w', on, i);
    }
  }

  lemma InnerKeepsStatus(base: Status, options: Options, w: World, i: nat)
    requires StatusHolds(base, options, w, i) && Inv(w) && w.stack != []
    ensures StatusHolds(base, options, TickInner(w), i)
  {
    hide Inv, StatusHolds, ReadStatus, LockIn, DisableIn, Apply;
    TopInShape(w);
    var on := Top(w).on;
    var c := w.lists[on];
    var next := c.firingIndex + 1;
    if next < |c.list| {
      var called := Called(on, c.list[next], c.memory);
      var at := Note(Put(w, on, c.(firingIndex := next)), called);
      CalledKeepsStatus(base, options, w, at, on, i);
      ApplyKeepsStatus(base, options, at, c.list[next], i);
    } else {
      EndKeepsStatus(base, options, w, TickInner(w), on, i);
    }
  }

  lemma EndKeepsStatus(base: Status, options: Options, w: World, w': World, on: nat, i: nat)
    requires StatusHolds(base, options, w, i) && on < |w.lists| && w.lists[on].firing
    requires w'.lists == w.lists[on := w.lists[on].(firingIndex := -1)] && w'.log == w.log + [Ended(on)]
    ensures StatusHolds(base, options, w', i)
  {
    Noted(base, options, w, w', i, Ended(on));
  }

  lemma ApplyKeepsStatus(base: Status, options: Options, w: World, f: Callback, i: nat)
    requires StatusHolds(base, options, w, i) && w.stack != []
    ensures StatusHolds(base, options, Apply(w, f), i)
  {
    match f
    case DisableList(j) => ClearKeepsStatus(base, options, w, j, i);
    case LockList(j) => ClearKeepsStatus(base, options, w, j, i);
    case _ =>
  }

  lemma CalledKeepsStatus(base: Status, options: Options, w: World, at: World, on: nat, i: nat)
    requires StatusHolds(base, options, w, i) && on < |w.lists| && ListShape(w.lists[on]) && w.lists[on].firing
    requires var c := w.lists[on];
             && 0 <= c.firingIndex + 1 < |c.list|
             && at == Note(Put(w, on, c.(firingIndex := c.firingIndex + 1)),
                           Called(on, c.list[c.firingIndex + 1], c.memory))
    ensures StatusHolds(base, options, at, i)
  {
    var c := w.lists[on];
    Noted(base, options, w, at, i, Called(on, c.list[c.firingIndex + 1], c.memory));
  }

  lemma ReturnKeepsStatus(base: Status, options: Options, w: World, isFalse: bool, i: nat)
    requires StatusHolds(base, options, w, i) && Enabled(w, Return(isFalse)) && Inv(w)
    ensures StatusHolds(base, options, ReturnIn(w, isFalse), i)
  {
    TopInShape(w);
    hide Inv;
    if isFalse && w.lists[Top(w).on].options.stopOnFalse {
      Noted(base, options, w, ReturnIn(w, isFalse), i, Stopped(Top(w).on));
    }
  }

  lemma CommandKeepsStatus(base: Status, options: Options, w: World, command: Command, i: nat)
    requires StatusHolds(base, options, w, i) && command.on < |w.lists| && Inv(Perform(w, command))
    ensures StatusHolds(base, options, Perform(w, command), i)
  {
    hide Inv, StatusHolds;
    match command
    case Add(on, fns) => AddKeepsStatus(base, options, w, on, fns, i);
    case Disable(on) => ClearKeepsStatus(base, options, w, on, i);
    case Lock(on) => ClearKeepsStatus(base, options, w, on, i);
    case FireWith(on, a) => FireKeepsStatus(base, options, w, on, a, i);
    case _ => EditKeepsStatus(base, options, w, command, i);
  }

  lemma StepKeepsStatus(base: Status, options: Options, w: World, m: Move, i: nat)
    requires Inv(w) && StatusHolds(base, options, w, i)
    ensures StatusHolds(base, options, Step(w, m), i)
  {
    StepKeepsInv(w, m);
    hide Inv, StatusHolds;
    if Enabled(w, m) {
      match m
      case Issue(command) => CommandKeepsStatus(base, options, w, command, i);
      case Return(isFalse) => ReturnKeepsStatus(base, options, w, isFalse, i);
      case Tick =>
        if Top(w).pc == Outer {
          OuterKeepsStatus(base, options, w, i);
        } else {
          InnerKeepsStatus(base, options, w, i);
        }
    }
  }

  lemma {:induction false} RunKeepsStatus(base: Status, options: Options, w: World, moves: seq<Move>, i: nat)
    requires Inv(w) && StatusHolds(base, options, w, i)
    ensures StatusHolds(base, options, Run(w, moves), i)
    decreases |moves|
  {
    if moves != [] {
      StepKeepsInv(w, moves[0]);
      StepKeepsStatus(base, options, w, moves[0], i);
      RunKeepsStatus(base, options, Step(w, moves[0]), moves[1..], i);
    }
  }

  // ---------------------------------------------------------------- what it decides

  /** A list as `jQuery.Callbacks` makes it, perhaps with callbacks in it. */
  predicate Unused(c: CallbackList) {
    c == Fresh(c.options).(list := c.list)
  }

  function Unfired(): Status {
    Status(false, false, None)
  }

  /** What the history of a list says after a run that began when nothing had been fired. */
  function Told(w: World, moves: seq<Move>, i: nat): Status
    requires i < |w.lists|
  {
    ReadStatus(Unfired(), w.lists[i].options.once, Run(w, moves).log, i)
  }

  lemma StatusInRuns(w: World, moves: seq<Move>, i: nat)
    requires Initial(w) && i < |w.lists| && Unused(w.lists[i])
    ensures Inv(Run(w, moves)) && StatusHolds(Unfired(), w.lists[i].options, Run(w, moves), i)
  {
    assert Inv(w);
    InvHolds(w, moves);
    RunKeepsStatus(Unfired(), w.lists[i].options, w, moves, i);
  }

  /** Locked, by the history alone: a list that fires once by anything accepted or by `disable` or `lock`;
      any other by the latter, unless it was made to fire since. */
  predicate SaysLocked(once: bool, log: seq<Event>, i: nat) {
    exists k :: && 0 <= k < |log| && log[k].on == i && (log[k].Cleared? || (once && log[k].Accepted?))
                && (once || forall j :: k < j < |log| && log[j].on == i ==> !log[j].Accepted?)
  }

  /** Remembered, by the history alone: the arguments of the last round, unless a callback has stopped it or
      they were dropped since. */
  predicate SaysRemembered(log: seq<Event>, i: nat, a: Payload) {
    exists k :: && 0 <= k < |log| && log[k] == Started(i, a)
                && forall j :: k < j < |log| && log[j].on == i ==> !Forgets(log[j])
  }

  predicate Forgets(e: Event) {
    e.Started? || e.Stopped? || (e.Cleared? && e.spent)
  }

  lemma LockedNote(once: bool, log: seq<Event>, e: Event, i: nat)
    ensures SaysLocked(once, log + [e], i) <==>
            if e.on == i && (e.Cleared? || (once && e.Accepted?)) then true
            else SaysLocked(once, log, i) && (once || e.on != i || !e.Accepted?)
  {
    var more := log + [e];
    assert more[|log|] == e && forall k :: 0 <= k < |log| ==> more[k] == log[k];
    if SaysLocked(once, log, i) && (once || e.on != i || !e.Accepted?) {
      var k :| && 0 <= k < |log| && log[k].on == i && (log[k].Cleared? || (once && log[k].Accepted?))
               && (once || forall j :: k < j < |log| && log[j].on == i ==> !log[j].Accepted?);
      assert more[k] == log[k];
    }
  }

  lemma RememberedNote(log: seq<Event>, e: Event, i: nat, a: Payload)
    ensures SaysRemembered(log + [e], i, a) <==>
            e == Started(i, a) || (SaysRemembered(log, i, a) && (e.on != i || !Forgets(e)))
  {
    var more := log + [e];
    assert more[|log|] == e && forall k :: 0 <= k < |log| ==> more[k] == log[k];
    if SaysRemembered(log, i, a) && (e.on != i || !Forgets(e)) {
      var k :| && 0 <= k < |log| && log[k] == Started(i, a)
               && forall j :: k < j < |log| && log[j].on == i ==> !Forgets(log[j]);
      assert more[k] == log[k];
    }
  }

  lemma {:induction false} StatusIsSaid(once: bool, log: seq<Event>, i: nat, a: Payload)
    ensures ReadStatus(Unfired(), once, log, i).locked <==> SaysLocked(once, log, i)
    ensures ReadStatus(Unfired(), once, log, i).memory == Some(a) <==> SaysRemembered(log, i, a)
  {
    if log != [] {
      var front, last := log[..|log| - 1], log[|log| - 1];
      StatusIsSaid(once, front, i, a);
      LockedNote(once, front, last, i);
      RememberedNote(front, last, i, a);
      assert log == front + [last];
    }
  }

  /** At any moment of any run a fire, nested or not, is accepted with its arguments exactly if the history
      does not say that the list is locked; otherwise it does nothing. */
  lemma FireIsAcceptedIff(w: World, moves: seq<Move>, i: nat, a: Payload)
    requires Initial(w) && i < |w.lists| && Unused(w.lists[i])
    ensures var w' := Run(w, moves);
            && i < |w'.lists|
            && (if SaysLocked(w.lists[i].options.once, w'.log, i) then FireIn(w', i, a) == w'
                else FireIn(w', i, a).log == w'.log + [Accepted(i, a, 0)])
  {
    StatusInRuns(w, moves, i);
    StatusIsSaid(w.lists[i].options.once, Run(w, moves).log, i, a);
    hide SaysLocked, Run, Inv, ReadStatus;
  }

  /** What an idle list remembers is what its history says, if it has memory at all. */
  lemma IdleListsRemember(w: World, moves: seq<Move>, i: nat)
    requires Initial(w) && i < |w.lists| && Unused(w.lists[i])
    requires i < |Run(w, moves).lists| && !Run(w, moves).lists[i].firing
    ensures var w' := Run(w, moves);
            && w'.lists[i].options == w.lists[i].options
            && forall a: Payload :: w'.lists[i].memory == Some(a) <==>
                                    w.lists[i].options.memory && SaysRemembered(w'.log, i, a)
  {
    var w' := Run(w, moves);
    StatusInRuns(w, moves, i);
    forall a: Payload
      ensures w'.lists[i].memory == Some(a) <==> w.lists[i].options.memory && SaysRemembered(w'.log, i, a)
    {
      StatusIsSaid(w.lists[i].options.once, w'.log, i, a);
    }
  }

  /** An idle list takes no more callbacks exactly if it is locked and remembers nothing. */
  lemma AddIsIgnoredIff(w: World, moves: seq<Move>, i: nat, fns: seq<Callback>)
    requires Initial(w) && i < |w.lists| && Unused(w.lists[i])
    requires i < |Run(w, moves).lists| && !Run(w, moves).lists[i].firing
    ensures var w' := Run(w, moves);
            AddIn(w', i, fns) == w' <==>
            && SaysLocked(w.lists[i].options.once, w'.log, i)
            && !(w.lists[i].options.memory && exists a :: SaysRemembered(w'.log, i, a))
  {
    var w' := Run(w, moves);
    StatusInRuns(w, moves, i);
    IdleListsRemember(w, moves, i);
    StatusIsSaid(w.lists[i].options.once, w'.log, i, 0);
    hide SaysLocked, SaysRemembered, Run, Inv, ReadStatus;
    assert w'.lists[i].spent <==> w'.lists[i].locked && w'.lists[i].memory.None?;
    if w'.lists[i].memory.Some? {
      assert w'.lists[i].memory == Some(w'.lists[i].memory.value);
    }
    assert !w'.lists[i].spent ==> AddIn(w', i, fns).log != w'.log;
  }

  lemma CallsMore(log: seq<Event>, i: nat, f: Callback, a: Payload)
    ensures Calls(log + [Called(i, f, Some(a))], i) == Calls(log, i) + [Served(f, a)]
  {
    assert (log + [Called(i, f, Some(a))])[..|log|] == log;
  }

  lemma {:induction false} EachCalled(log: seq<Event>, i: nat, fns: seq<Callback>, a: Payload)
    ensures Calls(log + CallsOf(i, fns, a), i) == Calls(log, i) + Each(fns, a)
    decreases |fns|
  {
    if fns == [] {
      assert log + CallsOf(i, fns, a) == log;
    } else {
      hide Calls;
      var first := Called(i, fns[0], Some(a));
      EachCalled(log + [first], i, fns[1..], a);
      Associates(log, [first], CallsOf(i, fns[1..], a));
      CallsMore(log, i, fns[0], a);
      Associates(Calls(log, i), [Served(fns[0], a)], Each(fns[1..], a));
    }
  }

  lemma {:induction false} NothingCalled(log: seq<Event>, more: seq<Event>, i: nat)
    requires forall k :: 0 <= k < |more| ==> !more[k].Called?
    ensures Calls(log + more, i) == Calls(log, i)
  {
    if more == [] {
      assert log + more == log;
    } else {
      var front := more[..|more| - 1];
      NothingCalled(log, front, i);
      assert (log + more)[..|log + more| - 1] == log + front;
    }
  }

  lemma CalledInRound(log: seq<Event>, before: seq<Event>, i: nat, c: CallbackList, todo: seq<Callback>, a: Payload)
    requires forall k :: 0 <= k < |before| ==> !before[k].Called?
    ensures Calls(log + before + RoundLog(i, c, todo, a), i) == Calls(log, i) + Each(todo, a)
  {
    var start, end := before + [Started(i, a)], [Ended(i)] + Retirement(i, c);
    assert log + before + RoundLog(i, c, todo, a) == (log + start) + CallsOf(i, todo, a) + end;
    NothingCalled(log, start, i);
    EachCalled(log + start, i, todo, a);
    NothingCalled((log + start) + CallsOf(i, todo, a), end, i);
  }

  /** On an idle list with memory, at any moment of any run, `add` calls each callback that it appends, once
      and in order, with the arguments that the history says are remembered. */
  lemma AddRecalls(w: World, moves: seq<Move>, i: nat, fns: seq<Callback>, a: Payload)
    requires Initial(w) && i < |w.lists| && Unused(w.lists[i]) && w.lists[i].options.memory && AllUsers(fns)
    requires i < |Run(w, moves).lists| && !Run(w, moves).lists[i].firing && UserInControl(Run(w, moves))
    requires SaysRemembered(Run(w, moves).log, i, a)
    ensures var w' := Run(w, moves);
            var news := Appended(w'.lists[i].list, w.lists[i].options.unique, fns);
            var after := Run(AddIn(w', i, fns), QuietRound(|news|));
            Calls(after.log, i) == Calls(w'.log, i) + Each(news, a) && after.stack == w'.stack
  {
    var w' := Run(w, moves);
    var c := w'.lists[i];
    IdleListsRemember(w, moves, i);
    StatusInRuns(w, moves, i);
    hide Run, Inv, ReadStatus, SaysRemembered, Calls, QuietRound, RoundLog;
    assert c.memory == Some(a) && AddFires(c);
    AddCallsTheNewOnes(w', i, fns);
    var news := Appended(c.list, c.options.unique, fns);
    CalledInRound(w'.log, [Registered(i, news), Accepted(i, a, |c.list|)], i, Begin(c), news, a);
  }

  /** No callback stops a list without stopOnFalse. */
  predicate NeverStopped(log: seq<Event>, i: nat) {
    forall k :: 0 <= k < |log| && log[k].Stopped? ==> log[k].on != i
  }

  predicate StopsNone(log: seq<Event>, log': seq<Event>) {
    log <= log' && forall k :: |log| <= k < |log'| ==> !log'[k].Stopped?
  }

  lemma CommandStopsNone(w: World, command: Command)
    requires Enabled(w, Issue(command))
    ensures StopsNone(w.log, Perform(w, command).log)
  {
  }

  lemma TicksStopNone(w: World)
    requires Enabled(w, Tick)
    ensures StopsNone(w.log, TickOuter(w).log) && StopsNone(w.log, TickInner(w).log)
  {
  }

  lemma StepNeverStops(w: World, m: Move, i: nat)
    requires i < |w.lists| && !w.lists[i].options.stopOnFalse && NeverStopped(w.log, i)
    ensures NeverStopped(Step(w, m).log, i)
  {
    hide Perform, TickOuter, TickInner;
    if Enabled(w, m) {
      if m.Issue? {
        CommandStopsNone(w, m.command);
      } else if m.Tick? {
        TicksStopNone(w);
      }
    }
  }

  lemma {:induction false} RunNeverStops(base: Status, options: Options, w: World, moves: seq<Move>, i: nat)
    requires Inv(w) && StatusHolds(base, options, w, i) && !options.stopOnFalse && NeverStopped(w.log, i)
    ensures NeverStopped(Run(w, moves).log, i)
    decreases |moves|
  {
    if moves != [] {
      StepKeepsInv(w, moves[0]);
      StepKeepsStatus(base, options, w, moves[0], i);
      StepNeverStops(w, moves[0], i);
      RunNeverStops(base, options, Step(w, moves[0]), moves[1..], i);
    }
  }

  /** What is never stopped or cleared remembers its last round. */
  lemma {:induction false} LastStartIsRemembered(log: seq<Event>, i: nat)
    requires NeverStopped(log, i) && NeverCleared(log, i) && Starts(log, i) != []
    ensures SaysRemembered(log, i, Starts(log, i)[|Starts(log, i)| - 1])
  {
    var front, last := log[..|log| - 1], log[|log| - 1];
    assert log == front + [last];
    assert forall k :: 0 <= k < |front| ==> front[k] == log[k];
    var a := Starts(log, i)[|Starts(log, i)| - 1];
    if !(last.Started? && last.on == i) {
      LastStartIsRemembered(front, i);
    }
    RememberedNote(front, last, i, a);
  }

  /** `fired` tells whether any fire was ever accepted. */
  lemma FiredIff(w: World, moves: seq<Move>, i: nat)
    requires Initial(w) && i < |w.lists| && Unused(w.lists[i])
    ensures i < |Run(w, moves).lists| && (Run(w, moves).lists[i].fired <==> Accepts(Run(w, moves).log, i) != [])
  {
    StatusInRuns(w, moves, i);
    FiredReads(Unfired(), w.lists[i].options.once, Run(w, moves).log, i);
  }

  lemma {:induction false} FiredReads(base: Status, once: bool, log: seq<Event>, i: nat)
    requires !base.fired
    ensures ReadStatus(base, once, log, i).fired <==> Accepts(log, i) != []
  {
    if log != [] {
      FiredReads(base, once, log[..|log| - 1], i);
    }
  }

  // ---------------------------------------------------------------- after `lock` and `disable`

  /** Does the move make the list fire again? */
  predicate Restarts(w: World, m: Move, i: nat) {
    Enabled(w, m) && m.Issue? && m.command.Add? && m.command.on == i && AddFires(w.lists[i])
  }

  predicate NeverRestarts(w: World, moves: seq<Move>, i: nat)
    decreases |moves|
  {
    moves == [] || (!Restarts(w, moves[0], i) && NeverRestarts(Step(w, moves[0]), moves[1..], i))
  }

  predicate LockedAt(w: World, i: nat) {
    i < |w.lists| && w.lists[i].locked
  }

  lemma {:induction false} AcceptsMore(log: seq<Event>, more: seq<Event>, i: nat)
    requires forall k :: 0 <= k < |more| ==> !(more[k].Accepted? && more[k].on == i)
    ensures Accepts(log + more, i) == Accepts(log, i)
  {
    if more == [] {
      assert log + more == log;
    } else {
      var front := more[..|more| - 1];
      AcceptsMore(log, front, i);
      assert (log + more)[..|log + more| - 1] == log + front;
    }
  }

  predicate AcceptsNone(log: seq<Event>, log': seq<Event>, i: nat) {
    log <= log' && forall k :: |log| <= k < |log'| && log'[k].Accepted? ==> log'[k].on != i
  }

  lemma CommandStaysLocked(w: World, command: Command, i: nat)
    requires LockedAt(w, i) && Enabled(w, Issue(command)) && !Restarts(w, Issue(command), i)
    ensures LockedAt(Perform(w, command), i) && AcceptsNone(w.log, Perform(w, command).log, i)
  {
  }

  lemma InnerStaysLocked(w: World, i: nat)
    requires LockedAt(w, i) && Enabled(w, Tick)
    ensures LockedAt(TickInner(w), i) && AcceptsNone(w.log, TickInner(w).log, i)
  {
  }

  lemma OuterStaysLocked(w: World, i: nat)
    requires LockedAt(w, i) && Enabled(w, Tick)
    ensures LockedAt(TickOuter(w), i) && AcceptsNone(w.log, TickOuter(w).log, i)
  {
  }

  lemma StepStaysLocked(w: World, m: Move, i: nat)
    requires LockedAt(w, i) && !Restarts(w, m, i)
    ensures LockedAt(Step(w, m), i) && Accepts(Step(w, m).log, i) == Accepts(w.log, i)
  {
    hide Perform, TickInner, TickOuter, Accepts;
    if Enabled(w, m) {
      if m.Issue? {
        CommandStaysLocked(w, m.command, i);
      } else if m.Tick? && Top(w).pc != Outer {
        InnerStaysLocked(w, i);
      } else if m.Tick? {
        OuterStaysLocked(w, i);
      }
      var more := Step(w, m).log[|w.log|..];
      assert Step(w, m).log == w.log + more;
      AcceptsMore(w.log, more, i);
    }
  }

  lemma {:induction false} LockedAcceptsNothing(w: World, moves: seq<Move>, i: nat)
    requires LockedAt(w, i) && NeverRestarts(w, moves, i)
    ensures Accepts(Run(w, moves).log, i) == Accepts(w.log, i)
    decreases |moves|
  {
    if moves != [] {
      StepStaysLocked(w, moves[0], i);
      LockedAcceptsNothing(Step(w, moves[0]), moves[1..], i);
    }
  }

  /** After a `lock` or a `disable`, at any moment and whatever follows, no fire of the list is accepted as
      long as no `add` makes it fire again. */
  lemma LockRefusesFires(w: World, i: nat, moves: seq<Move>)
    requires i < |w.lists|
    ensures NeverRestarts(LockIn(w, i), moves, i) ==> Accepts(Run(LockIn(w, i), moves).log, i) == Accepts(w.log, i)
    ensures NeverRestarts(DisableIn(w, i), moves, i) ==>
              Accepts(Run(DisableIn(w, i), moves).log, i) == Accepts(w.log, i)
  {
    AcceptsMore(w.log, [Cleared(i, w.lists[i].memory.None?)], i);
    AcceptsMore(w.log, [Cleared(i, true)], i);
    if NeverRestarts(LockIn(w, i), moves, i) {
      LockedAcceptsNothing(LockIn(w, i), moves, i);
    }
    if NeverRestarts(DisableIn(w, i), moves, i) {
      LockedAcceptsNothing(DisableIn(w, i), moves, i);
    }
  }

  // ---------------------------------------------------------------- commands and results

  /** What the commands that call nobody do to the list and to what its round has still to call. */
  lemma EditsTakeEffect(w: World, command: Command)
    requires Inv(w) && Enabled(w, Issue(command))
    ensures var w', i := Step(w, Issue(command)), command.on;
            i < |w'.lists|
            && var c, c' := w.lists[i], w'.lists[i];
            match command
            case Remove(_, f) => c'.list == Without(c.list, f) && ToDo(c') == Without(ToDo(c), f)
            case Empty(_) => c'.list == [] && ToDo(c') == [] && c'.queue == c.queue
            case Disable(_) => c'.list == [] && ToDo(c') == [] && c'.queue == [] && c'.memory.None?
            case Lock(_) => c'.queue == [] && c'.memory == c.memory && (c.memory.Some? ==> ToDo(c') == ToDo(c))
            case _ => true
    ensures !command.Add? && !command.FireWith? ==>
              var w' := Step(w, Issue(command));
              w'.stack == w.stack && forall j :: 0 <= j < |w.lists| && j != command.on ==> w'.lists[j] == w.lists[j]
  {
    if command.Remove? {
      RemoveFiltersToDo(w.lists[command.on], command.fn);
    }
  }

  /** After a callback has returned, the round goes on with the next callback that is due, or ends; a false
      result ends it at once on a list with stopOnFalse, and on no other. */
  lemma NextAfterReturn(w: World, isFalse: bool)
    requires Inv(w) && Enabled(w, Return(isFalse))
    ensures var i, w' := Top(w).on, Run(w, [Return(isFalse), Tick]);
            var c := w.lists[i];
            if isFalse && c.options.stopOnFalse then w'.log == w.log + [Stopped(i), Ended(i)]
            else if ToDo(c) == [] then w'.log == w.log + [Ended(i)]
            else w.log + [Called(i, ToDo(c)[0], c.memory)] <= w'.log
  {
    var i := Top(w).on;
    var c := w.lists[i];
    var back := Step(w, Return(isFalse));
    hide Inv, Run, TickInner, ToDo;
    TopInShape(w);
    RunTwo(w, Return(isFalse), Tick);
    if isFalse && c.options.stopOnFalse {
      NothingDue(c);
    }
    NextTick(back, i);
  }

  lemma NothingDue(c: CallbackList)
    ensures ToDo(Stop(c)) == []
  {
  }

  lemma NextTick(w: World, i: nat)
    requires w.stack != [] && Top(w) == Frame(i, Inner) && i < |w.lists| && -1 <= w.lists[i].firingIndex
    ensures var c := w.lists[i];
            if ToDo(c) == [] then Step(w, Tick).log == w.log + [Ended(i)]
            else w.log + [Called(i, ToDo(c)[0], c.memory)] <= Step(w, Tick).log
  {
    var c := w.lists[i];
    if ToDo(c) != [] {
      assert ToDo(c)[0] == c.list[c.firingIndex + 1];
    }
  }
}
