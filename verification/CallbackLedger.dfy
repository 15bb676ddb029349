/**
 What a callback list means, apart from how it is run: callbacks in order, fires in order of
 acceptance, and one round at a time that calls what is due.  The history of every list in every run
 is a history of such a ledger.
 */
module CallbackLedgers {
  import opened Wrappers
  import opened Sequences
  import opened CallbackLists
  import opened CallbackMachine

  /** An accepted fire: its arguments, and the position in the list from which it will call. */
  datatype Ticket = Ticket(payload: Payload, from: nat)

  /** A round: its arguments and the callbacks it still has to call.  When the list was emptied under it,
      it passes over as many of the next registrations as `gap` says. */
  datatype Round = Round(payload: Payload, due: seq<Callback>, gap: nat)

  datatype Ledger = Ledger(list: seq<Callback>, queue: seq<Ticket>, round: Option<Round>)

  function Join(r: Round, fns: seq<Callback>): Round {
    if |fns| <= r.gap then r.(gap := r.gap - |fns|) else r.(due := r.due + fns[r.gap..], gap := 0)
  }

  /** How many places of the list the round has passed. */
  function Passed(l: Ledger): nat {
    if l.round.None? || |l.round.value.due| > |l.list| then 0
    else |l.list| - |l.round.value.due| + l.round.value.gap
  }

  function OnRound(l: Ledger, due: seq<Callback>): Ledger {
    if l.round.None? then l else l.(round := Some(l.round.value.(due := due)))
  }

  /** One event of the list; None if the ledger does not allow it. */
  function Post(l: Ledger, e: Event): Option<Ledger> {
    match e
    case Registered(_, fns) =>
      Some(Ledger(l.list + fns, l.queue, if l.round.None? then None else Some(Join(l.round.value, fns))))
    case Removed(_, f) =>
      Some(OnRound(l, if l.round.None? then [] else Without(l.round.value.due, f)).(list := Without(l.list, f)))
    case Emptied(_) =>
      Some(Ledger([], l.queue, if l.round.None? then None else Some(Round(l.round.value.payload, [], Passed(l)))))
    case Accepted(_, a, from) => Some(l.(queue := l.queue + [Ticket(a, from)]))
    case Cleared(_, spent) =>
      var dropped := l.(queue := []);
      Some(if spent then OnRound(dropped, []).(list := []) else dropped)
    case Started(_, a) =>
      if l.round.None? && l.queue != [] && l.queue[0].payload == a && l.queue[0].from <= |l.list|
      then Some(l.(queue := l.queue[1..], round := Some(Round(a, l.list[l.queue[0].from..], 0))))
      else None
    case Called(_, f, args) =>
      if l.round.Some? && l.round.value.due != [] && l.round.value.due[0] == f && args == Some(l.round.value.payload)
      then Some(OnRound(l, l.round.value.due[1..]))
      else None
    case Stopped(_) => if l.round.Some? then Some(OnRound(l, [])) else None
    case Ended(_) => if l.round.Some? && l.round.value.due == [] then Some(l.(round := None)) else None
    case Retired(_) => if l.round.None? then Some(l.(list := [])) else None
  }

  /** The ledger of list `i` after a history, if the history is one of a ledger. */
  function Replay(start: seq<Callback>, log: seq<Event>, i: nat): Option<Ledger> {
    if log == [] then Some(Ledger(start, [], None))
    else
      var before, last := Replay(start, log[..|log| - 1], i), log[|log| - 1];
      if before.None? then None else if last.on == i then Post(before.value, last) else before
  }

  lemma ReplayNote(start: seq<Callback>, log: seq<Event>, e: Event, i: nat)
    ensures Replay(start, log + [e], i)
         == var l := Replay(start, log, i); if l.None? then None else if e.on == i then Post(l.value, e) else l
  {
    assert (log + [e])[..|log|] == log;
  }

  lemma {:induction false} ReplayOthers(start: seq<Callback>, log: seq<Event>, more: seq<Event>, i: nat)
    requires forall k :: 0 <= k < |more| ==> more[k].on != i
    ensures Replay(start, log + more, i) == Replay(start, log, i)
  {
    hide Post;
    if more == [] {
      assert log + more == log;
    } else {
      var front, last := more[..|more| - 1], more[|more| - 1];
      ReplayOthers(start, log, front, i);
      assert log + more == (log + front) + [last];
      ReplayNote(start, log + front, last, i);
    }
  }

  // ---------------------------------------------------------------- ledger and list

  function Gap(c: CallbackList): nat {
    if c.firingIndex + 1 > |c.list| then c.firingIndex + 1 - |c.list| else 0
  }

  predicate SameQueue(tickets: seq<Ticket>, queue: seq<Payload>) {
    |tickets| == |queue| && forall k :: 0 <= k < |queue| ==> tickets[k].payload == queue[k]
  }

  predicate Whole(tickets: seq<Ticket>) {
    forall k :: 0 <= k < |tickets| ==> tickets[k].from == 0
  }

  predicate RoundTracks(r: Round, c: CallbackList) {
    r.due == ToDo(c) && (c.memory.Some? ==> c.memory.value == r.payload && r.gap == Gap(c))
  }

  /** What the closure variables say of the ledger, at each point of `fire`. */
  predicate Tracks(l: Ledger, c: CallbackList, pc: Option<Pc>) {
    && l.list == c.list && SameQueue(l.queue, c.queue)
    && match pc
       case None => l.round.None?
       case Some(Outer) =>
         && l.round.None?
         && (l.queue != [] ==> l.queue[0].from == c.firingIndex + 1 <= |c.list| && Whole(l.queue[1..]))
       case Some(_) => l.round.Some? && RoundTracks(l.round.value, c) && Whole(l.queue)
  }

  predicate Shaped(c: CallbackList, pc: Option<Pc>) {
    ListShape(c) && c.firing == pc.Some? && (pc.Some? ==> FrameShape(c, pc.value))
  }

  predicate Follows(l: Ledger, e: Event, c: CallbackList, pc: Option<Pc>) {
    Post(l, e).Some? && Tracks(Post(l, e).value, c, pc)
  }

  predicate Waits(pc: Option<Pc>) {
    pc == None || pc == Some(Calling)
  }

  // One lemma for each kind of event.

  lemma RegisterTracks(l: Ledger, c: CallbackList, pc: Option<Pc>, fns: seq<Callback>, i: nat)
    requires Tracks(l, c, pc) && Shaped(c, pc) && Waits(pc) && !c.spent && !AddFires(c)
    ensures Follows(l, Registered(i, Appended(c.list, c.options.unique, fns)), CallbackLists.Add(c, fns), pc)
  {
    if pc.Some? {
      AddWhileFiring(c, fns);
      var r, news := l.round.value, Appended(c.list, c.options.unique, fns);
      assert r.gap == 0 ==> news[r.gap..] == news;
      assert r.gap > 0 ==>
          r.due == [] && [] + news[if r.gap <= |news| then r.gap else 0..] ==
                         news[if r.gap <= |news| then r.gap else 0..];
    }
  }

  lemma RefireTracks(l: Ledger, c: CallbackList, fns: seq<Callback>, news: seq<Callback>, i: nat, middle: Ledger)
    requires Tracks(l, c, None) && Shaped(c, None) && AddFires(c) && news == Appended(c.list, c.options.unique, fns)
    requires Post(l, Registered(i, news)) == Some(middle)
    ensures Follows(middle, Accepted(i, c.memory.value, |c.list|), Begin(CallbackLists.Add(c, fns)), Some(Outer))
  {
  }

  lemma RemoveTracks(l: Ledger, c: CallbackList, pc: Option<Pc>, f: Callback, i: nat)
    requires Tracks(l, c, pc) && Shaped(c, pc) && Waits(pc)
    ensures Follows(l, Removed(i, f), CallbackLists.Remove(c, f), pc)
  {
    RemoveFiltersToDo(c, f);
    if pc.Some? {
      RemoveKeepsGap(c, f);
    }
  }

  /** What is removed lies behind the round and ahead of the gap, or is still due. */
  lemma RemoveKeepsGap(c: CallbackList, f: Callback)
    requires -1 <= c.firingIndex
    ensures Gap(CallbackLists.Remove(c, f)) == Gap(c)
  {
    RemoveFromGap(c.list, c.firingIndex, f, 0);
  }

  lemma {:induction false} RemoveFromGap(list: seq<Callback>, firingIndex: int, f: Callback, from: nat)
    requires from <= |list| && -1 <= firingIndex
    ensures var (l, k) := RemoveFrom(list, firingIndex, f, from);
            && (firingIndex + 1 >= |list| ==> k - |l| == firingIndex - |list|)
            && (firingIndex + 1 <= |list| ==> k + 1 <= |l|)
    decreases |list|
  {
    var at := InArray(f, list, from);
    if at.Some? {
      var next := if at.value <= firingIndex then firingIndex - 1 else firingIndex;
      RemoveFromGap(Splice(list, at.value), next, f, at.value);
    }
  }

  lemma EmptyTracks(l: Ledger, c: CallbackList, pc: Option<Pc>, i: nat)
    requires Tracks(l, c, pc) && Shaped(c, pc) && Waits(pc) && !c.spent
    ensures Follows(l, Emptied(i), CallbackLists.Empty(c), pc)
  {
    if pc.Some? {
      PassedPlaces(l, c);
      assert ToDo(CallbackLists.Empty(c)) == [];
    }
  }

  /** The round has passed the places up to the firing index. */
  lemma PassedPlaces(l: Ledger, c: CallbackList)
    requires l.list == c.list && l.round.Some? && l.round.value.due == ToDo(c) && -1 <= c.firingIndex
    ensures l.round.value.gap == Gap(c) ==> Passed(l) == c.firingIndex + 1
  {
    assert |ToDo(c)| == if c.firingIndex + 1 <= |c.list| then |c.list| - (c.firingIndex + 1) else 0;
  }

  lemma DisableTracks(l: Ledger, c: CallbackList, pc: Option<Pc>, i: nat)
    requires Tracks(l, c, pc) && Shaped(c, pc) && pc != Some(Outer)
    ensures Follows(l, Cleared(i, true), CallbackLists.Disable(c), pc)
  {
  }

  lemma LockTracks(l: Ledger, c: CallbackList, pc: Option<Pc>, i: nat)
    requires Tracks(l, c, pc) && Shaped(c, pc) && pc != Some(Outer)
    ensures Follows(l, Cleared(i, c.memory.None?), CallbackLists.Lock(c), pc)
  {
    var c' := CallbackLists.Lock(c);
    assert c.memory.Some? ==> ToDo(c') == ToDo(c) && Gap(c') == Gap(c);
    assert c.memory.None? ==> ToDo(c') == [];
  }

  lemma FireTracks(l: Ledger, c: CallbackList, pc: Option<Pc>, a: Payload, i: nat)
    requires Tracks(l, c, pc) && Shaped(c, pc) && Waits(pc) && !c.locked
    ensures pc.None? ==> Follows(l, Accepted(i, a, 0), Begin(Enqueue(c, a)), Some(Outer))
    ensures pc.Some? ==> Follows(l, Accepted(i, a, 0), Enqueue(c, a), pc)
  {
  }

  lemma StartTracks(l: Ledger, c: CallbackList, i: nat)
    requires Tracks(l, c, Some(Outer)) && Shaped(c, Some(Outer)) && c.queue != []
    ensures Follows(l, Started(i, c.queue[0]), Shift(c), Some(Inner))
  {
  }

  lemma CallTracks(l: Ledger, c: CallbackList, i: nat)
    requires Tracks(l, c, Some(Inner)) && Shaped(c, Some(Inner)) && c.firingIndex + 1 < |c.list|
    ensures Follows(l, Called(i, c.list[c.firingIndex + 1], c.memory),
                    c.(firingIndex := c.firingIndex + 1), Some(Inner))
  {
    assert ToDo(c)[0] == c.list[c.firingIndex + 1];
    assert ToDo(c.(firingIndex := c.firingIndex + 1)) == ToDo(c)[1..];
  }

  lemma StopTracks(l: Ledger, c: CallbackList, i: nat)
    requires Tracks(l, c, Some(Calling)) && Shaped(c, Some(Calling))
    ensures Follows(l, Stopped(i), Stop(c), Some(Inner))
  {
  }

  lemma EndTracks(l: Ledger, c: CallbackList, i: nat)
    requires Tracks(l, c, Some(Inner)) && Shaped(c, Some(Inner)) && |c.list| <= c.firingIndex + 1
    ensures Follows(l, Ended(i), c.(firingIndex := -1), Some(Outer))
  {
  }

  lemma FinishTracks(l: Ledger, c: CallbackList, i: nat)
    requires Tracks(l, c, Some(Outer)) && Shaped(c, Some(Outer)) && c.queue == []
    ensures if c.locked then Follows(l, Retired(i), Finish(c), None) else Tracks(l, Finish(c), None)
  {
  }

  // ---------------------------------------------------------------- every step

  /** The history of list `i` is one of a ledger, and the list is where the ledger says. */
  predicate LedgerHolds(start: seq<Callback>, w: World, i: nat) {
    && i < |w.lists|
    && Replay(start, w.log, i).Some?
    && Tracks(Replay(start, w.log, i).value, w.lists[i], PcOf(w.stack, i))
  }

  lemma ShapedInRuns(w: World, i: nat)
    requires Inv(w) && i < |w.lists|
    ensures Shaped(w.lists[i], PcOf(w.stack, i))
    ensures UserInControl(w) ==> Waits(PcOf(w.stack, i))
    ensures w.stack != [] && Top(w).on == i ==> PcOf(w.stack, i) == Some(Top(w).pc)
    ensures w.stack != [] && Top(w).on != i ==> Waits(PcOf(w.stack, i))
  {
    ReadStack(w, i);
    FrameOfPc(w.stack, i);
  }

  lemma {:induction false} FrameOfPc(stack: seq<Frame>, i: nat)
    ensures PcOf(stack, i).Some? ==> exists k :: 0 <= k < |stack| && stack[k] == Frame(i, PcOf(stack, i).value)
    ensures StackShape(stack) && stack != [] && stack[|stack| - 1].on != i ==> Waits(PcOf(stack, i))
  {
    if stack != [] && stack[|stack| - 1].on != i {
      var rest := stack[..|stack| - 1];
      FrameOfPc(rest, i);
      if PcOf(stack, i).Some? {
        var k :| 0 <= k < |rest| && rest[k] == Frame(i, PcOf(stack, i).value);
        assert stack[k] == rest[k];
      }
    }
  }

  /** Another list's events do not concern this one. */
  lemma Elsewhere(start: seq<Callback>, w: World, w': World, i: nat, more: seq<Event>)
    requires LedgerHolds(start, w, i) && w'.log == w.log + more && (forall k :: 0 <= k < |more| ==> more[k].on != i)
    requires i < |w'.lists| && w'.lists[i] == w.lists[i] && PcOf(w'.stack, i) == PcOf(w.stack, i)
    ensures LedgerHolds(start, w', i)
  {
    ReplayOthers(start, w.log, more, i);
  }

  /** One event of this list. */
  lemma Here(start: seq<Callback>, w: World, w': World, i: nat, e: Event)
    requires LedgerHolds(start, w, i) && w'.log == w.log + [e] && e.on == i && i < |w'.lists|
    requires Follows(Replay(start, w.log, i).value, e, w'.lists[i], PcOf(w'.stack, i))
    ensures LedgerHolds(start, w', i)
  {
    ReplayNote(start, w.log, e, i);
  }

  lemma AddKeepsLedger(start: seq<Callback>, w: World, on: nat, fns: seq<Callback>, i: nat)
    requires Inv(w) && UserInControl(w) && on < |w.lists| && LedgerHolds(start, w, i)
    ensures LedgerHolds(start, AddIn(w, on, fns), i)
  {
    hide Inv;
    var c, w' := w.lists[on], AddIn(w, on, fns);
    ShapedInRuns(w, on);
    if !c.spent {
      var news := Appended(c.list, c.options.unique, fns);
      var registered := Registered(on, news);
      PcOfPush(w.stack, Frame(on, Outer), i);
      if on != i {
        var more := if AddFires(c) then [registered, Accepted(on, c.memory.value, |c.list|)] else [registered];
        assert w'.log == w.log + more;
        Elsewhere(start, w, w', i, more);
      } else if AddFires(c) {
        AddAndFireKeepsLedger(start, w, i, fns, news);
      } else {
        RegisterTracks(Replay(start, w.log, i).value, c, PcOf(w.stack, i), fns, i);
        Here(start, w, w', i, registered);
      }
    }
  }

  lemma AddAndFireKeepsLedger(start: seq<Callback>, w: World, i: nat, fns: seq<Callback>, news: seq<Callback>)
    requires LedgerHolds(start, w, i) && AddFires(w.lists[i]) && Shaped(w.lists[i], PcOf(w.stack, i))
    requires news == Appended(w.lists[i].list, w.lists[i].options.unique, fns)
    ensures LedgerHolds(start, AddIn(w, i, fns), i)
  {
    var c, l := w.lists[i], Replay(start, w.log, i).value;
    var registered, accepted := Registered(i, news), Accepted(i, c.memory.value, |c.list|);
    var w' := AddIn(w, i, fns);
    ReplayNote(start, w.log, registered, i);
    ReplayNote(start, w.log + [registered], accepted, i);
    assert w'.log == (w.log + [registered]) + [accepted];
    PcOfPush(w.stack, Frame(i, Outer), i);
    RefireTracks(l, c, fns, news, i, Post(l, registered).value);
  }

  lemma FireKeepsLedger(start: seq<Callback>, w: World, on: nat, a: Payload, i: nat)
    requires Inv(w) && UserInControl(w) && on < |w.lists| && LedgerHolds(start, w, i)
    ensures LedgerHolds(start, FireIn(w, on, a), i)
  {
    hide Inv;
    var w' := FireIn(w, on, a);
    ShapedInRuns(w, on);
    PcOfPush(w.stack, Frame(on, Outer), i);
    if !w.lists[on].locked {
      if on != i {
        Elsewhere(start, w, w', i, [Accepted(on, a, 0)]);
      } else {
        FireTracks(Replay(start, w.log, i).value, w.lists[i], PcOf(w.stack, i), a, i);
        Here(start, w, w', i, Accepted(i, a, 0));
      }
    }
  }

  lemma DisableKeepsLedger(start: seq<Callback>, w: World, on: nat, i: nat)
    requires LedgerHolds(start, w, i)
    requires on == i ==> Shaped(w.lists[i], PcOf(w.stack, i)) && PcOf(w.stack, i) != Some(Outer)
    ensures LedgerHolds(start, DisableIn(w, on), i)
  {
    if on == i {
      DisableTracks(Replay(start, w.log, i).value, w.lists[i], PcOf(w.stack, i), i);
      Here(start, w, DisableIn(w, on), i, Cleared(i, true));
    } else if on < |w.lists| {
      Elsewhere(start, w, DisableIn(w, on), i, [Cleared(on, true)]);
    }
  }

  lemma LockKeepsLedger(start: seq<Callback>, w: World, on: nat, i: nat)
    requires LedgerHolds(start, w, i)
    requires on == i ==> Shaped(w.lists[i], PcOf(w.stack, i)) && PcOf(w.stack, i) != Some(Outer)
    ensures LedgerHolds(start, LockIn(w, on), i)
  {
    if on == i {
      LockTracks(Replay(start, w.log, i).value, w.lists[i], PcOf(w.stack, i), i);
      Here(start, w, LockIn(w, on), i, Cleared(i, w.lists[i].memory.None?));
    } else if on < |w.lists| {
      Elsewhere(start, w, LockIn(w, on), i, [Cleared(on, w.lists[on].memory.None?)]);
    }
  }

  lemma EditKeepsLedger(start: seq<Callback>, w: World, command: Command, i: nat)
    requires Inv(w) && UserInControl(w) && command.on < |w.lists| && LedgerHolds(start, w, i)
    requires command.Remove? || command.Empty?
    ensures LedgerHolds(start, Perform(w, command), i)
  {
    hide Inv;
    var on, w' := command.on, Perform(w, command);
    ShapedInRuns(w, on);
    var e := if command.Remove? then Removed(on, command.fn) else Emptied(on);
    if command.Remove? || !w.lists[on].spent {
      if on != i {
        Elsewhere(start, w, w', i, [e]);
      } else {
        var l, pc := Replay(start, w.log, i).value, PcOf(w.stack, i);
        if command.Remove? {
          RemoveTracks(l, w.lists[i], pc, command.fn, i);
        } else {
          EmptyTracks(l, w.lists[i], pc, i);
        }
        Here(start, w, w', i, e);
      }
    }
  }

  lemma CommandKeepsLedger(start: seq<Callback>, w: World, command: Command, i: nat)
    requires Inv(w) && UserInControl(w) && command.on < |w.lists| && LedgerHolds(start, w, i)
    ensures LedgerHolds(start, Perform(w, command), i)
  {
    hide Inv, LedgerHolds;
    match command
    case Add(on, fns) => AddKeepsLedger(start, w, on, fns, i);
    case Remove(_, _) => EditKeepsLedger(start, w, command, i);
    case Empty(_) => EditKeepsLedger(start, w, command, i);
    case Disable(on) =>
      ShapedInRuns(w, on);
      DisableKeepsLedger(start, w, on, i);
    case Lock(on) =>
      ShapedInRuns(w, on);
      LockKeepsLedger(start, w, on, i);
    case FireWith(on, a) => FireKeepsLedger(start, w, on, a, i);
  }

  lemma RoundStartKeepsLedger(start: seq<Callback>, w: World, w': World, i: nat)
    requires LedgerHolds(start, w, i) && PcOf(w.stack, i) == Some(Outer) && Shaped(w.lists[i], Some(Outer))
    requires w.lists[i].queue != [] && PcOf(w'.stack, i) == Some(Inner)
    requires w'.lists == w.lists[i := Shift(w.lists[i])] && w'.log == w.log + [Started(i, w.lists[i].queue[0])]
    ensures LedgerHolds(start, w', i)
  {
    StartTracks(Replay(start, w.log, i).value, w.lists[i], i);
    Here(start, w, w', i, Started(i, w.lists[i].queue[0]));
  }

  lemma FinishKeepsLedger(start: seq<Callback>, w: World, w': World, i: nat)
    requires LedgerHolds(start, w, i) && PcOf(w.stack, i) == Some(Outer) && Shaped(w.lists[i], Some(Outer))
    requires w.lists[i].queue == [] && PcOf(w'.stack, i) == None
    requires w'.lists == w.lists[i := Finish(w.lists[i])]
    requires w'.log == w.log + if w.lists[i].locked then [Retired(i)] else []
    ensures LedgerHolds(start, w', i)
  {
    FinishTracks(Replay(start, w.log, i).value, w.lists[i], i);
    if w.lists[i].locked {
      Here(start, w, w', i, Retired(i));
    } else {
      assert w'.log == w.log;
    }
  }

  lemma OuterKeepsLedger(start: seq<Callback>, w: World, i: nat)
    requires Inv(w) && w.stack != [] && Top(w).pc == Outer && LedgerHolds(start, w, i)
    ensures LedgerHolds(start, TickOuter(w), i)
  {
    hide Inv;
    TopInShape(w);
    var on, w' := Top(w).on, TickOuter(w);
    var c := w.lists[on];
    ShapedInRuns(w, on);
    PcOfSetTop(w.stack, Inner, i);
    StackInShape(w);
    PcOfPop(w.stack, i);
    if on != i {
      var more := if c.queue != [] then [Started(on, c.queue[0])] else if c.locked then [Retired(on)] else [];
      assert w'.log == w.log + more;
      Elsewhere(start, w, w', i, more);
    } else {
      hide LedgerHolds, Shaped, PcOf;
      if c.queue != [] {
        RoundStartKeepsLedger(start, w, w', i);
      } else {
        FinishKeepsLedger(start, w, w', i);
      }
    }
  }

  lemma StackInShape(w: World)
    requires Inv(w)
    ensures StackShape(w.stack)
  {
  }

  /** The call is noted, before the callback does anything. */
  lemma CallKeepsLedger(start: seq<Callback>, w: World, at: World, on: nat, i: nat)
    requires Inv(w) && w.stack != [] && Top(w) == Frame(on, Inner) && LedgerHolds(start, w, i)
    requires on < |w.lists| && 0 <= w.lists[on].firingIndex + 1 < |w.lists[on].list|
    requires var c := w.lists[on];
             at == Note(Put(w, on, c.(firingIndex := c.firingIndex + 1)),
                        Called(on, c.list[c.firingIndex + 1], c.memory))
    ensures LedgerHolds(start, at, i)
  {
    hide Inv;
    var c := w.lists[on];
    var e := Called(on, c.list[c.firingIndex + 1], c.memory);
    ShapedInRuns(w, on);
    if on != i {
      Elsewhere(start, w, at, i, [e]);
    } else {
      CallTracks(Replay(start, w.log, i).value, c, i);
      Here(start, w, at, i, e);
    }
  }

  lemma ApplyKeepsLedger(start: seq<Callback>, w: World, f: Callback, i: nat)
    requires Inv(w) && w.stack != [] && Top(w).pc == Inner && LedgerHolds(start, w, i)
    ensures LedgerHolds(start, Apply(w, f), i)
  {
    hide Inv;
    ShapedInRuns(w, i);
    match f
    case User(_) => PcOfSetTop(w.stack, Calling, i);
    case SetState(_) =>
    case DisableList(j) => DisableKeepsLedger(start, w, j, i);
    case LockList(j) => LockKeepsLedger(start, w, j, i);
  }

  lemma RoundEndKeepsLedger(start: seq<Callback>, w: World, w': World, on: nat, i: nat)
    requires Inv(w) && w.stack != [] && Top(w) == Frame(on, Inner) && LedgerHolds(start, w, i)
    requires on < |w.lists| && |w.lists[on].list| <= w.lists[on].firingIndex + 1
    requires w' == SetTop(Note(Put(w, on, w.lists[on].(firingIndex := -1)), Ended(on)), Outer)
    ensures LedgerHolds(start, w', i)
  {
    hide Inv;
    ShapedInRuns(w, on);
    PcOfSetTop(w.stack, Outer, i);
    if on != i {
      Elsewhere(start, w, w', i, [Ended(on)]);
    } else {
      EndTracks(Replay(start, w.log, i).value, w.lists[i], i);
      Here(start, w, w', i, Ended(i));
    }
  }

  lemma InnerKeepsLedger(start: seq<Callback>, w: World, i: nat)
    requires Inv(w) && w.stack != [] && Top(w).pc == Inner && LedgerHolds(start, w, i)
    ensures LedgerHolds(start, TickInner(w), i)
  {
    hide Inv, LedgerHolds;
    TopInShape(w);
    var on := Top(w).on;
    var c := w.lists[on];
    var next := c.firingIndex + 1;
    if next < |c.list| {
      var at := Note(Put(w, on, c.(firingIndex := next)), Called(on, c.list[next], c.memory));
      CallKeepsInv(w, at, on, next);
      CallKeepsLedger(start, w, at, on, i);
      ApplyKeepsLedger(start, at, c.list[next], i);
    } else {
      RoundEndKeepsLedger(start, w, TickInner(w), on, i);
    }
  }

  lemma ReturnKeepsLedger(start: seq<Callback>, w: World, isFalse: bool, i: nat)
    requires Inv(w) && Enabled(w, Return(isFalse)) && LedgerHolds(start, w, i)
    ensures LedgerHolds(start, ReturnIn(w, isFalse), i)
  {
    hide Inv;
    var on, w' := Top(w).on, ReturnIn(w, isFalse);
    ShapedInRuns(w, on);
    PcOfSetTop(w.stack, Inner, i);
    if isFalse && w.lists[on].options.stopOnFalse {
      if on != i {
        Elsewhere(start, w, w', i, [Stopped(on)]);
      } else {
        StopTracks(Replay(start, w.log, i).value, w.lists[i], i);
        Here(start, w, w', i, Stopped(i));
      }
    }
  }

  lemma StepKeepsLedger(start: seq<Callback>, w: World, m: Move, i: nat)
    requires Inv(w) && LedgerHolds(start, w, i)
    ensures LedgerHolds(start, Step(w, m), i)
  {
    hide Inv, LedgerHolds;
    if Enabled(w, m) {
      match m
      case Issue(command) => CommandKeepsLedger(start, w, command, i);
      case Return(isFalse) => ReturnKeepsLedger(start, w, isFalse, i);
      case Tick =>
        if Top(w).pc == Outer {
          OuterKeepsLedger(start, w, i);
        } else {
          InnerKeepsLedger(start, w, i);
        }
    }
  }

  /** Every list in every run, whatever its callbacks do, behaves as a ledger: fires are served in the
      order of acceptance, one round at a time, and a round calls what is due, in order and with the
      arguments of its fire, and ends only when nothing is due. */
  lemma {:induction false} ListsAreLedgers(start: seq<Callback>, w: World, moves: seq<Move>, i: nat)
    requires Inv(w) && LedgerHolds(start, w, i)
    ensures LedgerHolds(start, Run(w, moves), i)
    decreases |moves|
  {
    if moves != [] {
      StepKeepsInv(w, moves[0]);
      StepKeepsLedger(start, w, moves[0], i);
      ListsAreLedgers(start, Step(w, moves[0]), moves[1..], i);
    }
  }

  lemma InitialLedger(w: World, i: nat)
    requires Initial(w) && i < |w.lists|
    ensures Inv(w) && LedgerHolds(w.lists[i].list, w, i)
  {
  }

  // ---------------------------------------------------------------- what a ledger's history shows

  lemma {:induction false} ReplayPrefix(start: seq<Callback>, log: seq<Event>, i: nat, k: nat)
    requires Replay(start, log, i).Some? && k <= |log|
    ensures Replay(start, log[..k], i).Some?
    ensures k < |log| && log[k].on == i ==> Post(Replay(start, log[..k], i).value, log[k]).Some?
    decreases |log|
  {
    if k == |log| {
      assert log[..k] == log;
    } else {
      var front := log[..|log| - 1];
      ReplayPrefix(start, front, i, k);
      assert front[..k] == log[..k];
    }
  }

  /** The arguments of the round that was started last. */
  function LastStarted(log: seq<Event>, i: nat): Option<Payload> {
    if log == [] then None
    else
      var last := log[|log| - 1];
      if last.Started? && last.on == i then Some(last.payload) else LastStarted(log[..|log| - 1], i)
  }

  lemma {:induction false} RoundWasStartedLast(start: seq<Callback>, log: seq<Event>, i: nat)
    requires Replay(start, log, i).Some? && Replay(start, log, i).value.round.Some?
    ensures LastStarted(log, i) == Some(Replay(start, log, i).value.round.value.payload)
  {
    var front, last := log[..|log| - 1], log[|log| - 1];
    if !(last.Started? && last.on == i) {
      RoundWasStartedLast(start, front, i);
    }
  }

  /** Every callback receives the arguments of the round that was started last. */
  lemma CallsCarryTheirRound(start: seq<Callback>, log: seq<Event>, i: nat, k: nat)
    requires Replay(start, log, i).Some? && k < |log| && log[k].Called? && log[k].on == i
    ensures LastStarted(log[..k], i).Some? && log[k].args == LastStarted(log[..k], i)
  {
    ReplayPrefix(start, log, i, k);
    RoundWasStartedLast(start, log[..k], i);
  }

  function Accepts(log: seq<Event>, i: nat): seq<Payload> {
    if log == [] then []
    else
      var last := log[|log| - 1];
      Accepts(log[..|log| - 1], i) + (if last.Accepted? && last.on == i then [last.payload] else [])
  }

  function Starts(log: seq<Event>, i: nat): seq<Payload> {
    if log == [] then []
    else
      var last := log[|log| - 1];
      Starts(log[..|log| - 1], i) + (if last.Started? && last.on == i then [last.payload] else [])
  }

  function Payloads(tickets: seq<Ticket>): seq<Payload> {
    if tickets == [] then [] else [tickets[0].payload] + Payloads(tickets[1..])
  }

  lemma {:induction false} PayloadsMore(tickets: seq<Ticket>, t: Ticket)
    ensures Payloads(tickets + [t]) == Payloads(tickets) + [t.payload]
  {
    if tickets != [] {
      PayloadsMore(tickets[1..], t);
      assert (tickets + [t])[1..] == tickets[1..] + [t];
    }
  }

  predicate NeverCleared(log: seq<Event>, i: nat) {
    forall k :: 0 <= k < |log| && log[k].Cleared? ==> log[k].on != i
  }

  /** Rounds start in the order in which fires were accepted; what has not started is still queued. */
  lemma {:induction false} StartsInOrder(start: seq<Callback>, log: seq<Event>, i: nat)
    requires Replay(start, log, i).Some? && NeverCleared(log, i)
    ensures Starts(log, i) + Payloads(Replay(start, log, i).value.queue) == Accepts(log, i)
  {
    if log != [] {
      var front, last := log[..|log| - 1], log[|log| - 1];
      assert forall k :: 0 <= k < |front| ==> front[k] == log[k];
      StartsInOrder(start, front, i);
      if last.on == i {
        OneMoreStarted(Replay(start, front, i).value, last, Starts(front, i), Accepts(front, i));
      } else {
        assert Starts(log, i) == Starts(front, i) && Accepts(log, i) == Accepts(front, i);
      }
    }
  }

  lemma OneMoreStarted(l: Ledger, e: Event, starts: seq<Payload>, fires: seq<Payload>)
    requires Post(l, e).Some? && !e.Cleared? && starts + Payloads(l.queue) == fires
    ensures (starts + (if e.Started? then [e.payload] else [])) + Payloads(Post(l, e).value.queue)
         == fires + (if e.Accepted? then [e.payload] else [])
  {
    if e.Accepted? {
      PayloadsMore(l.queue, Ticket(e.payload, e.from));
    }
  }

  /** A callback and the arguments it was called with. */
  datatype Served = Served(fn: Callback, args: Payload)

  function Calls(log: seq<Event>, i: nat): seq<Served> {
    if log == [] then []
    else
      var last := log[|log| - 1];
      Calls(log[..|log| - 1], i) +
      (if last.Called? && last.on == i && last.args.Some? then [Served(last.fn, last.args.value)] else [])
  }

  /** Each callback once, in order, with the same arguments. */
  function Each(fns: seq<Callback>, a: Payload): seq<Served> {
    if fns == [] then [] else [Served(fns[0], a)] + Each(fns[1..], a)
  }

  /** The whole list for one fire after the other. */
  function InTurn(fns: seq<Callback>, fires: seq<Payload>): seq<Served> {
    if fires == [] then [] else InTurn(fns, fires[..|fires| - 1]) + Each(fns, fires[|fires| - 1])
  }

  lemma {:induction false} InTurnFirst(fns: seq<Callback>, a: Payload, rest: seq<Payload>)
    ensures InTurn(fns, [a] + rest) == Each(fns, a) + InTurn(fns, rest)
    decreases |rest|
  {
    if rest == [] {
      assert ([a] + rest)[..0] == [];
    } else {
      var front, last := rest[..|rest| - 1], rest[|rest| - 1];
      InTurnFirst(fns, a, front);
      assert ([a] + rest)[..|rest|] == [a] + front;
      assert Each(fns, a) + (InTurn(fns, front) + Each(fns, last)) ==
             (Each(fns, a) + InTurn(fns, front)) + Each(fns, last);
    }
  }

  /** Nothing but whole fires happens to the list: no editing, no clearing, no false that stops a round,
      no list that fires only once. */
  predicate OnlyFired(log: seq<Event>, i: nat) {
    forall k :: 0 <= k < |log| && log[k].on == i ==>
                  log[k].Started? || log[k].Called? || log[k].Ended? || (log[k].Accepted? && log[k].from == 0)
  }

  /** What the ledger still has to call: the rest of the round, then the whole list for each ticket. */
  function Outstanding(l: Ledger): seq<Served> {
    (if l.round.None? then [] else Each(l.round.value.due, l.round.value.payload)) + InTurn(l.list, Payloads(l.queue))
  }

  lemma AcceptedIsOutstanding(l: Ledger, l': Ledger, a: Payload)
    requires l' == l.(queue := l.queue + [Ticket(a, 0)])
    ensures Outstanding(l') == Outstanding(l) + Each(l.list, a)
  {
    PayloadsMore(l.queue, Ticket(a, 0));
    var later := Payloads(l.queue);
    assert (later + [a])[..|later|] == later;
    var inRound := if l.round.None? then [] else Each(l.round.value.due, l.round.value.payload);
    Associates(inRound, InTurn(l.list, later), Each(l.list, a));
  }

  lemma CalledWasOutstanding(l: Ledger, l': Ledger, r: Round)
    requires l.round == Some(r) && r.due != [] && l' == l.(round := Some(r.(due := r.due[1..])))
    ensures Outstanding(l) == [Served(r.due[0], r.payload)] + Outstanding(l')
  {
    Associates([Served(r.due[0], r.payload)], Each(r.due[1..], r.payload), InTurn(l.list, Payloads(l.queue)));
  }

  lemma StartedStaysOutstanding(l: Ledger, l': Ledger, a: Payload)
    requires l.round.None? && l.queue != [] && l.queue[0] == Ticket(a, 0)
    requires l' == l.(queue := l.queue[1..], round := Some(Round(a, l.list[0..], 0)))
    ensures Outstanding(l') == Outstanding(l)
  {
    assert l.list[0..] == l.list;
    InTurnFirst(l.list, a, Payloads(l'.queue));
    assert [] + InTurn(l.list, Payloads(l.queue)) == InTurn(l.list, Payloads(l.queue));
  }

  /** One event on a list that is only fired, given the calls and the accepted fires so far. */
  lemma OneMoreServed(l: Ledger, e: Event, calls: seq<Served>, fires: seq<Payload>)
    requires Post(l, e).Some? && Whole(l.queue) && calls + Outstanding(l) == InTurn(l.list, fires)
    requires e.Started? || e.Called? || e.Ended? || (e.Accepted? && e.from == 0)
    ensures var l' := Post(l, e).value;
            && Whole(l'.queue) && l'.list == l.list && (e.Called? ==> e.args.Some?)
            && (calls + (if e.Called? then [Served(e.fn, e.args.value)] else [])) + Outstanding(l')
               == InTurn(l.list, fires + (if e.Accepted? then [e.payload] else []))
  {
    hide Outstanding, InTurn;
    var l' := Post(l, e).value;
    assert fires + [] == fires && calls + [] == calls;
    match e
    case Accepted(_, a, _) =>
      AcceptedIsOutstanding(l, l', a);
      Associates(calls, Outstanding(l), Each(l.list, a));
      InTurnMore(l.list, fires, a);
    case Called(_, f, args) =>
      CalledWasOutstanding(l, l', l.round.value);
      Associates(calls, [Served(f, args.value)], Outstanding(l'));
    case Started(_, a) => StartedStaysOutstanding(l, l', a);
    case Ended(_) => NothingWasOutstanding(l, l');
  }

  lemma NothingWasOutstanding(l: Ledger, l': Ledger)
    requires l.round.Some? && l.round.value.due == [] && l' == l.(round := None)
    ensures Outstanding(l') == Outstanding(l)
  {
  }

  lemma InTurnMore(fns: seq<Callback>, fires: seq<Payload>, a: Payload)
    ensures InTurn(fns, fires + [a]) == InTurn(fns, fires) + Each(fns, a)
  {
    assert (fires + [a])[..|fires|] == fires;
  }

  /** On a list that is only fired, every accepted fire calls the whole list, one fire after the other
      in the order of acceptance, with its own arguments - however the fires are nested. */
  lemma {:induction false} ServedInTurn(start: seq<Callback>, log: seq<Event>, i: nat)
    requires Replay(start, log, i).Some? && OnlyFired(log, i)
    ensures var l := Replay(start, log, i).value;
            l.list == start && Whole(l.queue) && Calls(log, i) + Outstanding(l) == InTurn(start, Accepts(log, i))
  {
    if log != [] {
      var front, last := log[..|log| - 1], log[|log| - 1];
      assert forall k :: 0 <= k < |front| ==> front[k] == log[k];
      ServedInTurn(start, front, i);
      if last.on == i {
        OneMoreServed(Replay(start, front, i).value, last, Calls(front, i), Accepts(front, i));
      } else {
        assert Calls(log, i) == Calls(front, i) && Accepts(log, i) == Accepts(front, i);
      }
    } else {
      assert Outstanding(Ledger(start, [], None)) == [];
    }
  }

  // ---------------------------------------------------------------- and so in every run

  /** First in, first out: in every run the rounds of a list are its accepted fires in order, and every
      callback receives the arguments of the round it belongs to. */
  lemma FiresAreFirstInFirstOut(w: World, moves: seq<Move>, i: nat)
    requires Initial(w) && i < |w.lists|
    ensures var log := Run(w, moves).log;
            && Replay(w.lists[i].list, log, i).Some?
            && (NeverCleared(log, i) ==>
                  Starts(log, i) + Payloads(Replay(w.lists[i].list, log, i).value.queue) == Accepts(log, i))
            && (forall k :: 0 <= k < |log| && log[k].Called? && log[k].on == i ==>
                              LastStarted(log[..k], i).Some? && log[k].args == LastStarted(log[..k], i))
  {
    var start, log := w.lists[i].list, Run(w, moves).log;
    InitialLedger(w, i);
    ListsAreLedgers(start, w, moves, i);
    if NeverCleared(log, i) {
      StartsInOrder(start, log, i);
    }
    forall k | 0 <= k < |log| && log[k].Called? && log[k].on == i
      ensures LastStarted(log[..k], i).Some? && log[k].args == LastStarted(log[..k], i)
    {
      CallsCarryTheirRound(start, log, i, k);
    }
  }

  /** Nothing accepted is lost: when a list is idle and was never disabled or locked, every accepted fire
      has had its round; if it was only fired, each of them has called the whole list, in turn. */
  lemma IdleListsHaveServedAll(w: World, moves: seq<Move>, i: nat)
    requires Initial(w) && i < |w.lists| && i < |Run(w, moves).lists| && !Run(w, moves).lists[i].firing
    ensures NeverCleared(Run(w, moves).log, i) ==> Starts(Run(w, moves).log, i) == Accepts(Run(w, moves).log, i)
    ensures OnlyFired(Run(w, moves).log, i) ==>
              Calls(Run(w, moves).log, i) == InTurn(w.lists[i].list, Accepts(Run(w, moves).log, i))
  {
    var start, w' := w.lists[i].list, Run(w, moves);
    InitialLedger(w, i);
    InvHolds(w, moves);
    ListsAreLedgers(start, w, moves, i);
    ShapedInRuns(w', i);
    var l := Replay(start, w'.log, i).value;
    assert l.queue == [] && l.round.None?;
    if NeverCleared(w'.log, i) {
      StartsInOrder(start, w'.log, i);
    }
    if OnlyFired(w'.log, i) {
      ServedInTurn(start, w'.log, i);
      assert Outstanding(l) == [];
    }
  }

  // ---------------------------------------------------------------- a callback that is skipped

  /** One list with one callback, nothing fired yet. */
  function OneCallback(f: Callback): World {
    World([Fresh(Options(false, false, false, false)).(list := [f])], [], Pending, [])
  }

  /** It is fired; while `f` runs it empties the list and adds `g`. */
  function EmptyThenAdd(g: Callback, a: Payload): seq<Move> {
    [Issue(FireWith(0, a)), Tick, Tick, Issue(Empty(0)), Issue(Add(0, [g])), Return(false), Tick, Tick]
  }

  lemma RunFirst(w: World, m: Move, rest: seq<Move>)
    ensures Run(w, [m] + rest) == Run(Step(w, m), rest)
  {
    assert ([m] + rest)[1..] == rest;
  }

  function EmptyThenAddLog(f: Callback, g: Callback, a: Payload): seq<Event> {
    [Accepted(0, a, 0), Started(0, a), Called(0, f, Some(a)), Emptied(0), Registered(0, [g]), Ended(0)]
  }

  /** A world with one list. */
  function One(c: CallbackList, stack: seq<Frame>, log: seq<Event>): World {
    World([c], stack, Pending, log)
  }

  lemma OneFires(c: CallbackList, log: seq<Event>, a: Payload)
    requires !c.locked && !c.firing && c.queue == []
    ensures Step(One(c, [], log), Issue(FireWith(0, a)))
         == One(Begin(c.(queue := [a])), [Frame(0, Outer)], log + [Accepted(0, a, 0)])
  {
    assert [] + [a] == [a];
  }

  lemma OneStarts(c: CallbackList, log: seq<Event>, a: Payload)
    requires c.queue == [a]
    ensures Step(One(c, [Frame(0, Outer)], log), Tick)
         == One(c.(memory := Some(a), queue := []), [Frame(0, Inner)], log + [Started(0, a)])
  {
    assert c.queue[1..] == [] && Shift(c) == c.(memory := Some(a), queue := []);
  }

  lemma OneCalls(c: CallbackList, log: seq<Event>, f: Callback)
    requires c.firingIndex == -1 && c.list == [f] && f.User?
    ensures Step(One(c, [Frame(0, Inner)], log), Tick)
         == One(c.(firingIndex := 0), [Frame(0, Calling)], log + [Called(0, f, c.memory)])
  {
  }

  lemma OneEmpties(c: CallbackList, log: seq<Event>)
    requires !c.spent
    ensures Step(One(c, [Frame(0, Calling)], log), Issue(Empty(0))) ==
            One(c.(list := []), [Frame(0, Calling)], log + [Emptied(0)])
  {
  }

  lemma OneAdds(c: CallbackList, log: seq<Event>, g: Callback)
    requires !c.spent && c.firing && c.list == [] && !c.options.unique
    ensures Step(One(c, [Frame(0, Calling)], log), Issue(Add(0, [g])))
         == One(c.(list := [g]), [Frame(0, Calling)], log + [Registered(0, [g])])
  {
    assert [] + [g] == [g] && Appended([], false, [g]) == [g];
  }

  lemma OneReturns(c: CallbackList, log: seq<Event>)
    ensures Step(One(c, [Frame(0, Calling)], log), Return(false)) == One(c, [Frame(0, Inner)], log)
  {
    assert [Frame(0, Calling)][..0] + [Frame(0, Inner)] == [Frame(0, Inner)];
  }

  lemma OneRoundEnds(c: CallbackList, log: seq<Event>)
    requires |c.list| <= c.firingIndex + 1
    ensures Step(One(c, [Frame(0, Inner)], log), Tick) ==
            One(c.(firingIndex := -1), [Frame(0, Outer)], log + [Ended(0)])
  {
  }

  lemma OneFinishes(c: CallbackList, log: seq<Event>)
    requires c.queue == [] && !c.locked
    ensures Step(One(c, [Frame(0, Outer)], log), Tick) == One(Finish(c), [], log)
  {
  }

  lemma EmptyThenAddRuns(f: Callback, g: Callback, a: Payload)
    requires f.User? && g.User?
    ensures Run(OneCallback(f), EmptyThenAdd(g, a))
         == One(Fresh(Options(false, false, false, false)).(list := [g], fired := true), [], EmptyThenAddLog(f, g, a))
  {
    hide Step, Run;
    var idle := Fresh(Options(false, false, false, false)).(list := [f]);
    var ready := idle.(fired := true, firing := true);
    var calling := ready.(memory := Some(a), firingIndex := 0);
    var log := EmptyThenAddLog(f, g, a);
    assert [] + [Accepted(0, a, 0)] == log[..1] && log[..6] == log;
    assert forall k :: 0 <= k < 6 ==> log[..k + 1] == log[..k] + [log[k]];
    OneFires(idle, [], a);
    OneStarts(ready.(queue := [a]), log[..1], a);
    OneCalls(ready.(memory := Some(a)), log[..2], f);
    OneEmpties(calling, log[..3]);
    OneAdds(calling.(list := []), log[..4], g);
    OneReturns(calling.(list := [g]), log[..5]);
    OneRoundEnds(calling.(list := [g]), log[..5]);
    OneFinishes(calling.(list := [g], firingIndex := -1), log[..6]);
    SkipRun(One(idle, [], []),
            One(ready.(queue := [a]), [Frame(0, Outer)], log[..1]),
            One(ready.(memory := Some(a)), [Frame(0, Inner)], log[..2]),
            One(calling, [Frame(0, Calling)], log[..3]),
            One(calling.(list := []), [Frame(0, Calling)], log[..4]),
            One(calling.(list := [g]), [Frame(0, Calling)], log[..5]),
            One(calling.(list := [g]), [Frame(0, Inner)], log[..5]),
            One(calling.(list := [g], firingIndex := -1), [Frame(0, Outer)], log[..6]),
            One(Finish(calling.(list := [g], firingIndex := -1)), [], log[..6]), g, a);
  }

  lemma SkipRun(w0: World, w1: World, w2: World, w3: World, w4: World, w5: World, w6: World, w7: World, w8: World,
                g: Callback, a: Payload)
    requires w1 == Step(w0, Issue(FireWith(0, a))) && w2 == Step(w1, Tick) && w3 == Step(w2, Tick)
    requires w4 == Step(w3, Issue(Empty(0))) && w5 == Step(w4, Issue(Add(0, [g]))) && w6 == Step(w5, Return(false))
    requires w7 == Step(w6, Tick) && w8 == Step(w7, Tick)
    ensures Run(w0, EmptyThenAdd(g, a)) == w8
  {
    hide Step;
    var m := EmptyThenAdd(g, a);
    assert Run(w8, []) == w8;
    forall k | 0 <= k < 8
      ensures m[k..] == [m[k]] + m[k + 1..]
    {
    }
    RunFirst(w7, m[7], m[8..]);
    RunFirst(w6, m[6], m[7..]);
    RunFirst(w5, m[5], m[6..]);
    RunFirst(w4, m[4], m[5..]);
    RunFirst(w3, m[3], m[4..]);
    RunFirst(w2, m[2], m[3..]);
    RunFirst(w1, m[1], m[2..]);
    RunFirst(w0, m[0], m[1..]);
    assert m[0..] == m;
  }

  lemma CallsNote(log: seq<Event>, e: Event)
    ensures Calls(log + [e], 0) == Calls(log, 0) +
                                   (if e.Called? && e.on == 0 && e.args.Some? then [Served(e.fn, e.args.value)] else [])
  {
    assert (log + [e])[..|log|] == log;
  }

  lemma OnlyFIsCalled(f: Callback, g: Callback, a: Payload)
    ensures Calls(EmptyThenAddLog(f, g, a), 0) == [Served(f, a)]
  {
    var log := EmptyThenAddLog(f, g, a);
    assert forall k :: 0 <= k < 6 ==> log[..k + 1] == log[..k] + [log[k]];
    assert log[..0] == [] && log[..6] == log;
    CallsNote(log[..0], log[0]);
    CallsNote(log[..1], log[1]);
    CallsNote(log[..2], log[2]);
    CallsNote(log[..3], log[3]);
    CallsNote(log[..4], log[4]);
    CallsNote(log[..5], log[5]);
  }

  /** The firing ends with `g` in the list, added during it and never called. */
  lemma AddedAfterEmptyIsSkipped(f: Callback, g: Callback, a: Payload)
    requires f.User? && g.User?
    ensures Initial(OneCallback(f))
    ensures var w' := Run(OneCallback(f), EmptyThenAdd(g, a));
            && w'.stack == [] && |w'.lists| == 1 && w'.lists[0].list == [g]
            && Registered(0, [g]) in w'.log && Calls(w'.log, 0) == [Served(f, a)]
  {
    hide Run, Step, Calls;
    EmptyThenAddRuns(f, g, a);
    OnlyFIsCalled(f, g, a);
    assert EmptyThenAddLog(f, g, a)[4] == Registered(0, [g]);
  }
}
