/**
 jQuery.Callbacks as objects: closure variables that every method updates in place, and `fire` as its
 two nested loops.  The callbacks of one list may do anything to any list, so that firings nest.  Each
 edit is proved against the value-level operation, and all that happens on a page of lists is proved to
 be a run of the callback machine.
 */
module CallbackObject {
  import opened Wrappers
  import opened CallbackLists
  import Machine = CallbackMachine
  import Ledgers = CallbackLedgers

  class CallbackObject {
    const options: Options
    var list: seq<Callback>
    var spent: bool
    var queue: seq<Payload>
    var firingIndex: int
    var memory: Option<Payload>
    var firing: bool
    var fired: bool
    var locked: bool

    ghost function Value(): CallbackList
      reads this
    {
      CallbackList(options, spent, list, queue, firingIndex, memory, firing, fired, locked)
    }

    constructor (options: Options)
      ensures Value() == Fresh(options)
    {
      this.options := options;
      list, spent, queue, firingIndex := [], false, [], -1;
      memory, firing, fired, locked := None, false, false, false;
    }

    /** The pushes of `add`, one argument at a time. */
    method Push(fns: seq<Callback>)
      modifies this`list
      ensures list == Pushed(old(list), options.unique, fns)
    {
      for k := 0 to |fns|
        invariant Pushed(list, options.unique, fns[k..]) == Pushed(old(list), options.unique, fns)
      {
        assert fns[k..][1..] == fns[k + 1..];
        if !options.unique || fns[k] !in list {
          list := list + [fns[k]];
        }
      }
    }

    /** `add`, up to the point at which it may start to fire. */
    method Append(fns: seq<Callback>) returns (fires: bool)
      modifies this
      ensures fires == AddFires(old(Value())) && Value() == CallbackLists.Add(old(Value()), fns)
    {
      fires := !spent && memory.Some? && !firing;
      if !spent {
        if fires {
          firingIndex := |list| - 1;
          queue := queue + [memory.value];
        }
        Push(fns);
      }
    }

    /** The loop of `remove`: search, splice, and let the firing index follow, until nothing is found. */
    method SpliceAll(f: Callback)
      modifies this`list, this`firingIndex
      ensures (list, firingIndex) == RemoveFrom(old(list), old(firingIndex), f, 0)
    {
      var index: nat := 0;
      while true
        invariant index <= |list|
        invariant RemoveFrom(list, firingIndex, f, index) == RemoveFrom(old(list), old(firingIndex), f, 0)
        decreases |list|
      {
        var found := InArray(f, list, index);
        if found.None? {
          break;
        }
        index := found.value;
        list := Splice(list, index);
        if index <= firingIndex {
          firingIndex := firingIndex - 1;
        }
      }
    }

    method Remove(f: Callback)
      modifies this`list, this`firingIndex
      ensures Value() == CallbackLists.Remove(old(Value()), f)
    {
      SpliceAll(f);
    }

    method Empty()
      modifies this
      ensures Value() == CallbackLists.Empty(old(Value()))
    {
      if !spent {
        list := [];
      }
    }

    method Disable()
      modifies this
      ensures Value() == CallbackLists.Disable(old(Value()))
    {
      locked, queue := true, [];
      list, spent, memory := [], true, None;
    }

    method Lock()
      modifies this
      ensures Value() == CallbackLists.Lock(old(Value()))
    {
      locked, queue := true, [];
      if memory.None? {
        list, spent := [], true;
      }
    }

    /** `fireWith`, up to the point at which it may start to fire. */
    method Accept(a: Payload) returns (fires: bool)
      modifies this
      ensures fires == FireWithStarts(old(Value())) && Value() == Enqueue(old(Value()), a)
    {
      fires := !locked && !firing;
      if !locked {
        queue := queue + [a];
      }
    }

    // The parts of `fire` between the calls of callbacks.

    method StartFiring()
      modifies this
      ensures Value() == Begin(old(Value()))
    {
      locked := options.once;
      fired, firing := true, true;
    }

    method TakeNext()
      requires queue != []
      modifies this
      ensures Value() == Shift(old(Value()))
    {
      memory := Some(queue[0]);
      queue := queue[1..];
    }

    method JumpToEnd()
      modifies this
      ensures Value() == Stop(old(Value()))
    {
      firingIndex := |list|;
      memory := None;
    }

    method CleanUp()
      modifies this
      ensures Value() == Finish(old(Value()))
    {
      if !options.memory {
        memory := None;
      }
      firing := false;
      if locked {
        list, spent := [], memory.None?;
      }
    }
  }

  /** What one call of a user callback does: commands on any lists, then a result. */
  datatype Behaviour = Behaviour(commands: seq<Machine.Command>, isFalse: bool)

  /** The lists that callbacks can reach, and the state that a Deferred among them may set. */
  class Page {
    const objects: seq<CallbackObject>
    var state: Settlement
    /** What user code may do here. */
    ghost const allowed: Machine.Command -> bool
    /** The activations of `fire`, what has happened, and the run of the machine so far. */
    ghost const start: Machine.World
    ghost var stack: seq<Machine.Frame>
    ghost var log: seq<Machine.Event>
    ghost var moves: seq<Machine.Move>

    ghost function Values(): (values: seq<CallbackList>)
      reads objects
      ensures |values| == |objects| && forall k :: 0 <= k < |objects| ==> values[k] == objects[k].Value()
    {
      seq(|objects|, k requires 0 <= k < |objects| reads objects => objects[k].Value())
    }

    ghost function AsWorld(): Machine.World
      reads this, objects
    {
      Machine.World(Values(), stack, state, log)
    }

    ghost predicate Distinct() {
      forall i, j :: 0 <= i < j < |objects| ==> objects[i] != objects[j]
    }

    ghost predicate Permits(m: Machine.Move) {
      m.Issue? ==> allowed(m.command)
    }

    ghost predicate Valid()
      reads this, objects
    {
      && Distinct() && Machine.Inv(start)
      && (forall k :: 0 <= k < |moves| ==> Permits(moves[k]))
      && AsWorld() == Machine.Run(start, moves)
    }

    /** List `i` fires and is the innermost to do so. */
    ghost predicate Firing(i: nat, pc: Machine.Pc)
      reads this
    {
      i < |objects| && stack != [] && stack[|stack| - 1] == Machine.Frame(i, pc)
    }

    ghost predicate UserInControl()
      reads this
    {
      stack == [] || stack[|stack| - 1].pc == Machine.Calling
    }

    /** Left inside a callback, the script being at its end. */
    ghost predicate CutOff(rest: seq<Behaviour>)
      reads this
    {
      rest == [] && stack != [] && stack[|stack| - 1].pc == Machine.Calling
    }

    ghost predicate CanIssue(command: Machine.Command) {
      command.on < |objects| && allowed(command)
    }

    ghost predicate Scripted(script: seq<Behaviour>) {
      forall k, j :: 0 <= k < |script| && 0 <= j < |script[k].commands| ==> CanIssue(script[k].commands[j])
    }

    constructor (objects: seq<CallbackObject>, ghost allowed: Machine.Command -> bool)
      requires forall i, j :: 0 <= i < j < |objects| ==> objects[i] != objects[j]
      requires forall k :: 0 <= k < |objects| ==>
                             Machine.ListShape(objects[k].Value()) && !objects[k].Value().firing
      ensures Valid() && stack == [] && log == [] && moves == [] && state == Pending
      ensures this.objects == objects && this.allowed == allowed && Machine.Initial(start)
      ensures start == Machine.World(Values(), [], Pending, [])
    {
      this.objects, this.state, this.allowed := objects, Pending, allowed;
      stack, log, moves := [], [], [];
      start := Machine.World(
        seq(|objects|, k requires 0 <= k < |objects| reads objects => objects[k].Value()), [], Pending, []);
    }

    twostate lemma OneChanged(i: nat)
      requires i < |objects|
      requires forall k :: 0 <= k < |objects| && k != i ==> objects[k].Value() == old(objects[k].Value())
      ensures Values() == old(Values())[i := objects[i].Value()]
    {
    }

    /** The state reached is one the machine reaches by one more move. */
    ghost method Record(w: Machine.World, m: Machine.Move)
      requires Distinct() && Machine.Inv(start) && w == Machine.Run(start, moves)
      requires (forall k :: 0 <= k < |moves| ==> Permits(moves[k])) && Permits(m)
      requires AsWorld() == Machine.Step(w, m)
      modifies this`moves
      ensures Valid() && moves == old(moves) + [m]
    {
      RunOne(start, moves, m);
      moves := moves + [m];
    }

    // ---------------------------------------------------------------- ticks of `fire`

    /** The test of the outer loop, when something is queued. */
    method ShiftQueue(i: nat)
      requires Valid() && Firing(i, Machine.Outer) && objects[i].queue != []
      modifies this`stack, this`log, this`moves, objects[i]
      ensures Valid() && moves == old(moves) + [Machine.Tick]
      ensures stack == At(old(stack), i, Machine.Inner)
      ensures objects[i].queue == old(objects[i].queue)[1..]
    {
      hide Machine.Inv, Machine.Run;
      ghost var w := AsWorld();
      log := log + [Machine.Started(i, objects[i].queue[0])];
      stack := At(stack, i, Machine.Inner);
      objects[i].TakeNext();
      OneChanged(i);
      Record(w, Machine.Tick);
    }

    /** And when nothing is: `fire` cleans up and returns. */
    method Leave(i: nat)
      requires Valid() && Firing(i, Machine.Outer) && objects[i].queue == []
      modifies this`stack, this`log, this`moves, objects[i]
      ensures Valid() && moves == old(moves) + [Machine.Tick]
      ensures stack == old(stack)[..|old(stack)| - 1]
    {
      hide Machine.Inv, Machine.Run;
      ghost var w := AsWorld();
      log := log + if objects[i].locked then [Machine.Retired(i)] else [];
      stack := stack[..|stack| - 1];
      objects[i].CleanUp();
      OneChanged(i);
      Record(w, Machine.Tick);
    }

    /** The inner loop has come to the end of the list. */
    method RoundOver(i: nat)
      requires Valid() && Firing(i, Machine.Inner) && |objects[i].list| <= objects[i].firingIndex + 1
      modifies this`stack, this`log, this`moves, objects[i]
      ensures Valid() && moves == old(moves) + [Machine.Tick]
      ensures stack == At(old(stack), i, Machine.Outer)
      ensures objects[i].queue == old(objects[i].queue)
    {
      hide Machine.Inv, Machine.Run;
      ghost var w := AsWorld();
      log := log + [Machine.Ended(i)];
      stack := At(stack, i, Machine.Outer);
      objects[i].firingIndex := -1;
      OneChanged(i);
      Record(w, Machine.Tick);
    }

    /** A callback returns; a false result may end the round. */
    method Back(i: nat, isFalse: bool)
      requires Valid() && Firing(i, Machine.Calling)
      modifies this`stack, this`log, this`moves, objects[i]
      ensures Valid() && moves == old(moves) + [Machine.Return(isFalse)]
      ensures stack == At(old(stack), i, Machine.Inner)
    {
      hide Machine.Inv, Machine.Run;
      ghost var w := AsWorld();
      stack := At(stack, i, Machine.Inner);
      if isFalse && objects[i].options.stopOnFalse {
        log := log + [Machine.Stopped(i)];
        objects[i].JumpToEnd();
      }
      OneChanged(i);
      Record(w, Machine.Return(isFalse));
    }

    /** The callbacks that a Deferred installs do their work at once. */
    method CallBuiltIn(f: Callback)
      requires Distinct() && !f.User?
      modifies this`state, this`log, objects
      ensures forall w :: w == old(AsWorld()) && stack != [] ==> AsWorld() == Machine.Apply(w, f)
      ensures forall k :: 0 <= k < |objects| ==>
                            && objects[k].firingIndex == old(objects[k].firingIndex)
                            && |objects[k].list| <= |old(objects[k].list)|
                            && |objects[k].queue| <= |old(objects[k].queue)|
    {
      match f
      case SetState(s) =>
        state := s;
        assert Values() == old(Values());
      case DisableList(j) =>
        if j < |objects| {
          log := log + [Machine.Cleared(j, true)];
          objects[j].Disable();
          OneChanged(j);
        }
      case LockList(j) =>
        if j < |objects| {
          log := log + [Machine.Cleared(j, objects[j].memory.None?)];
          objects[j].Lock();
          OneChanged(j);
        }
    }

    /** The firing index advances onto the next callback. */
    method Advance(i: nat) returns (f: Callback)
      requires Distinct() && i < |objects| && 0 <= objects[i].firingIndex + 1 < |objects[i].list|
      modifies this`log, objects[i]
      ensures f == old(objects[i].list[objects[i].firingIndex + 1])
      ensures var w: Machine.World := old(AsWorld());
              var c: CallbackList := w.lists[i].(firingIndex := w.lists[i].firingIndex + 1);
              AsWorld() == Machine.Note(Machine.Put(w, i, c), Machine.Called(i, f, c.memory))
    {
      var callee := objects[i];
      callee.firingIndex := callee.firingIndex + 1;
      f := callee.list[callee.firingIndex];
      log := log + [Machine.Called(i, f, callee.memory)];
      OneChanged(i);
    }

    /** The next callback is called: user code takes control, unless the callback is built in. */
    method Call(i: nat) returns (f: Callback)
      requires Valid() && Firing(i, Machine.Inner)
      requires 0 <= objects[i].firingIndex + 1 < |objects[i].list|
      modifies this`state, this`stack, this`log, this`moves, objects
      ensures Valid() && moves == old(moves) + [Machine.Tick]
      ensures f.User? ==> stack == At(old(stack), i, Machine.Calling)
      ensures !f.User? ==>
                && stack == old(stack) && |objects[i].queue| <= |old(objects[i].queue)|
                && objects[i].firingIndex == old(objects[i].firingIndex) + 1
                && |objects[i].list| <= |old(objects[i].list)|
    {
      hide Machine.Inv, Machine.Run, Machine.Apply;
      ghost var w := AsWorld();
      f := Advance(i);
      ghost var at := AsWorld();
      InnerStep(w, i, at, f);
      if f.User? {
        stack := At(stack, i, Machine.Calling);
      } else {
        CallBuiltIn(f);
      }
      Record(w, Machine.Tick);
    }

    // ---------------------------------------------------------------- commands

    /** `add` on list `i`; if it is to fire, the activation begins. */
    method BeginAdd(i: nat, fns: seq<Callback>) returns (fires: bool)
      requires Valid() && UserInControl() && CanIssue(Machine.Add(i, fns))
      modifies this`stack, this`log, this`moves, objects[i]
      ensures Valid() && moves == old(moves) + [Machine.Issue(Machine.Add(i, fns))]
      ensures stack == old(stack) + if fires then [Machine.Frame(i, Machine.Outer)] else []
    {
      hide Machine.Inv, Machine.Run, Machine.AddIn, Begin, CallbackLists.Add;
      ghost var w := AsWorld();
      ghost var c := objects[i].Value();
      AddStep(w, i, fns);
      fires := objects[i].Append(fns);
      if !c.spent {
        log := log + [Machine.Registered(i, Appended(c.list, c.options.unique, fns))];
      }
      if fires {
        log := log + [Machine.Accepted(i, c.memory.value, |c.list|)];
        stack := stack + [Machine.Frame(i, Machine.Outer)];
        objects[i].StartFiring();
      }
      OneChanged(i);
      Record(w, Machine.Issue(Machine.Add(i, fns)));
    }

    /** `fireWith` on list `i`; if the list is idle, the activation begins. */
    method BeginFire(i: nat, a: Payload) returns (fires: bool)
      requires Valid() && UserInControl() && CanIssue(Machine.FireWith(i, a))
      modifies this`stack, this`log, this`moves, objects[i]
      ensures Valid() && moves == old(moves) + [Machine.Issue(Machine.FireWith(i, a))]
      ensures stack == old(stack) + if fires then [Machine.Frame(i, Machine.Outer)] else []
    {
      hide Machine.Inv, Machine.Run, Machine.FireIn, Begin, Enqueue;
      ghost var w := AsWorld();
      FireStep(w, i, a);
      if !objects[i].locked {
        log := log + [Machine.Accepted(i, a, 0)];
      }
      fires := objects[i].Accept(a);
      if fires {
        stack := stack + [Machine.Frame(i, Machine.Outer)];
        objects[i].StartFiring();
      }
      OneChanged(i);
      Record(w, Machine.Issue(Machine.FireWith(i, a)));
    }

    /** The commands that call nobody. */
    method Edit(command: Machine.Command)
      requires Valid() && UserInControl() && CanIssue(command) && !command.Add? && !command.FireWith?
      modifies this`log, this`moves, objects[command.on]
      ensures Valid() && moves == old(moves) + [Machine.Issue(command)]
    {
      hide Machine.Inv, Machine.Run;
      ghost var w := AsWorld();
      var i := command.on;
      match command {
        case Remove(_, f) =>
          log := log + [Machine.Removed(i, f)];
          objects[i].Remove(f);
        case Empty(_) =>
          log := log + if objects[i].spent then [] else [Machine.Emptied(i)];
          objects[i].Empty();
        case Disable(_) =>
          log := log + [Machine.Cleared(i, true)];
          objects[i].Disable();
        case Lock(_) =>
          log := log + [Machine.Cleared(i, objects[i].memory.None?)];
          objects[i].Lock();
      }
      OneChanged(i);
      Record(w, Machine.Issue(command));
    }

    // ---------------------------------------------------------------- the loops

    /** The inner loop of `fire`: calls until the list ends, whose length and firing index callbacks
        may change at every call. */
    method Round(i: nat, script: seq<Behaviour>) returns (rest: seq<Behaviour>, complete: bool)
      requires Valid() && Firing(i, Machine.Inner) && Scripted(script)
      modifies this`state, this`stack, this`log, this`moves, objects
      ensures Valid() && old(moves) <= moves && |rest| <= |script| && Scripted(rest)
      ensures !complete ==> CutOff(rest)
      ensures complete ==> stack == old(stack) && |objects[i].list| <= objects[i].firingIndex + 1
      ensures complete ==> |rest| < |script| || |objects[i].queue| <= |old(objects[i].queue)|
      decreases |script|, 0
    {
      hide Valid, AsWorld, Values, At;
      rest, complete := script, true;
      while objects[i].firingIndex + 1 < |objects[i].list|
        invariant Valid() && complete && stack == old(stack) && old(moves) <= moves
        invariant |rest| <= |script| && Scripted(rest)
        invariant |rest| < |script| || |objects[i].queue| <= |old(objects[i].queue)|
        decreases |rest|, |objects[i].list| - objects[i].firingIndex
      {
        IndexInPlace(i);
        BackAt(stack, i, Machine.Calling, Machine.Inner);
        AtFires(stack, i, Machine.Calling);
        var f := Call(i);
        if f.User? {
          if rest == [] {
            complete := false;
            return;
          }
          var behaviour := rest[0];
          rest, complete := Invoke(behaviour.commands, rest[1..]);
          if !complete {
            return;
          }
          Back(i, behaviour.isFalse);
        }
      }
    }

    lemma IndexInPlace(i: nat)
      requires Valid() && i < |objects|
      ensures -1 <= objects[i].firingIndex
    {
      Machine.InvHolds(start, moves);
      assert Machine.ListShape(AsWorld().lists[i]);
      assert AsWorld().lists[i] == objects[i].Value();
    }

    /** `fire`: rounds until the queue is empty.  `script` says what each call of user code does, in the
        order of the calls.  When it runs out before the next call, everything is left right there: what
        is proved holds of every prefix of an endless firing too. */
    method Fire(i: nat, script: seq<Behaviour>) returns (rest: seq<Behaviour>, complete: bool)
      requires Valid() && Firing(i, Machine.Outer) && Scripted(script)
      modifies this`state, this`stack, this`log, this`moves, objects
      ensures Valid() && old(moves) <= moves && |rest| <= |script| && Scripted(rest)
      ensures !complete ==> CutOff(rest)
      ensures complete ==> stack == old(stack)[..|old(stack)| - 1]
      decreases |script|, 1
    {
      hide Valid, AsWorld, Values, At;
      rest, complete := script, true;
      while objects[i].queue != []
        invariant Valid() && complete && stack == old(stack) && old(moves) <= moves
        invariant |rest| <= |script| && Scripted(rest)
        decreases |rest|, |objects[i].queue|
      {
        BackAt(stack, i, Machine.Inner, Machine.Outer);
        AtFires(stack, i, Machine.Inner);
        ShiftQueue(i);
        rest, complete := Round(i, rest);
        if !complete {
          return;
        }
        RoundOver(i);
      }
      Leave(i);
    }

    /** `add` */
    method Add(i: nat, fns: seq<Callback>, script: seq<Behaviour>) returns (rest: seq<Behaviour>, complete: bool)
      requires Valid() && UserInControl() && CanIssue(Machine.Add(i, fns)) && Scripted(script)
      modifies this`state, this`stack, this`log, this`moves, objects
      ensures Valid() && old(moves) + [Machine.Issue(Machine.Add(i, fns))] <= moves
      ensures |rest| <= |script| && Scripted(rest)
      ensures if complete then stack == old(stack) else CutOff(rest)
      decreases |script|, 2
    {
      rest, complete := script, true;
      var fires := BeginAdd(i, fns);
      if fires {
        rest, complete := Fire(i, script);
      }
    }

    /** `fireWith` */
    method FireWith(i: nat, a: Payload, script: seq<Behaviour>) returns (rest: seq<Behaviour>, complete: bool)
      requires Valid() && UserInControl() && CanIssue(Machine.FireWith(i, a)) && Scripted(script)
      modifies this`state, this`stack, this`log, this`moves, objects
      ensures Valid() && old(moves) + [Machine.Issue(Machine.FireWith(i, a))] <= moves
      ensures |rest| <= |script| && Scripted(rest)
      ensures if complete then stack == old(stack) else CutOff(rest)
      decreases |script|, 2
    {
      rest, complete := script, true;
      var fires := BeginFire(i, a);
      if fires {
        rest, complete := Fire(i, script);
      }
    }

    /** So what is proved of the machine holds of every page: its lists serve their fires in the order of
        acceptance, with their arguments, and an idle one has served all. */
    lemma ServesInOrder(i: nat)
      requires Valid() && Machine.Initial(start) && i < |objects|
      ensures Ledgers.NeverCleared(log, i) ==> Ledgers.Starts(log, i) <= Ledgers.Accepts(log, i)
      ensures forall k :: 0 <= k < |log| && log[k].Called? && log[k].on == i ==>
                            Ledgers.LastStarted(log[..k], i).Some? && log[k].args == Ledgers.LastStarted(log[..k], i)
      ensures Ledgers.NeverCleared(log, i) && !objects[i].firing ==> Ledgers.Starts(log, i) == Ledgers.Accepts(log, i)
    {
      hide Machine.Inv, Machine.Run, Ledgers.Replay, Ledgers.LastStarted;
      var w := AsWorld();
      assert w.lists[i] == objects[i].Value();
      SameLists(start, moves);
      Ledgers.FiresAreFirstInFirstOut(start, moves, i);
      if !objects[i].firing {
        Ledgers.IdleListsHaveServedAll(start, moves, i);
      }
    }

    /** The body of one user callback: its commands in order, each of which may fire other lists. */
    method Invoke(commands: seq<Machine.Command>, script: seq<Behaviour>)
      returns (rest: seq<Behaviour>, complete: bool)
      requires Valid() && UserInControl() && Scripted(script)
      requires forall k :: 0 <= k < |commands| ==> CanIssue(commands[k])
      modifies this`state, this`stack, this`log, this`moves, objects
      ensures Valid() && old(moves) <= moves
      ensures |rest| <= |script| && Scripted(rest)
      ensures if complete then stack == old(stack) else CutOff(rest)
      decreases |script|, 3
    {
      hide Valid, AsWorld, Values;
      rest, complete := script, true;
      for k := 0 to |commands|
        invariant Valid() && complete && stack == old(stack) && old(moves) <= moves
        invariant |rest| <= |script| && Scripted(rest)
      {
        match commands[k] {
          case Add(i, fns) => rest, complete := Add(i, fns, rest);
          case FireWith(i, a) => rest, complete := FireWith(i, a, rest);
          case _ => Edit(commands[k]);
        }
        if !complete {
          return;
        }
      }
    }
  }

  lemma InnerStep(w: Machine.World, i: nat, at: Machine.World, f: Callback)
    requires i < |w.lists| && w.stack != [] && w.stack[|w.stack| - 1] == Machine.Frame(i, Machine.Inner)
    requires 0 <= w.lists[i].firingIndex + 1 < |w.lists[i].list|
    requires var c := w.lists[i].(firingIndex := w.lists[i].firingIndex + 1);
             && f == c.list[c.firingIndex]
             && at == Machine.Note(Machine.Put(w, i, c), Machine.Called(i, f, c.memory))
    ensures Machine.Step(w, Machine.Tick) == Machine.Apply(at, f)
    ensures f.User? ==> Machine.Apply(at, f) == at.(stack := At(at.stack, i, Machine.Calling))
  {
  }

  lemma AddStep(w: Machine.World, i: nat, fns: seq<Callback>)
    requires i < |w.lists|
    ensures var c := w.lists[i];
            var news := Appended(c.list, c.options.unique, fns);
            Machine.AddIn(w, i, fns) ==
            if c.spent then w
            else if AddFires(c)
            then w.(lists := w.lists[i := Begin(CallbackLists.Add(c, fns))],
                         stack := w.stack + [Machine.Frame(i, Machine.Outer)],
                         log := w.log + [Machine.Registered(i, news)] + [Machine.Accepted(i, c.memory.value, |c.list|)])
            else w.(lists := w.lists[i := CallbackLists.Add(c, fns)], log := w.log + [Machine.Registered(i, news)])
    ensures w.lists[i].spent ==> CallbackLists.Add(w.lists[i], fns) == w.lists[i]
  {
  }

  lemma FireStep(w: Machine.World, i: nat, a: Payload)
    requires i < |w.lists|
    ensures var c := w.lists[i];
            Machine.FireIn(w, i, a) ==
            if c.locked then w
            else if c.firing
            then w.(lists := w.lists[i := Enqueue(c, a)], log := w.log + [Machine.Accepted(i, a, 0)])
            else w.(lists := w.lists[i := Begin(Enqueue(c, a))],
              stack := w.stack + [Machine.Frame(i, Machine.Outer)],
              log := w.log + [Machine.Accepted(i, a, 0)])
    ensures w.lists[i].locked ==> Enqueue(w.lists[i], a) == w.lists[i]
  {
  }

  /** The innermost activation, which is of list `i`, at `pc`. */
  function At(stack: seq<Machine.Frame>, i: nat, pc: Machine.Pc): seq<Machine.Frame>
    requires stack != []
  {
    stack[..|stack| - 1] + [Machine.Frame(i, pc)]
  }

  lemma AtFires(stack: seq<Machine.Frame>, i: nat, pc: Machine.Pc)
    requires stack != []
    ensures At(stack, i, pc) != [] && At(stack, i, pc)[|At(stack, i, pc)| - 1] == Machine.Frame(i, pc)
  {
  }

  lemma BackAt(stack: seq<Machine.Frame>, i: nat, there: Machine.Pc, here: Machine.Pc)
    requires stack != [] && stack[|stack| - 1] == Machine.Frame(i, here)
    ensures At(At(stack, i, there), i, here) == stack
  {
  }

  lemma {:induction false} SameLists(w: Machine.World, moves: seq<Machine.Move>)
    requires Machine.Inv(w)
    ensures |Machine.Run(w, moves).lists| == |w.lists|
    decreases |moves|
  {
    if moves != [] {
      Machine.StepKeepsInv(w, moves[0]);
      SameLists(Machine.Step(w, moves[0]), moves[1..]);
    }
  }

  lemma RunOne(start: Machine.World, moves: seq<Machine.Move>, m: Machine.Move)
    ensures Machine.Run(start, moves + [m]) == Machine.Step(Machine.Run(start, moves), m)
  {
    Machine.RunConcat(start, moves, [m]);
    assert [m][1..] == [];
  }
}
