/**
 Any number of jQuery callback lists with re-entrant user code.

 User code is in control when nothing fires, or while a user callback runs; it may then issue
 any command on any list, or return.  `fire` is broken into ticks: one test of the outer loop,
 or one turn of the inner loop.  A list fires at most once at a time, so the nested activations
 of `fire` form a stack of distinct lists.  A run is any sequence of moves, so a property of all
 runs holds for every behaviour of every callback, including behaviours that never end.
 */
module CallbackMachine {
  import opened Wrappers
  import opened CallbackLists

  datatype Command =
    | Add(on: nat, fns: seq<Callback>)
    | Remove(on: nat, fn: Callback)
    | Empty(on: nat)
    | Disable(on: nat)
    | Lock(on: nat)
    | FireWith(on: nat, payload: Payload)

  /** Where an activation of `fire` stands: at the test of the outer loop, at the test of the
      inner loop, or inside a user callback. */
  datatype Pc = Outer | Inner | Calling

  datatype Frame = Frame(on: nat, pc: Pc)

  /** What a run leaves behind; no step reads it. */
  datatype Event =
      // editing: callbacks appended, one callback removed, the list emptied
    | Registered(on: nat, fns: seq<Callback>)
    | Removed(on: nat, fn: Callback)
    | Emptied(on: nat)
      // a fire is queued, for the callbacks from position `from` on
    | Accepted(on: nat, payload: Payload, from: nat)
      // `disable` or `lock` drops what is queued, and perhaps the list for good
    | Cleared(on: nat, spent: bool)
      // a round: its start, its calls, a callback's false that stops it, its end
    | Started(on: nat, payload: Payload)
    | Called(on: nat, fn: Callback, args: Option<Payload>)
    | Stopped(on: nat)
    | Ended(on: nat)
      // a list that fires only once drops its callbacks after firing
    | Retired(on: nat)

  datatype World = World(lists: seq<CallbackList>, stack: seq<Frame>, state: Settlement, log: seq<Event>)

  datatype Move = Issue(command: Command) | Return(isFalse: bool) | Tick

  function Top(w: World): Frame
    requires w.stack != []
  {
    w.stack[|w.stack| - 1]
  }

  function SetTop(w: World, pc: Pc): World
    requires w.stack != []
  {
    w.(stack := w.stack[..|w.stack| - 1] + [Frame(Top(w).on, pc)])
  }

  predicate UserInControl(w: World) {
    w.stack == [] || Top(w).pc == Calling
  }

  predicate Enabled(w: World, m: Move) {
    match m
    case Issue(command) => UserInControl(w) && command.on < |w.lists|
    case Return(_) => w.stack != [] && Top(w).pc == Calling && Top(w).on < |w.lists|
    case Tick => w.stack != [] && Top(w).pc != Calling && Top(w).on < |w.lists|
  }

  function Put(w: World, i: nat, c: CallbackList): World {
    if i < |w.lists| then w.(lists := w.lists[i := c]) else w
  }

  function Note(w: World, e: Event): World {
    w.(log := w.log + [e])
  }

  function Enter(w: World, i: nat): World
    requires i < |w.lists|
  {
    var begun := Put(w, i, Begin(w.lists[i]));
    begun.(stack := begun.stack + [Frame(i, Outer)])
  }

  /** Disabling and locking drop whatever is queued. */
  function DisableIn(w: World, i: nat): World {
    if i < |w.lists| then Note(Put(w, i, CallbackLists.Disable(w.lists[i])), Cleared(i, true)) else w
  }

  function LockIn(w: World, i: nat): World {
    if i < |w.lists| then Note(Put(w, i, CallbackLists.Lock(w.lists[i])), Cleared(i, w.lists[i].memory.None?)) else w
  }

  function AddIn(w: World, i: nat, fns: seq<Callback>): World
    requires i < |w.lists|
  {
    var c := w.lists[i];
    if c.spent then w
    else
      var added := Note(Put(w, i, CallbackLists.Add(c, fns)), Registered(i, Appended(c.list, c.options.unique, fns)));
      if AddFires(c) then Enter(Note(added, Accepted(i, c.memory.value, |c.list|)), i) else added
  }

  function FireIn(w: World, i: nat, a: Payload): World
    requires i < |w.lists|
  {
    var c := w.lists[i];
    if c.locked then w
    else
      var queued := Note(Put(w, i, Enqueue(c, a)), Accepted(i, a, 0));
      if c.firing then queued else Enter(queued, i)
  }

  function Perform(w: World, command: Command): World
    requires command.on < |w.lists|
  {
    match command
    case Add(i, fns) => AddIn(w, i, fns)
    case Remove(i, f) => Note(Put(w, i, CallbackLists.Remove(w.lists[i], f)), Removed(i, f))
    case Empty(i) => if w.lists[i].spent then w else Note(Put(w, i, CallbackLists.Empty(w.lists[i])), Emptied(i))
    case Disable(i) => DisableIn(w, i)
    case Lock(i) => LockIn(w, i)
    case FireWith(i, a) => FireIn(w, i, a)
  }

  /** One test of the outer loop. */
  function TickOuter(w: World): World
    requires w.stack != [] && Top(w).on < |w.lists|
  {
    var i := Top(w).on;
    var c := w.lists[i];
    if c.queue != [] then
      SetTop(Note(Put(w, i, Shift(c)), Started(i, c.queue[0])), Inner)
    else
      var done := Put(w, i, Finish(c)).(stack := w.stack[..|w.stack| - 1]);
      if c.locked then Note(done, Retired(i)) else done
  }

  /** A callback is applied: user code takes control, a built-in function does its work and returns. */
  function Apply(w: World, f: Callback): World
    requires w.stack != []
  {
    match f
    case User(_) => SetTop(w, Calling)
    case SetState(s) => w.(state := s)
    case DisableList(j) => DisableIn(w, j)
    case LockList(j) => LockIn(w, j)
  }

  /** One turn of the inner loop: the next callback is called, or the round ends. */
  function TickInner(w: World): World
    requires w.stack != [] && Top(w).on < |w.lists|
  {
    var i := Top(w).on;
    var c := w.lists[i];
    var next := c.firingIndex + 1;
    if 0 <= next < |c.list| then
      var at := Note(Put(w, i, c.(firingIndex := next)), Called(i, c.list[next], c.memory));
      Apply(at, c.list[next])
    else
      SetTop(Note(Put(w, i, c.(firingIndex := -1)), Ended(i)), Outer)
  }

  /** The callback on top returns; its false ends the round of a list with stopOnFalse. */
  function ReturnIn(w: World, isFalse: bool): World
    requires w.stack != [] && Top(w).on < |w.lists|
  {
    var i := Top(w).on;
    var c := w.lists[i];
    if isFalse && c.options.stopOnFalse then SetTop(Note(Put(w, i, Stop(c)), Stopped(i)), Inner)
    else SetTop(w, Inner)
  }

  /** A move that the program cannot make in this state changes nothing. */
  function Step(w: World, m: Move): World {
    if !Enabled(w, m) then w
    else
      match m
      case Issue(command) => Perform(w, command)
      case Return(isFalse) => ReturnIn(w, isFalse)
      case Tick => if Top(w).pc == Outer then TickOuter(w) else TickInner(w)
  }

  function Run(w: World, moves: seq<Move>): World
    decreases |moves|
  {
    if moves == [] then w else Run(Step(w, moves[0]), moves[1..])
  }

  lemma {:induction false} RunConcat(w: World, a: seq<Move>, b: seq<Move>)
    ensures Run(w, a + b) == Run(Run(w, a), b)
    decreases |a|
  {
    if a == [] {
      assert a + b == b;
    } else {
      assert (a + b)[1..] == a[1..] + b;
      RunConcat(Step(w, a[0]), a[1..], b);
    }
  }

  // ---------------------------------------------------------------- structural invariant

  predicate OnStack(stack: seq<Frame>, i: nat) {
    exists k :: 0 <= k < |stack| && stack[k].on == i
  }

  /** The activations are of distinct lists, and all but the innermost wait in a callback. */
  predicate StackShape(stack: seq<Frame>) {
    && (forall j, k :: 0 <= j < k < |stack| ==> stack[j].on != stack[k].on)
    && (forall k :: 0 <= k < |stack| - 1 ==> stack[k].pc == Calling)
  }

  predicate ListShape(c: CallbackList) {
    && -1 <= c.firingIndex
    && (!c.firing ==> c.firingIndex == -1 && c.queue == [])
    && (!c.firing && !c.options.memory ==> c.memory.None?)
    && (c.spent ==> c.list == [] && c.queue == [] && c.memory.None? && c.locked)
  }

  /** Inside a round the arguments are there, unless nothing is left to call. */
  predicate FrameShape(c: CallbackList, pc: Pc) {
    && c.firing
    && (pc == Outer ==> c.firingIndex == -1 || c.queue != [])
    && (pc != Outer && c.memory.None? ==> |c.list| <= c.firingIndex + 1 && (pc == Calling ==> c.spent))
  }

  predicate Inv(w: World) {
    && StackShape(w.stack)
    && (forall k :: 0 <= k < |w.stack| ==>
                      w.stack[k].on < |w.lists| && FrameShape(w.lists[w.stack[k].on], w.stack[k].pc))
    && (forall i :: 0 <= i < |w.lists| ==>
                      ListShape(w.lists[i]) && (w.lists[i].firing ==> OnStack(w.stack, i)))
  }

  predicate Initial(w: World) {
    && w.stack == [] && w.log == []
    && forall i :: 0 <= i < |w.lists| ==>
                     ListShape(w.lists[i]) && !w.lists[i].firing
  }

  lemma {:induction false} InvHolds(w: World, moves: seq<Move>)
    requires Inv(w)
    ensures Inv(Run(w, moves))
    decreases |moves|
  {
    if moves != [] {
      StepKeepsInv(w, moves[0]);
      InvHolds(Step(w, moves[0]), moves[1..]);
    }
  }

  lemma StepKeepsInv(w: World, m: Move)
    requires Inv(w)
    ensures Inv(Step(w, m)) && |Step(w, m).lists| == |w.lists|
  {
    if Enabled(w, m) {
      match m
      case Issue(command) => PerformKeepsInv(w, command);
      case Return(isFalse) => ReturnKeepsInv(w, isFalse);
      case Tick =>
        if Top(w).pc == Outer {
          TickOuterKeepsInv(w);
        } else {
          TickInnerKeepsInv(w);
        }
    }
  }

  /** One list changes, its frames keep their places. */
  lemma PutKeepsInv(w: World, i: nat, c: CallbackList)
    requires Inv(w) && i < |w.lists|
    requires ListShape(c) && c.firing == w.lists[i].firing
    requires forall k :: 0 <= k < |w.stack| && w.stack[k].on == i ==> FrameShape(c, w.stack[k].pc)
    ensures Inv(Put(w, i, c))
  {
  }

  /** The innermost list changes and its activation moves on. */
  lemma SetTopKeepsInv(w: World, c: CallbackList, pc: Pc)
    requires Inv(w) && w.stack != []
    requires ListShape(c) && c.firing && FrameShape(c, pc)
    ensures Inv(SetTop(Put(w, Top(w).on, c), pc))
  {
    var i := Top(w).on;
    var w' := SetTop(Put(w, i, c), pc);
    var n := |w.stack|;
    assert forall k :: 0 <= k < n ==> w'.stack[k].on == w.stack[k].on;
    forall j | 0 <= j < |w'.lists| && w'.lists[j].firing
      ensures OnStack(w'.stack, j)
    {
      if j == i {
        assert w'.stack[n - 1].on == i;
      } else {
        assert OnStack(w.stack, j);
      }
    }
  }

  lemma PushShape(stack: seq<Frame>, i: nat)
    requires StackShape(stack) && !OnStack(stack, i) && (forall k :: 0 <= k < |stack| ==> stack[k].pc == Calling)
    ensures StackShape(stack + [Frame(i, Outer)])
    ensures forall j :: OnStack(stack, j) || j == i ==> OnStack(stack + [Frame(i, Outer)], j)
  {
    var stack' := stack + [Frame(i, Outer)];
    assert forall k :: 0 <= k < |stack| ==> stack'[k] == stack[k] && stack[k].on != i;
    forall j | OnStack(stack, j) || j == i
      ensures OnStack(stack', j)
    {
      if j == i {
        assert stack'[|stack|].on == i;
      } else {
        var k :| 0 <= k < |stack| && stack[k].on == j;
        assert stack'[k].on == j;
      }
    }
  }

  /** An idle list starts to fire. */
  lemma EnterKeepsInv(w: World, i: nat, c: CallbackList)
    requires Inv(w) && i < |w.lists| && UserInControl(w) && !w.lists[i].firing
    requires ListShape(c.(firing := true)) && c.queue != [] && !c.spent
    ensures Inv(Enter(Put(w, i, c), i))
  {
    var w' := Enter(Put(w, i, c), i);
    assert !OnStack(w.stack, i);
    PushShape(w.stack, i);
    assert w'.stack == w.stack + [Frame(i, Outer)] && w'.lists == w.lists[i := Begin(c)];
    assert FrameShape(Begin(c), Outer) && ListShape(Begin(c));
    assert forall k :: 0 <= k < |w.stack| ==> w'.stack[k] == w.stack[k] && w.stack[k].on != i;
  }

  lemma InvIgnoresLog(w: World, w': World)
    requires Inv(w) && w'.lists == w.lists && w'.stack == w.stack
    ensures Inv(w')
  {
  }

  lemma AddKeepsInv(w: World, i: nat, fns: seq<Callback>)
    requires Inv(w) && UserInControl(w) && i < |w.lists|
    ensures Inv(AddIn(w, i, fns)) && |AddIn(w, i, fns).lists| == |w.lists|
  {
    var c := w.lists[i];
    if AddFires(c) {
      var c' := CallbackLists.Add(c, fns);
      EnterKeepsInv(w, i, c');
      InvIgnoresLog(Enter(Put(w, i, c'), i), AddIn(w, i, fns));
    } else if !c.spent {
      var c' := CallbackLists.Add(c, fns);
      PutKeepsInv(w, i, c');
      InvIgnoresLog(Put(w, i, c'), AddIn(w, i, fns));
    }
  }

  lemma FireKeepsInv(w: World, i: nat, a: Payload)
    requires Inv(w) && UserInControl(w) && i < |w.lists|
    ensures Inv(FireIn(w, i, a)) && |FireIn(w, i, a).lists| == |w.lists|
  {
    var c := w.lists[i];
    var c' := Enqueue(c, a);
    if FireWithStarts(c) {
      EnterKeepsInv(w, i, c');
      InvIgnoresLog(Enter(Put(w, i, c'), i), FireIn(w, i, a));
    } else if !c.locked {
      PutKeepsInv(w, i, c');
      InvIgnoresLog(Put(w, i, c'), FireIn(w, i, a));
    }
  }

  lemma DisableKeepsInv(w: World, i: nat)
    requires Inv(w) && (w.stack == [] || Top(w).pc != Outer)
    ensures Inv(DisableIn(w, i)) && |DisableIn(w, i).lists| == |w.lists|
  {
    if i < |w.lists| {
      PutKeepsInv(w, i, CallbackLists.Disable(w.lists[i]));
      InvIgnoresLog(Put(w, i, CallbackLists.Disable(w.lists[i])), DisableIn(w, i));
    }
  }

  lemma LockKeepsInv(w: World, i: nat)
    requires Inv(w) && (w.stack == [] || Top(w).pc != Outer)
    ensures Inv(LockIn(w, i)) && |LockIn(w, i).lists| == |w.lists|
  {
    if i < |w.lists| {
      PutKeepsInv(w, i, CallbackLists.Lock(w.lists[i]));
      InvIgnoresLog(Put(w, i, CallbackLists.Lock(w.lists[i])), LockIn(w, i));
    }
  }

  lemma PerformKeepsInv(w: World, command: Command)
    requires Inv(w) && UserInControl(w) && command.on < |w.lists|
    ensures Inv(Perform(w, command)) && |Perform(w, command).lists| == |w.lists|
  {
    var i := command.on;
    match command
    case Add(_, fns) => AddKeepsInv(w, i, fns);
    case Remove(_, f) =>
      RemoveFiltersToDo(w.lists[i], f);
      PutKeepsInv(w, i, CallbackLists.Remove(w.lists[i], f));
    case Empty(_) => PutKeepsInv(w, i, CallbackLists.Empty(w.lists[i]));
    case Disable(_) => DisableKeepsInv(w, i);
    case Lock(_) => LockKeepsInv(w, i);
    case FireWith(_, a) => FireKeepsInv(w, i, a);
  }

  lemma PopShape(stack: seq<Frame>)
    requires stack != [] && StackShape(stack)
    ensures StackShape(stack[..|stack| - 1])
    ensures !OnStack(stack[..|stack| - 1], stack[|stack| - 1].on)
    ensures forall j :: OnStack(stack, j) && j != stack[|stack| - 1].on ==> OnStack(stack[..|stack| - 1], j)
  {
    var rest := stack[..|stack| - 1];
    forall j | OnStack(stack, j) && j != stack[|stack| - 1].on
      ensures OnStack(rest, j)
    {
      var k :| 0 <= k < |stack| && stack[k].on == j;
      assert rest[k].on == j;
    }
  }

  /** The innermost activation ends. */
  lemma PopKeepsInv(w: World, w': World, i: nat, c: CallbackList)
    requires Inv(w) && w.stack != [] && Top(w).on == i && ListShape(c) && !c.firing
    requires w'.lists == w.lists[i := c] && w'.stack == w.stack[..|w.stack| - 1]
    ensures Inv(w')
  {
    PopShape(w.stack);
    assert forall k :: 0 <= k < |w'.stack| ==> w'.stack[k] == w.stack[k] && OnStack(w'.stack, w'.stack[k].on);
  }

  lemma TickOuterKeepsInv(w: World)
    requires Inv(w) && w.stack != [] && Top(w).pc == Outer
    ensures Inv(TickOuter(w)) && |TickOuter(w).lists| == |w.lists|
  {
    var i := Top(w).on;
    var c := w.lists[i];
    assert FrameShape(c, Outer) && ListShape(c);
    if c.queue != [] {
      SetTopKeepsInv(w, Shift(c), Inner);
      InvIgnoresLog(SetTop(Put(w, i, Shift(c)), Inner), TickOuter(w));
    } else {
      PopKeepsInv(w, TickOuter(w), i, Finish(c));
    }
  }

  /** The firing index advances onto the next callback. */
  lemma CallKeepsInv(w: World, at: World, i: nat, next: nat)
    requires Inv(w) && w.stack != [] && Top(w) == Frame(i, Inner) && next < |w.lists[i].list|
    requires next == w.lists[i].firingIndex + 1
    requires at == Note(Put(w, i, w.lists[i].(firingIndex := next)),
                        Called(i, w.lists[i].list[next], w.lists[i].memory))
    ensures Inv(at) && |at.lists| == |w.lists| && at.stack == w.stack
    ensures ListShape(at.lists[i]) && FrameShape(at.lists[i], Inner) && FrameShape(at.lists[i], Calling)
  {
    var c := w.lists[i];
    assert FrameShape(c, Inner) && ListShape(c);
    assert forall k :: 0 <= k < |w.stack| && w.stack[k].on == i ==> w.stack[k].pc == Inner;
    PutKeepsInv(w, i, c.(firingIndex := next));
    InvIgnoresLog(Put(w, i, c.(firingIndex := next)), at);
  }

  lemma ApplyKeepsInv(w: World, f: Callback)
    requires Inv(w) && w.stack != [] && Top(w).pc == Inner && FrameShape(w.lists[Top(w).on], Calling)
    ensures Inv(Apply(w, f)) && |Apply(w, f).lists| == |w.lists|
  {
    match f
    case User(_) =>
      assert Put(w, Top(w).on, w.lists[Top(w).on]) == w;
      SetTopKeepsInv(w, w.lists[Top(w).on], Calling);
    case SetState(s) => InvIgnoresLog(w, Apply(w, f));
    case DisableList(j) => DisableKeepsInv(w, j);
    case LockList(j) => LockKeepsInv(w, j);
  }

  lemma RoundEndKeepsInv(w: World, w': World, i: nat)
    requires Inv(w) && w.stack != [] && Top(w) == Frame(i, Inner)
    requires w' == SetTop(Note(Put(w, i, w.lists[i].(firingIndex := -1)), Ended(i)), Outer)
    ensures Inv(w') && |w'.lists| == |w.lists|
  {
    var c := w.lists[i].(firingIndex := -1);
    assert FrameShape(w.lists[i], Inner) && ListShape(w.lists[i]);
    SetTopKeepsInv(w, c, Outer);
    InvIgnoresLog(SetTop(Put(w, i, c), Outer), w');
  }

  lemma TopInShape(w: World)
    requires Inv(w) && w.stack != []
    ensures Top(w).on < |w.lists| && ListShape(w.lists[Top(w).on]) && FrameShape(w.lists[Top(w).on], Top(w).pc)
  {
  }

  lemma TickInnerKeepsInv(w: World)
    requires Inv(w) && w.stack != [] && Top(w).pc == Inner
    ensures Inv(TickInner(w)) && |TickInner(w).lists| == |w.lists|
  {
    hide Inv;
    TopInShape(w);
    var i := Top(w).on;
    var c := w.lists[i];
    var next := c.firingIndex + 1;
    if next < |c.list| {
      var at := Note(Put(w, i, c.(firingIndex := next)), Called(i, c.list[next], c.memory));
      CallKeepsInv(w, at, i, next);
      ApplyKeepsInv(at, c.list[next]);
    } else {
      RoundEndKeepsInv(w, TickInner(w), i);
    }
  }

  lemma ReturnKeepsInv(w: World, isFalse: bool)
    requires Inv(w) && Enabled(w, Return(isFalse))
    ensures Inv(ReturnIn(w, isFalse)) && |ReturnIn(w, isFalse).lists| == |w.lists|
  {
    var i := Top(w).on;
    var c := w.lists[i];
    assert FrameShape(c, Calling) && ListShape(c);
    var c' := if isFalse && c.options.stopOnFalse then Stop(c) else c;
    SetTopKeepsInv(w, c', Inner);
    assert Put(w, i, c) == w;
    InvIgnoresLog(SetTop(Put(w, i, c'), Inner), ReturnIn(w, isFalse));
  }

  // ---------------------------------------------------------------- where each list stands

  /** Where the activation of list `i` stands, if it fires. */
  function PcOf(stack: seq<Frame>, i: nat): Option<Pc> {
    if stack == [] then None
    else if stack[|stack| - 1].on == i then Some(stack[|stack| - 1].pc)
    else PcOf(stack[..|stack| - 1], i)
  }

  lemma PcOfPush(stack: seq<Frame>, f: Frame, i: nat)
    ensures PcOf(stack + [f], i) == if f.on == i then Some(f.pc) else PcOf(stack, i)
  {
    assert (stack + [f])[..|stack|] == stack;
  }

  /** The activation on top moves on. */
  lemma PcOfSetTop(stack: seq<Frame>, pc: Pc, i: nat)
    requires stack != []
    ensures PcOf(stack[..|stack| - 1] + [Frame(stack[|stack| - 1].on, pc)], i)
         == if stack[|stack| - 1].on == i then Some(pc) else PcOf(stack, i)
  {
    PcOfPush(stack[..|stack| - 1], Frame(stack[|stack| - 1].on, pc), i);
  }

  lemma PcOfPop(stack: seq<Frame>, i: nat)
    requires stack != [] && StackShape(stack)
    ensures PcOf(stack[..|stack| - 1], i) == if stack[|stack| - 1].on == i then None else PcOf(stack, i)
  {
    PcOfFrame(stack[..|stack| - 1], i);
    if OnStack(stack[..|stack| - 1], i) {
      var j :| 0 <= j < |stack| - 1 && stack[..|stack| - 1][j].on == i;
      assert stack[j].on == i;
    }
  }

  lemma {:induction false} PcOfFrame(stack: seq<Frame>, i: nat)
    ensures PcOf(stack, i).Some? <==> OnStack(stack, i)
    ensures StackShape(stack) && PcOf(stack, i).Some? && PcOf(stack, i).value != Calling ==>
              stack[|stack| - 1].on == i
  {
    if stack != [] {
      var rest := stack[..|stack| - 1];
      assert forall j :: 0 <= j < |rest| ==> stack[j] == rest[j];
      PcOfFrame(rest, i);
      if stack[|stack| - 1].on == i {
        assert OnStack(stack, i);
      } else if OnStack(stack, i) {
        var j :| 0 <= j < |stack| && stack[j].on == i;
        assert rest[j].on == i;
      } else {
        assert forall j :: 0 <= j < |rest| ==> rest[j].on == stack[j].on;
      }
    }
  }

  lemma {:induction false} PcOfCalling(stack: seq<Frame>, i: nat)
    requires forall j :: 0 <= j < |stack| ==> stack[j].pc == Calling
    ensures PcOf(stack, i) == None || PcOf(stack, i) == Some(Calling)
  {
    if stack != [] {
      PcOfCalling(stack[..|stack| - 1], i);
    }
  }

  /** In a state of a run, a list fires exactly when it has an activation; while user code is in
      control, every activation waits in a callback. */
  lemma ReadStack(w: World, i: nat)
    requires Inv(w) && i < |w.lists|
    ensures w.lists[i].firing <==> PcOf(w.stack, i).Some?
    ensures UserInControl(w) ==> PcOf(w.stack, i) == None || PcOf(w.stack, i) == Some(Calling)
    ensures w.stack != [] && Top(w).on == i ==> PcOf(w.stack, i) == Some(Top(w).pc)
  {
    PcOfFrame(w.stack, i);
    if UserInControl(w) {
      PcOfCalling(w.stack, i);
    }
  }
}
