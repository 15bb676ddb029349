/** jQuery.Deferred as an object: three list objects wired together, fired and added to from outside. */
module DeferredObjects {
  import opened Wrappers
  import opened CallbackLists
  import opened CallbackMachine
  import opened Deferred
  import opened CallbackObject

  // ---------------------------------------------------------------- what a history never loses

  /** The decision stays, registrations and calls are only appended. */
  predicate Grows(h: History, h': History) {
    && (h.settled.Some? ==> h'.settled == h.settled)
    && h.done.registered <= h'.done.registered && h.fail.registered <= h'.fail.registered
    && h.done.called <= h'.done.called && h.fail.called <= h'.fail.called
  }

  lemma {:induction false} ReadGrows(log: seq<Event>, log': seq<Event>)
    requires log <= log'
    ensures Grows(Read(log), Read(log'))
    decreases |log'|
  {
    if |log'| > |log| {
      ReadGrows(log, log'[..|log'| - 1]);
    } else {
      assert log' == log;
    }
  }

  lemma StepGrowsLog(w: World, m: Move)
    ensures w.log <= Step(w, m).log
  {
  }

  lemma {:induction false} RunGrowsLog(w: World, moves: seq<Move>)
    ensures w.log <= Run(w, moves).log
    decreases |moves|
  {
    if moves != [] {
      StepGrowsLog(w, moves[0]);
      RunGrowsLog(Step(w, moves[0]), moves[1..]);
    }
  }

  /** What holds after one move is kept by the moves that follow. */
  lemma HistoryGrows(start: World, before: seq<Move>, m: Move, moves: seq<Move>)
    requires before + [m] <= moves
    ensures Grows(Read(Run(start, before).log), Read(Run(start, moves).log))
    ensures Grows(Read(Step(Run(start, before), m).log), Read(Run(start, moves).log))
  {
    var first := before + [m];
    var rest := moves[|first|..];
    assert moves == first + rest;
    RunConcat(start, first, rest);
    RunOne(start, before, m);
    RunGrowsLog(Run(start, first), rest);
    StepGrowsLog(Run(start, before), m);
    ReadGrows(Run(start, before).log, Run(start, moves).log);
    ReadGrows(Run(start, first).log, Run(start, moves).log);
  }

  lemma RegisteringAppends(w: World, i: nat, fns: seq<Callback>)
    requires DeferredInv(w) && UserInControl(w) && i < 2 && AllUsers(fns) && i < |w.lists|
    requires Read(w.log).settled.Some? ==> Read(w.log).settled.value.0 == i
    ensures Read(Step(w, Issue(Add(i, fns))).log).Of(i).registered == Read(w.log).Of(i).registered + fns
  {
    hide Inv, DeferredInv, AddIn, Read;
    RegistrationsAreKept(w, i, fns);
  }

  // ---------------------------------------------------------------- the object

  lemma AddToFresh(options: Options, fns: seq<Callback>)
    requires !options.unique
    ensures CallbackLists.Add(Fresh(options), fns) == Fresh(options).(list := fns)
  {
    assert Appended([], false, fns) == fns && [] + fns == fns;
  }

  /** Three lists; each of the first two begins with the functions that settle the whole. */
  method Wired() returns (lists: seq<CallbackObject>)
    ensures |lists| == 3 && (forall o :: o in lists ==> fresh(o))
    ensures forall i, j :: 0 <= i < j < |lists| ==> lists[i] != lists[j]
    ensures forall k :: 0 <= k < |lists| ==> ListShape(lists[k].Value()) && !lists[k].Value().firing
    ensures lists[DONE].Value() == Fresh(ONCE_MEMORY).(list := Built(DONE))
    ensures lists[FAIL].Value() == Fresh(ONCE_MEMORY).(list := Built(FAIL))
    ensures lists[PROGRESS].Value() == Fresh(MEMORY)
  {
    var done := new CallbackObject(ONCE_MEMORY);
    var fail := new CallbackObject(ONCE_MEMORY);
    var progress := new CallbackObject(MEMORY);
    var firesDone := done.Append(Built(DONE));
    var firesFail := fail.Append(Built(FAIL));
    AddToFresh(ONCE_MEMORY, Built(DONE));
    AddToFresh(ONCE_MEMORY, Built(FAIL));
    lists := [done, fail, progress];
  }

  class DeferredObject {
    const page: Page

    ghost predicate Valid()
      reads page, page.objects
    {
      && page.Valid() && |page.objects| == 3 && page.start == New()
      && forall c :: page.allowed(c) <==> Allowed(Issue(c))
    }

    ghost function Past(): History
      reads page
    {
      Read(page.log)
    }

    ghost predicate Scripted(script: seq<Behaviour>) {
      page.Scripted(script)
    }

    constructor ()
      ensures Valid() && fresh(page) && (forall o :: o in page.objects ==> fresh(o))
      ensures page.stack == [] && page.state == Pending && Past() == NO_HISTORY
    {
      hide Inv, Run, AddIn, New, Page.Valid, Built, Page.Scripted, Fresh, ListShape;
      var lists := Wired();
      NewLists();
      page := new Page(lists, c => Allowed(Issue(c)));
      new;
      assert page.Values() == New().lists;
    }

    lemma Observe()
      requires Valid()
      ensures DeferredInv(page.AsWorld()) && Observed(page.AsWorld(), Past())
      ensures |page.AsWorld().lists| == 3 && page.AsWorld() == Run(page.start, page.moves)
    {
      assert AllAllowed(page.moves) by {
        forall j | 0 <= j < |page.moves|
          ensures Allowed(page.moves[j])
        {
          assert page.Permits(page.moves[j]);
        }
      }
      NewIsReady();
      RunKeepsDeferred(New(), page.moves);
      InvObserved(page.AsWorld());
    }

    /** `resolve`, `reject` and `notify` are `fireWith` of their lists; the first of the former two decides,
        for good. */
    method Fire(i: nat, a: Payload, script: seq<Behaviour>) returns (rest: seq<Behaviour>, complete: bool)
      requires Valid() && page.UserInControl() && i < 3 && Scripted(script)
      modifies page, page.objects
      ensures Valid() && Observed(page.AsWorld(), Past()) && Grows(old(Past()), Past())
      ensures i < 2 ==> Past().settled == if old(Past()).settled.Some? then old(Past()).settled else Some((i, a))
      ensures Scripted(rest) && if complete then page.stack == old(page.stack) else page.CutOff(rest)
    {
      hide Inv, Run, Step, Read, DeferredInv, Observed, Page.Valid, Page.Values;
      ghost var w, m := page.AsWorld(), Issue(FireWith(i, a));
      Observe();
      FirstDecisionWins(w, m, Step(w, m));
      ghost var before := page.moves;
      rest, complete := page.FireWith(i, a, script);
      HistoryGrows(page.start, before, m, page.moves);
      Observe();
    }

    /** `done`, `fail` and `progress` are `add` of their lists. */
    method Register(i: nat, fns: seq<Callback>, script: seq<Behaviour>) returns (rest: seq<Behaviour>, complete: bool)
      requires Valid() && page.UserInControl() && i < 3 && AllUsers(fns) && Scripted(script)
      modifies page, page.objects
      ensures Valid() && Observed(page.AsWorld(), Past()) && Grows(old(Past()), Past())
      ensures i < 2 && (old(Past()).settled.Some? ==> old(Past()).settled.value.0 == i) ==>
                old(Past()).Of(i).registered + fns <= Past().Of(i).registered
      ensures Scripted(rest) && if complete then page.stack == old(page.stack) else page.CutOff(rest)
    {
      hide Inv, Run, Step, Read, DeferredInv, Observed, Page.Valid, Page.Values;
      ghost var w, m := page.AsWorld(), Issue(Add(i, fns));
      Observe();
      if i < 2 && (Past().settled.Some? ==> Past().settled.value.0 == i) {
        RegisteringAppends(w, i, fns);
      }
      ghost var before := page.moves;
      rest, complete := page.Add(i, fns, script);
      HistoryGrows(page.start, before, m, page.moves);
      Observe();
    }

    /** `resolve`: when it returns to the top level the state is told. */
    method Resolve(a: Payload, script: seq<Behaviour>) returns (rest: seq<Behaviour>, complete: bool)
      requires Valid() && page.stack == [] && Scripted(script)
      modifies page, page.objects
      ensures Valid() && (complete ==> page.stack == [])
      ensures complete && old(Past()).settled.None? ==> page.state == Resolved && Past().settled == Some((0, a))
      ensures complete && old(Past()).settled.Some? ==> page.state == old(page.state)
    {
      StateIsTold();
      rest, complete := Fire(DONE, a, script);
      StateIsTold();
    }

    method Reject(a: Payload, script: seq<Behaviour>) returns (rest: seq<Behaviour>, complete: bool)
      requires Valid() && page.stack == [] && Scripted(script)
      modifies page, page.objects
      ensures Valid() && (complete ==> page.stack == [])
      ensures complete && old(Past()).settled.None? ==> page.state == Rejected && Past().settled == Some((1, a))
      ensures complete && old(Past()).settled.Some? ==> page.state == old(page.state)
    {
      StateIsTold();
      rest, complete := Fire(FAIL, a, script);
      StateIsTold();
    }

    /** When nothing fires the state says which of `resolve` and `reject` came first, if any. */
    lemma StateIsTold()
      requires Valid()
      ensures page.stack == [] ==>
                && (page.state == Resolved <==> Past().settled.Some? && Past().settled.value.0 == 0)
                && (page.state == Rejected <==> Past().settled.Some? && Past().settled.value.0 == 1)
                && (page.state == Pending <==> Past().settled == None)
    {
      Observe();
    }
  }
}
