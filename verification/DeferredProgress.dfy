/** The progress list of a Deferred: what `notify` and `progress` do before and after it settles. */
module DeferredProgress {
  import opened Wrappers
  import opened CallbackLists
  import opened CallbackMachine
  import opened CallbackLedgers
  import opened CallbackRounds
  import opened CallbackStatus
  import opened Deferred

  // ---------------------------------------------------------------- settling locks the progress list

  /** Before a decision the progress list is never locked; once the built-in functions have run, it has been. */
  predicate LocksProgress(w: World) {
    match Read(w.log).settled
    case None => NeverCleared(w.log, PROGRESS)
    case Some((k, _)) =>
      k < 2 && k < |w.lists| && Executed(w.lists[k], PcOf(w.stack, k), k) == 3 ==> !NeverCleared(w.log, PROGRESS)
  }

  lemma StepGrows(w: World, m: Move)
    ensures w.log <= Step(w, m).log
  {
  }

  lemma StillCleared(w: World, m: Move)
    requires !NeverCleared(w.log, PROGRESS)
    ensures !NeverCleared(Step(w, m).log, PROGRESS)
  {
    StepGrows(w, m);
    var k :| 0 <= k < |w.log| && w.log[k].Cleared? && w.log[k].on == PROGRESS;
    assert Step(w, m).log[k] == w.log[k];
  }

  /** What user code may do, and callbacks of its own, clear no list. */
  lemma UsersClearNothing(w: World, m: Move)
    requires Allowed(m) && NeverCleared(w.log, PROGRESS)
    requires m.Tick? && Enabled(w, m) && Top(w).pc == Inner ==> AllUsers(w.lists[Top(w).on].list)
    ensures NeverCleared(Step(w, m).log, PROGRESS)
  {
  }

  lemma UnsettledStep(w: World, m: Move)
    requires DeferredInv(w) && Allowed(m) && Read(w.log).settled == None && NeverCleared(w.log, PROGRESS)
    ensures NeverCleared(Step(w, m).log, PROGRESS)
  {
    if m.Tick? && Enabled(w, m) {
      if Top(w).on < 2 {
        TopIsWinner(w, Top(w).on);
      }
      ThreeLists(w);
    }
    hide DeferredInv, Read;
    UsersClearNothing(w, m);
  }

  /** The first decision starts a round whose built-in functions are still to run. */
  lemma DecidingRunsNothingYet(w: World, m: Move, k: nat)
    requires DeferredInv(w) && Allowed(m) && Read(w.log).settled == None
    requires Read(Step(w, m).log).settled.Some? && Read(Step(w, m).log).settled.value.0 == k
    ensures k < 2 && Executed(Step(w, m).lists[k], PcOf(Step(w, m).stack, k), k) < 3
  {
    FirstDecisionWins(w, m, Step(w, m));
    var a := m.command.payload;
    assert Untouched(w.lists[k], k, Read(w.log).Of(k));
    FireEffect(w, k, a);
    PcOfPush(w.stack, Frame(k, Outer), k);
    assert Armed(Begin(Enqueue(w.lists[k], a)), k);
  }

  /** While built-in functions are due, the winning list is the innermost to fire. */
  lemma DueOnTop(w: World, k: nat, a: Payload)
    requires DeferredInv(w) && Read(w.log).settled == Some((k, a)) && k < 2
    requires Executed(w.lists[k], PcOf(w.stack, k), k) < 3
    ensures !UserInControl(w) && w.stack != [] && Top(w).pc != Calling && OnTop(w, k, a, Top(w).pc)
  {
    if UserInControl(w) {
      SettledInControl(w, k, a);
    }
    SettledParts(w, k, a);
    ShapedInRuns(w, k);
    assert Top(w).on == k;
    InnermostWins(w, k, Top(w).pc);
  }

  lemma DueStart(w: World, k: nat, a: Payload)
    requires OnTop(w, k, a, Outer) && k < 2 && w.lists[k].queue != [] && Armed(w.lists[k], k)
    ensures var w' := Step(w, Tick);
            k < |w'.lists| && Executed(w'.lists[k], PcOf(w'.stack, k), k) < 3
  {
    ShiftEffect(w, k);
    PcOfSetTop(w.stack, Inner, k);
  }

  lemma DueBuiltIn(w: World, k: nat, a: Payload, c': CallbackList)
    requires OnTop(w, k, a, Inner) && k < 2 && Armed(w.lists[k], k)
    requires c' == w.lists[k].(firingIndex := w.lists[k].firingIndex + 1) && 0 <= c'.firingIndex < 3
    ensures var w' := Step(w, Tick);
            k < |w'.lists| &&
            (Executed(w'.lists[k], PcOf(w'.stack, k), k) == 3 ==> !NeverCleared(w'.log, PROGRESS))
  {
    hide Step, Winner, Won, Aftermath, NeverCleared;
    assert c'.list[..3][c'.firingIndex] == Built(k)[c'.firingIndex];
    BuiltInEffect(w, Step(w, Tick), k, c');
    if c'.firingIndex == 2 {
      LockIsNoted(w, k, c');
    }
  }

  lemma DueStep(w: World, k: nat, a: Payload)
    requires w.stack != [] && OnTop(w, k, a, Top(w).pc) && Top(w).pc != Calling && k < 2
    requires Executed(w.lists[k], PcOf(w.stack, k), k) < 3
    ensures var w' := Step(w, Tick);
            k < |w'.lists| &&
            (Executed(w'.lists[k], PcOf(w'.stack, k), k) == 3 ==> !NeverCleared(w'.log, PROGRESS))
  {
    hide Step, NeverCleared;
    var c := w.lists[k];
    if Top(w).pc == Outer {
      DueStart(w, k, a);
    } else {
      DueBuiltIn(w, k, a, c.(firingIndex := c.firingIndex + 1));
    }
  }

  lemma LockIsNoted(w: World, k: nat, c': CallbackList)
    requires |w.lists| == 3 && w.stack != [] && k < 2 && Top(w) == Frame(k, Inner)
    requires c' == w.lists[k].(firingIndex := w.lists[k].firingIndex + 1)
    requires c'.firingIndex == 2 < |c'.list| && c'.list[2] == LockList(PROGRESS)
    ensures !NeverCleared(Step(w, Tick).log, PROGRESS)
  {
    var w' := Step(w, Tick);
    var last := w'.log[|w'.log| - 1];
    assert last.Cleared? && last.on == PROGRESS;
  }

  lemma SettledStep(w: World, m: Move, k: nat, a: Payload)
    requires DeferredInv(w) && Allowed(m) && LocksProgress(w) && Read(w.log).settled == Some((k, a))
    ensures LocksProgress(Step(w, m))
  {
    FirstDecisionWins(w, m, Step(w, m));
    SettledParts(w, k, a);
    if Executed(w.lists[k], PcOf(w.stack, k), k) == 3 {
      StillCleared(w, m);
    } else if Enabled(w, m) {
      DueOnTop(w, k, a);
      DueStep(w, k, a);
    }
  }

  lemma StepLocksProgress(w: World, m: Move)
    requires DeferredInv(w) && Allowed(m) && LocksProgress(w)
    ensures LocksProgress(Step(w, m))
  {
    hide DeferredInv;
    match Read(w.log).settled
    case None =>
      if Read(Step(w, m).log).settled.Some? {
        DecidingRunsNothingYet(w, m, Read(Step(w, m).log).settled.value.0);
      } else {
        UnsettledStep(w, m);
      }
    case Some((k, a)) => SettledStep(w, m, k, a);
  }

  lemma {:induction false} RunLocksProgress(w: World, moves: seq<Move>)
    requires DeferredInv(w) && AllAllowed(moves) && LocksProgress(w)
    ensures DeferredInv(Run(w, moves)) && LocksProgress(Run(w, moves))
    decreases |moves|
  {
    if moves != [] {
      StepLocksProgress(w, moves[0]);
      StepKeepsDeferred(w, moves[0]);
      RunLocksProgress(Step(w, moves[0]), moves[1..]);
    }
  }

  lemma NewIsUnused()
    ensures Initial(New()) && |New().lists| == 3 && Unused(New().lists[PROGRESS])
    ensures New().lists[PROGRESS].options.memory && !New().lists[PROGRESS].options.once
    ensures !New().lists[PROGRESS].options.unique && !New().lists[PROGRESS].options.stopOnFalse
    ensures LocksProgress(New())
  {
    NewLists();
    NewIsShaped(New());
    NewIsReady();
  }

  lemma DeferredRuns(moves: seq<Move>)
    requires AllAllowed(moves)
    ensures var w := Run(New(), moves);
            DeferredInv(w) && Inv(w) && |w.lists| == 3 && LocksProgress(w) && NeverStopped(w.log, PROGRESS)
  {
    NewIsUnused();
    NewIsReady();
    RunLocksProgress(New(), moves);
    ThreeLists(Run(New(), moves));
    assert StatusHolds(Unfired(), New().lists[PROGRESS].options, New(), PROGRESS);
    RunNeverStops(Unfired(), New().lists[PROGRESS].options, New(), moves, PROGRESS);
  }

  // ---------------------------------------------------------------- notify

  /** Has the progress list been made to fire since it was last locked? */
  predicate FiredSinceLock(log: seq<Event>) {
    exists j :: && 0 <= j < |log| && log[j].Accepted? && log[j].on == PROGRESS
                && forall k :: j < k < |log| && log[k].Cleared? ==> log[k].on != PROGRESS
  }

  lemma LockedOrFired(log: seq<Event>)
    requires !NeverCleared(log, PROGRESS)
    ensures SaysLocked(false, log, PROGRESS) <==> !FiredSinceLock(log)
  {
    var k := LastCleared(log);
    if !SaysLocked(false, log, PROGRESS) {
      var j :| k < j < |log| && log[j].on == PROGRESS && log[j].Accepted?;
      assert FiredSinceLock(log);
    }
  }

  predicate LastClearedAt(log: seq<Event>, k: int) {
    && 0 <= k < |log| && log[k].Cleared? && log[k].on == PROGRESS
    && forall j :: k < j < |log| && log[j].Cleared? ==> log[j].on != PROGRESS
  }

  lemma {:induction false} LastCleared(log: seq<Event>) returns (k: int)
    requires !NeverCleared(log, PROGRESS)
    ensures LastClearedAt(log, k)
    decreases |log|
  {
    k := |log| - 1;
    if !(log[k].Cleared? && log[k].on == PROGRESS) {
      var front := log[..k];
      var c :| 0 <= c < |log| && log[c].Cleared? && log[c].on == PROGRESS;
      assert front[c] == log[c];
      k := LastCleared(front);
    }
  }

  /** Before a Deferred settles every `notify` is accepted; once it has, and user code has control again, a
      `notify` does nothing, except after a `progress` that has made the list fire since. */
  lemma NotifyIsAcceptedIff(moves: seq<Move>, a: Payload)
    requires AllAllowed(moves)
    ensures var w := Run(New(), moves);
            && |w.lists| == 3
            && (Read(w.log).settled == None ==> FireIn(w, PROGRESS, a).log == w.log + [Accepted(PROGRESS, a, 0)])
            && (Read(w.log).settled.Some? && UserInControl(w) ==>
                  if FiredSinceLock(w.log) then FireIn(w, PROGRESS, a).log == w.log + [Accepted(PROGRESS, a, 0)]
                  else FireIn(w, PROGRESS, a) == w)
  {
    var w := Run(New(), moves);
    DeferredRuns(moves);
    NewIsUnused();
    FireIsAcceptedIff(New(), moves, PROGRESS, a);
    hide DeferredInv, Inv, FireIn, New, Executed;
    if Read(w.log).settled.Some? && UserInControl(w) {
      SettledInControl(w, Read(w.log).settled.value.0, Read(w.log).settled.value.1);
      LockedOrFired(w.log);
    }
  }

  // ---------------------------------------------------------------- progress

  /** When nothing fires, `progress` calls each of its callbacks, once and in order, with the arguments of
      the last `notify` that was accepted, as long as the Deferred has not settled. */
  lemma ProgressRecalls(moves: seq<Move>, fns: seq<Callback>)
    requires AllAllowed(moves) && AllUsers(fns)
    requires Run(New(), moves).stack == [] && Read(Run(New(), moves).log).settled == None
    requires Accepts(Run(New(), moves).log, PROGRESS) != []
    ensures var w := Run(New(), moves);
            && |w.lists| == 3
            && var fires := Accepts(w.log, PROGRESS);
            var after := Run(AddIn(w, PROGRESS, fns), QuietRound(|fns|));
            && Calls(after.log, PROGRESS) == Calls(w.log, PROGRESS) + Each(fns, fires[|fires| - 1])
            && after.stack == []
  {
    var w := Run(New(), moves);
    DeferredRuns(moves);
    NewIsUnused();
    ReadStack(w, PROGRESS);
    hide DeferredInv, Inv, New, Run;
    IdleListsHaveServedAll(New(), moves, PROGRESS);
    LastStartIsRemembered(w.log, PROGRESS);
    var fires := Accepts(w.log, PROGRESS);
    AddRecalls(New(), moves, PROGRESS, fns, fires[|fires| - 1]);
  }

  lemma EndsAccepted(w: World, fns: seq<Callback>)
    requires |w.lists| == 3 && AddFires(w.lists[PROGRESS])
    ensures FiredSinceLock(AddIn(w, PROGRESS, fns).log)
  {
    var log := AddIn(w, PROGRESS, fns).log;
    assert log[|log| - 1].Accepted? && log[|log| - 1].on == PROGRESS;
  }

  /** After a Deferred has settled, `progress` reopens its list if it remembers any arguments: later
      notifies are accepted again. */
  lemma ProgressReopens(moves: seq<Move>, fns: seq<Callback>, a: Payload)
    requires AllAllowed(moves) && AllUsers(fns) && Run(New(), moves).stack == []
    requires SaysRemembered(Run(New(), moves).log, PROGRESS, a)
    ensures |Run(New(), moves).lists| == 3 && FiredSinceLock(AddIn(Run(New(), moves), PROGRESS, fns).log)
  {
    var w := Run(New(), moves);
    DeferredRuns(moves);
    NewIsUnused();
    ReadStack(w, PROGRESS);
    hide DeferredInv, Inv, New, Run;
    IdleListsRemember(New(), moves, PROGRESS);
    assert w.lists[PROGRESS].memory == Some(a) && AddFires(w.lists[PROGRESS]);
    EndsAccepted(w, fns);
  }
}
