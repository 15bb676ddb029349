/** The uploads of the interleaved world are those that the handler makes. */
module UploadRuns {
  import opened Bits
  import opened UploadProtocol
  import opened UploadWorld
  import opened ResourceHandlers

  /** A request's trace is one of the protocol, and its checksums are those of its content. */
  predicate Proper(digest: Digester, r: Request) {
    r.Phase().Some? && forall k :: 0 <= k < |r.trace| && r.trace[k].ReportSuccess? ==>
                                     r.trace[k].sums == digest(r.content)
  }

  ghost predicate AllProper(digest: Digester, w: World) {
    forall i :: i in w.requests ==> Proper(digest, w.requests[i])
  }

  lemma ProperMore(digest: Digester, r: Request, e: Event)
    requires Proper(digest, r) && Next(r.Phase().value, e).Some?
    requires e.ReportSuccess? ==> e.sums == digest(r.content)
    ensures Proper(digest, Logged(r, e))
  {
    PhaseMore(r, e);
  }

  lemma StepKeepsProper(digest: Digester, w: World, step: Step)
    requires AllProper(digest, w) && Enabled(digest, w, step)
    ensures AllProper(digest, Perform(digest, w, step))
  {
    match step {
      case Call(id, reply, _) => ProperMore(digest, w.requests[id], CallOf(digest, w.requests[id], reply).value);
      case Put(id, attempt) => ProperMore(digest, w.requests[id], Try(attempt));
      case Retry(id) => ProperMore(digest, w.requests[id], Metric);
      case _ =>
    }
  }

  lemma {:induction false} RunKeepsProper(digest: Digester, w: World, steps: seq<Step>)
    requires AllProper(digest, w) && CanRun(digest, w, steps)
    ensures AllProper(digest, Run(digest, w, steps))
    decreases |steps|
  {
    if steps != [] {
      StepKeepsProper(digest, w, steps[0]);
      RunKeepsProper(digest, Perform(digest, w, steps[0]), steps[1..]);
    }
  }

  // ---------------------------------------------------------------- every trace can happen

  const SEEN := {404, 422}

  /** The step that logs an event. */
  function StepFor(e: Event): Step {
    match e
    case Announce(answer) => Call(0, ReplyFor(answer), answer == Acked)
    case Try(attempt) => Put(0, attempt)
    case Metric => Retry(0)
    case ReportSuccess(_, answer) => Call(0, ReplyFor(answer), false)
    case ReportFailure(answer) => Call(0, ReplyFor(answer), false)
  }

  /** An upload of the guid, and nothing else. */
  function Alone(guid: Key, content: Bytes, async: bool, trace: seq<Event>): seq<Step> {
    if trace == [] then [Register(guid), Arrive(0, guid, content, async)]
    else Alone(guid, content, async, trace[..|trace| - 1]) + [StepFor(trace[|trace| - 1])]
  }

  /** After those steps. */
  ghost predicate Logs(digest: Digester, guid: Key, content: Bytes, async: bool, trace: seq<Event>) {
    var steps := Alone(guid, content, async, trace);
    && CanRun(digest, INITIAL, steps) && RefusalsWith(digest, INITIAL, steps, SEEN)
    && var w := Run(digest, INITIAL, steps);
    && 0 in w.requests && w.requests[0] == Request(guid, content, async, trace)
    && guid in w.cc.state && (trace == [] ==> w.cc.accepted == {})
  }

  lemma AloneArrives(digest: Digester, guid: Key, content: Bytes, async: bool)
    ensures Logs(digest, guid, content, async, [])
  {
    var s0, s1 := Register(guid), Arrive(0, guid, content, async);
    var w1 := Perform(digest, INITIAL, s0);
    var w2 := Perform(digest, w1, s1);
    assert CanRun(digest, w2, []) && Run(digest, w2, []) == w2 && RefusalsWith(digest, w2, [], SEEN);
    RunOneStep(digest, w1, [s1], s1, [], SEEN);
    RunOneStep(digest, INITIAL, [s0, s1], s0, [s1], SEEN);
  }

  lemma StepForFits(digest: Digester, w: World, r: Request, e: Event)
    requires 0 in w.requests && w.requests[0] == r && Proper(digest, Logged(r, e))
    requires r.guid in w.cc.state && (r.trace == [] ==> w.cc.accepted == {})
    ensures var step := StepFor(e);
            && Enabled(digest, w, step) && Honest(digest, w, step) && RefusesWith(digest, w, step, SEEN)
            && var w' := Perform(digest, w, step);
            && 0 in w'.requests && w'.requests[0] == Logged(r, e) && r.guid in w'.cc.state
  {
    PhaseMore(r, e);
    if r.trace != [] {
      AcceptedAreChains(r.trace);
    }
    assert Logged(r, e).trace[|r.trace|] == e;
  }

  lemma {:induction false} EveryTraceHappens(digest: Digester, guid: Key, content: Bytes, async: bool,
                                             trace: seq<Event>)
    requires Proper(digest, Request(guid, content, async, trace))
    ensures Logs(digest, guid, content, async, trace)
  {
    if trace == [] {
      AloneArrives(digest, guid, content, async);
    } else {
      var front, e := trace[..|trace| - 1], trace[|trace| - 1];
      var r := Request(guid, content, async, front);
      assert Logged(r, e).trace == trace;
      PhaseMore(r, e);
      EveryTraceHappens(digest, guid, content, async, front);
      var steps := Alone(guid, content, async, front);
      var w := Run(digest, INITIAL, steps);
      StepForFits(digest, w, r, e);
      var w' := Perform(digest, w, StepFor(e));
      assert CanRun(digest, w', []) && Run(digest, w', []) == w' && RefusalsWith(digest, w', [], SEEN);
      RunOneStep(digest, w, [StepFor(e)], StepFor(e), [], SEEN);
      RunsJoin(digest, INITIAL, steps, [StepFor(e)], SEEN);
    }
  }

  // ---------------------------------------------------------------- the two agree

  /** Can a finished upload of the content look like this, whatever the others do? */
  ghost predicate Happens(digest: Digester, content: Bytes, trace: seq<Event>) {
    exists steps, id: nat ::
      && CanRun(digest, INITIAL, steps) && RefusalsWith(digest, INITIAL, steps, SEEN)
      && var w := Run(digest, INITIAL, steps);
      && id in w.requests && w.requests[id].content == content && w.requests[id].trace == trace && Complete(trace)
  }

  /** The uploads of all interleavings are, event for event, those that the handler makes against some
      Cloud Controller, blobstore and clock. */
  lemma HappensIffTraced(digest: Digester, content: Bytes, trace: seq<Event>)
    ensures Happens(digest, content, trace) <==> exists env :: Traced(env, digest(content)) == trace
  {
    if Happens(digest, content, trace) {
      var steps, id: nat :|
        && CanRun(digest, INITIAL, steps) && RefusalsWith(digest, INITIAL, steps, SEEN)
        && var w := Run(digest, INITIAL, steps);
        && id in w.requests && w.requests[id].content == content && w.requests[id].trace == trace && Complete(trace);
      RunKeepsProper(digest, INITIAL, steps);
      assert Proper(digest, Run(digest, INITIAL, steps).requests[id]);
      CompleteIsTraced(trace, digest(content));
    }
    if exists env :: Traced(env, digest(content)) == trace {
      var env :| Traced(env, digest(content)) == trace;
      TracedIsComplete(env, digest(content));
      TracedSums(env, digest(content));
      EveryTraceHappens(digest, "", content, false, trace);
      assert Run(digest, INITIAL, Alone("", content, false, trace)).requests[0].trace == trace;
    }
  }

  lemma {:induction false} RetriesReportNothing(env: Surroundings, n: nat)
    ensures forall k :: 0 <= k < |Retries(env, n)| ==> !Retries(env, n)[k].ReportSuccess?
  {
    if n > 0 {
      RetriesReportNothing(env, n - 1);
    }
  }

  lemma TracedSums(env: Surroundings, sums: Sums)
    ensures forall k :: 0 <= k < |Traced(env, sums)| && Traced(env, sums)[k].ReportSuccess? ==>
                          Traced(env, sums)[k].sums == sums
  {
    RetriesReportNothing(env, LastFrom(env, 0));
  }
}
