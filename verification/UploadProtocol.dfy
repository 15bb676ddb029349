/**
 One upload as the outside sees it: the calls to the Cloud Controller, the attempts to store the
 blob and the metrics sent for retries, as a small automaton over events.
 */
module UploadProtocol {
  import opened Wrappers
  import opened Bits

  /** What came back over HTTP: a status, or an error of the transport. */
  datatype Reply = Reply(status: int) | NoReply

  /** What `CCUpdater.update` makes of it. */
  datatype Answer = Acked | Missing | Forbidden | Broken

  function Seen(reply: Reply): Answer {
    match reply
    case NoReply => Broken
    case Reply(status) => if status == 404 then Missing else if status == 422 then Forbidden else Acked
  }

  /** One call of the operation under retry. */
  datatype Attempt = Stored | NotOpened | NoSpace | Failed {
    /** Wrapped in `backoff.Permanent`? */
    predicate Permanent() {
      NotOpened? || NoSpace?
    }
  }

  datatype Event =
    | Announce(answer: Answer)
    | Try(attempt: Attempt)
    | Metric
    | ReportSuccess(sums: Sums, answer: Answer)
    | ReportFailure(answer: Answer)
  {
    predicate Last() {
      ReportSuccess? || ReportFailure? || (Announce? && answer != Acked)
    }
  }

  datatype Phase = Announcing | Trying | Waiting | Succeeding | Failing | Over

  function Next(phase: Phase, e: Event): Option<Phase> {
    match (phase, e)
    case (Announcing, Announce(answer)) => Some(if answer == Acked then Trying else Over)
    case (Trying, Try(attempt)) =>
      Some(if attempt.Stored? then Succeeding else if attempt.Permanent() then Failing else Waiting)
    case (Waiting, Metric) => Some(Trying)
    case (Waiting, ReportFailure(_)) => Some(Over)
    case (Failing, ReportFailure(_)) => Some(Over)
    case (Succeeding, ReportSuccess(_, _)) => Some(Over)
    case _ => None
  }

  /** The phase after a trace, if the automaton accepts it. */
  function After(trace: seq<Event>): Option<Phase> {
    if trace == [] then Some(Announcing)
    else
      var before := After(trace[..|trace| - 1]);
      if before.None? then None else Next(before.value, trace[|trace| - 1])
  }

  predicate Complete(trace: seq<Event>) {
    After(trace) == Some(Over)
  }

  lemma AfterMore(trace: seq<Event>, e: Event)
    ensures After(trace + [e]) == if After(trace).None? then None else Next(After(trace).value, e)
  {
    assert (trace + [e])[..|trace|] == trace;
  }

  // ---------------------------------------------------------------- the shape of a trace

  function Attempts(trace: seq<Event>): nat {
    if trace == [] then 0
    else Attempts(trace[..|trace| - 1]) + (if trace[|trace| - 1].Try? then 1 else 0)
  }

  function Metrics(trace: seq<Event>): nat {
    if trace == [] then 0
    else Metrics(trace[..|trace| - 1]) + (if trace[|trace| - 1].Metric? then 1 else 0)
  }

  /** What may stand directly after an event. */
  predicate Follows(e: Event, f: Event) {
    match e
    case Announce(answer) => answer == Acked && f.Try?
    case Try(Stored) => f.ReportSuccess?
    case Try(Failed) => f.Metric? || f.ReportFailure?
    case Try(_) => f.ReportFailure?
    case Metric => f.Try?
    case _ => false
  }

  predicate Chained(trace: seq<Event>) {
    forall k :: 0 < k < |trace| ==> Follows(trace[k - 1], trace[k])
  }

  function PhaseOf(e: Event): Phase {
    match e
    case Announce(answer) => if answer == Acked then Trying else Over
    case Try(Stored) => Succeeding
    case Try(Failed) => Waiting
    case Try(_) => Failing
    case Metric => Trying
    case _ => Over
  }

  /** The automaton accepts exactly the chains that begin with the announcement. */
  lemma {:induction false} AcceptedAreChains(trace: seq<Event>)
    requires trace != []
    ensures After(trace).Some? <==> trace[0].Announce? && Chained(trace)
    ensures After(trace).Some? ==> After(trace).value == PhaseOf(trace[|trace| - 1])
  {
    var front, last := trace[..|trace| - 1], trace[|trace| - 1];
    if front != [] {
      AcceptedAreChains(front);
      assert forall k :: 0 < k < |front| ==> (Follows(front[k - 1], front[k]) <==> Follows(trace[k - 1], trace[k]));
      assert Chained(trace) <==> Chained(front) && Follows(trace[|trace| - 2], last);
    } else {
      assert trace == [last] && After(front) == Some(Announcing);
    }
  }

  /** Retries are counted: while an attempt is due there were as many metrics as attempts,
      otherwise one fewer. */
  lemma {:induction false} MetricsFollowAttempts(trace: seq<Event>)
    requires trace != [] && After(trace).Some? && trace != [trace[0]]
    ensures Attempts(trace) == Metrics(trace) + (if After(trace).value == Trying then 0 else 1)
  {
    var front, last := trace[..|trace| - 1], trace[|trace| - 1];
    AcceptedAreChains(trace);
    AcceptedAreChains(front);
    assert Follows(trace[|trace| - 2], last);
    if |front| == 1 {
      assert Attempts(front) == Attempts(front[..0]) == 0;
      assert Metrics(front) == Metrics(front[..0]) == 0;
    } else {
      assert front != [front[0]];
      MetricsFollowAttempts(front);
    }
  }

  /** Every finished upload: an announcement that was not accepted and nothing else, or the
      announcement, one or more attempts with a metric between any two, and one terminal call, which
      reports success exactly when the last attempt stored the blob.  A permanent failure is the
      last attempt. */
  lemma TraceShape(trace: seq<Event>)
    requires Complete(trace)
    ensures trace != [] && trace[0].Announce?
    ensures trace[0].answer != Acked ==> |trace| == 1
    ensures forall k :: 0 <= k < |trace| ==> (trace[k].Last() <==> k == |trace| - 1)
    ensures trace[0].answer == Acked ==>
              && |trace| >= 3 && trace[|trace| - 2].Try?
              && Attempts(trace) >= 1 && Metrics(trace) == Attempts(trace) - 1
              && (trace[|trace| - 1].ReportSuccess? <==> trace[|trace| - 2] == Try(Stored))
    ensures forall k :: 0 <= k < |trace| && trace[k] in {Try(Stored), Try(NoSpace), Try(NotOpened)} ==>
                          k == |trace| - 2
  {
    AcceptedAreChains(trace);
    var n := |trace|;
    forall k | 0 <= k < n - 1
      ensures !trace[k].Last()
    {
      assert Follows(trace[k], trace[k + 1]);
    }
    forall k | 0 <= k < n && trace[k].Try? && (trace[k].attempt.Permanent() || trace[k].attempt.Stored?)
      ensures k == n - 2
    {
      assert k < n - 1 ==> Follows(trace[k], trace[k + 1]);
      assert trace[k + 1].Last();
    }
    if trace[0].answer == Acked {
      assert n > 1;
      assert Follows(trace[n - 2], trace[n - 1]);
      MetricsFollowAttempts(trace);
    }
  }

  // ---------------------------------------------------------------- responses

  datatype Response = Written(status: int) | Panicked

  /** What the client is told: `async` uploads are accepted as soon as they are announced. */
  function ResponseTo(async: bool, trace: seq<Event>): Response
    requires Complete(trace)
  {
    TraceShape(trace);
    var last := trace[|trace| - 1];
    match trace[0].answer
    case Forbidden => Written(400)
    case Missing => Written(404)
    case Broken => Panicked
    case Acked =>
      if async then Written(202)
      else if last.ReportSuccess? then (if last.answer == Acked then Written(201) else Panicked)
      else if trace[|trace| - 2] == Try(NoSpace) then Written(507)
      else Panicked
  }

  /** 201 means that the blob was stored and the Cloud Controller took the news; 202 means only that
      the upload was announced. */
  lemma CreatedMeansAcknowledged(async: bool, trace: seq<Event>)
    requires Complete(trace)
    ensures ResponseTo(async, trace) == Written(201) <==>
            !async && |trace| >= 2 && trace[|trace| - 2] == Try(Stored)
            && trace[|trace| - 1].ReportSuccess? && trace[|trace| - 1].answer == Acked
    ensures ResponseTo(async, trace) == Written(202) <==> async && trace[0] == Announce(Acked)
    ensures ResponseTo(async, trace) == Written(507) <==>
            !async && |trace| >= 2 && trace[|trace| - 2] == Try(NoSpace)
  {
    TraceShape(trace);
    AcceptedAreChains(trace);
    if |trace| >= 2 {
      assert Follows(trace[|trace| - 2], trace[|trace| - 1]);
    }
  }
}
