/**
 Any number of uploads at once, with the blobstore and the Cloud Controller: each step is one event
 of one upload, or something that others do.
 */
module UploadWorld {
  import opened Wrappers
  import opened Bits
  import opened UploadProtocol

  datatype CcState = Awaiting | Processing | Ready(sums: Sums) | FailedUpload

  /** The Cloud Controller: the state of each known guid, and the guids for which it has ever
      accepted an upload. */
  datatype CloudController = CloudController(state: map<Key, CcState>, accepted: set<Key>)

  /** `content` is the temporary file, whose checksums are computed before the announcement. */
  datatype Request = Request(guid: Key, content: Bytes, async: bool, trace: seq<Event>) {
    function Phase(): Option<Phase> {
      After(trace)
    }

    /** Announced, accepted and not finished. */
    predicate Owns() {
      Phase().Some? && Phase().value in {Trying, Waiting, Succeeding, Failing}
    }
  }

  /** A call whose reply was lost and which the Cloud Controller has not taken yet. */
  datatype Sent = Sent(guid: Key, call: Event)

  /** `flight`: the calls that may still be taken.  `touched`: the guids whose blobs something other than
      an upload has changed. */
  datatype World = World(
    blobs: map<Key, Bytes>,
    cc: CloudController,
    requests: map<nat, Request>,
    flight: multiset<Sent>,
    touched: set<Key>)

  /** `applied`: the Cloud Controller takes the call before it replies.  `Land`: it takes one whose reply
      was lost, at any later moment or never. */
  datatype Step =
    | Arrive(id: nat, guid: Key, content: Bytes, async: bool)
    | Call(id: nat, reply: Reply, applied: bool)
    | Land(sent: Sent)
    | Put(id: nat, attempt: Attempt)
    | Retry(id: nat)
    | Scribble(id: nat, left: Option<Bytes>)
    | Register(guid: Key)
    | Forget(guid: Key)
    | Tamper(guid: Key, left: Option<Bytes>)

  function Store(blobs: map<Key, Bytes>, guid: Key, left: Option<Bytes>): map<Key, Bytes> {
    if left.Some? then blobs[guid := left.value] else blobs - {guid}
  }

  function Logged(r: Request, e: Event): Request {
    r.(trace := r.trace + [e])
  }

  /** The call to the Cloud Controller that a request makes next. */
  function CallOf(digest: Digester, r: Request, reply: Reply): Option<Event> {
    match r.Phase()
    case Some(Announcing) => Some(Announce(Seen(reply)))
    case Some(Succeeding) => Some(ReportSuccess(digest(r.content), Seen(reply)))
    case Some(Failing) => Some(ReportFailure(Seen(reply)))
    case Some(Waiting) => Some(ReportFailure(Seen(reply)))
    case _ => None
  }

  /** The Cloud Controller takes a call about a guid. */
  function Applied(cc: CloudController, guid: Key, call: Event): CloudController {
    match call
    case Announce(_) => CloudController(cc.state[guid := Processing], cc.accepted + {guid})
    case ReportSuccess(sums, _) => cc.(state := cc.state[guid := Ready(sums)])
    case ReportFailure(_) => cc.(state := cc.state[guid := FailedUpload])
    case _ => cc
  }

  /** Can this step happen? */
  predicate Enabled(digest: Digester, w: World, step: Step) {
    match step
    case Arrive(id, _, _, _) => id !in w.requests
    case Call(id, reply, _) => id in w.requests && CallOf(digest, w.requests[id], reply).Some?
    case Land(sent) => sent in w.flight
    case Put(id, _) => id in w.requests && w.requests[id].Phase() == Some(Trying)
    case Retry(id) => id in w.requests && w.requests[id].Phase() == Some(Waiting)
    case Scribble(id, _) => id in w.requests && w.requests[id].Phase() == Some(Trying)
    case Register(guid) => guid !in w.cc.state
    case _ => true
  }

  /** A store that succeeds leaves the content; while an attempt is under way, and after it failed,
      anything may be left. */
  function Perform(digest: Digester, w: World, step: Step): World
    requires Enabled(digest, w, step)
  {
    match step
    case Arrive(id, guid, content, async) => w.(requests := w.requests[id := Request(guid, content, async, [])])
    case Call(id, reply, applied) =>
      var r := w.requests[id];
      var call := CallOf(digest, r, reply).value;
      w.(requests := w.requests[id := Logged(r, call)],
      cc := if applied then Applied(w.cc, r.guid, call) else w.cc,
      flight := if reply.NoReply? && !applied then w.flight + multiset{Sent(r.guid, call)} else w.flight)
    case Land(sent) => w.(cc := Applied(w.cc, sent.guid, sent.call), flight := w.flight - multiset{sent})
    case Put(id, attempt) =>
      var r := w.requests[id];
      w.(requests := w.requests[id := Logged(r, Try(attempt))],
      blobs := if attempt.Stored? then w.blobs[r.guid := r.content] else w.blobs)
    case Retry(id) => w.(requests := w.requests[id := Logged(w.requests[id], Metric)])
    case Scribble(id, left) => w.(blobs := Store(w.blobs, w.requests[id].guid, left))
    case Register(guid) => w.(cc := w.cc.(state := w.cc.state[guid := Awaiting]))
    case Forget(guid) => w.(cc := w.cc.(state := w.cc.state - {guid}))
    case Tamper(guid, left) => w.(blobs := Store(w.blobs, guid, left), touched := w.touched + {guid})
  }

  /** What the Cloud Controller takes: news of known guids only, and an announcement only if no
      upload of the guid has been accepted before. */
  predicate Honest(digest: Digester, w: World, step: Step)
    requires Enabled(digest, w, step)
  {
    match step
    case Call(id, _, true) =>
      var r := w.requests[id];
      r.guid in w.cc.state && (r.Phase() == Some(Announcing) ==> r.guid !in w.cc.accepted)
    case Land(sent) => sent.guid in w.cc.state && (sent.call.Announce? ==> sent.guid !in w.cc.accepted)
    case _ => true
  }

  /** It says no to an announcement with 404 or 422, the two statuses that are looked at. */
  predicate Plain(digest: Digester, w: World, step: Step)
    requires Enabled(digest, w, step)
  {
    step.Call? && w.requests[step.id].Phase() == Some(Announcing) && Seen(step.reply) == Acked ==> step.applied
  }

  // ---------------------------------------------------------------- the invariant

  /** An owner's guid is taken, and no two owners share one. */
  ghost predicate Exclusive(w: World) {
    && (forall i :: i in w.requests && w.requests[i].Owns() ==> w.requests[i].guid in w.cc.accepted)
    && (forall i, j :: i in w.requests && j in w.requests && i != j && w.requests[i].Owns() && w.requests[j].Owns() ==>
                         w.requests[i].guid != w.requests[j].guid)
  }

  /** A blob about to be reported is the content of its request. */
  ghost predicate Kept(w: World) {
    forall i :: i in w.requests && w.requests[i].Phase() == Some(Succeeding) && w.requests[i].guid !in w.touched ==>
                  w.requests[i].guid in w.blobs && w.blobs[w.requests[i].guid] == w.requests[i].content
  }

  /** The guid belongs to no upload any more, and these are the checksums of its blob. */
  ghost predicate Settled(digest: Digester, w: World, g: Key, sums: Sums) {
    && g in w.cc.accepted
    && (forall i :: i in w.requests && w.requests[i].Owns() ==> w.requests[i].guid != g)
    && (g !in w.touched ==> g in w.blobs && digest(w.blobs[g]) == sums)
  }

  ghost predicate ReadyIsStored(digest: Digester, w: World, g: Key) {
    g in w.cc.state && w.cc.state[g].Ready? ==> Settled(digest, w, g, w.cc.state[g].sums)
  }

  /** A success that is still to be taken will be right as well. */
  ghost predicate LateIsStored(digest: Digester, w: World, sent: Sent) {
    sent in w.flight && sent.call.ReportSuccess? ==> Settled(digest, w, sent.guid, sent.call.sums)
  }

  ghost predicate Safe(digest: Digester, w: World) {
    && Exclusive(w) && Kept(w)
    && (forall g :: ReadyIsStored(digest, w, g))
    && (forall sent :: LateIsStored(digest, w, sent))
  }

  lemma PhaseMore(r: Request, e: Event)
    ensures Logged(r, e).Phase() == if r.Phase().None? then None else Next(r.Phase().value, e)
  {
    AfterMore(r.trace, e);
  }

  // What a step does to owners and to the blobs about to be reported.

  /** One request becomes an owner only of a guid that was free. */
  lemma NewOwner(w: World, w': World, id: nat, r: Request)
    requires Exclusive(w) && w'.requests == w.requests[id := r] && w.cc.accepted <= w'.cc.accepted
    requires r.Owns() ==> r.guid !in w.cc.accepted && r.guid in w'.cc.accepted
    ensures Exclusive(w')
  {
    assert forall i :: i in w'.requests && i != id ==> i in w.requests && w'.requests[i] == w.requests[i];
  }

  lemma NotReporting(w: World, w': World, id: nat, r: Request)
    requires Kept(w) && w'.requests == w.requests[id := r] && w'.blobs == w.blobs && w'.touched == w.touched
    requires r.Phase() != Some(Succeeding)
    ensures Kept(w')
  {
    assert forall i :: i in w'.requests && i != id ==> i in w.requests && w'.requests[i] == w.requests[i];
  }

  lemma OwnerStays(w: World, w': World, id: nat, r: Request)
    requires Exclusive(w) && w'.requests == w.requests[id := r] && w'.cc.accepted == w.cc.accepted
    requires id in w.requests && w.requests[id].Owns() && w.requests[id].guid == r.guid
    ensures Exclusive(w')
  {
    assert forall i :: i in w'.requests && i != id ==> i in w.requests && w'.requests[i] == w.requests[i];
  }

  /** An owner that is about to report has stored its content; nobody else is about to report the guid. */
  lemma OwnBlobKept(w: World, w': World, id: nat, r: Request)
    requires Exclusive(w) && Kept(w) && w'.requests == w.requests[id := r] && w'.touched == w.touched
    requires id in w.requests && w.requests[id].Owns() && w.requests[id].guid == r.guid
    requires forall g :: g != r.guid && g in w.blobs ==> g in w'.blobs && w'.blobs[g] == w.blobs[g]
    requires r.Phase() == Some(Succeeding) ==> r.guid in w'.blobs && w'.blobs[r.guid] == r.content
    ensures Kept(w')
  {
    forall i | i in w'.requests && w'.requests[i].Phase() == Some(Succeeding) && w'.requests[i].guid !in w'.touched
      ensures w'.requests[i].guid in w'.blobs && w'.blobs[w'.requests[i].guid] == w'.requests[i].content
    {
      if i != id {
        assert i in w.requests && w'.requests[i] == w.requests[i];
      }
    }
  }

  /** A call: an announcement that is taken makes its request the only owner, of a guid that nobody has
      had; any other call ends ownership. */
  lemma CallKeepsOwners(digest: Digester, w: World, step: Step, w': World)
    requires Exclusive(w) && Kept(w) && step.Call? && Enabled(digest, w, step) && Honest(digest, w, step)
    requires Plain(digest, w, step) && w' == Perform(digest, w, step)
    ensures Exclusive(w') && Kept(w')
  {
    var r, r' := w.requests[step.id], w'.requests[step.id];
    PhaseMore(r, CallOf(digest, r, step.reply).value);
    if r.Phase() == Some(Announcing) {
      NewOwner(w, w', step.id, r');
    } else {
      OwnerStays(w, w', step.id, r');
    }
    NotReporting(w, w', step.id, r');
  }

  /** A step of an owner among its attempts. */
  lemma AttemptKeepsOwners(digest: Digester, w: World, step: Step, w': World)
    requires Exclusive(w) && Kept(w) && (step.Put? || step.Retry? || step.Scribble?)
    requires Enabled(digest, w, step) && w' == Perform(digest, w, step)
    ensures Exclusive(w') && Kept(w')
  {
    var r, r' := w.requests[step.id], w'.requests[step.id];
    match step {
      case Put(_, attempt) => PhaseMore(r, Try(attempt));
      case Retry(_) => PhaseMore(r, Metric);
      case _ =>
    }
    assert w'.requests == w.requests[step.id := r'];
    OwnerStays(w, w', step.id, r');
    OwnBlobKept(w, w', step.id, r');
  }

  lemma StepKeepsOwners(digest: Digester, w: World, step: Step, w': World)
    requires Exclusive(w) && Kept(w) && Enabled(digest, w, step) && Honest(digest, w, step)
    requires Plain(digest, w, step) && w' == Perform(digest, w, step)
    ensures Exclusive(w') && Kept(w')
  {
    match step
    case Arrive(id, _, _, _) =>
      assert After([]) == Some(Announcing);
      NewOwner(w, w', id, w'.requests[id]);
      NotReporting(w, w', id, w'.requests[id]);
    case Call(_, _, _) => CallKeepsOwners(digest, w, step, w');
    case Put(_, _) => AttemptKeepsOwners(digest, w, step, w');
    case Retry(_) => AttemptKeepsOwners(digest, w, step, w');
    case Scribble(_, _) => AttemptKeepsOwners(digest, w, step, w');
    case _ =>
  }

  // What is settled stays settled.

  /** No new owner of the guid, no other blob. */
  lemma SettledFrame(digest: Digester, w: World, w': World, g: Key, sums: Sums)
    requires Settled(digest, w, g, sums) && w.cc.accepted <= w'.cc.accepted && w.touched <= w'.touched
    requires forall i :: i in w'.requests && w'.requests[i].Owns() && w'.requests[i].guid == g ==>
                           i in w.requests && w.requests[i].Owns() && w.requests[i].guid == g
    requires g !in w'.touched && g in w.blobs ==> g in w'.blobs && w'.blobs[g] == w.blobs[g]
    ensures Settled(digest, w', g, sums)
  {
  }

  /** One request moves on. */
  lemma SettledMove(digest: Digester, w: World, w': World, id: nat, r: Request, g: Key, sums: Sums)
    requires Settled(digest, w, g, sums) && w.cc.accepted <= w'.cc.accepted && w.touched <= w'.touched
    requires w'.requests == w.requests[id := r] && (r.Owns() ==> r.guid != g)
    requires g !in w'.touched && g in w.blobs ==> g in w'.blobs && w'.blobs[g] == w.blobs[g]
    ensures Settled(digest, w', g, sums)
  {
    assert forall i :: i in w'.requests && i != id ==> i in w.requests && w'.requests[i] == w.requests[i];
    SettledFrame(digest, w, w', g, sums);
  }

  lemma CallKeepsSettled(digest: Digester, w: World, step: Step, w': World, g: Key, sums: Sums)
    requires Settled(digest, w, g, sums) && step.Call? && Enabled(digest, w, step) && Honest(digest, w, step)
    requires Plain(digest, w, step) && w' == Perform(digest, w, step)
    ensures Settled(digest, w', g, sums)
  {
    var r := w.requests[step.id];
    PhaseMore(r, CallOf(digest, r, step.reply).value);
    SettledMove(digest, w, w', step.id, w'.requests[step.id], g, sums);
  }

  lemma AttemptKeepsSettled(digest: Digester, w: World, step: Step, w': World, g: Key, sums: Sums)
    requires Settled(digest, w, g, sums) && (step.Put? || step.Retry? || step.Scribble?)
    requires Enabled(digest, w, step) && w' == Perform(digest, w, step)
    ensures Settled(digest, w', g, sums)
  {
    var r := w.requests[step.id];
    assert r.Owns() && r.guid != g;
    assert w'.requests == w.requests[step.id := w'.requests[step.id]];
    SettledMove(digest, w, w', step.id, w'.requests[step.id], g, sums);
  }

  lemma StepKeepsSettled(digest: Digester, w: World, step: Step, w': World, g: Key, sums: Sums)
    requires Settled(digest, w, g, sums) && Enabled(digest, w, step) && Honest(digest, w, step)
    requires Plain(digest, w, step) && w' == Perform(digest, w, step)
    ensures Settled(digest, w', g, sums)
  {
    match step
    case Arrive(id, _, _, _) =>
      assert After([]) == Some(Announcing);
      SettledMove(digest, w, w', id, w'.requests[id], g, sums);
    case Call(_, _, _) => CallKeepsSettled(digest, w, step, w', g, sums);
    case Put(_, _) => AttemptKeepsSettled(digest, w, step, w', g, sums);
    case Retry(_) => AttemptKeepsSettled(digest, w, step, w', g, sums);
    case Scribble(_, _) => AttemptKeepsSettled(digest, w, step, w', g, sums);
    case _ => SettledFrame(digest, w, w', g, sums);
  }

  /** Reporting a success, whether it is taken at once, later or never, settles the guid. */
  lemma ReportSettles(digest: Digester, w: World, step: Step, w': World)
    requires Exclusive(w) && Kept(w) && step.Call? && Enabled(digest, w, step) && w' == Perform(digest, w, step)
    requires w.requests[step.id].Phase() == Some(Succeeding)
    ensures Settled(digest, w', w.requests[step.id].guid, digest(w.requests[step.id].content))
  {
    var r := w.requests[step.id];
    PhaseMore(r, CallOf(digest, r, step.reply).value);
    assert r.Owns() && !w'.requests[step.id].Owns();
    assert forall i :: i in w'.requests && i != step.id ==> i in w.requests && w'.requests[i] == w.requests[i];
  }

  lemma StepKeepsReady(digest: Digester, w: World, step: Step, w': World, g: Key)
    requires Exclusive(w) && Kept(w) && ReadyIsStored(digest, w, g)
    requires step.Land? ==> LateIsStored(digest, w, step.sent)
    requires Enabled(digest, w, step) && Honest(digest, w, step) && Plain(digest, w, step)
    requires w' == Perform(digest, w, step)
    ensures ReadyIsStored(digest, w', g)
  {
    if g in w'.cc.state && w'.cc.state[g].Ready? {
      hide Settled, Honest, Plain, Exclusive, Kept;
      var sums := w'.cc.state[g].sums;
      if g in w.cc.state && w.cc.state[g] == w'.cc.state[g] {
        StepKeepsSettled(digest, w, step, w', g, sums);
      } else if step.Call? {
        ReportSettles(digest, w, step, w');
      } else {
        StepKeepsSettled(digest, w, step, w', g, sums);
      }
    }
  }

  lemma StepKeepsLate(digest: Digester, w: World, step: Step, w': World, sent: Sent)
    requires Exclusive(w) && Kept(w) && LateIsStored(digest, w, sent)
    requires Enabled(digest, w, step) && Honest(digest, w, step) && Plain(digest, w, step)
    requires w' == Perform(digest, w, step)
    ensures LateIsStored(digest, w', sent)
  {
    if sent in w'.flight && sent.call.ReportSuccess? {
      hide Settled, Honest, Plain, Exclusive, Kept;
      if sent in w.flight {
        StepKeepsSettled(digest, w, step, w', sent.guid, sent.call.sums);
      } else {
        ReportSettles(digest, w, step, w');
      }
    }
  }

  lemma StepKeepsSafe(digest: Digester, w: World, step: Step)
    requires Safe(digest, w) && Enabled(digest, w, step) && Honest(digest, w, step) && Plain(digest, w, step)
    ensures Safe(digest, Perform(digest, w, step))
  {
    var w' := Perform(digest, w, step);
    StepKeepsOwners(digest, w, step, w');
    forall g
      ensures ReadyIsStored(digest, w', g)
    {
      assert ReadyIsStored(digest, w, g);
      assert step.Land? ==> LateIsStored(digest, w, step.sent);
      StepKeepsReady(digest, w, step, w', g);
    }
    forall sent
      ensures LateIsStored(digest, w', sent)
    {
      assert LateIsStored(digest, w, sent);
      StepKeepsLate(digest, w, step, w', sent);
    }
  }

  // ---------------------------------------------------------------- runs

  predicate CanRun(digest: Digester, w: World, steps: seq<Step>)
    decreases |steps|
  {
    steps == [] || (Enabled(digest, w, steps[0]) && Honest(digest, w, steps[0])
                    && CanRun(digest, Perform(digest, w, steps[0]), steps[1..]))
  }

  predicate PlainRun(digest: Digester, w: World, steps: seq<Step>)
    requires CanRun(digest, w, steps)
    decreases |steps|
  {
    steps == [] || (Plain(digest, w, steps[0]) && PlainRun(digest, Perform(digest, w, steps[0]), steps[1..]))
  }

  /** A refused announcement, if the reply arrives, carries one of these statuses. */
  predicate RefusesWith(digest: Digester, w: World, step: Step, statuses: set<int>)
    requires Enabled(digest, w, step)
  {
    step.Call? && w.requests[step.id].Phase() == Some(Announcing) && !step.applied && step.reply.Reply? ==>
      step.reply.status in statuses
  }

  predicate RefusalsWith(digest: Digester, w: World, steps: seq<Step>, statuses: set<int>)
    requires CanRun(digest, w, steps)
    decreases |steps|
  {
    steps == [] ||
    (RefusesWith(digest, w, steps[0], statuses)
     && RefusalsWith(digest, Perform(digest, w, steps[0]), steps[1..], statuses))
  }

  function Run(digest: Digester, w: World, steps: seq<Step>): World
    requires CanRun(digest, w, steps)
    decreases |steps|
  {
    if steps == [] then w else Run(digest, Perform(digest, w, steps[0]), steps[1..])
  }

  lemma {:induction false} RunKeepsSafe(digest: Digester, w: World, steps: seq<Step>)
    requires Safe(digest, w) && CanRun(digest, w, steps) && PlainRun(digest, w, steps)
    ensures Safe(digest, Run(digest, w, steps))
    decreases |steps|
  {
    if steps != [] {
      StepKeepsSafe(digest, w, steps[0]);
      RunKeepsSafe(digest, Perform(digest, w, steps[0]), steps[1..]);
    }
  }

  const INITIAL := World(map[], CloudController(map[], {}), map[], multiset{}, {})

  /** In every state of every interleaving: if the Cloud Controller holds READY for a guid whose blob
      only uploads have written, the blob is there and has exactly those checksums. */
  lemma ReadyMeansStored(digest: Digester, steps: seq<Step>, g: Key)
    requires CanRun(digest, INITIAL, steps) && PlainRun(digest, INITIAL, steps)
    ensures var w := Run(digest, INITIAL, steps);
            g in w.cc.state && w.cc.state[g].Ready? && g !in w.touched ==>
              g in w.blobs && digest(w.blobs[g]) == w.cc.state[g].sums
  {
    assert Safe(digest, INITIAL);
    RunKeepsSafe(digest, INITIAL, steps);
    assert ReadyIsStored(digest, Run(digest, INITIAL, steps), g);
  }

  /** When an upload's success is taken, its guid is READY with its checksums, and its blob is its
      content. */
  lemma TakenSuccessIsStored(digest: Digester, w: World, step: Step)
    requires Safe(digest, w) && step.Call? && Enabled(digest, w, step) && step.applied
    requires w.requests[step.id].Phase() == Some(Succeeding) && w.requests[step.id].guid !in w.touched
    ensures var r, w' := w.requests[step.id], Perform(digest, w, step);
            && r.guid in w'.cc.state && w'.cc.state[r.guid] == Ready(digest(r.content))
            && r.guid in w'.blobs && w'.blobs[r.guid] == r.content
  {
  }

  // ---------------------------------------------------------------- a refusal that is not seen

  /** At the moment a client is told 201, if the Cloud Controller does what it acknowledges, the guid is
      READY with the checksums of the client's bytes, and the blob is these bytes. */
  lemma CreatedMeansReady(digest: Digester, w: World, step: Step, r': Request)
    requires Safe(digest, w) && step.Call? && Enabled(digest, w, step) && (Seen(step.reply) == Acked ==> step.applied)
    requires r' == Perform(digest, w, step).requests[step.id] && r'.guid !in w.touched
    requires Complete(r'.trace) && ResponseTo(r'.async, r'.trace) == Written(201)
    ensures var w' := Perform(digest, w, step);
            && r'.guid in w'.cc.state && w'.cc.state[r'.guid] == Ready(digest(r'.content))
            && r'.guid in w'.blobs && w'.blobs[r'.guid] == r'.content
  {
    var r := w.requests[step.id];
    var call := CallOf(digest, r, step.reply).value;
    assert r'.trace == r.trace + [call];
    CreatedMeansAcknowledged(r'.async, r'.trace);
    assert r'.trace[|r'.trace| - 1] == call;
    TakenSuccessIsStored(digest, w, step);
  }

  lemma RunOneStep(digest: Digester, w: World, steps: seq<Step>, step: Step, rest: seq<Step>, statuses: set<int>)
    requires steps == [step] + rest && Enabled(digest, w, step) && Honest(digest, w, step)
    requires CanRun(digest, Perform(digest, w, step), rest)
    ensures CanRun(digest, w, steps)
    ensures Run(digest, w, steps) == Run(digest, Perform(digest, w, step), rest)
    ensures RefusesWith(digest, w, step, statuses) && RefusalsWith(digest, Perform(digest, w, step), rest, statuses) ==>
              RefusalsWith(digest, w, steps, statuses)
  {
    assert steps[1..] == rest;
  }

  /** An upload is about to report its content; a second one of the same guid is refused, but with a
      status other than 404 and 422, which passes for a yes.  It overwrites the blob, and then the
      first one's checksums are published. */
  function Overwrite(i: nat, j: nat, status: int): seq<Step> {
    [Call(j, Reply(status), false), Put(j, Stored), Call(i, Reply(200), true)]
  }

  lemma UnseenRefusalOverwrites(digest: Digester, w: World, i: nat, j: nat, status: int)
    requires i in w.requests && w.requests[i].Phase() == Some(Succeeding)
    requires j in w.requests && w.requests[j].Phase() == Some(Announcing)
    requires w.requests[i].guid == w.requests[j].guid && w.requests[i].guid in w.cc.state
    requires status != 404 && status != 422
    ensures var steps := Overwrite(i, j, status);
            && CanRun(digest, w, steps) && RefusalsWith(digest, w, steps, {status})
            && var w', g := Run(digest, w, steps), w.requests[i].guid;
            && g in w'.cc.state && w'.cc.state[g] == Ready(digest(w.requests[i].content)) && g in w'.blobs
            && w'.blobs[g] == w.requests[j].content && w'.touched == w.touched
  {
    var s0, s1, s2 := Call(j, Reply(status), false), Put(j, Stored), Call(i, Reply(200), true);
    var r := w.requests[j];
    PhaseMore(r, Announce(Acked));
    var w1 := Perform(digest, w, s0);
    assert w1.requests[j] == Logged(r, Announce(Acked));
    var w2 := Perform(digest, w1, s1);
    var w3 := Perform(digest, w2, s2);
    assert CanRun(digest, w3, []) && Run(digest, w3, []) == w3 && RefusalsWith(digest, w3, [], {status});
    RunOneStep(digest, w2, [s2], s2, [], {status});
    RunOneStep(digest, w1, [s1, s2], s1, [s2], {status});
    RunOneStep(digest, w, [s0, s1, s2], s0, [s1, s2], {status});
  }

  /** Two uploads of one guid arrive. */
  function Arrivals(a: Bytes, b: Bytes): seq<Step> {
    [Register("g"), Arrive(0, "g", a, false), Arrive(1, "g", b, false)]
  }

  function Arrived(a: Bytes, b: Bytes): World {
    World(map[], CloudController(map["g" := Awaiting], {}),
          map[0 := Request("g", a, false, []), 1 := Request("g", b, false, [])], multiset{}, {})
  }

  lemma TwoArrive(digest: Digester, a: Bytes, b: Bytes, statuses: set<int>)
    ensures CanRun(digest, INITIAL, Arrivals(a, b)) && Run(digest, INITIAL, Arrivals(a, b)) == Arrived(a, b)
    ensures RefusalsWith(digest, INITIAL, Arrivals(a, b), statuses)
  {
    var s0, s1, s2 := Register("g"), Arrive(0, "g", a, false), Arrive(1, "g", b, false);
    var w1 := Perform(digest, INITIAL, s0);
    var w2 := Perform(digest, w1, s1);
    var w3 := Perform(digest, w2, s2);
    assert CanRun(digest, w3, []) && Run(digest, w3, []) == w3 && RefusalsWith(digest, w3, [], statuses);
    RunOneStep(digest, w2, [s2], s2, [], statuses);
    RunOneStep(digest, w1, [s1, s2], s1, [s2], statuses);
    RunOneStep(digest, INITIAL, [s0, s1, s2], s0, [s1, s2], statuses);
  }

  /** The first is accepted and stores its content. */
  function Storing(): seq<Step> {
    [Call(0, Reply(200), true), Put(0, Stored)]
  }

  ghost predicate AboutToMeet(w: World, a: Bytes, b: Bytes) {
    && w.requests.Keys == {0, 1} && w.touched == {} && "g" in w.cc.state
    && w.requests[0].guid == "g" && w.requests[0].content == a && w.requests[0].Phase() == Some(Succeeding)
    && w.requests[1].guid == "g" && w.requests[1].content == b && w.requests[1].Phase() == Some(Announcing)
  }

  lemma FirstStores(digest: Digester, a: Bytes, b: Bytes, statuses: set<int>)
    ensures CanRun(digest, Arrived(a, b), Storing()) && AboutToMeet(Run(digest, Arrived(a, b), Storing()), a, b)
    ensures RefusalsWith(digest, Arrived(a, b), Storing(), statuses)
  {
    var w, s0, s1 := Arrived(a, b), Call(0, Reply(200), true), Put(0, Stored);
    assert After([]) == Some(Announcing);
    PhaseMore(w.requests[0], Announce(Acked));
    var w1 := Perform(digest, w, s0);
    assert w1.requests[0] == Logged(w.requests[0], Announce(Acked));
    PhaseMore(w1.requests[0], Try(Stored));
    var w2 := Perform(digest, w1, s1);
    assert CanRun(digest, w2, []) && Run(digest, w2, []) == w2 && RefusalsWith(digest, w2, [], statuses);
    RunOneStep(digest, w1, [s1], s1, [], statuses);
    RunOneStep(digest, w, [s0, s1], s0, [s1], statuses);
  }

  function TwoUploads(a: Bytes, b: Bytes): seq<Step> {
    Arrivals(a, b) + Storing()
  }

  lemma TwoUploadsMeet(digest: Digester, a: Bytes, b: Bytes, statuses: set<int>)
    ensures CanRun(digest, INITIAL, TwoUploads(a, b))
    ensures AboutToMeet(Run(digest, INITIAL, TwoUploads(a, b)), a, b)
    ensures RefusalsWith(digest, INITIAL, TwoUploads(a, b), statuses)
  {
    TwoArrive(digest, a, b, statuses);
    FirstStores(digest, a, b, statuses);
    RunsJoin(digest, INITIAL, Arrivals(a, b), Storing(), statuses);
  }

  lemma {:induction false} RunsJoin(digest: Digester, w: World, first: seq<Step>, second: seq<Step>, statuses: set<int>)
    requires CanRun(digest, w, first) && CanRun(digest, Run(digest, w, first), second)
    ensures CanRun(digest, w, first + second)
    ensures Run(digest, w, first + second) == Run(digest, Run(digest, w, first), second)
    ensures RefusalsWith(digest, w, first, statuses)
            && RefusalsWith(digest, Run(digest, w, first), second, statuses) ==>
              RefusalsWith(digest, w, first + second, statuses)
    decreases |first|
  {
    if first == [] {
      assert first + second == second;
    } else {
      RunsJoin(digest, Perform(digest, w, first[0]), first[1..], second, statuses);
      RunOneStep(digest, w, first + second, first[0], first[1..] + second, statuses);
    }
  }

  /** READY tells the truth about every blob that only uploads have written. */
  ghost predicate Truthful(digest: Digester, w: World) {
    forall g :: g in w.cc.state && w.cc.state[g].Ready? && g !in w.touched ==>
                  g in w.blobs && digest(w.blobs[g]) == w.cc.state[g].sums
  }

  /** So the promise fails for every such status: READY is published with the checksums of `a` while
      the blob is `b`, with no delete, no copy and no other writer. */
  lemma UnseenRefusalBreaksReady(digest: Digester, a: Bytes, b: Bytes, status: int)
    requires status != 404 && status != 422 && digest(a) != digest(b)
    ensures exists steps :: CanRun(digest, INITIAL, steps) && RefusalsWith(digest, INITIAL, steps, {status})
                            && !Truthful(digest, Run(digest, INITIAL, steps))
  {
    TwoUploadsMeet(digest, a, b, {status});
    var w := Run(digest, INITIAL, TwoUploads(a, b));
    UnseenRefusalOverwrites(digest, w, 0, 1, status);
    var steps := TwoUploads(a, b) + Overwrite(0, 1, status);
    RunsJoin(digest, INITIAL, TwoUploads(a, b), Overwrite(0, 1, status), {status});
    var w' := Run(digest, INITIAL, steps);
    assert w'.cc.state["g"] == Ready(digest(a)) && w'.blobs["g"] == b;
  }

  lemma {:induction false} SeenRefusalsArePlain(digest: Digester, w: World, steps: seq<Step>, statuses: set<int>)
    requires AllSeen(statuses) && CanRun(digest, w, steps) && RefusalsWith(digest, w, steps, statuses)
    ensures PlainRun(digest, w, steps)
    decreases |steps|
  {
    if steps != [] {
      SeenRefusalsArePlain(digest, Perform(digest, w, steps[0]), steps[1..], statuses);
    }
  }

  lemma {:induction false} MoreRefusals(digest: Digester, w: World, steps: seq<Step>, some: set<int>, all: set<int>)
    requires some <= all && CanRun(digest, w, steps) && RefusalsWith(digest, w, steps, some)
    ensures RefusalsWith(digest, w, steps, all)
    decreases |steps|
  {
    if steps != [] {
      MoreRefusals(digest, Perform(digest, w, steps[0]), steps[1..], some, all);
    }
  }

  predicate AllSeen(statuses: set<int>) {
    forall status :: status in statuses ==> status == 404 || status == 422
  }

  /** Is READY right in every state of every honest interleaving with such refusals? */
  ghost predicate AlwaysTruthful(digest: Digester, statuses: set<int>) {
    forall steps :: CanRun(digest, INITIAL, steps) && RefusalsWith(digest, INITIAL, steps, statuses) ==>
                      Truthful(digest, Run(digest, INITIAL, steps))
  }

  lemma SeenRefusalsAreHarmless(digest: Digester, statuses: set<int>)
    requires AllSeen(statuses)
    ensures AlwaysTruthful(digest, statuses)
  {
    forall steps | CanRun(digest, INITIAL, steps) && RefusalsWith(digest, INITIAL, steps, statuses)
      ensures Truthful(digest, Run(digest, INITIAL, steps))
    {
      SeenRefusalsArePlain(digest, INITIAL, steps, statuses);
      forall g
        ensures var w := Run(digest, INITIAL, steps);
                g in w.cc.state && w.cc.state[g].Ready? && g !in w.touched ==>
                  g in w.blobs && digest(w.blobs[g]) == w.cc.state[g].sums
      {
        ReadyMeansStored(digest, steps, g);
      }
    }
  }

  /** Whatever statuses the Cloud Controller refuses announcements with: READY is always right exactly
      when they are among 404 and 422. */
  lemma ReadyRightIffRefusalsSeen(digest: Digester, a: Bytes, b: Bytes, statuses: set<int>)
    requires digest(a) != digest(b)
    ensures AlwaysTruthful(digest, statuses) <==> AllSeen(statuses)
  {
    if AllSeen(statuses) {
      SeenRefusalsAreHarmless(digest, statuses);
    } else {
      var status :| status in statuses && status != 404 && status != 422;
      UnseenRefusalBreaksReady(digest, a, b, status);
      var steps :| CanRun(digest, INITIAL, steps) && RefusalsWith(digest, INITIAL, steps, {status})
                   && !Truthful(digest, Run(digest, INITIAL, steps));
      MoreRefusals(digest, INITIAL, steps, {status}, statuses);
    }
  }
}
