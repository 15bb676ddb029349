/** `ResourceHandler.AddOrReplace` and `uploadResource`, run against whatever their surroundings answer. */
module ResourceHandlers {
  import opened Wrappers
  import opened Bits
  import opened UploadProtocol
  import Stash = AppStash

  /** What the outside does to one upload: the replies of the Cloud Controller, the outcome of each
      attempt and what a failed store leaves, and how many retries the policy has time for. */
  datatype Surroundings = Surroundings(
    announce: Reply,
    attempt: nat -> Attempt,
    left: nat -> Option<Bytes>,
    retries: nat,
    report: Reply)

  /** The form of a request: without a file, not readable, a package with what completing it comes to, or
      other bits that can be copied to a temporary file or not. */
  datatype Body =
    | NoFile
    | Unreadable
    | Package(completion: Stash.Completion, content: Bytes)
    | Other(copied: bool, content: Bytes)
  {
    function Bits(): Bytes {
      if Package? || Other? then content else []
    }
  }

  /** `length` is None if the header does not tell; `hashed`: the checksums can be computed. */
  datatype Incoming = Incoming(length: Option<nat>, body: Body, hashed: bool)

  /** Is there no limit, or a length within it? */
  predicate Fits(limit: nat, request: Incoming) {
    limit == 0 || (request.length.Some? && request.length.value <= limit)
  }

  /** Does reading the request leave a temporary file? */
  predicate HasFile(limit: nat, request: Incoming) {
    && Fits(limit, request)
    && match request.body
       case Package(completion, _) => completion.Completed?
       case Other(copied, _) => copied
       case _ => false
  }

  predicate Usable(limit: nat, request: Incoming) {
    HasFile(limit, request) && request.hashed
  }

  datatype UploadError = NoSpaceLeft | OtherError

  // ---------------------------------------------------------------- the specification

  /** Does the policy retry after attempt `k`? */
  predicate Again(env: Surroundings, k: nat) {
    env.attempt(k).Failed? && k < env.retries
  }

  /** The attempt that ends the upload, looking from attempt `k` on. */
  function LastFrom(env: Surroundings, k: nat): nat
    decreases env.retries - k
  {
    if Again(env, k) then LastFrom(env, k + 1) else k
  }

  lemma {:induction false} LastAtLeast(env: Surroundings, k: nat)
    ensures LastFrom(env, k) >= k
    decreases env.retries - k
  {
    if Again(env, k) {
      LastAtLeast(env, k + 1);
    }
  }

  predicate AllRetried(env: Surroundings, k: nat, n: nat) {
    forall i: nat :: k <= i < n ==> Again(env, i)
  }

  /** It is the first after which the policy does not retry. */
  lemma {:induction false} LastExact(env: Surroundings, k: nat, n: nat)
    requires k <= n
    ensures LastFrom(env, k) == n <==> AllRetried(env, k, n) && !Again(env, n)
    decreases n - k
  {
    if k < n {
      if Again(env, k) {
        LastExact(env, k + 1, n);
      }
    } else if Again(env, k) {
      LastAtLeast(env, k + 1);
    }
  }

  /** The first `n` attempts, all failed, with a metric after each. */
  function Retries(env: Surroundings, n: nat): seq<Event> {
    if n == 0 then [] else Retries(env, n - 1) + [Try(env.attempt(n - 1)), Metric]
  }

  function Terminal(env: Surroundings, last: Attempt, sums: Sums): Event {
    if last.Stored? then ReportSuccess(sums, Seen(env.report)) else ReportFailure(Seen(env.report))
  }

  /** What an upload does once it is announced. */
  function Uploading(env: Surroundings, sums: Sums): seq<Event> {
    var n := LastFrom(env, 0);
    Retries(env, n) + [Try(env.attempt(n))] + [Terminal(env, env.attempt(n), sums)]
  }

  function Traced(env: Surroundings, sums: Sums): seq<Event> {
    var announced := [Announce(Seen(env.announce))];
    if Seen(env.announce) == Acked then announced + Uploading(env, sums) else announced
  }

  lemma {:induction false} RetriesAccepted(env: Surroundings, n: nat)
    requires Seen(env.announce) == Acked && AllRetried(env, 0, n)
    ensures After([Announce(Acked)] + Retries(env, n)) == Some(Trying)
  {
    if n == 0 {
      assert After([]) == Some(Announcing);
      AfterMore([], Announce(Acked));
      assert [Announce(Acked)] + Retries(env, 0) == [] + [Announce(Acked)];
    } else {
      RetriesAccepted(env, n - 1);
      assert Again(env, n - 1);
      var before := [Announce(Acked)] + Retries(env, n - 1);
      AfterMore(before, Try(env.attempt(n - 1)));
      AfterMore(before + [Try(env.attempt(n - 1))], Metric);
      assert [Announce(Acked)] + Retries(env, n) == before + [Try(env.attempt(n - 1))] + [Metric];
    }
  }

  lemma Joined(a: seq<Event>, b: seq<Event>, c: Event, d: Event)
    ensures a + (b + [c] + [d]) == a + b + [c] + [d]
  {
  }

  lemma EndAccepted(before: seq<Event>, env: Surroundings, last: Attempt, sums: Sums)
    requires After(before) == Some(Trying)
    ensures Complete(before + [Try(last)] + [Terminal(env, last, sums)])
  {
    AfterMore(before, Try(last));
    AfterMore(before + [Try(last)], Terminal(env, last, sums));
  }

  /** Whatever the surroundings do, what the handler does is a complete run of the protocol. */
  lemma TracedIsComplete(env: Surroundings, sums: Sums)
    ensures Complete(Traced(env, sums))
  {
    if Seen(env.announce) == Acked {
      var n := LastFrom(env, 0);
      LastAtLeast(env, 0);
      LastExact(env, 0, n);
      RetriesAccepted(env, n);
      EndAccepted([Announce(Acked)] + Retries(env, n), env, env.attempt(n), sums);
      Joined([Announce(Acked)], Retries(env, n), Try(env.attempt(n)), Terminal(env, env.attempt(n), sums));
    } else {
      assert After([]) == Some(Announcing);
      AfterMore([], Announce(Seen(env.announce)));
      assert Traced(env, sums) == [] + [Announce(Seen(env.announce))];
    }
  }

  /** Attempts stand at the odd places, metrics at the even ones. */
  lemma {:induction false} Alternates(trace: seq<Event>, k: nat)
    requires Complete(trace) && 1 <= k <= |trace| - 2
    ensures if k % 2 == 1 then trace[k].Try? else trace[k] == Metric
    ensures k % 2 == 1 && k < |trace| - 2 ==> trace[k] == Try(Failed)
    ensures k == |trace| - 2 ==> k % 2 == 1
    decreases k
  {
    TraceShape(trace);
    AcceptedAreChains(trace);
    assert Follows(trace[k - 1], trace[k]) && Follows(trace[k], trace[k + 1]);
    if k > 1 {
      Alternates(trace, k - 1);
    }
  }

  function ReplyFor(answer: Answer): (r: Reply)
    ensures Seen(r) == answer
  {
    match answer
    case Acked => Reply(200)
    case Missing => Reply(404)
    case Forbidden => Reply(422)
    case Broken => NoReply
  }

  /** The surroundings in which the handler does just this. */
  function Rebuilt(trace: seq<Event>): Surroundings
    requires Complete(trace)
  {
    TraceShape(trace);
    var last := trace[|trace| - 1];
    var report := match last case ReportSuccess(_, a) => a case ReportFailure(a) => a case _ => Acked;
    Surroundings(
      ReplyFor(trace[0].answer),
      (k: nat) => if 2 * k + 1 < |trace| && trace[2 * k + 1].Try? then trace[2 * k + 1].attempt else Failed,
      (k: nat) => None,
      if |trace| >= 3 then (|trace| - 3) / 2 else 0,
      ReplyFor(report))
  }

  lemma {:induction false} RebuiltRetries(trace: seq<Event>, n: nat)
    requires Complete(trace) && 2 * n + 3 <= |trace|
    ensures Retries(Rebuilt(trace), n) == trace[1..2 * n + 1]
  {
    if n > 0 {
      RebuiltRetries(trace, n - 1);
      Alternates(trace, 2 * n - 1);
      Alternates(trace, 2 * n);
      assert trace[1..2 * n + 1] == trace[1..2 * n - 1] + [trace[2 * n - 1], trace[2 * n]];
    }
  }

  lemma RebuiltLast(trace: seq<Event>, n: nat)
    requires Complete(trace) && trace != [] && trace[0] == Announce(Acked) && n == Rebuilt(trace).retries
    ensures |trace| == 2 * n + 3 && LastFrom(Rebuilt(trace), 0) == n
    ensures trace[2 * n + 1] == Try(Rebuilt(trace).attempt(n))
  {
    var env := Rebuilt(trace);
    TraceShape(trace);
    Alternates(trace, |trace| - 2);
    forall i: nat | i < n
      ensures Again(env, i)
    {
      Alternates(trace, 2 * i + 1);
    }
    LastExact(env, 0, n);
  }

  lemma RebuiltTerminal(trace: seq<Event>, n: nat, sums: Sums)
    requires Complete(trace) && trace != [] && trace[0] == Announce(Acked) && |trace| == 2 * n + 3
    requires trace[2 * n + 1] == Try(Rebuilt(trace).attempt(n))
    requires trace[2 * n + 2].ReportSuccess? ==> trace[2 * n + 2].sums == sums
    ensures trace[2 * n + 2] == Terminal(Rebuilt(trace), Rebuilt(trace).attempt(n), sums)
  {
    AcceptedAreChains(trace);
    assert Follows(trace[2 * n + 1], trace[2 * n + 2]);
    TraceShape(trace);
  }

  lemma Pieces(trace: seq<Event>, n: nat)
    requires |trace| == 2 * n + 3
    ensures trace == [trace[0]] + (trace[1..2 * n + 1] + [trace[2 * n + 1]] + [trace[2 * n + 2]])
  {
  }

  /** And the other way round: every complete run of the protocol is one the handler can make. */
  lemma CompleteIsTraced(trace: seq<Event>, sums: Sums)
    requires Complete(trace) && forall k :: 0 <= k < |trace| && trace[k].ReportSuccess? ==> trace[k].sums == sums
    ensures Traced(Rebuilt(trace), sums) == trace
  {
    TraceShape(trace);
    var env := Rebuilt(trace);
    var n := env.retries;
    if trace[0].answer != Acked {
      assert trace == [trace[0]];
    } else {
      RebuiltLast(trace, n);
      RebuiltTerminal(trace, n, sums);
      RebuiltRetries(trace, n);
      Pieces(trace, n);
      hide After, LastFrom, Retries, Rebuilt, Terminal;
    }
  }

  /** The two last events of an announced upload. */
  lemma TracedEnds(env: Surroundings, sums: Sums)
    requires Seen(env.announce) == Acked
    ensures var t, n := Traced(env, sums), LastFrom(env, 0);
            && |t| >= 3 && t[0] == Announce(Acked) && t[|t| - 2] == Try(env.attempt(n))
            && t[|t| - 1] == Terminal(env, env.attempt(n), sums)
  {
  }

  /** `backoff.RetryNotify` gives back the error of the last attempt; the report of a success may fail too. */
  function Outcome(env: Surroundings): Option<UploadError> {
    match env.attempt(LastFrom(env, 0))
    case NoSpace => Some(NoSpaceLeft)
    case Stored => if Seen(env.report) == Acked then None else Some(OtherError)
    case _ => Some(OtherError)
  }

  /** A status other than the two that say no. */
  predicate Acknowledged(reply: Reply) {
    reply.Reply? && reply.status != 404 && reply.status != 422
  }

  predicate Announced(env: Surroundings) {
    Acknowledged(env.announce)
  }

  predicate Reported(env: Surroundings) {
    Acknowledged(env.report)
  }

  /** The attempt that ends the retries: the first that did not fail, or after which there is no time. */
  function Decided(env: Surroundings): Attempt {
    env.attempt(LastFrom(env, 0))
  }

  /** What the client is told about a usable request, by the replies of the Cloud Controller and the
      deciding attempt. */
  lemma ResponseByReplies(env: Surroundings, sums: Sums, async: bool)
    requires Complete(Traced(env, sums))
    ensures var response := ResponseTo(async, Traced(env, sums));
            && (response == Written(400) <==> env.announce == Reply(422))
            && (response == Written(404) <==> env.announce == Reply(404))
            && (response == Written(202) <==> Announced(env) && async)
            && (response == Written(201) <==> Announced(env) && !async && Decided(env) == Stored && Reported(env))
            && (response == Written(507) <==> Announced(env) && !async && Decided(env) == NoSpace)
            && (response == Panicked <==>
                || env.announce == NoReply
                || (Announced(env) && !async
                    && (Decided(env) in {Failed, NotOpened} || (Decided(env) == Stored && !Reported(env)))))
            && (response.Written? ==> response.status in {201, 202, 400, 404, 507})
  {
    if Announced(env) {
      TracedEnds(env, sums);
    }
  }

  // ---------------------------------------------------------------- the handler

  /** `handleNotificationError` */
  function NotificationResponse(answer: Answer): Option<Response> {
    match answer
    case Forbidden => Some(Written(400))
    case Missing => Some(Written(404))
    case Broken => Some(Panicked)
    case Acked => None
  }

  /** `writeResponseBasedOn` for what `uploadResource` returns. */
  function UploadResponse(error: Option<UploadError>, success: int): Response {
    match error
    case None => Written(success)
    case Some(NoSpaceLeft) => Written(507)
    case Some(OtherError) => Panicked
  }

  class ResourceHandler {
    const digest: Digester
    const maxBodySizeLimit: nat
    var blobs: map<Key, Bytes>
    /** Temporary files by name. */
    var temps: map<Key, Bytes>
    /** The calls made to the Cloud Controller, the blobstore and the metrics service. */
    var events: seq<Event>

    constructor (digest: Digester, maxBodySizeLimit: nat)
      ensures this.digest == digest && this.maxBodySizeLimit == maxBodySizeLimit
      ensures blobs == map[] && temps == map[] && events == []
    {
      this.digest, this.maxBodySizeLimit := digest, maxBodySizeLimit;
      blobs, temps, events := map[], map[], [];
    }

    /** `ShaSums` of a file that can be read. */
    method ShaSums(name: Key) returns (sums: Sums)
      requires name in temps
      ensures sums == digest(temps[name])
    {
      sums := digest(temps[name]);
    }

    /** The operation under retry, attempt `k`. */
    method TryOnce(name: Key, guid: Key, env: Surroundings, k: nat) returns (attempt: Attempt)
      requires name in temps
      modifies this`blobs, this`events
      ensures attempt == env.attempt(k) && events == old(events) + [Try(attempt)]
      ensures blobs - {guid} == old(blobs) - {guid}
      ensures attempt.Stored? ==> blobs == old(blobs)[guid := temps[name]]
    {
      attempt := env.attempt(k);
      events := events + [Try(attempt)];
      match attempt
      case NotOpened =>
      case Stored => blobs := blobs[guid := temps[name]];
      case _ =>
        match env.left(k)
        case Some(bytes) => blobs := blobs[guid := bytes];
        case None => blobs := blobs - {guid};
    }

    /** `backoff.RetryNotify` around `TryOnce`. */
    method RetryNotify(name: Key, guid: Key, env: Surroundings) returns (last: Attempt)
      requires name in temps
      modifies this`blobs, this`events
      ensures last == env.attempt(LastFrom(env, 0))
      ensures events == old(events) + (Retries(env, LastFrom(env, 0)) + [Try(last)])
      ensures blobs - {guid} == old(blobs) - {guid}
      ensures last.Stored? ==> guid in blobs && blobs[guid] == temps[name]
    {
      var k := 0;
      last := TryOnce(name, guid, env, 0);
      while last.Failed? && k < env.retries
        invariant last == env.attempt(k) && LastFrom(env, k) == LastFrom(env, 0)
        invariant events == old(events) + (Retries(env, k) + [Try(last)])
        invariant blobs - {guid} == old(blobs) - {guid}
        invariant last.Stored? ==> guid in blobs && blobs[guid] == temps[name]
        decreases env.retries - k
      {
        ghost var failed := last;
        events := events + [Metric];
        k := k + 1;
        last := TryOnce(name, guid, env, k);
        assert Retries(env, k) == Retries(env, k - 1) + [Try(failed), Metric];
      }
    }

    /** The temporary file goes, whatever happens. */
    method UploadResource(name: Key, guid: Key, env: Surroundings, sums: Sums) returns (error: Option<UploadError>)
      requires name in temps
      modifies this
      ensures temps == old(temps) - {name}
      ensures events == old(events) + Uploading(env, sums)
      ensures error == Outcome(env)
      ensures blobs - {guid} == old(blobs) - {guid}
      ensures env.attempt(LastFrom(env, 0)).Stored? ==> guid in blobs && blobs[guid] == old(temps)[name]
    {
      var last := RetryNotify(name, guid, env);
      temps := temps - {name};
      events := events + [Terminal(env, last, sums)];
      match last
      case Stored =>
        error := if Seen(env.report) == Acked then None else Some(OtherError);
      case NoSpace => error := Some(NoSpaceLeft);
      case _ => error := Some(OtherError);
    }

    /** The size limits, the form, the temporary file and its checksums. */
    method Prepare(request: Incoming, name: Key) returns (refused: Option<Response>)
      requires HasFile(maxBodySizeLimit, request) ==> name !in temps
      modifies this`temps
      ensures refused == None <==> Usable(maxBodySizeLimit, request)
      ensures temps == if HasFile(maxBodySizeLimit, request) then old(temps)[name := request.body.Bits()]
                       else old(temps)
      ensures refused == Some(Written(400)) <==>
              || (maxBodySizeLimit != 0 && request.length == None)
              || (Fits(maxBodySizeLimit, request) && request.body.NoFile?)
      ensures refused == Some(Written(413)) <==>
              maxBodySizeLimit != 0 && request.length.Some? && request.length.value > maxBodySizeLimit
      ensures refused == Some(Written(422)) <==>
              Fits(maxBodySizeLimit, request) && request.body.Package? && request.body.completion.InputError?
      ensures refused == Some(Written(507)) <==>
              Fits(maxBodySizeLimit, request) && request.body.Package? && request.body.completion.StashIsFull?
      ensures refused.Some? && refused.value.Written? ==> refused.value.status in {400, 413, 422, 507}
    {
      if maxBodySizeLimit != 0 {
        if request.length.None? {
          return Some(Written(400));
        }
        if request.length.value > maxBodySizeLimit {
          return Some(Written(413));
        }
      }
      match request.body {
        case NoFile => return Some(Written(400));
        case Unreadable => return Some(Panicked);
        case Package(completion, _) =>
          match completion {
            case InputError => return Some(Written(422));
            case StashIsFull => return Some(Written(507));
            case Broken => return Some(Panicked);
            case Completed(_) =>
          }
        case Other(copied, _) =>
          if !copied {
            return Some(Panicked);
          }
      }
      temps := temps[name := request.body.Bits()];
      refused := if request.hashed then None else Some(Panicked);
    }

    /** What the client is told is what the protocol's trace says; the temporary file survives exactly
        when the upload does not start. */
    method AddOrReplace(request: Incoming, name: Key, guid: Key, async: bool, env: Surroundings)
      returns (response: Response)
      requires HasFile(maxBodySizeLimit, request) ==> name !in temps
      modifies this
      ensures !Usable(maxBodySizeLimit, request) ==> events == old(events) && blobs == old(blobs)
      ensures Usable(maxBodySizeLimit, request) ==>
                var trace := Traced(env, digest(request.body.Bits()));
                events == old(events) + trace && Complete(trace) && response == ResponseTo(async, trace)
      ensures temps == if HasFile(maxBodySizeLimit, request) && !(request.hashed && Announced(env))
                       then old(temps)[name := request.body.Bits()] else old(temps)
      ensures blobs - {guid} == old(blobs) - {guid}
      ensures response == Written(201) ==> guid in blobs && blobs[guid] == request.body.Bits()
      // each answer, by the request and by what the others reply
      ensures response == Written(400) <==>
              || (maxBodySizeLimit != 0 && request.length == None)
              || (Fits(maxBodySizeLimit, request) && request.body.NoFile?)
              || (Usable(maxBodySizeLimit, request) && env.announce == Reply(422))
      ensures response == Written(404) <==> Usable(maxBodySizeLimit, request) && env.announce == Reply(404)
      ensures response == Written(413) <==>
              maxBodySizeLimit != 0 && request.length.Some? && request.length.value > maxBodySizeLimit
      ensures response == Written(422) <==>
              Fits(maxBodySizeLimit, request) && request.body.Package? && request.body.completion.InputError?
      ensures response == Written(507) <==>
              || (Fits(maxBodySizeLimit, request) && request.body.Package? && request.body.completion.StashIsFull?)
              || (Usable(maxBodySizeLimit, request) && Announced(env) && !async && Decided(env) == NoSpace)
      ensures response == Written(201) <==>
              && Usable(maxBodySizeLimit, request) && Announced(env) && !async
              && Decided(env) == Stored && Reported(env)
      ensures response == Written(202) <==> Usable(maxBodySizeLimit, request) && Announced(env) && async
      ensures Usable(maxBodySizeLimit, request) ==>
                (response == Panicked <==>
                 || env.announce == NoReply
                 || (Announced(env) && !async
                     && (Decided(env) in {Failed, NotOpened} || (Decided(env) == Stored && !Reported(env)))))
    {
      var refused := Prepare(request, name);
      if refused.Some? {
        return refused.value;
      }
      var sums := ShaSums(name);
      TracedIsComplete(env, sums);
      ResponseByReplies(env, sums, async);
      events := events + [Announce(Seen(env.announce))];
      refused := NotificationResponse(Seen(env.announce));
      if refused.Some? {
        return refused.value;
      }
      TracedEnds(env, sums);
      var error := UploadResource(name, guid, env, sums);
      response := if async then Written(202) else UploadResponse(error, 201);
    }
  }
}
