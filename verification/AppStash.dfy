/** The handlers of the app stash: matches, entries and bundles; and the package upload that uses it. */
module AppStash {
  import opened Wrappers
  import opened Bits
  import opened FileModes
  import opened PackageBundles

  datatype Response<+T> = Status(code: int) | Body(value: T) | Panicked

  // ---------------------------------------------------------------- the specification

  function Matching(stash: Stash, bounds: Bounds, prints: seq<Fingerprint>): seq<Fingerprint> {
    if prints == [] then []
    else
      var last := prints[|prints| - 1];
      Matching(stash, bounds, prints[..|prints| - 1]) +
      (if bounds.Admit(last.size) && last.sha1 in stash then [last] else [])
  }

  /** Exactly the fingerprints within the bounds that the stash holds are reported. */
  lemma {:induction false} MatchingExactly(stash: Stash, bounds: Bounds, prints: seq<Fingerprint>)
    ensures forall p :: p in Matching(stash, bounds, prints) <==> p in prints && bounds.Admit(p.size) && p.sha1 in stash
  {
    if prints != [] {
      MatchingExactly(stash, bounds, prints[..|prints| - 1]);
      assert prints == prints[..|prints| - 1] + [prints[|prints| - 1]];
    }
  }

  /** With bounds both inclusive: asked for, neither smaller nor larger, and there. */
  lemma MatchingWithinBounds(stash: Stash, min: nat, max: nat, prints: seq<Fingerprint>, p: Fingerprint)
    ensures p in Matching(stash, Bounds(min, max), prints) <==>
            p in prints && min <= p.size && p.size <= max && p.sha1 in stash
  {
    MatchingExactly(stash, Bounds(min, max), prints);
  }

  /** In their order. */
  lemma {:induction false} MatchingKeepsOrder(stash: Stash, bounds: Bounds, a: seq<Fingerprint>, b: seq<Fingerprint>)
    ensures Matching(stash, bounds, a + b) == Matching(stash, bounds, a) + Matching(stash, bounds, b)
    decreases |b|
  {
    if b == [] {
      assert a + b == a;
    } else {
      var front := b[..|b| - 1];
      assert (a + b)[..|a + b| - 1] == a + front;
      MatchingKeepsOrder(stash, bounds, a, front);
    }
  }

  datatype CopyFault = Copied | StashFull | CopyFailed

  function PrintOf(sha: Hasher, e: ZipEntry): Fingerprint {
    Fingerprint(e.name, sha(e.bytes), |e.bytes|, Octal(e.mode as nat))
  }

  function Prints(sha: Hasher, entries: seq<ZipEntry>): seq<Fingerprint> {
    if entries == [] then []
    else
      var last := entries[|entries| - 1];
      Prints(sha, entries[..|entries| - 1]) + (if IsRegular(last.mode) then [PrintOf(sha, last)] else [])
  }

  /** The first regular entry from `i` on that is not copied, or else the number of entries. */
  function Stopped(entries: seq<ZipEntry>, fault: nat -> CopyFault, i: nat): (r: nat)
    requires i <= |entries|
    ensures i <= r <= |entries|
    decreases |entries| - i
  {
    if i == |entries| || (IsRegular(entries[i].mode) && fault(i) != Copied) then i else Stopped(entries, fault, i + 1)
  }

  function EntriesStash(sha: Hasher, stash: Stash, entries: seq<ZipEntry>, fault: nat -> CopyFault): Stash {
    Stashed(sha, Unbounded, stash, entries[..Stopped(entries, fault, 0)])
  }

  function EntriesResponse(sha: Hasher, entries: seq<ZipEntry>, fault: nat -> CopyFault): Response<seq<Fingerprint>> {
    var r := Stopped(entries, fault, 0);
    if r == |entries| then Body(Prints(sha, entries))
    else if fault(r) == StashFull then Status(507)
    else Panicked
  }

  predicate Incomplete(p: Fingerprint) {
    p.sha1 == "" || p.fn == ""
  }

  /** `anyKeyMissingIn` */
  method AnyKeyMissing(prints: seq<Fingerprint>) returns (missing: bool, key: string)
    ensures missing <==> !AllComplete(prints)
    ensures missing ==>
              exists k :: && 0 <= k < |prints| && (forall i :: 0 <= i < k ==> !Incomplete(prints[i]))
                          && (if prints[k].sha1 == "" then key == "sha1" else key == "fn" && prints[k].fn == "")
    ensures !missing ==> key == ""
  {
    for k := 0 to |prints|
      invariant forall i :: 0 <= i < k ==> !Incomplete(prints[i])
    {
      if prints[k].sha1 == "" {
        return true, "sha1";
      }
      if prints[k].fn == "" {
        return true, "fn";
      }
    }
    return false, "";
  }

  /** `Unbuffered`: the upload could not be copied to a temporary file. */
  datatype EntriesUpload = NoFile | Unbuffered | NotZip | Uploaded(entries: seq<ZipEntry>)

  /** `prints` is `None` when the body is no JSON list of fingerprints. */
  datatype BundlesRequest =
    | NoResources | NoApplication | BadApplication
    | Request(prints: Option<seq<Fingerprint>>, application: Option<seq<ZipEntry>>)

  /** What `completePackageWithResources` comes to. */
  datatype Completion = Completed(name: nat) | InputError | StashIsFull | Broken

  /** The uploaded archive, if it is one and can be read. */
  datatype ZipUpload = NotAZip | UnreadableZip | Zip(entries: seq<ZipEntry>)

  predicate AllComplete(prints: seq<Fingerprint>) {
    forall k :: 0 <= k < |prints| ==> !Incomplete(prints[k])
  }

  predicate Readable(request: BundlesRequest) {
    request.Request? && request.prints.Some? && AllComplete(request.prints.value)
  }

  /** `sent`: the finished file can be opened again and is sent to its end. */
  function BundlesResponse(sha: Hasher, bounds: Bounds, stash: Stash, request: BundlesRequest, faults: Faults,
                           sent: bool)
    : Response<TempFile>
  {
    match request
    case NoResources => Status(400)
    case NoApplication => Status(400)
    case BadApplication => Panicked
    case Request(prints, application) =>
      if !Readable(request) then Status(422)
      else
        var inputs := InputsOf(application);
        match BundleEnd(faults, bounds, sha, stash, inputs, prints.value)
        case Done =>
          var after := BundledStash(faults, bounds, sha, stash, inputs);
          if sent then Body(BundleFile(faults, after, inputs, prints.value)) else Panicked
        case Gave(NotFound(_)) => Status(404)
        case _ => Panicked
  }

  /** No copy of a regular entry before the `r`-th has failed. */
  predicate CopiedBefore(entries: seq<ZipEntry>, fault: nat -> CopyFault, r: nat)
    requires r <= |entries|
  {
    forall k :: 0 <= k < r && IsRegular(entries[k].mode) ==> fault(k) == Copied
  }

  lemma {:induction false} StoppedExactly(entries: seq<ZipEntry>, fault: nat -> CopyFault, i: nat)
    requires i <= |entries| && CopiedBefore(entries, fault, i)
    ensures var r := Stopped(entries, fault, i);
            && CopiedBefore(entries, fault, r)
            && (r < |entries| ==> IsRegular(entries[r].mode) && fault(r) != Copied)
    decreases |entries| - i
  {
    if i < |entries| && (IsRegular(entries[i].mode) ==> fault(i) == Copied) {
      StoppedExactly(entries, fault, i + 1);
    }
  }

  /** Entries are answered with 507 exactly if the first regular one that cannot be copied finds the store full,
      with a panic exactly if it fails otherwise, and with fingerprints exactly if there is none. */
  lemma EntriesStatuses(sha: Hasher, entries: seq<ZipEntry>, fault: nat -> CopyFault)
    ensures var response := EntriesResponse(sha, entries, fault);
            && (response == Status(507) <==>
                exists r :: && 0 <= r < |entries| && IsRegular(entries[r].mode) && fault(r) == StashFull
                            && CopiedBefore(entries, fault, r))
            && (response == Panicked <==>
                exists r :: && 0 <= r < |entries| && IsRegular(entries[r].mode) && fault(r) == CopyFailed
                            && CopiedBefore(entries, fault, r))
            && (response.Body? <==> CopiedBefore(entries, fault, |entries|))
            && (response.Status? ==> response == Status(507))
  {
    StoppedExactly(entries, fault, 0);
    var r := Stopped(entries, fault, 0);
    forall q | 0 <= q < |entries| && IsRegular(entries[q].mode) && fault(q) != Copied && CopiedBefore(entries, fault, q)
      ensures q == r
    {
    }
  }

  predicate AllNamed(prints: seq<Fingerprint>) {
    forall k :: 0 <= k < |prints| ==> prints[k].sha1 != "" && prints[k].fn != ""
  }

  /** Each answer of bundles, by the request, the stash and the faults. */
  lemma BundlesStatuses(sha: Hasher, bounds: Bounds, stash: Stash, request: BundlesRequest, faults: Faults, sent: bool)
    ensures var response := BundlesResponse(sha, bounds, stash, request, faults, sent);
            && (response == Status(400) <==> request.NoResources? || request.NoApplication?)
            && (response == Status(422) <==>
                request.Request? && (request.prints == None || !AllNamed(request.prints.value)))
            && (response == Status(404) <==>
                && request.Request? && request.prints.Some? && AllNamed(request.prints.value)
                && var inputs, prints := InputsOf(request.application), request.prints.value;
                && !faults.noTemp
                && (forall i :: 0 <= i < |inputs| ==> Passes(faults, bounds, inputs, i))
                && exists j :: 0 <= j < |prints|
                               && FirstMissing(faults, Stashed(sha, bounds, stash, inputs), prints, j))
            && (response.Body? <==>
                && request.Request? && request.prints.Some? && AllNamed(request.prints.value) && sent
                && var inputs, prints := InputsOf(request.application), request.prints.value;
                && !faults.noTemp
                && (forall i :: 0 <= i < |inputs| ==> Passes(faults, bounds, inputs, i))
                && forall j :: 0 <= j < |prints| ==>
                                 prints[j].sha1 in Stashed(sha, bounds, stash, inputs) && Reads(faults.fetch(j)))
            && (response.Status? ==> response.code in {400, 404, 422})
  {
    if request.Request? && request.prints.Some? {
      SucceedsExactly(faults, bounds, sha, stash, InputsOf(request.application), request.prints.value);
      NotFoundExactly(faults, bounds, sha, stash, InputsOf(request.application), request.prints.value);
      assert AllComplete(request.prints.value) <==> AllNamed(request.prints.value);
      hide BundleEnd, Passes, FirstMissing, Stashed, AllComplete, AllNamed, BundleFile;
    }
  }

  /** What entries answers, asked of matches afterwards: a fingerprint is reported exactly if its file's size is
      within the bounds. */
  lemma EntriesThenMatches(sha: Hasher, stash: Stash, entries: seq<ZipEntry>, fault: nat -> CopyFault,
                           min: nat, max: nat, k: nat)
    requires EntriesResponse(sha, entries, fault).Body? && k < |Regular(entries)|
    ensures var prints, after := EntriesResponse(sha, entries, fault).value, EntriesStash(sha, stash, entries, fault);
            var file := Regular(entries)[k];
            && |prints| == |Regular(entries)| && prints[k].fn == file.name && prints[k].sha1 == sha(file.bytes)
            && (prints[k] in Matching(after, Bounds(min, max), prints) <==> min <= |file.bytes| <= max)
  {
    var prints, after := Prints(sha, entries), EntriesStash(sha, stash, entries, fault);
    assert entries[..|entries|] == entries;
    PrintsOfRegular(sha, entries);
    StashedBytes(sha, stash, entries, Regular(entries)[k]);
    MatchingWithinBounds(after, min, max, prints, prints[k]);
  }

  // ---------------------------------------------------------------- the handlers

  /** One temporary file stays behind, still empty. */
  ghost predicate LeavesOne(before: map<nat, TempFile>, after: map<nat, TempFile>) {
    exists name: nat :: name !in before && after == before[name := Archive([])]
  }

  class AppStashHandler {
    const work: Workspace
    const bounds: Bounds

    constructor (work: Workspace, bounds: Bounds)
      ensures this.work == work && this.bounds == bounds
    {
      this.work, this.bounds := work, bounds;
    }

    /** `down(k)`: asking for the k-th blob fails. */
    method PostMatches(body: Option<seq<Fingerprint>>, down: nat -> bool) returns (response: Response<seq<Fingerprint>>)
      ensures response == Status(422) <==> body.None? || body.value == []
      ensures response == Panicked <==>
              body.Some? && exists k :: 0 <= k < |body.value| && bounds.Admit(body.value[k].size) && down(k)
      ensures response.Status? ==> response.code == 422
      ensures response.Body? ==> body.Some? && response.value == Matching(work.stash, bounds, body.value)
    {
      if body.None? || |body.value| == 0 {
        return Status(422);
      }
      var matched: seq<Fingerprint> := [];
      for k := 0 to |body.value|
        invariant matched == Matching(work.stash, bounds, body.value[..k])
        invariant forall i :: 0 <= i < k && bounds.Admit(body.value[i].size) ==> !down(i)
      {
        assert body.value[..k + 1][..k] == body.value[..k];
        if !bounds.Admit(body.value[k].size) {
          continue;
        }
        if down(k) {
          return Panicked;
        }
        if body.value[k].sha1 in work.stash {
          matched := matched + [body.value[k]];
        }
      }
      assert body.value[..|body.value|] == body.value;
      return Body(matched);
    }

    /** `copyTo`, for an entry that can be copied. */
    method CopyTo(e: ZipEntry) returns (sha1: Key)
      modifies work
      ensures sha1 == work.sha(e.bytes)
      ensures work.stash == old(work.stash)[sha1 := e.bytes] && work.temps == old(work.temps)
    {
      var buffer := work.NewTemp(Buffer(e.bytes));
      sha1 := work.sha(e.bytes);
      work.stash := work.stash[sha1 := e.bytes];
      work.temps := work.temps - {buffer};
    }

    method PostEntries(upload: EntriesUpload, fault: nat -> CopyFault) returns (response: Response<seq<Fingerprint>>)
      modifies work
      ensures work.temps == old(work.temps)
      ensures !upload.Uploaded? ==> work.stash == old(work.stash)
      ensures !upload.Uploaded? ==> response == if upload.Unbuffered? then Panicked else Status(400)
      ensures upload.Uploaded? ==>
                && response == EntriesResponse(work.sha, upload.entries, fault)
                && work.stash == EntriesStash(work.sha, old(work.stash), upload.entries, fault)
    {
      if !upload.Uploaded? {
        return if upload.Unbuffered? then Panicked else Status(400);
      }
      var entries := upload.entries;
      var prints: seq<Fingerprint> := [];
      for i := 0 to |entries|
        invariant Stopped(entries, fault, i) == Stopped(entries, fault, 0)
        invariant prints == Prints(work.sha, entries[..i])
        invariant work.stash == Stashed(work.sha, Unbounded, old(work.stash), entries[..i])
        invariant work.temps == old(work.temps)
      {
        assert entries[..i + 1][..i] == entries[..i];
        if !IsRegular(entries[i].mode) {
          continue;
        }
        match fault(i) {
          case StashFull => return Status(507);
          case CopyFailed => return Panicked;
          case Copied =>
            var sha1 := CopyTo(entries[i]);
            prints := prints + [Fingerprint(entries[i].name, sha1, |entries[i].bytes|, Octal(entries[i].mode as nat))];
        }
      }
      assert entries[..|entries|] == entries;
      return Body(prints);
    }

    /** The bundle is sent and its temporary file removed. */
    method PostBundles(request: BundlesRequest, faults: Faults, sent: bool) returns (response: Response<TempFile>)
      modifies work
      ensures response == BundlesResponse(work.sha, bounds, old(work.stash), request, faults, sent)
      ensures work.stash == if Readable(request)
                            then BundledStash(faults, bounds, work.sha, old(work.stash), InputsOf(request.application))
                            else old(work.stash)
      ensures !Readable(request) ==> work.temps == old(work.temps)
      ensures Readable(request) ==>
                var end := BundleEnd(faults, bounds, work.sha, old(work.stash), InputsOf(request.application),
                                     request.prints.value);
                if end == Crash then LeavesOne(old(work.temps), work.temps) else work.temps == old(work.temps)
    {
      match request
      case NoResources => return Status(400);
      case NoApplication => return Status(400);
      case BadApplication => return Panicked;
      case Request(prints, application) =>
        if prints.None? {
          return Status(422);
        }
        var missing, key := AnyKeyMissing(prints.value);
        if missing {
          return Status(422);
        }
        var result := work.CreateTempZipFileFrom(prints.value, application, bounds, faults);
        match result {
          case Failed(NotFound(_)) => return Status(404);
          case Failed(_) => return Panicked;
          case Crashed => return Panicked;
          case Bundled(name) =>
            response := if sent then Body(work.temps[name]) else Panicked;
            work.temps := work.temps - {name};
        }
    }

    /** `completePackageWithResources`; `resources` is None if they are no JSON list of fingerprints. */
    method CompletePackage(resources: Option<seq<Fingerprint>>, upload: ZipUpload, faults: Faults)
      returns (result: Completion)
      modifies work
      ensures resources.None? || !AllComplete(resources.value) || upload.NotAZip? ==> result == InputError
      ensures resources.Some? && AllComplete(resources.value) && upload.UnreadableZip? ==> result == Broken
      ensures resources.None? || !AllComplete(resources.value) || !upload.Zip? ==>
                work.stash == old(work.stash) && work.temps == old(work.temps)
      ensures resources.Some? && AllComplete(resources.value) && upload.Zip? ==>
                var end := BundleEnd(faults, bounds, work.sha, old(work.stash), upload.entries, resources.value);
                && work.stash == BundledStash(faults, bounds, work.sha, old(work.stash), upload.entries)
                && (result.Completed? <==> end == Done)
                && (result == InputError <==> end.Gave? && end.error.NotFound?)
                && (result == StashIsFull <==> end == Gave(NoSpaceLeft))
                && (result == Broken <==> end == Gave(OtherError) || end == Crash)
                && (end.Gave? ==> work.temps == old(work.temps))
                && (end.Crash? ==> LeavesOne(old(work.temps), work.temps))
                && (end.Done? ==>
                      && result.name !in old(work.temps)
                      && work.temps ==
                         old(work.temps)[result.name := BundleFile(faults, work.stash, upload.entries,
                                                                   resources.value)])
    {
      if resources.None? {
        return InputError;
      }
      var missing, key := AnyKeyMissing(resources.value);
      if missing {
        return InputError;
      }
      if !upload.Zip? {
        return if upload.NotAZip? then InputError else Broken;
      }
      var bundled := work.CreateTempZipFileFrom(resources.value, Some(upload.entries), bounds, faults);
      match bundled
      case Failed(NoSpaceLeft) => return StashIsFull;
      case Failed(NotFound(_)) => return InputError;
      case Failed(OtherError) => return Broken;
      case Crashed => return Broken;
      case Bundled(name) => return Completed(name);
    }
  }

  // ---------------------------------------------------------------- entries and then a bundle

  /** Do equal hashes among the regular entries mean equal bytes? */
  ghost predicate NoCollision(sha: Hasher, entries: seq<ZipEntry>) {
    forall i, j :: 0 <= i < |entries| && 0 <= j < |entries| && sha(entries[i].bytes) == sha(entries[j].bytes) ==>
                     entries[i].bytes == entries[j].bytes
  }

  lemma {:induction false} RegularMembers(entries: seq<ZipEntry>)
    ensures forall e :: e in Regular(entries) <==> e in entries && IsRegular(e.mode)
  {
    if entries != [] {
      RegularMembers(entries[..|entries| - 1]);
      assert entries == entries[..|entries| - 1] + [entries[|entries| - 1]];
    }
  }

  /** The stash holds, under the hash of each regular entry, the bytes of one of them. */
  lemma {:induction false} StashedBytes(sha: Hasher, stash: Stash, entries: seq<ZipEntry>, e: ZipEntry)
    requires e in Regular(entries)
    ensures var after := Stashed(sha, Unbounded, stash, entries);
            sha(e.bytes) in after && exists d :: d in Regular(entries) && sha(d.bytes) == sha(e.bytes)
                                                 && after[sha(e.bytes)] == d.bytes
  {
    var front, last := entries[..|entries| - 1], entries[|entries| - 1];
    if IsRegular(last.mode) && sha(last.bytes) == sha(e.bytes) {
      assert last in Regular(entries);
    } else {
      assert e in Regular(front);
      StashedBytes(sha, stash, front, e);
      var d :| d in Regular(front) && sha(d.bytes) == sha(e.bytes)
               && Stashed(sha, Unbounded, stash, front)[sha(e.bytes)] == d.bytes;
      assert d in Regular(entries);
    }
  }

  /** The fingerprints are those of the regular entries, one by one. */
  lemma {:induction false} PrintsOfRegular(sha: Hasher, entries: seq<ZipEntry>)
    ensures |Prints(sha, entries)| == |Regular(entries)|
    ensures forall i :: 0 <= i < |Regular(entries)| ==>
                          Prints(sha, entries)[i] == PrintOf(sha, Regular(entries)[i])
                          && IsRegular(Regular(entries)[i].mode)
  {
    if entries != [] {
      PrintsOfRegular(sha, entries[..|entries| - 1]);
    }
  }

  /** A fingerprint names its entry again, if the stash has the entry's bytes under its hash. */
  lemma NamedAgain(sha: Hasher, stash: Stash, e: ZipEntry)
    requires IsRegular(e.mode) && sha(e.bytes) in stash
    ensures NameOne(stash, PrintOf(sha, e)) == e <==> HoldsOwn(sha, stash, e)
  {
    RegularRoundTrip(e.mode);
  }

  /** The fingerprints of an archive name its regular files, with their names and modes, exactly when
      the stash has each file's bytes under its hash. */
  lemma NamedEntries(sha: Hasher, stash: Stash, entries: seq<ZipEntry>, regular: seq<ZipEntry>,
                     prints: seq<Fingerprint>)
    requires regular == Regular(entries) && prints == Prints(sha, entries)
    requires forall i :: 0 <= i < |regular| ==> sha(regular[i].bytes) in stash
    ensures |prints| == |regular| == |Named(stash, prints, |prints|)|
    ensures Named(stash, prints, |prints|) == regular <==>
            forall i :: 0 <= i < |regular| ==> HoldsOwn(sha, stash, regular[i])
  {
    PrintsOfRegular(sha, entries);
    NamedAt(stash, prints, |prints|);
    var named := Named(stash, prints, |prints|);
    forall i | 0 <= i < |regular|
      ensures named[i] == regular[i] <==> HoldsOwn(sha, stash, regular[i])
    {
      NamedAgain(sha, stash, regular[i]);
    }
  }

  lemma PrintsComplete(sha: Hasher, entries: seq<ZipEntry>)
    requires forall b :: sha(b) != ""
    requires forall e :: e in Regular(entries) ==> e.name != ""
    ensures AllComplete(Prints(sha, entries))
  {
    PrintsOfRegular(sha, entries);
    forall k | 0 <= k < |Prints(sha, entries)|
      ensures !Incomplete(Prints(sha, entries)[k])
    {
      assert Regular(entries)[k] in Regular(entries);
    }
  }

  ghost predicate HoldsOne(sha: Hasher, after: Stash, regular: seq<ZipEntry>, e: ZipEntry) {
    sha(e.bytes) in after && exists d :: d in regular && sha(d.bytes) == sha(e.bytes) && after[sha(e.bytes)] == d.bytes
  }

  ghost predicate HoldsOwn(sha: Hasher, after: Stash, e: ZipEntry) {
    sha(e.bytes) in after && after[sha(e.bytes)] == e.bytes
  }

  lemma OwnIfNoCollision(sha: Hasher, after: Stash, regular: seq<ZipEntry>, e: ZipEntry)
    requires NoCollision(sha, regular) && e in regular && HoldsOne(sha, after, regular, e)
    ensures HoldsOwn(sha, after, e)
  {
    var d :| d in regular && sha(d.bytes) == sha(e.bytes) && after[sha(e.bytes)] == d.bytes;
    var i :| 0 <= i < |regular| && regular[i] == d;
    var j :| 0 <= j < |regular| && regular[j] == e;
  }

  lemma NoCollisionIfOwn(sha: Hasher, after: Stash, regular: seq<ZipEntry>)
    requires forall i :: 0 <= i < |regular| ==> HoldsOwn(sha, after, regular[i])
    ensures NoCollision(sha, regular)
  {
    forall i, j | 0 <= i < |regular| && 0 <= j < |regular| && sha(regular[i].bytes) == sha(regular[j].bytes)
      ensures regular[i].bytes == regular[j].bytes
    {
      assert HoldsOwn(sha, after, regular[i]) && HoldsOwn(sha, after, regular[j]);
    }
  }

  /** What `entries` has stored is what its fingerprints name exactly if no two regular files collide. */
  lemma NamedBack(sha: Hasher, stash: Stash, entries: seq<ZipEntry>, regular: seq<ZipEntry>, prints: seq<Fingerprint>,
                  after: Stash)
    requires regular == Regular(entries) && prints == Prints(sha, entries)
             && after == Stashed(sha, Unbounded, stash, entries)
    ensures forall j :: 0 <= j < |prints| ==> prints[j].sha1 in after
    ensures |prints| == |regular| == |Named(after, prints, |prints|)|
    ensures Named(after, prints, |prints|) == regular <==> NoCollision(sha, regular)
  {
    PrintsOfRegular(sha, entries);
    forall i | 0 <= i < |regular|
      ensures HoldsOne(sha, after, regular, regular[i])
      ensures NoCollision(sha, regular) ==> HoldsOwn(sha, after, regular[i])
    {
      StashedBytes(sha, stash, entries, regular[i]);
      if NoCollision(sha, regular) {
        OwnIfNoCollision(sha, after, regular, regular[i]);
      }
    }
    assert forall j :: 0 <= j < |prints| ==> prints[j].sha1 == sha(regular[j].bytes);
    NamedEntries(sha, after, entries, regular, prints);
    if forall i :: 0 <= i < |regular| ==> HoldsOwn(sha, after, regular[i]) {
      NoCollisionIfOwn(sha, after, regular);
    }
  }

  /** Every blob is read in the end, no attempt before that has left bytes behind, and the zip writer
      finishes the file. */
  predicate Cleanly(faults: Faults, prints: seq<Fingerprint>) {
    !faults.noTemp && !faults.torn && forall j :: 0 <= j < |prints| ==>
                                                    Reads(faults.fetch(j)) && CleanFrom(faults.fetch(j), 0)
  }

  lemma CleanBundle(sha: Hasher, bounds: Bounds, stash: Stash, prints: seq<Fingerprint>, faults: Faults)
    requires Cleanly(faults, prints) && forall j :: 0 <= j < |prints| ==> prints[j].sha1 in stash
    ensures BundleEnd(faults, bounds, sha, stash, [], prints).Done?
    ensures BundledStash(faults, bounds, sha, stash, []) == stash
    ensures Fetched(faults, stash, prints, |prints|) == Named(stash, prints, |prints|)
  {
    forall j | 0 <= j < |prints|
      ensures Reads(faults.fetch(j)) && Intact(faults.fetch(j), stash, prints[j].sha1)
      ensures Fetch(faults.fetch(j), stash, prints[j].sha1).Success?
    {
      ReadsSucceed(faults.fetch(j), stash, prints[j].sha1, 0);
    }
    assert Stashed(sha, bounds, stash, []) == stash;
    SucceedsExactly(faults, bounds, sha, stash, [], prints);
    FetchedExactly(faults, stash, prints, |prints|);
  }

  lemma CleanResponse(sha: Hasher, bounds: Bounds, stash: Stash, prints: seq<Fingerprint>, faults: Faults)
    requires Cleanly(faults, prints) && (forall j :: 0 <= j < |prints| ==> prints[j].sha1 in stash)
             && AllComplete(prints)
    ensures BundlesResponse(sha, bounds, stash, Request(Some(prints), None), faults, true) ==
            Body(Archive(Named(stash, prints, |prints|)))
  {
    CleanBundle(sha, bounds, stash, prints, faults);
    assert Regular([]) + Named(stash, prints, |prints|) == Named(stash, prints, |prints|);
  }

  /** The round trip: posting an archive to entries and then a bundle of the fingerprints that come
      back, with any retries that leave no bytes behind, gives every regular file with its name, mode and bytes, in
      order, exactly when no two of them collide. */
  lemma EntriesThenBundle(sha: Hasher, bounds: Bounds, stash: Stash, entries: seq<ZipEntry>, fault: nat -> CopyFault,
                          faults: Faults)
    requires forall b :: sha(b) != ""
    requires forall e :: e in Regular(entries) ==> e.name != ""
    requires EntriesResponse(sha, entries, fault).Body? && Cleanly(faults, EntriesResponse(sha, entries, fault).value)
    ensures var prints := EntriesResponse(sha, entries, fault).value;
            var after := EntriesStash(sha, stash, entries, fault);
            var response := BundlesResponse(sha, bounds, after, Request(Some(prints), None), faults, true);
            && response.Body? && response.value.Archive? && |response.value.entries| == |Regular(entries)|
            && (response.value.entries == Regular(entries) <==> NoCollision(sha, Regular(entries)))
  {
    assert entries[..|entries|] == entries;
    var prints, after := Prints(sha, entries), Stashed(sha, Unbounded, stash, entries);
    PrintsComplete(sha, entries);
    NamedBack(sha, stash, entries, Regular(entries), prints, after);
    CleanResponse(sha, bounds, after, prints, faults);
  }

  // ---------------------------------------------------------------- runs

  /** What the handlers do to the stash, in any order; each with its own size bounds. */
  datatype Op =
    | Matches
    | Entries(entries: seq<ZipEntry>, fault: nat -> CopyFault)
    | Bundle(bounds: Bounds, inputs: seq<ZipEntry>, faults: Faults)

  function Apply(sha: Hasher, stash: Stash, op: Op): Stash {
    match op
    case Matches => stash
    case Entries(entries, fault) => EntriesStash(sha, stash, entries, fault)
    case Bundle(bounds, inputs, faults) => BundledStash(faults, bounds, sha, stash, inputs)
  }

  function Run(sha: Hasher, stash: Stash, ops: seq<Op>): Stash {
    if ops == [] then stash else Apply(sha, Run(sha, stash, ops[..|ops| - 1]), ops[|ops| - 1])
  }

  /** The blobs that a call offers to the stash, in order; which they are does not depend on the stash. */
  function Offering(bounds: Bounds, inputs: seq<ZipEntry>): seq<Bytes> {
    if inputs == [] then []
    else
      var last := inputs[|inputs| - 1];
      Offering(bounds, inputs[..|inputs| - 1]) +
      (if IsRegular(last.mode) && bounds.Admit(|last.bytes|) then [last.bytes] else [])
  }

  /** Single stores, each of a blob under its hash. */
  function PutAll(sha: Hasher, stash: Stash, blobs: seq<Bytes>): Stash {
    if blobs == [] then stash
    else
      var last := blobs[|blobs| - 1];
      PutAll(sha, stash, blobs[..|blobs| - 1])[sha(last) := last]
  }

  /** A call does to the stash what such stores do, one after the other. */
  lemma {:induction false} StashedIsPutAll(sha: Hasher, bounds: Bounds, stash: Stash, inputs: seq<ZipEntry>)
    ensures Stashed(sha, bounds, stash, inputs) == PutAll(sha, stash, Offering(bounds, inputs))
  {
    if inputs != [] {
      var front, last := inputs[..|inputs| - 1], inputs[|inputs| - 1];
      StashedIsPutAll(sha, bounds, stash, front);
      if IsRegular(last.mode) && bounds.Admit(|last.bytes|) {
        var blobs := Offering(bounds, inputs);
        assert blobs == Offering(bounds, front) + [last.bytes];
        assert blobs[..|blobs| - 1] == Offering(bounds, front);
      } else {
        assert Offering(bounds, inputs) == Offering(bounds, front);
      }
    }
  }

  lemma {:induction false} PutAllAddressed(sha: Hasher, stash: Stash, blobs: seq<Bytes>)
    requires ContentAddressed(sha, stash)
    ensures ContentAddressed(sha, PutAll(sha, stash, blobs))
  {
    if blobs != [] {
      PutAllAddressed(sha, stash, blobs[..|blobs| - 1]);
    }
  }

  /** So calls that overlap do too: whatever the order in which their stores reach the stash, at every
      moment it is content-addressed and nothing that was there before is missing. */
  lemma {:induction false} AnyOrderOnlyGrows(sha: Hasher, stash: Stash, blobs: seq<Bytes>, n: nat)
    requires n <= |blobs|
    ensures forall key :: key in PutAll(sha, stash, blobs[..n]) ==> key in PutAll(sha, stash, blobs)
    ensures ContentAddressed(sha, stash) ==> ContentAddressed(sha, PutAll(sha, stash, blobs[..n]))
  {
    if ContentAddressed(sha, stash) {
      PutAllAddressed(sha, stash, blobs[..n]);
    }
    if n == |blobs| {
      assert blobs[..n] == blobs;
    } else {
      var front := blobs[..|blobs| - 1];
      assert front[..n] == blobs[..n];
      AnyOrderOnlyGrows(sha, stash, front, n);
    }
  }

  /** Over any run the stash stays content-addressed and loses nothing. */
  lemma {:induction false} StashOnlyGrows(sha: Hasher, stash: Stash, ops: seq<Op>)
    ensures forall key :: key in stash ==> key in Run(sha, stash, ops)
    ensures ContentAddressed(sha, stash) ==> ContentAddressed(sha, Run(sha, stash, ops))
  {
    if ops != [] {
      var before := Run(sha, stash, ops[..|ops| - 1]);
      StashOnlyGrows(sha, stash, ops[..|ops| - 1]);
      match ops[|ops| - 1]
      case Matches =>
      case Entries(entries, fault) =>
        StashedExactly(sha, Unbounded, before, entries[..Stopped(entries, fault, 0)]);
      case Bundle(bounds, inputs, faults) =>
        StashedExactly(sha, bounds, before, inputs[..Reached(faults, bounds, inputs, 0)]);
    }
  }

  /** A fingerprint that a match has reported is never the one that a later bundle does not find. */
  lemma MatchedIsFound(sha: Hasher, stash: Stash, matchBounds: Bounds, asked: seq<Fingerprint>, p: Fingerprint,
                       ops: seq<Op>, bounds: Bounds, inputs: seq<ZipEntry>, prints: seq<Fingerprint>, faults: Faults)
    requires p in Matching(stash, matchBounds, asked)
    ensures BundleEnd(faults, bounds, sha, Run(sha, stash, ops), inputs, prints) != Gave(NotFound(p.sha1))
  {
    MatchingExactly(stash, matchBounds, asked);
    StashOnlyGrows(sha, stash, ops + [Bundle(bounds, inputs, faults)]);
    assert (ops + [Bundle(bounds, inputs, faults)])[..|ops|] == ops;
    if BundleEnd(faults, bounds, sha, Run(sha, stash, ops), inputs, prints) == Gave(NotFound(p.sha1)) {
      NotFoundNamesTheFirst(faults, bounds, sha, Run(sha, stash, ops), inputs, prints, p.sha1);
    }
  }

  /** If reading succeeds cleanly, a bundle of matched fingerprints alone succeeds with exactly the
      blobs that are stored for them. */
  lemma MatchedBundleSucceeds(sha: Hasher, stash: Stash, matchBounds: Bounds, asked: seq<Fingerprint>, ops: seq<Op>,
                              bounds: Bounds, prints: seq<Fingerprint>, faults: Faults)
    requires forall p :: p in prints ==> p in Matching(stash, matchBounds, asked)
    requires Cleanly(faults, prints)
    ensures var later := Run(sha, stash, ops);
            && BundleEnd(faults, bounds, sha, later, [], prints).Done?
            && Fetched(faults, BundledStash(faults, bounds, sha, later, []), prints, |prints|) ==
               Named(later, prints, |prints|)
  {
    var later := Run(sha, stash, ops);
    MatchingExactly(stash, matchBounds, asked);
    StashOnlyGrows(sha, stash, ops);
    assert forall j :: 0 <= j < |prints| ==> prints[j] in prints && prints[j].sha1 in later;
    CleanBundle(sha, bounds, later, prints, faults);
  }

  // ---------------------------------------------------------------- calls that overlap

  /** What attempts from `k` on fetch while other calls go on storing: attempt `k` reads `at(k)`. */
  function FetchOver(f: FetchFaults, at: nat -> Stash, key: Key, k: nat): Result<Bytes, BundleError>
    decreases f.retries - k
  {
    if !f.get(k).Unreachable? && key !in at(k) then Failure(NotFound(key))
    else if f.get(k).Smooth? then Success(at(k)[key])
    else if k >= f.retries then Failure(OtherError)
    else
      var rest := FetchOver(f, at, key, k + 1);
      if rest.Failure? then rest
      else Success((if key in at(k) then Part(f.get(k), at(k)[key]) else []) + rest.value)
  }

  function ReadsFor(at: (nat, nat) -> Stash, j: nat): nat -> Stash {
    (k: nat) => at(j, k)
  }

  /** The k-th attempt for the j-th fingerprint reads `at(j, k)`. */
  function OneOver(faults: Faults, at: (nat, nat) -> Stash, prints: seq<Fingerprint>, j: nat)
    : Result<Bytes, BundleError>
    requires j < |prints|
  {
    if faults.fetch(j).broken then Failure(OtherError)
    else FetchOver(faults.fetch(j), ReadsFor(at, j), prints[j].sha1, 0)
  }

  function FetchEndOver(faults: Faults, at: (nat, nat) -> Stash, prints: seq<Fingerprint>, j: nat): End
    requires j <= |prints|
    decreases |prints| - j
  {
    if j == |prints| then Done
    else if OneOver(faults, at, prints, j).Failure? then Gave(OneOver(faults, at, prints, j).error)
    else FetchEndOver(faults, at, prints, j + 1)
  }

  /** How a bundle ends that overlaps other calls. */
  function BundleEndOver(faults: Faults, bounds: Bounds, at: (nat, nat) -> Stash, inputs: seq<ZipEntry>,
                         prints: seq<Fingerprint>): End {
    if faults.noTemp then Gave(OtherError)
    else
      var end := CopyEnd(faults, bounds, inputs);
      if end.Done? then FetchEndOver(faults, at, prints, 0) else end
  }

  predicate SameBlob(a: Stash, b: Stash, key: Key) {
    (key in a <==> key in b) && (key in a ==> a[key] == b[key])
  }

  lemma {:induction false} FetchOverStill(f: FetchFaults, at: nat -> Stash, stash: Stash, key: Key, k: nat)
    requires forall i: nat :: SameBlob(at(i), stash, key)
    ensures FetchOver(f, at, key, k) == FetchFrom(f, stash, key, k)
    decreases f.retries - k
  {
    assert SameBlob(at(k), stash, key);
    if k < f.retries {
      FetchOverStill(f, at, stash, key, k + 1);
    }
  }

  /** If nobody changes the blobs that it asks for, a bundle that overlaps others fetches the same bytes
      and ends the same way as one that has the stash to itself. */
  lemma OverlapIsUnseen(faults: Faults, bounds: Bounds, sha: Hasher, stash: Stash, at: (nat, nat) -> Stash,
                        inputs: seq<ZipEntry>, prints: seq<Fingerprint>, after: Stash)
    requires after == AssembledStash(faults, bounds, sha, stash, inputs)
    requires forall j: nat, k: nat :: j < |prints| ==> SameBlob(at(j, k), after, prints[j].sha1)
    ensures forall j :: 0 <= j < |prints| ==>
                          OneOver(faults, at, prints, j) == Fetch(faults.fetch(j), after, prints[j].sha1)
    ensures BundleEndOver(faults, bounds, at, inputs, prints) == BundleEnd(faults, bounds, sha, stash, inputs, prints)
  {
    forall j | 0 <= j < |prints|
      ensures OneOver(faults, at, prints, j) == Fetch(faults.fetch(j), after, prints[j].sha1)
    {
      FetchOverStill(faults.fetch(j), ReadsFor(at, j), after, prints[j].sha1, 0);
    }
    SameFetchEnd(faults, at, after, prints, 0);
  }

  lemma {:induction false} SameFetchEnd(faults: Faults, at: (nat, nat) -> Stash, after: Stash,
                                        prints: seq<Fingerprint>, j: nat)
    requires j <= |prints|
    requires forall i :: 0 <= i < |prints| ==>
                           OneOver(faults, at, prints, i) == Fetch(faults.fetch(i), after, prints[i].sha1)
    ensures FetchEndOver(faults, at, prints, j) ==
            var r := FetchedUpTo(faults, after, prints, j);
            if r == |prints| then Done else Gave(Fetch(faults.fetch(r), after, prints[r].sha1).error)
    decreases |prints| - j
  {
    if j < |prints| {
      assert OneOver(faults, at, prints, j) == Fetch(faults.fetch(j), after, prints[j].sha1);
      SameFetchEnd(faults, at, after, prints, j + 1);
    }
  }

  lemma {:induction false} FetchOverFinds(f: FetchFaults, at: nat -> Stash, key: Key, k: nat)
    ensures FetchOver(f, at, key, k).Failure? && FetchOver(f, at, key, k).error.NotFound? ==>
              FetchOver(f, at, key, k).error.key == key && exists i: nat :: key !in at(i)
    ensures (forall i: nat :: key in at(i)) ==> (FetchOver(f, at, key, k).Success? <==> ReadsFrom(f, k))
    decreases f.retries - k
  {
    if k < f.retries {
      FetchOverFinds(f, at, key, k + 1);
    }
  }

  lemma {:induction false} OverNotFound(faults: Faults, at: (nat, nat) -> Stash, prints: seq<Fingerprint>, j: nat,
                                        key: Key)
    requires j <= |prints| && forall i: nat, k: nat :: key in at(i, k)
    ensures FetchEndOver(faults, at, prints, j) != Gave(NotFound(key))
    decreases |prints| - j
  {
    if j < |prints| {
      FetchOverFinds(faults.fetch(j), ReadsFor(at, j), prints[j].sha1, 0);
      OverNotFound(faults, at, prints, j + 1, key);
    }
  }

  lemma {:induction false} OverFound(faults: Faults, at: (nat, nat) -> Stash, prints: seq<Fingerprint>, j: nat)
    requires j <= |prints| && forall i: nat, k: nat :: i < |prints| ==> prints[i].sha1 in at(i, k)
    ensures FetchEndOver(faults, at, prints, j) == Done <==>
            forall i: nat :: j <= i < |prints| ==> Reads(faults.fetch(i))
    decreases |prints| - j
  {
    if j < |prints| {
      FetchOverFinds(faults.fetch(j), ReadsFor(at, j), prints[j].sha1, 0);
      OverFound(faults, at, prints, j + 1);
    }
  }

  /** The stash when the first `t` stores of all calls together have reached it. */
  function AtTime(sha: Hasher, stash: Stash, blobs: seq<Bytes>, t: nat): Stash {
    PutAll(sha, stash, if t <= |blobs| then blobs[..t] else blobs)
  }

  lemma LaterHasMore(sha: Hasher, stash: Stash, blobs: seq<Bytes>, t: nat, u: nat, key: Key)
    requires t <= u && key in AtTime(sha, stash, blobs, t)
    ensures key in AtTime(sha, stash, blobs, u)
  {
    var upTo := if u <= |blobs| then blobs[..u] else blobs;
    if t <= |upTo| {
      assert upTo[..t] == if t <= |blobs| then blobs[..t] else blobs;
      AnyOrderOnlyGrows(sha, stash, upTo, t);
    }
  }

  /** A bundle that starts after a match has been answered, at time `seen`, while any other calls store
      what they like: whenever its attempts read, a matched fingerprint is never the one that is not
      found, and if it asks only for matched ones it fails only over entries and reads. */
  lemma MatchedIsFoundMeanwhile(sha: Hasher, stash: Stash, blobs: seq<Bytes>, seen: nat, when: (nat, nat) -> nat,
                                matchBounds: Bounds, asked: seq<Fingerprint>, bounds: Bounds, inputs: seq<ZipEntry>,
                                prints: seq<Fingerprint>, faults: Faults)
    requires forall j: nat, k: nat :: seen <= when(j, k)
    ensures var at := (j: nat, k: nat) => AtTime(sha, stash, blobs, when(j, k));
            var matched := Matching(AtTime(sha, stash, blobs, seen), matchBounds, asked);
            && (forall p :: p in matched ==>
                              BundleEndOver(faults, bounds, at, inputs, prints) != Gave(NotFound(p.sha1)))
            && ((forall p :: p in prints ==> p in matched) ==>
                  (BundleEndOver(faults, bounds, at, inputs, prints) == Done <==>
                   && !faults.noTemp
                   && (forall i :: 0 <= i < |inputs| ==> Passes(faults, bounds, inputs, i))
                   && (forall j: nat :: j < |prints| ==> Reads(faults.fetch(j)))))
  {
    var at := (j: nat, k: nat) => AtTime(sha, stash, blobs, when(j, k));
    var matched := Matching(AtTime(sha, stash, blobs, seen), matchBounds, asked);
    forall p, j: nat, k: nat | p in matched
      ensures p.sha1 in at(j, k)
    {
      MatchingExactly(AtTime(sha, stash, blobs, seen), matchBounds, asked);
      LaterHasMore(sha, stash, blobs, seen, when(j, k), p.sha1);
    }
    forall p | p in matched
      ensures BundleEndOver(faults, bounds, at, inputs, prints) != Gave(NotFound(p.sha1))
    {
      OverNotFound(faults, at, prints, 0, p.sha1);
      CopyNeverMisses(faults, bounds, inputs);
    }
    CopiesExactly(faults, bounds, inputs);
    if forall p :: p in prints ==> p in matched {
      forall i: nat, k: nat | i < |prints|
        ensures prints[i].sha1 in at(i, k)
      {
        assert prints[i] in prints;
      }
      OverFound(faults, at, prints, 0);
    }
  }
}
