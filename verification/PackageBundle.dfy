/**
 `CreateTempZipFileFrom`: the regular files of an uploaded archive, which also go into the app stash,
 followed by the files that fingerprints name, which come out of it.
 */
module PackageBundles {
  import opened Wrappers
  import opened Bits
  import opened FileModes

  datatype ZipEntry = ZipEntry(name: string, mode: FileMode, bytes: Bytes)

  datatype Fingerprint = Fingerprint(fn: string, sha1: Key, size: nat, mode: string)

  type Stash = map<Key, Bytes>

  /** The hexadecimal SHA-1: any function. */
  type Hasher = Bytes -> Key

  /** The sizes that are stashed. */
  datatype Bounds = Bounds(min: nat, max: nat) | Unbounded {
    predicate Admit(size: nat) {
      Unbounded? || min <= size <= max
    }
  }

  datatype BundleError = NotFound(key: Key) | NoSpaceLeft | OtherError

  // ---------------------------------------------------------------- what can go wrong

  /** One attempt to store an entry, and one to read a blob: `CutShort` fails after so many bytes. */
  datatype PutFault = Fine | NotReopened | Full | PutFailed
  datatype GetFault = Smooth | Unreachable | CutShort(after: nat)

  /** `broken`: no header, or the entry cannot be read or buffered; `retries`: how many the policy
      has time for.  `torn`: the zip writer cannot finish the file when it is closed. */
  datatype EntryFaults = EntryFaults(broken: bool, put: nat -> PutFault, retries: nat)
  datatype FetchFaults = FetchFaults(broken: bool, get: nat -> GetFault, retries: nat)
  datatype Faults = Faults(noTemp: bool, entry: nat -> EntryFaults, fetch: nat -> FetchFaults, torn: bool)

  // ---------------------------------------------------------------- one entry into the stash

  datatype End = Done | Gave(error: BundleError) | Crash {
    /** Is a fingerprint reported missing? */
    predicate Misses() {
      Gave? && error.NotFound?
    }
  }

  /** Attempts from `k` on.  When the buffer cannot be opened again and there is time to retry, the
      retry asks a nil file for its name. */
  function PutFrom(f: EntryFaults, wanted: bool, k: nat): End
    decreases f.retries - k
  {
    if f.put(k).NotReopened? then (if k < f.retries then Crash else Gave(OtherError))
    else if !wanted || f.put(k).Fine? then Done
    else if f.put(k).Full? then Gave(NoSpaceLeft)
    else if k < f.retries then PutFrom(f, wanted, k + 1)
    else Gave(OtherError)
  }

  /** Exactly then. */
  lemma {:induction false} CrashExact(f: EntryFaults, wanted: bool, k: nat)
    ensures PutFrom(f, wanted, k) == Crash <==>
            exists n: nat :: k <= n < f.retries && f.put(n).NotReopened? &&
                             forall i: nat :: k <= i < n ==> wanted && f.put(i).PutFailed?
    decreases f.retries - k
  {
    if wanted && f.put(k).PutFailed? && k < f.retries {
      CrashExact(f, wanted, k + 1);
      if PutFrom(f, wanted, k + 1) == Crash {
        var n: nat :| k + 1 <= n < f.retries && f.put(n).NotReopened? &&
                      forall i: nat :: k + 1 <= i < n ==> wanted && f.put(i).PutFailed?;
        assert forall i: nat :: k <= i < n ==> wanted && f.put(i).PutFailed?;
      }
    } else if f.put(k).NotReopened? && k < f.retries {
      assert forall i: nat :: k <= i < k ==> wanted && f.put(i).PutFailed?;
    }
  }

  /** Has every attempt before the `n`-th failed to store, with time to retry? */
  ghost predicate Retried(f: EntryFaults, wanted: bool, k: nat, n: nat) {
    k <= n && (n == k || n <= f.retries) && forall i: nat :: k <= i < n ==> wanted && f.put(i).PutFailed?
  }

  lemma RetriedLater(f: EntryFaults, wanted: bool, k: nat)
    requires wanted && f.put(k).PutFailed? && k < f.retries
    ensures forall n: nat :: Retried(f, wanted, k, n) <==> n == k || Retried(f, wanted, k + 1, n)
  {
    forall n: nat
      ensures Retried(f, wanted, k, n) <==> n == k || Retried(f, wanted, k + 1, n)
    {
      if Retried(f, wanted, k + 1, n) {
        assert forall i: nat :: k <= i < n ==> wanted && f.put(i).PutFailed?;
      }
    }
  }

  /** The entry goes through exactly if some attempt reopens the buffer and stores it, or need not
      store it; the store is reported full exactly if some attempt finds it so; all earlier attempts
      having failed to store. */
  lemma {:induction false} PutExact(f: EntryFaults, wanted: bool, k: nat)
    ensures PutFrom(f, wanted, k) == Done <==>
            exists n: nat :: Retried(f, wanted, k, n) && !f.put(n).NotReopened? && (wanted ==> f.put(n).Fine?)
    ensures PutFrom(f, wanted, k) == Gave(NoSpaceLeft) <==>
            exists n: nat :: Retried(f, wanted, k, n) && wanted && f.put(n).Full?
    decreases f.retries - k
  {
    assert Retried(f, wanted, k, k);
    if wanted && f.put(k).PutFailed? && k < f.retries {
      RetriedLater(f, wanted, k);
      PutExact(f, wanted, k + 1);
    } else {
      assert forall n: nat :: Retried(f, wanted, k, n) ==> n == k by {
        forall n: nat | Retried(f, wanted, k, n)
          ensures n == k
        {
          assert k < n ==> f.put(k).PutFailed? && wanted;
        }
      }
    }
  }

  /** Can the entry be read and buffered, and does some attempt end the retries well? */
  ghost predicate GoesThrough(f: EntryFaults, wanted: bool) {
    && !f.broken
    && exists n: nat :: Retried(f, wanted, 0, n) && !f.put(n).NotReopened? && (wanted ==> f.put(n).Fine?)
  }

  ghost predicate FindsFull(f: EntryFaults, wanted: bool) {
    !f.broken && wanted && exists n: nat :: Retried(f, wanted, 0, n) && f.put(n).Full?
  }

  function EntryEnd(f: EntryFaults, wanted: bool): End {
    if f.broken then Gave(OtherError) else PutFrom(f, wanted, 0)
  }

  // ---------------------------------------------------------------- one blob out of it

  function Part(fault: GetFault, blob: Bytes): Bytes {
    if fault.CutShort? then blob[..if fault.after < |blob| then fault.after else |blob|] else []
  }

  /** What attempts from `k` on write into the zip entry: a retry writes after what is there. */
  function FetchFrom(f: FetchFaults, stash: Stash, key: Key, k: nat): Result<Bytes, BundleError>
    decreases f.retries - k
  {
    if !f.get(k).Unreachable? && key !in stash then Failure(NotFound(key))
    else if f.get(k).Smooth? then Success(stash[key])
    else if k >= f.retries then Failure(OtherError)
    else
      var rest := FetchFrom(f, stash, key, k + 1);
      if rest.Failure? then rest
      else Success((if key in stash then Part(f.get(k), stash[key]) else []) + rest.value)
  }

  function Fetch(f: FetchFaults, stash: Stash, key: Key): Result<Bytes, BundleError> {
    if f.broken then Failure(OtherError) else FetchFrom(f, stash, key, 0)
  }

  /** Does the attempt that ends the retries come before any other has copied a byte? */
  predicate CleanFrom(f: FetchFaults, k: nat)
    decreases f.retries - k
  {
    f.get(k).Smooth? || k >= f.retries || ((f.get(k).CutShort? ==> f.get(k).after == 0) && CleanFrom(f, k + 1))
  }

  /** Does an attempt from `k` on read smoothly before the policy gives up? */
  predicate ReadsFrom(f: FetchFaults, k: nat)
    decreases f.retries - k
  {
    f.get(k).Smooth? || (k < f.retries && ReadsFrom(f, k + 1))
  }

  predicate Reads(f: FetchFaults) {
    !f.broken && ReadsFrom(f, 0)
  }

  /** Then a blob that is there is fetched, and one that is not is reported. */
  lemma {:induction false} ReadsSucceed(f: FetchFaults, stash: Stash, key: Key, k: nat)
    requires ReadsFrom(f, k)
    ensures if key in stash then FetchFrom(f, stash, key, k).Success?
            else FetchFrom(f, stash, key, k) == Failure(NotFound(key))
    decreases f.retries - k
  {
    if !f.get(k).Smooth? {
      ReadsSucceed(f, stash, key, k + 1);
    }
  }

  /** Being there and being read smoothly once is what it takes. */
  lemma {:induction false} FetchExact(f: FetchFaults, stash: Stash, key: Key, k: nat)
    ensures FetchFrom(f, stash, key, k).Success? <==> key in stash && ReadsFrom(f, k)
    decreases f.retries - k
  {
    if !f.get(k).Smooth? && k < f.retries {
      FetchExact(f, stash, key, k + 1);
    }
  }

  lemma {:induction false} ReadsExact(f: FetchFaults, k: nat)
    ensures ReadsFrom(f, k) <==> exists n: nat :: k <= n && (n == k || n <= f.retries) && f.get(n).Smooth?
    decreases f.retries - k
  {
    if f.get(k).Smooth? {
      assert k <= k && (k == k || k <= f.retries) && f.get(k).Smooth?;
    } else if k < f.retries {
      ReadsExact(f, k + 1);
    }
  }

  lemma Appending(part: Bytes, rest: Bytes, blob: Bytes)
    requires |rest| >= |blob| && rest[|rest| - |blob|..] == blob
    ensures (part + rest)[|part + rest| - |blob|..] == blob
    ensures part + rest == blob <==> part == [] && rest == blob
  {
    assert (part + rest)[|part + rest| - |blob|..] == rest[|rest| - |blob|..];
    assert part == [] ==> part + rest == rest;
    assert part != [] ==> |part + rest| > |blob|;
  }

  /** A fetched entry ends with the blob, and it is the blob exactly when no failed attempt copied
      any of its bytes. */
  lemma {:induction false} FetchedIsBlob(f: FetchFaults, stash: Stash, key: Key, k: nat)
    requires FetchFrom(f, stash, key, k).Success?
    ensures key in stash
    ensures var bytes, blob := FetchFrom(f, stash, key, k).value, stash[key];
            && |bytes| >= |blob| && bytes[|bytes| - |blob|..] == blob
            && (bytes == blob <==> blob == [] || CleanFrom(f, k))
    decreases f.retries - k
  {
    if !f.get(k).Smooth? {
      FetchedIsBlob(f, stash, key, k + 1);
      var part, rest := Part(f.get(k), stash[key]), FetchFrom(f, stash, key, k + 1).value;
      Appending(part, rest, stash[key]);
    }
  }

  // ---------------------------------------------------------------- all of them

  function Regular(inputs: seq<ZipEntry>): seq<ZipEntry> {
    if inputs == [] then []
    else
      var last := inputs[|inputs| - 1];
      Regular(inputs[..|inputs| - 1]) + (if IsRegular(last.mode) then [last] else [])
  }

  function StashOne(sha: Hasher, bounds: Bounds, stash: Stash, e: ZipEntry): Stash {
    if IsRegular(e.mode) && bounds.Admit(|e.bytes|) then stash[sha(e.bytes) := e.bytes] else stash
  }

  function Stashed(sha: Hasher, bounds: Bounds, stash: Stash, inputs: seq<ZipEntry>): Stash {
    if inputs == [] then stash
    else StashOne(sha, bounds, Stashed(sha, bounds, stash, inputs[..|inputs| - 1]), inputs[|inputs| - 1])
  }

  function OneEnd(faults: Faults, bounds: Bounds, inputs: seq<ZipEntry>, i: nat): End
    requires i < |inputs|
  {
    if IsRegular(inputs[i].mode) then EntryEnd(faults.entry(i), bounds.Admit(|inputs[i].bytes|)) else Done
  }

  /** The first entry from `i` on that does not go through, or else the number of entries. */
  function Reached(faults: Faults, bounds: Bounds, inputs: seq<ZipEntry>, i: nat): (r: nat)
    requires i <= |inputs|
    ensures i <= r <= |inputs|
    decreases |inputs| - i
  {
    if i == |inputs| || !OneEnd(faults, bounds, inputs, i).Done? then i else Reached(faults, bounds, inputs, i + 1)
  }

  function CopyEnd(faults: Faults, bounds: Bounds, inputs: seq<ZipEntry>): End {
    var r := Reached(faults, bounds, inputs, 0);
    if r == |inputs| then Done else OneEnd(faults, bounds, inputs, r)
  }

  /** The first fingerprint from `j` on that cannot be fetched. */
  function FetchedUpTo(faults: Faults, stash: Stash, prints: seq<Fingerprint>, j: nat): (r: nat)
    requires j <= |prints|
    ensures j <= r <= |prints|
    ensures r < |prints| ==> Fetch(faults.fetch(r), stash, prints[r].sha1).Failure?
    decreases |prints| - j
  {
    if j == |prints| || Fetch(faults.fetch(j), stash, prints[j].sha1).Failure? then j
    else FetchedUpTo(faults, stash, prints, j + 1)
  }

  function FetchEnd(faults: Faults, stash: Stash, prints: seq<Fingerprint>): End {
    var r := FetchedUpTo(faults, stash, prints, 0);
    if r == |prints| then Done else Gave(Fetch(faults.fetch(r), stash, prints[r].sha1).error)
  }

  lemma {:induction false} AllBeforeFetched(faults: Faults, stash: Stash, prints: seq<Fingerprint>, j: nat)
    requires j <= |prints|
    ensures forall i :: j <= i < FetchedUpTo(faults, stash, prints, j) ==>
                          Fetch(faults.fetch(i), stash, prints[i].sha1).Success?
    decreases |prints| - j
  {
    if j < |prints| && Fetch(faults.fetch(j), stash, prints[j].sha1).Success? {
      AllBeforeFetched(faults, stash, prints, j + 1);
    }
  }

  /** What is written for one fingerprint. */
  function FetchOne(f: FetchFaults, stash: Stash, fingerprint: Fingerprint): ZipEntry {
    var bytes := Fetch(f, stash, fingerprint.sha1);
    ZipEntry(fingerprint.fn, FileModeFrom(fingerprint.mode), if bytes.Success? then bytes.value else [])
  }

  /** And for the first `n`. */
  function Fetched(faults: Faults, stash: Stash, prints: seq<Fingerprint>, n: nat): (r: seq<ZipEntry>)
    requires n <= |prints|
    ensures |r| == n
  {
    if n == 0 then [] else Fetched(faults, stash, prints, n - 1) + [FetchOne(faults.fetch(n - 1), stash, prints[n - 1])]
  }

  // ---------------------------------------------------------------- the method

  /** `Torn`: no archive, because the zip writer could not finish it. */
  datatype TempFile = Archive(entries: seq<ZipEntry>) | Torn | Buffer(bytes: Bytes)

  datatype Bundling = Bundled(name: nat) | Failed(error: BundleError) | Crashed {
    function Outcome(): End {
      match this
      case Bundled(_) => Done
      case Failed(error) => Gave(error)
      case Crashed => Crash
    }
  }

  /** The finished bundle (nobody looks at the error of finishing it), fetched from the stash as it is after
      the archive has been copied. */
  function BundleFile(faults: Faults, stash: Stash, inputs: seq<ZipEntry>, prints: seq<Fingerprint>): TempFile {
    if faults.torn then Torn else Archive(Regular(inputs) + Fetched(faults, stash, prints, |prints|))
  }

  /** The app stash and the directory of temporary files. */
  class Workspace {
    const sha: Hasher
    var stash: Stash
    var temps: map<nat, TempFile>

    constructor (sha: Hasher)
      ensures this.sha == sha && stash == map[] && temps == map[]
    {
      this.sha := sha;
      stash, temps := map[], map[];
    }

    /** `ioutil.TempFile` */
    method NewTemp(content: TempFile) returns (name: nat)
      modifies this`temps
      ensures name !in old(temps) && temps == old(temps)[name := content]
    {
      name := |temps|;
      if name in temps {
        UnusedName(temps.Keys);
        name :| name !in temps;
      }
      temps := temps[name := content];
    }

    /** The retries around `blobstore.Put` for a buffered entry. */
    method PutEntry(bytes: Bytes, bounds: Bounds, f: EntryFaults) returns (end: End)
      modifies this`stash
      ensures end == PutFrom(f, bounds.Admit(|bytes|), 0)
      ensures stash == if end.Done? && bounds.Admit(|bytes|) then old(stash)[sha(bytes) := bytes] else old(stash)
    {
      var k := 0;
      while true
        invariant PutFrom(f, bounds.Admit(|bytes|), k) == PutFrom(f, bounds.Admit(|bytes|), 0)
        invariant stash == old(stash)
        decreases f.retries - k
      {
        if f.put(k).NotReopened? {
          return if k < f.retries then Crash else Gave(OtherError);
        }
        if !bounds.Admit(|bytes|) {
          return Done;
        }
        match f.put(k) {
          case Fine =>
            stash := stash[sha(bytes) := bytes];
            return Done;
          case Full =>
            return Gave(NoSpaceLeft);
          case _ =>
            if k >= f.retries {
              return Gave(OtherError);
            }
        }
        k := k + 1;
      }
    }

    /** One regular entry: buffered, written to the zip and offered to the stash. */
    method CopyEntry(e: ZipEntry, bounds: Bounds, f: EntryFaults) returns (end: End)
      requires IsRegular(e.mode)
      modifies this
      ensures end == EntryEnd(f, bounds.Admit(|e.bytes|))
      ensures stash == if end.Done? then StashOne(sha, bounds, old(stash), e) else old(stash)
      ensures temps == old(temps)
    {
      if f.broken {
        return Gave(OtherError);
      }
      var buffer := NewTemp(Buffer(e.bytes));
      end := PutEntry(e.bytes, bounds, f);
      temps := temps - {buffer};
    }

    /** The loop over the archive; `written` is what the zip writer has been given. */
    method CopyInputs(inputs: seq<ZipEntry>, bounds: Bounds, faults: Faults) returns (end: End, written: seq<ZipEntry>)
      modifies this
      ensures end == CopyEnd(faults, bounds, inputs)
      ensures stash == Stashed(sha, bounds, old(stash), inputs[..Reached(faults, bounds, inputs, 0)])
      ensures temps == old(temps)
      ensures end.Done? ==> written == Regular(inputs)
    {
      hide EntryEnd, IsRegular;
      written := [];
      for i := 0 to |inputs|
        invariant Reached(faults, bounds, inputs, i) == Reached(faults, bounds, inputs, 0)
        invariant stash == Stashed(sha, bounds, old(stash), inputs[..i])
        invariant temps == old(temps) && written == Regular(inputs[..i])
      {
        assert inputs[..i + 1][..i] == inputs[..i];
        if !IsRegular(inputs[i].mode) {
          continue;
        }
        end := CopyEntry(inputs[i], bounds, faults.entry(i));
        if !end.Done? {
          return;
        }
        written := written + [inputs[i]];
      }
      assert inputs[..|inputs|] == inputs;
      end := Done;
    }

    /** The retries around `blobstore.Get` for one fingerprint. */
    method FetchEntry(key: Key, f: FetchFaults) returns (r: Result<Bytes, BundleError>)
      requires !f.broken
      ensures r == FetchFrom(f, stash, key, 0)
    {
      var written: Bytes := [];
      var k := 0;
      ghost var all := FetchFrom(f, stash, key, 0);
      assert all.Success? ==> written + all.value == all.value;
      while true
        invariant FetchFrom(f, stash, key, 0) ==
                  var rest := FetchFrom(f, stash, key, k);
                  if rest.Failure? then rest else Success(written + rest.value)
        decreases f.retries - k
      {
        if !f.get(k).Unreachable? {
          if key !in stash {
            return Failure(NotFound(key));
          }
          if f.get(k).Smooth? {
            return Success(written + stash[key]);
          }
        }
        if k >= f.retries {
          return Failure(OtherError);
        }
        var part := if key in stash then Part(f.get(k), stash[key]) else [];
        ghost var rest := FetchFrom(f, stash, key, k + 1);
        assert rest.Success? ==> written + (part + rest.value) == (written + part) + rest.value;
        written := written + part;
        k := k + 1;
      }
    }

    /** The loop over the fingerprints. */
    method FetchAll(prints: seq<Fingerprint>, faults: Faults) returns (end: End, written: seq<ZipEntry>)
      ensures end == FetchEnd(faults, stash, prints)
      ensures end.Done? ==> written == Fetched(faults, stash, prints, |prints|)
    {
      written := [];
      for j := 0 to |prints|
        invariant FetchedUpTo(faults, stash, prints, j) == FetchedUpTo(faults, stash, prints, 0)
        invariant written == Fetched(faults, stash, prints, j)
      {
        if faults.fetch(j).broken {
          return Gave(OtherError), [];
        }
        var bytes := FetchEntry(prints[j].sha1, faults.fetch(j));
        if bytes.Failure? {
          return Gave(bytes.error), [];
        }
        written := written + [ZipEntry(prints[j].fn, FileModeFrom(prints[j].mode), bytes.value)];
      }
      end := Done;
    }

    /** What is written to the zip, once there is a file for it. */
    method Assemble(prints: seq<Fingerprint>, zipReader: Option<seq<ZipEntry>>, bounds: Bounds, faults: Faults)
      returns (end: End, written: seq<ZipEntry>)
      modifies this
      ensures end == AssembledEnd(faults, bounds, sha, old(stash), InputsOf(zipReader), prints)
      ensures stash == AssembledStash(faults, bounds, sha, old(stash), InputsOf(zipReader))
      ensures temps == old(temps)
      ensures end.Done? ==> written == Regular(InputsOf(zipReader)) + Fetched(faults, stash, prints, |prints|)
    {
      var copied: seq<ZipEntry> := [];
      if zipReader.Some? {
        end, copied := CopyInputs(zipReader.value, bounds, faults);
        if !end.Done? {
          return end, [];
        }
      }
      end, written := FetchAll(prints, faults);
      written := copied + written;
    }

    /** On success one new temporary file holds the archive; on an error there is none; only a crash
        leaves one behind.  The stash has gained the entries that went through. */
    method CreateTempZipFileFrom(prints: seq<Fingerprint>, zipReader: Option<seq<ZipEntry>>, bounds: Bounds,
                                 faults: Faults)
      returns (result: Bundling)
      modifies this
      ensures result.Outcome() == BundleEnd(faults, bounds, sha, old(stash), InputsOf(zipReader), prints)
      ensures stash == BundledStash(faults, bounds, sha, old(stash), InputsOf(zipReader))
      ensures result.Bundled? ==>
                && result.name !in old(temps)
                && temps == old(temps)[result.name := BundleFile(faults, stash, InputsOf(zipReader), prints)]
      ensures result.Failed? ==> temps == old(temps)
      ensures result.Crashed? ==> exists name: nat :: name !in old(temps) && temps == old(temps)[name := Archive([])]
    {
      hide AssembledEnd, AssembledStash, Regular, Fetched;
      if faults.noTemp {
        return Failed(OtherError);
      }
      var zip := NewTemp(Archive([]));
      var end, written := Assemble(prints, zipReader, bounds, faults);
      match end {
        case Crash => return Crashed;
        case Gave(error) =>
          temps := temps - {zip};
          return Failed(error);
        case Done =>
          temps := temps[zip := if faults.torn then Torn else Archive(written)];
          return Bundled(zip);
      }
    }
  }

  function InputsOf(zipReader: Option<seq<ZipEntry>>): seq<ZipEntry> {
    if zipReader.Some? then zipReader.value else []
  }

  function AssembledStash(faults: Faults, bounds: Bounds, sha: Hasher, stash: Stash, inputs: seq<ZipEntry>): Stash {
    Stashed(sha, bounds, stash, inputs[..Reached(faults, bounds, inputs, 0)])
  }

  function AssembledEnd(faults: Faults, bounds: Bounds, sha: Hasher, stash: Stash, inputs: seq<ZipEntry>,
                        prints: seq<Fingerprint>): End {
    var end := CopyEnd(faults, bounds, inputs);
    if end.Done? then FetchEnd(faults, AssembledStash(faults, bounds, sha, stash, inputs), prints) else end
  }

  /** The stash after a call, whatever its result. */
  function BundledStash(faults: Faults, bounds: Bounds, sha: Hasher, stash: Stash, inputs: seq<ZipEntry>): Stash {
    if faults.noTemp then stash else AssembledStash(faults, bounds, sha, stash, inputs)
  }

  function BundleEnd(faults: Faults, bounds: Bounds, sha: Hasher, stash: Stash, inputs: seq<ZipEntry>,
                     prints: seq<Fingerprint>): End {
    if faults.noTemp then Gave(OtherError) else AssembledEnd(faults, bounds, sha, stash, inputs, prints)
  }

  lemma {:induction false} UnusedName(names: set<nat>)
    ensures exists n: nat :: n !in names && forall m :: m in names ==> m < n
    decreases names
  {
    if names == {} {
      assert 0 !in names;
    } else {
      var m: nat :| m in names;
      UnusedName(names - {m});
      var n: nat :| n !in names - {m} && forall k :: k in names - {m} ==> k < n;
      var larger := if n > m then n else m + 1;
      forall k | k in names
        ensures k < larger
      {
        assert k == m || k in names - {m};
      }
      assert larger !in names;
    }
  }

  // ---------------------------------------------------------------- what a call means

  lemma {:induction false} ReachedExact(faults: Faults, bounds: Bounds, inputs: seq<ZipEntry>, i: nat)
    requires i <= |inputs|
    ensures var r := Reached(faults, bounds, inputs, i);
            && (forall k :: i <= k < r ==> OneEnd(faults, bounds, inputs, k).Done?)
            && (r < |inputs| ==> !OneEnd(faults, bounds, inputs, r).Done?)
    decreases |inputs| - i
  {
    if i < |inputs| && OneEnd(faults, bounds, inputs, i).Done? {
      ReachedExact(faults, bounds, inputs, i + 1);
    }
  }

  /** Does regular entry `i` go through; does it find the store full? */
  ghost predicate Passes(faults: Faults, bounds: Bounds, inputs: seq<ZipEntry>, i: nat)
    requires i < |inputs|
  {
    IsRegular(inputs[i].mode) ==> GoesThrough(faults.entry(i), bounds.Admit(|inputs[i].bytes|))
  }

  ghost predicate Overfills(faults: Faults, bounds: Bounds, inputs: seq<ZipEntry>, i: nat)
    requires i < |inputs|
  {
    IsRegular(inputs[i].mode) && FindsFull(faults.entry(i), bounds.Admit(|inputs[i].bytes|))
  }

  lemma OneExact(faults: Faults, bounds: Bounds, inputs: seq<ZipEntry>, i: nat)
    requires i < |inputs|
    ensures OneEnd(faults, bounds, inputs, i) == Done <==> Passes(faults, bounds, inputs, i)
    ensures OneEnd(faults, bounds, inputs, i) == Gave(NoSpaceLeft) <==> Overfills(faults, bounds, inputs, i)
  {
    if IsRegular(inputs[i].mode) {
      PutExact(faults.entry(i), bounds.Admit(|inputs[i].bytes|), 0);
    }
  }

  /** The archive is copied to its end exactly when every regular entry goes through. */
  lemma CopiesExactly(faults: Faults, bounds: Bounds, inputs: seq<ZipEntry>)
    ensures CopyEnd(faults, bounds, inputs) == Done <==>
            forall i :: 0 <= i < |inputs| ==> Passes(faults, bounds, inputs, i)
  {
    ReachedExact(faults, bounds, inputs, 0);
    forall i | 0 <= i < |inputs|
      ensures OneEnd(faults, bounds, inputs, i).Done? <==> Passes(faults, bounds, inputs, i)
    {
      OneExact(faults, bounds, inputs, i);
    }
  }

  lemma CopyNeverMisses(faults: Faults, bounds: Bounds, inputs: seq<ZipEntry>)
    ensures CopyEnd(faults, bounds, inputs).Gave? ==> !CopyEnd(faults, bounds, inputs).error.NotFound?
  {
    var r := Reached(faults, bounds, inputs, 0);
    if r < |inputs| && IsRegular(inputs[r].mode) {
      PutErrors(faults.entry(r), bounds.Admit(|inputs[r].bytes|), 0);
    }
  }

  /** A call succeeds exactly when there is room for the temporary file, every regular entry goes
      through, and every fingerprint is in the stash as the archive has left it and is read smoothly
      once. */
  lemma SucceedsExactly(faults: Faults, bounds: Bounds, sha: Hasher, stash: Stash, inputs: seq<ZipEntry>,
                        prints: seq<Fingerprint>)
    ensures BundleEnd(faults, bounds, sha, stash, inputs, prints).Done? <==>
            && !faults.noTemp
            && (forall i :: 0 <= i < |inputs| ==> Passes(faults, bounds, inputs, i))
            && (forall j :: 0 <= j < |prints| ==>
                              prints[j].sha1 in Stashed(sha, bounds, stash, inputs) && Reads(faults.fetch(j)))
  {
    CopiesExactly(faults, bounds, inputs);
    ReachedExact(faults, bounds, inputs, 0);
    assert inputs[..|inputs|] == inputs;
    var after := Stashed(sha, bounds, stash, inputs);
    AllBeforeFetched(faults, after, prints, 0);
    forall j | 0 <= j < |prints|
      ensures Fetch(faults.fetch(j), after, prints[j].sha1).Success? <==>
              prints[j].sha1 in after && Reads(faults.fetch(j))
    {
      FetchExact(faults.fetch(j), after, prints[j].sha1, 0);
    }
  }

  /** And it reports a full store exactly when some entry finds it full and all before it go through. */
  lemma FullExactly(faults: Faults, bounds: Bounds, sha: Hasher, stash: Stash, inputs: seq<ZipEntry>,
                    prints: seq<Fingerprint>)
    ensures BundleEnd(faults, bounds, sha, stash, inputs, prints) == Gave(NoSpaceLeft) <==>
            && !faults.noTemp
            && exists r :: && 0 <= r < |inputs| && Overfills(faults, bounds, inputs, r)
                           && forall i :: 0 <= i < r ==> Passes(faults, bounds, inputs, i)
  {
    var r := Reached(faults, bounds, inputs, 0);
    ReachedExact(faults, bounds, inputs, 0);
    forall i | 0 <= i < |inputs|
      ensures OneEnd(faults, bounds, inputs, i).Done? <==> Passes(faults, bounds, inputs, i)
      ensures OneEnd(faults, bounds, inputs, i) == Gave(NoSpaceLeft) <==> Overfills(faults, bounds, inputs, i)
    {
      OneExact(faults, bounds, inputs, i);
    }
    if r == |inputs| {
      var after := AssembledStash(faults, bounds, sha, stash, inputs);
      var j := FetchedUpTo(faults, after, prints, 0);
      if j < |prints| {
        FetchNeverFull(faults.fetch(j), after, prints[j].sha1, 0);
      }
    }
  }

  lemma {:induction false} FetchNeverFull(f: FetchFaults, stash: Stash, key: Key, k: nat)
    ensures FetchFrom(f, stash, key, k).Failure? ==> FetchFrom(f, stash, key, k).error != NoSpaceLeft
    decreases f.retries - k
  {
    if k < f.retries {
      FetchNeverFull(f, stash, key, k + 1);
    }
  }

  /** What a fingerprint names. */
  function NameOne(stash: Stash, fingerprint: Fingerprint): ZipEntry {
    ZipEntry(fingerprint.fn, FileModeFrom(fingerprint.mode),
             if fingerprint.sha1 in stash then stash[fingerprint.sha1] else [])
  }

  /** What the first `n` name. */
  function Named(stash: Stash, prints: seq<Fingerprint>, n: nat): seq<ZipEntry>
    requires n <= |prints|
  {
    if n == 0 then [] else Named(stash, prints, n - 1) + [NameOne(stash, prints[n - 1])]
  }

  lemma {:induction false} NamedAt(stash: Stash, prints: seq<Fingerprint>, n: nat)
    requires n <= |prints|
    ensures |Named(stash, prints, n)| == n
    ensures forall i :: 0 <= i < n ==> Named(stash, prints, n)[i] == NameOne(stash, prints[i])
  {
    if n > 0 {
      NamedAt(stash, prints, n - 1);
    }
  }

  lemma {:induction false} FetchedAt(faults: Faults, stash: Stash, prints: seq<Fingerprint>, n: nat, i: nat)
    requires i < n <= |prints|
    ensures Fetched(faults, stash, prints, n)[i] == FetchOne(faults.fetch(i), stash, prints[i])
  {
    if i < n - 1 {
      FetchedAt(faults, stash, prints, n - 1, i);
    }
  }

  /** Fetched as it is stored: the blob is empty, or no failed attempt has copied a byte. */
  predicate Intact(f: FetchFaults, stash: Stash, key: Key) {
    key in stash && (stash[key] == [] || CleanFrom(f, 0))
  }

  lemma OneFetched(f: FetchFaults, stash: Stash, fingerprint: Fingerprint)
    requires Fetch(f, stash, fingerprint.sha1).Success?
    ensures FetchOne(f, stash, fingerprint) == NameOne(stash, fingerprint) <==> Intact(f, stash, fingerprint.sha1)
  {
    FetchedIsBlob(f, stash, fingerprint.sha1, 0);
  }

  /** The fetched entries are what the fingerprints name, in order, exactly when no failed attempt
      left bytes behind. */
  lemma FetchedExactly(faults: Faults, stash: Stash, prints: seq<Fingerprint>, n: nat)
    requires n <= |prints| && forall j :: 0 <= j < n ==> Fetch(faults.fetch(j), stash, prints[j].sha1).Success?
    ensures Fetched(faults, stash, prints, n) == Named(stash, prints, n) <==>
            forall j :: 0 <= j < n ==> Intact(faults.fetch(j), stash, prints[j].sha1)
  {
    NamedAt(stash, prints, n);
    var fetched, named := Fetched(faults, stash, prints, n), Named(stash, prints, n);
    forall j | 0 <= j < n
      ensures fetched[j] == named[j] <==> Intact(faults.fetch(j), stash, prints[j].sha1)
    {
      FetchedAt(faults, stash, prints, n, j);
      OneFetched(faults.fetch(j), stash, prints[j]);
    }
  }

  /** The regular entries of an archive, in order and one by one. */
  lemma {:induction false} RegularConcat(a: seq<ZipEntry>, b: seq<ZipEntry>)
    ensures Regular(a + b) == Regular(a) + Regular(b)
    decreases |b|
  {
    if b == [] {
      assert a + b == a;
    } else {
      assert (a + b)[..|a + b| - 1] == a + b[..|b| - 1];
      RegularConcat(a, b[..|b| - 1]);
    }
  }

  lemma RegularOne(e: ZipEntry)
    ensures Regular([e]) == if IsRegular(e.mode) then [e] else []
  {
    assert [e][..0] == [];
  }

  /** A finished bundle holds first the regular files of the archive and then what the fingerprints name, each in
      their order; a fetched file ends with its blob, and is it exactly if no failed attempt copied any of it. */
  lemma BundleInOrder(faults: Faults, bounds: Bounds, sha: Hasher, stash: Stash, inputs: seq<ZipEntry>,
                      prints: seq<Fingerprint>, j: nat)
    requires BundleEnd(faults, bounds, sha, stash, inputs, prints).Done? && !faults.torn && j < |prints|
    ensures var after := BundledStash(faults, bounds, sha, stash, inputs);
            var file, n := BundleFile(faults, after, inputs, prints), |Regular(inputs)|;
            && file.Archive? && |file.entries| == n + |prints| && file.entries[..n] == Regular(inputs)
            && prints[j].sha1 in after
            && var e, blob := file.entries[n + j], after[prints[j].sha1];
            && e.name == prints[j].fn && e.mode == FileModeFrom(prints[j].mode)
            && |e.bytes| >= |blob| && e.bytes[|e.bytes| - |blob|..] == blob
            && (e.bytes == blob <==> Intact(faults.fetch(j), after, prints[j].sha1))
  {
    hide BundleEnd, BundledStash, Regular, Fetched, FetchFrom, CleanFrom;
    var after := BundledStash(faults, bounds, sha, stash, inputs);
    DoneFetchesAll(faults, bounds, sha, stash, inputs, prints, j);
    FetchedAt(faults, after, prints, |prints|, j);
    FetchedIsBlob(faults.fetch(j), after, prints[j].sha1, 0);
    Second(Regular(inputs), Fetched(faults, after, prints, |prints|), j);
  }

  lemma Second(a: seq<ZipEntry>, b: seq<ZipEntry>, j: nat)
    requires j < |b|
    ensures (a + b)[..|a|] == a && (a + b)[|a| + j] == b[j]
  {
  }

  lemma DoneFetchesAll(faults: Faults, bounds: Bounds, sha: Hasher, stash: Stash, inputs: seq<ZipEntry>,
                       prints: seq<Fingerprint>, j: nat)
    requires BundleEnd(faults, bounds, sha, stash, inputs, prints).Done? && j < |prints|
    ensures Fetch(faults.fetch(j), BundledStash(faults, bounds, sha, stash, inputs), prints[j].sha1).Success?
  {
    AllBeforeFetched(faults, BundledStash(faults, bounds, sha, stash, inputs), prints, 0);
  }

  lemma {:induction false} FetchErrors(f: FetchFaults, stash: Stash, key: Key, k: nat)
    requires FetchFrom(f, stash, key, k).Failure? && FetchFrom(f, stash, key, k).error.NotFound?
    ensures FetchFrom(f, stash, key, k).error.key == key && key !in stash
    decreases f.retries - k
  {
    if f.get(k).Unreachable? || key in stash {
      FetchErrors(f, stash, key, k + 1);
    }
  }

  lemma {:induction false} PutErrors(f: EntryFaults, wanted: bool, k: nat)
    ensures PutFrom(f, wanted, k).Gave? ==> !PutFrom(f, wanted, k).error.NotFound?
    decreases f.retries - k
  {
    if wanted && f.put(k).PutFailed? && k < f.retries {
      PutErrors(f, wanted, k + 1);
    }
  }

  /** A `NotFound` names the first fingerprint that the stash does not hold. */
  lemma NotFoundNamesTheFirst(faults: Faults, bounds: Bounds, sha: Hasher, stash: Stash, inputs: seq<ZipEntry>,
                              prints: seq<Fingerprint>, key: Key)
    requires BundleEnd(faults, bounds, sha, stash, inputs, prints) == Gave(NotFound(key))
    ensures exists j :: 0 <= j < |prints| && prints[j].sha1 == key
                        && key !in BundledStash(faults, bounds, sha, stash, inputs)
                        && forall i :: 0 <= i < j ==> prints[i].sha1 in BundledStash(faults, bounds, sha, stash, inputs)
  {
    CopyNeverMisses(faults, bounds, inputs);
    var after := AssembledStash(faults, bounds, sha, stash, inputs);
    var j := FetchedUpTo(faults, after, prints, 0);
    AllBeforeFetched(faults, after, prints, 0);
    FetchErrors(faults.fetch(j), after, prints[j].sha1, 0);
    forall i | 0 <= i < j
      ensures prints[i].sha1 in after
    {
      FetchedIsBlob(faults.fetch(i), after, prints[i].sha1, 0);
    }
  }

  /** Does some attempt within the retries reach the store? */
  ghost predicate Reaches(f: FetchFaults) {
    !f.broken && exists n: nat :: n <= f.retries && !f.get(n).Unreachable?
  }

  lemma {:induction false} MissingExact(f: FetchFaults, stash: Stash, key: Key, k: nat)
    requires k <= f.retries
    ensures FetchFrom(f, stash, key, k) == Failure(NotFound(key)) <==>
            key !in stash && exists n: nat :: k <= n <= f.retries && !f.get(n).Unreachable?
    decreases f.retries - k
  {
    if key in stash {
      FetchErrorsAre(f, stash, key, k);
    } else if f.get(k).Unreachable? {
      if k < f.retries {
        MissingExact(f, stash, key, k + 1);
      }
    } else {
      assert k <= k <= f.retries && !f.get(k).Unreachable?;
    }
  }

  lemma {:induction false} FetchErrorsAre(f: FetchFaults, stash: Stash, key: Key, k: nat)
    requires key in stash
    ensures FetchFrom(f, stash, key, k).Failure? ==> FetchFrom(f, stash, key, k).error == OtherError
    decreases f.retries - k
  {
    if k < f.retries {
      FetchErrorsAre(f, stash, key, k + 1);
    }
  }

  /** A call reports a missing fingerprint exactly if the archive is copied, some fingerprint is not in the stash
      as it then is, an attempt for it reaches the store, and all before it are there and read smoothly once. */
  lemma NotFoundExactly(faults: Faults, bounds: Bounds, sha: Hasher, stash: Stash, inputs: seq<ZipEntry>,
                        prints: seq<Fingerprint>)
    ensures BundleEnd(faults, bounds, sha, stash, inputs, prints).Misses() <==>
            && !faults.noTemp
            && (forall i :: 0 <= i < |inputs| ==> Passes(faults, bounds, inputs, i))
            && exists j :: 0 <= j < |prints| && FirstMissing(faults, Stashed(sha, bounds, stash, inputs), prints, j)
  {
    var after := Stashed(sha, bounds, stash, inputs);
    CopiesExactly(faults, bounds, inputs);
    CopyNeverMisses(faults, bounds, inputs);
    if CopyEnd(faults, bounds, inputs).Done? {
      CopiedMeansAll(faults, bounds, sha, stash, inputs);
    }
    MissingIsFirst(faults, after, prints);
    hide FetchEnd, FirstMissing, Passes, Stashed, CopyEnd, AssembledStash;
  }

  lemma CopiedMeansAll(faults: Faults, bounds: Bounds, sha: Hasher, stash: Stash, inputs: seq<ZipEntry>)
    requires CopyEnd(faults, bounds, inputs).Done?
    ensures AssembledStash(faults, bounds, sha, stash, inputs) == Stashed(sha, bounds, stash, inputs)
  {
    ReachedExact(faults, bounds, inputs, 0);
    assert inputs[..|inputs|] == inputs;
  }

  ghost predicate FirstMissing(faults: Faults, after: Stash, prints: seq<Fingerprint>, j: nat)
    requires j < |prints|
  {
    && prints[j].sha1 !in after && Reaches(faults.fetch(j))
    && forall i :: 0 <= i < j ==> prints[i].sha1 in after && Reads(faults.fetch(i))
  }

  lemma MissingIsFirst(faults: Faults, after: Stash, prints: seq<Fingerprint>)
    ensures FetchEnd(faults, after, prints).Misses() <==>
            exists j :: 0 <= j < |prints| && FirstMissing(faults, after, prints, j)
  {
    AllBeforeFetched(faults, after, prints, 0);
    forall j | 0 <= j < |prints|
      ensures Fetch(faults.fetch(j), after, prints[j].sha1).Success? <==>
              prints[j].sha1 in after && Reads(faults.fetch(j))
      ensures Fetch(faults.fetch(j), after, prints[j].sha1) == Failure(NotFound(prints[j].sha1)) <==>
              prints[j].sha1 !in after && Reaches(faults.fetch(j))
    {
      FetchExact(faults.fetch(j), after, prints[j].sha1, 0);
      MissingExact(faults.fetch(j), after, prints[j].sha1, 0);
    }
    var r := FetchedUpTo(faults, after, prints, 0);
    if FetchEnd(faults, after, prints).Misses() {
      FetchErrors(faults.fetch(r), after, prints[r].sha1, 0);
      assert FirstMissing(faults, after, prints, r);
    }
    if j :| 0 <= j < |prints| && FirstMissing(faults, after, prints, j) {
      assert r == j;
      assert FetchEnd(faults, after, prints) == Gave(NotFound(prints[j].sha1));
    }
  }

  /** Unless the policy gives up on a blob, the first missing fingerprint is what the call reports. */
  lemma MissingIsReported(faults: Faults, bounds: Bounds, sha: Hasher, stash: Stash, inputs: seq<ZipEntry>,
                          prints: seq<Fingerprint>, j: nat)
    requires !faults.noTemp && CopyEnd(faults, bounds, inputs).Done? && j < |prints|
    requires forall i :: 0 <= i <= j ==> Reads(faults.fetch(i))
    requires var after := BundledStash(faults, bounds, sha, stash, inputs);
             prints[j].sha1 !in after && forall i :: 0 <= i < j ==> prints[i].sha1 in after
    ensures BundleEnd(faults, bounds, sha, stash, inputs, prints) == Gave(NotFound(prints[j].sha1))
  {
    var after := AssembledStash(faults, bounds, sha, stash, inputs);
    forall i | 0 <= i <= j
      ensures if i < j then Fetch(faults.fetch(i), after, prints[i].sha1).Success?
              else Fetch(faults.fetch(i), after, prints[i].sha1) == Failure(NotFound(prints[i].sha1))
    {
      assert Reads(faults.fetch(i));
      ReadsSucceed(faults.fetch(i), after, prints[i].sha1, 0);
    }
    AllBeforeFetched(faults, after, prints, 0);
  }

  /** Only a buffer that cannot be opened again makes a call crash. */
  lemma {:induction false} NoCrashWhenReopened(faults: Faults, bounds: Bounds, sha: Hasher, stash: Stash,
                                               inputs: seq<ZipEntry>, prints: seq<Fingerprint>)
    requires forall i: nat, k: nat :: !faults.entry(i).put(k).NotReopened?
    ensures BundleEnd(faults, bounds, sha, stash, inputs, prints) != Crash
  {
    var r := Reached(faults, bounds, inputs, 0);
    if r < |inputs| && IsRegular(inputs[r].mode) {
      CrashExact(faults.entry(r), bounds.Admit(|inputs[r].bytes|), 0);
    }
  }

  // ---------------------------------------------------------------- the stash

  /** Every blob stands under its own hash. */
  ghost predicate ContentAddressed(sha: Hasher, stash: Stash) {
    forall key :: key in stash ==> sha(stash[key]) == key
  }

  ghost predicate Offered(sha: Hasher, bounds: Bounds, inputs: seq<ZipEntry>, key: Key) {
    exists i :: 0 <= i < |inputs| && IsRegular(inputs[i].mode) && bounds.Admit(|inputs[i].bytes|)
                && sha(inputs[i].bytes) == key
  }

  lemma OfferedStep(sha: Hasher, bounds: Bounds, front: seq<ZipEntry>, last: ZipEntry, key: Key)
    ensures Offered(sha, bounds, front + [last], key) <==>
            || Offered(sha, bounds, front, key)
            || (IsRegular(last.mode) && bounds.Admit(|last.bytes|) && sha(last.bytes) == key)
  {
    var inputs := front + [last];
    assert inputs[|front|] == last;
    assert forall i :: 0 <= i < |front| ==> inputs[i] == front[i];
  }

  /** With bounds both inclusive: a hash is gained exactly if some regular file within them has it. */
  lemma StashedWithinBounds(sha: Hasher, min: nat, max: nat, stash: Stash, inputs: seq<ZipEntry>, key: Key)
    ensures key in Stashed(sha, Bounds(min, max), stash, inputs) <==>
            key in stash
            || exists i :: && 0 <= i < |inputs| && IsRegular(inputs[i].mode) && sha(inputs[i].bytes) == key
                           && min <= |inputs[i].bytes| <= max
    ensures key in Stashed(sha, Unbounded, stash, inputs) <==>
            key in stash || exists i :: 0 <= i < |inputs| && IsRegular(inputs[i].mode) && sha(inputs[i].bytes) == key
  {
    StashedExactly(sha, Bounds(min, max), stash, inputs);
    StashedExactly(sha, Unbounded, stash, inputs);
  }

  lemma {:induction false} StashedAddressed(sha: Hasher, bounds: Bounds, stash: Stash, inputs: seq<ZipEntry>)
    requires ContentAddressed(sha, stash)
    ensures ContentAddressed(sha, Stashed(sha, bounds, stash, inputs))
  {
    if inputs != [] {
      StashedAddressed(sha, bounds, stash, inputs[..|inputs| - 1]);
    }
  }

  /** The stash gains exactly the regular entries within the bounds, loses nothing, and stays
      content-addressed. */
  lemma {:induction false} StashedExactly(sha: Hasher, bounds: Bounds, stash: Stash, inputs: seq<ZipEntry>)
    ensures forall key :: key in Stashed(sha, bounds, stash, inputs) <==>
                          key in stash || Offered(sha, bounds, inputs, key)
    ensures forall key :: key in stash && !Offered(sha, bounds, inputs, key) ==>
                            Stashed(sha, bounds, stash, inputs)[key] == stash[key]
    ensures ContentAddressed(sha, stash) ==> ContentAddressed(sha, Stashed(sha, bounds, stash, inputs))
  {
    if ContentAddressed(sha, stash) {
      StashedAddressed(sha, bounds, stash, inputs);
    }
    if inputs != [] {
      hide Offered, ContentAddressed;
      var front, last := inputs[..|inputs| - 1], inputs[|inputs| - 1];
      StashedExactly(sha, bounds, stash, front);
      assert inputs == front + [last];
      forall key
        ensures Offered(sha, bounds, inputs, key) <==>
                || Offered(sha, bounds, front, key)
                || (IsRegular(last.mode) && bounds.Admit(|last.bytes|) && sha(last.bytes) == key)
      {
        OfferedStep(sha, bounds, front, last, key);
      }
    }
  }
}
