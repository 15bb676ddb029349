/** The decorators that partition and prefix paths, on top of the in-memory store. */
module PathDecorators {
  import opened Bits
  import opened Blobstores

  function PathFor(identifier: Key): Key {
    if |identifier| >= 4 then identifier[..2] + "/" + identifier[2..4] + "/" + identifier
    else if |identifier| == 3 then identifier[..2] + "/" + identifier[2..3] + "/" + identifier
    else if |identifier| >= 1 then identifier + "/" + identifier
    else ""
  }

  function Partition(op: Op): Op {
    match op
    case Put(path, src) => Put(PathFor(path), src)
    case Get(path) => Get(PathFor(path))
    case GetOrRedirect(path) => GetOrRedirect(PathFor(path))
    case Head(path) => Head(PathFor(path))
    case Exists(path) => Exists(PathFor(path))
    case Copy(from, dest) => Copy(PathFor(from), PathFor(dest))
    case Delete(path) => Delete(PathFor(path))
    case DeleteDir(prefix) => DeleteDir(if prefix == "" then prefix else PathFor(prefix))
  }

  function Prefixed(prefix: Key, op: Op): Op {
    match op
    case Put(path, src) => Put(prefix + path, src)
    case Get(path) => Get(prefix + path)
    case GetOrRedirect(path) => GetOrRedirect(prefix + path)
    case Head(path) => Head(prefix + path)
    case Exists(path) => Exists(prefix + path)
    case Copy(from, dest) => Copy(prefix + from, prefix + dest)
    case Delete(path) => Delete(prefix + path)
    case DeleteDir(dir) => DeleteDir(prefix + dir)
  }

  /** A store that partitions, over one that prefixes; `""` stands for no prefix at all. */
  function Decorated(prefix: Key, op: Op): Op {
    Prefixed(prefix, Partition(op))
  }

  // ---------------------------------------------------------------- paths

  lemma PathForLength(a: Key)
    ensures |PathFor(a)| == if |a| >= 4 then |a| + 6 else if |a| == 3 then 8 else if |a| >= 1 then 2 * |a| + 1 else 0
  {
  }

  /** The identifier stands at the end of its path. */
  lemma PathForEnds(a: Key)
    ensures |PathFor(a)| >= |a| && PathFor(a)[|PathFor(a)| - |a|..] == a
  {
  }

  /** No two identifiers share a path. */
  lemma PathForInjective(a: Key, b: Key)
    ensures PathFor(a) == PathFor(b) <==> a == b
  {
    PathForLength(a);
    PathForLength(b);
    PathForEnds(a);
    PathForEnds(b);
    assert PathFor(a) == PathFor(b) ==> |a| == |b|;
  }

  /** A path cut at its slashes. */
  function Segments(path: Key): seq<Key> {
    if path == "" then [""]
    else
      var rest := Segments(path[1..]);
      if path[0] == '/' then [""] + rest else [[path[0]] + rest[0]] + rest[1..]
  }

  predicate NoSlash(s: Key) {
    forall k :: 0 <= k < |s| ==> s[k] != '/'
  }

  lemma {:induction false} SegmentsOfOne(s: Key)
    requires NoSlash(s)
    ensures Segments(s) == [s]
  {
    if s != "" {
      SegmentsOfOne(s[1..]);
      assert [s[0]] + s[1..] == s;
    }
  }

  lemma {:induction false} SegmentsJoin(s: Key, rest: Key)
    requires NoSlash(s)
    ensures Segments(s + "/" + rest) == [s] + Segments(rest)
  {
    var path := s + "/" + rest;
    if s == "" {
      assert path == "/" + rest && path[1..] == rest;
    } else {
      SegmentsJoin(s[1..], rest);
      assert path[1..] == s[1..] + "/" + rest;
      assert [s[0]] + s[1..] == s;
    }
  }

  lemma ThreeSegments(a: Key, b: Key, c: Key)
    requires NoSlash(a) && NoSlash(b) && NoSlash(c)
    ensures Segments(a + "/" + (b + "/" + c)) == [a, b, c]
  {
    hide Segments, NoSlash;
    SegmentsOfOne(c);
    SegmentsJoin(b, c);
    SegmentsJoin(a, b + "/" + c);
  }

  /** An identifier without slashes lies in two directories, its first two bytes and its next two; one that is
      too short lies in fewer, or in a shorter one. */
  lemma PathForSegments(id: Key)
    requires NoSlash(id)
    ensures |id| >= 4 ==> Segments(PathFor(id)) == [id[..2], id[2..4], id]
    ensures |id| == 3 ==> Segments(PathFor(id)) == [id[..2], id[2..3], id]
    ensures 1 <= |id| <= 2 ==> Segments(PathFor(id)) == [id, id]
  {
    SegmentsOfOne(id);
    if |id| >= 3 {
      var second := id[2..if |id| > 3 then 4 else 3];
      assert PathFor(id) == id[..2] + "/" + (second + "/" + id);
      ThreeSegments(id[..2], second, id);
    } else if id != "" {
      SegmentsJoin(id, id);
    }
  }

  /** Where the first slash of a path is. */
  lemma PathForSlash(a: Key)
    ensures a != "" ==> |PathFor(a)| >= 3 && PathFor(a)[if |a| == 1 then 1 else 2] == '/'
  {
  }

  // ---------------------------------------------------------------- directories

  /** Does deleting the directory of `prefix` reach exactly the identifiers with that prefix? */
  ghost predicate DirExact(prefix: Key) {
    forall id :: PathFor(prefix) <= PathFor(id) <==> prefix <= id
  }

  lemma LongDirs(prefix: Key, id: Key)
    requires |prefix| >= 4
    ensures PathFor(prefix) <= PathFor(id) <==> prefix <= id
  {
    PathForLength(prefix);
    PathForLength(id);
    if |id| >= 4 {
      var p, q := PathFor(prefix), PathFor(id);
      assert p == (prefix[..2] + "/" + prefix[2..4] + "/") + prefix && q == (id[..2] + "/" + id[2..4] + "/") + id;
      if p <= q {
        assert q[6..] == id && p[6..] == prefix && p[6..] <= q[6..];
      }
      if prefix <= id {
        assert prefix[..4] == id[..4];
        assert prefix[..2] == prefix[..4][..2] && id[..2] == id[..4][..2];
        assert prefix[2..4] == prefix[..4][2..4] && id[2..4] == id[..4][2..4];
      }
    }
  }

  /** A longer identifier that the directory of a short prefix does not reach. */
  function Missed(prefix: Key): Key
    requires 1 <= |prefix| <= 3
  {
    prefix + (if |prefix| == 2 && prefix[0] == 'x' then "y" else "x")
  }

  lemma ShortDirMisses(prefix: Key)
    requires 1 <= |prefix| <= 3
    ensures prefix <= Missed(prefix) && !(PathFor(prefix) <= PathFor(Missed(prefix)))
  {
    var id := Missed(prefix);
    if |prefix| == 1 {
      assert PathFor(prefix)[1] == '/' && PathFor(id)[1] == id[1];
    } else if |prefix| == 2 {
      assert PathFor(prefix)[3] == prefix[0] && PathFor(id)[3] == id[2];
    } else {
      assert PathFor(prefix)[4] == '/' && PathFor(id)[4] == id[3];
    }
  }

  /** It does exactly for no prefix at all, and for prefixes of four bytes or more. */
  lemma DirExactIff(prefix: Key)
    ensures DirExact(prefix) <==> prefix == "" || |prefix| >= 4
  {
    if |prefix| >= 4 {
      forall id
        ensures PathFor(prefix) <= PathFor(id) <==> prefix <= id
      {
        LongDirs(prefix, id);
      }
    } else if prefix != "" {
      ShortDirMisses(prefix);
    }
  }

  // ---------------------------------------------------------------- simulation

  /** The decorated store holds, under the path of each identifier, what the plain one holds under
      the identifier itself.  Under other paths it may hold anything. */
  ghost predicate Simulates(prefix: Key, entries: Entries, plain: Entries) {
    forall id :: Agrees(prefix, entries, plain, id)
  }

  ghost predicate Agrees(prefix: Key, entries: Entries, plain: Entries, id: Key) {
    var path := prefix + PathFor(id);
    && (path in entries <==> id in plain)
    && (id in plain ==> entries[path] == plain[id])
  }

  predicate Usable(op: Op) {
    op.DeleteDir? ==> op.prefix == "" || |op.prefix| >= 4
  }

  lemma SamePath(prefix: Key, a: Key, b: Key)
    ensures prefix + PathFor(a) == prefix + PathFor(b) <==> a == b
    ensures prefix + a <= prefix + b <==> a <= b
  {
    PathForInjective(a, b);
    assert (prefix + PathFor(a))[|prefix|..] == PathFor(a) && (prefix + PathFor(b))[|prefix|..] == PathFor(b);
    assert (prefix + a)[|prefix|..] == a && (prefix + b)[|prefix|..] == b;
    if prefix + a <= prefix + b {
      assert (prefix + b)[..|prefix + a|] == prefix + a;
      assert b[..|a|] == (prefix + b)[..|prefix + a|][|prefix|..];
    }
  }

  lemma StepAgrees(prefix: Key, entries: Entries, plain: Entries, op: Op, id: Key)
    requires Simulates(prefix, entries, plain) && Usable(op)
    ensures Agrees(prefix, Perform(entries, Decorated(prefix, op)), Perform(plain, op), id)
  {
    assert Agrees(prefix, entries, plain, id);
    match op
    case Put(path, _) => SamePath(prefix, path, id);
    case Copy(from, dest) =>
      assert Agrees(prefix, entries, plain, from);
      SamePath(prefix, dest, id);
    case Delete(path) => SamePath(prefix, path, id);
    case DeleteDir(dir) =>
      SamePath(prefix, PathFor(dir), PathFor(id));
      if dir != "" {
        LongDirs(dir, id);
      }
    case _ =>
  }

  /** One operation: the same reply, and agreement afterwards. */
  lemma StepSimulates(prefix: Key, entries: Entries, plain: Entries, op: Op)
    requires Simulates(prefix, entries, plain) && Usable(op)
    ensures Respond(entries, Decorated(prefix, op)) == Respond(plain, op)
    ensures Simulates(prefix, Perform(entries, Decorated(prefix, op)), Perform(plain, op))
  {
    match op {
      case Get(path) => assert Agrees(prefix, entries, plain, path);
      case GetOrRedirect(path) => assert Agrees(prefix, entries, plain, path);
      case Head(path) => assert Agrees(prefix, entries, plain, path);
      case Exists(path) => assert Agrees(prefix, entries, plain, path);
      case Delete(path) => assert Agrees(prefix, entries, plain, path);
      case _ =>
    }
    forall id
      ensures Agrees(prefix, Perform(entries, Decorated(prefix, op)), Perform(plain, op), id)
    {
      StepAgrees(prefix, entries, plain, op, id);
    }
  }

  function AllDecorated(prefix: Key, ops: seq<Op>): seq<Op> {
    if ops == [] then [] else [Decorated(prefix, ops[0])] + AllDecorated(prefix, ops[1..])
  }

  /** Every sequence of operations gets the same replies from the decorated store as from a plain map
      from identifiers to blobs, and leaves the two in agreement. */
  lemma {:induction false} DecoratedIsPlain(prefix: Key, entries: Entries, plain: Entries, ops: seq<Op>)
    requires Simulates(prefix, entries, plain) && forall k :: 0 <= k < |ops| ==> Usable(ops[k])
    ensures Replies(entries, AllDecorated(prefix, ops)) == Replies(plain, ops)
    ensures Simulates(prefix, Run(entries, AllDecorated(prefix, ops)), Run(plain, ops))
    decreases |ops|
  {
    if ops != [] {
      StepSimulates(prefix, entries, plain, ops[0]);
      DecoratedIsPlain(prefix, Perform(entries, Decorated(prefix, ops[0])), Perform(plain, ops[0]), ops[1..]);
      assert AllDecorated(prefix, ops)[1..] == AllDecorated(prefix, ops[1..]);
    }
  }

  /** For the remaining directories there is always a plain store that it does not simulate. */
  lemma ShortDirBreaks(prefix: Key, dir: Key)
    requires 1 <= |dir| <= 3
    ensures var plain, entries := map[Missed(dir) := []], map[prefix + PathFor(Missed(dir)) := []];
            && Simulates(prefix, entries, plain)
            && !Simulates(prefix, Perform(entries, Decorated(prefix, DeleteDir(dir))), Perform(plain, DeleteDir(dir)))
  {
    var id := Missed(dir);
    var plain: Entries, entries: Entries := map[id := []], map[prefix + PathFor(id) := []];
    forall other
      ensures Agrees(prefix, entries, plain, other)
    {
      SamePath(prefix, id, other);
    }
    ShortDirMisses(dir);
    SamePath(prefix, PathFor(dir), PathFor(id));
    assert !Agrees(prefix, Perform(entries, Decorated(prefix, DeleteDir(dir))), Perform(plain, DeleteDir(dir)), id);
  }

  // ---------------------------------------------------------------- droplets and the buildpack cache

  const CACHE: Key := "buildpack_cache/"

  /** The paths of droplets, stored without a prefix, and those of the cache never meet. */
  lemma CacheApart(droplet: Key, cached: Key)
    ensures PathFor(droplet) != CACHE + cached
    ensures droplet != "" ==> !(PathFor(droplet) <= CACHE + cached)
  {
    PathForSlash(droplet);
    assert (CACHE + cached)[1] == 'u' && (CACHE + cached)[2] == 'i';
  }

  /** Does an operation on droplets leave what the shared store holds for the cache as it is? */
  predicate LeavesCached(entries: Entries, op: Op, cached: Key) {
    var after, path := Perform(entries, Partition(op)), CACHE + cached;
    (path in after <==> path in entries) && (path in entries ==> after[path] == entries[path])
  }

  /** Whatever is done to droplets leaves the cache as it is, in every store, unless it is deleting all of
      them: that empties the store. */
  lemma DropletsLeaveCache(op: Op)
    ensures (forall entries, cached :: LeavesCached(entries, op, cached)) <==> op != DeleteDir("")
  {
    if op == DeleteDir("") {
      var entries: Entries := map[CACHE + "" := []];
      assert Perform(entries, Partition(op)) == map[];
      assert !LeavesCached(entries, op, "");
    } else {
      forall entries, cached
        ensures LeavesCached(entries, op, cached)
      {
        OneDropletLeavesCache(entries, op, cached);
      }
    }
  }

  lemma OneDropletLeavesCache(entries: Entries, op: Op, cached: Key)
    requires op != DeleteDir("")
    ensures LeavesCached(entries, op, cached)
  {
    match op
    case Put(path, _) => CacheApart(path, cached);
    case Copy(_, dest) => CacheApart(dest, cached);
    case Delete(path) => CacheApart(path, cached);
    case DeleteDir(dir) => CacheApart(dir, cached);
    case _ =>
  }

  /** And whatever is done to the cache leaves the droplets as they are. */
  lemma CacheLeavesDroplets(entries: Entries, op: Op, droplet: Key)
    ensures var after, path := Perform(entries, Decorated(CACHE, op)), PathFor(droplet);
            (path in after <==> path in entries) && (path in entries ==> after[path] == entries[path])
  {
    match op
    case Put(path, _) => CacheApart(droplet, PathFor(path));
    case Copy(_, dest) => CacheApart(droplet, PathFor(dest));
    case Delete(path) => CacheApart(droplet, PathFor(path));
    case DeleteDir(dir) =>
      var below := if dir == "" then dir else PathFor(dir);
      if CACHE + below <= PathFor(droplet) {
        CacheApart(droplet, PathFor(droplet)[|CACHE|..]);
      }
    case _ =>
  }

  // ---------------------------------------------------------------- signed paths

  /** What a signer that partitions, over one that prefixes, signs. */
  function Signed(prefix: Key, resource: Key): Key {
    prefix + PathFor(resource)
  }

  /** A signed path is the path under which the store keeps the resource exactly if both are given the
      same prefix; the cache's signer is given it without the final slash. */
  lemma SignedIsStored(signer: Key, store: Key, resource: Key)
    ensures Signed(signer, resource) == store + PathFor(resource) <==> signer == store
  {
    var path := PathFor(resource);
    if signer + path == store + path {
      assert |signer| == |store|;
      assert (signer + path)[..|signer|] == signer && (store + path)[..|store|] == store;
    }
  }

  lemma CacheSignerMisses(resource: Key)
    ensures Signed("buildpack_cache", resource) != CACHE + PathFor(resource)
  {
    SignedIsStored("buildpack_cache", CACHE, resource);
  }
}
