/** The in-memory blobstore: the reference for what a store does. */
module Blobstores {
  import opened Wrappers
  import opened Bits

  type Entries = map<Key, Bytes>

  /** `Put` of `None`: the source cannot be read. */
  datatype Op =
    | Put(path: Key, src: Option<Bytes>)
    | Get(path: Key)
    | GetOrRedirect(path: Key)
    | Head(path: Key)
    | Exists(path: Key)
    | Copy(from: Key, dest: Key)
    | Delete(path: Key)
    | DeleteDir(prefix: Key)

  /** No reply of this store redirects. */
  datatype Reply = Done | NotFound | Broken | Blob(bytes: Bytes) | Answer(yes: bool)

  function WithoutDir(entries: Entries, prefix: Key): Entries {
    map key | key in entries && !(prefix <= key) :: entries[key]
  }

  /** Copying what is not there leaves an empty blob. */
  function Perform(entries: Entries, op: Op): Entries {
    match op
    case Put(path, Some(bytes)) => entries[path := bytes]
    case Copy(from, dest) => entries[dest := if from in entries then entries[from] else []]
    case Delete(path) => entries - {path}
    case DeleteDir(prefix) => WithoutDir(entries, prefix)
    case _ => entries
  }

  function Respond(entries: Entries, op: Op): Reply {
    match op
    case Put(_, None) => Broken
    case Get(path) => if path in entries then Blob(entries[path]) else NotFound
    case GetOrRedirect(path) => if path in entries then Blob(entries[path]) else NotFound
    case Head(path) => if path in entries then Done else NotFound
    case Exists(path) => Answer(path in entries)
    case Delete(path) => if path in entries then Done else NotFound
    case _ => Done
  }

  class Blobstore {
    var entries: Entries

    constructor (entries: Entries)
      ensures this.entries == entries
    {
      this.entries := entries;
    }

    method PutBlob(path: Key, src: Option<Bytes>) returns (r: Reply)
      modifies this
      ensures entries == Perform(old(entries), Put(path, src)) && r == Respond(old(entries), Put(path, src))
    {
      if src.None? {
        return Broken;
      }
      entries := entries[path := src.value];
      r := Done;
    }

    method HeadOrRedirectAsGet(path: Key) returns (r: Reply)
      ensures r == Respond(entries, Head(path))
    {
      r := if path in entries then Done else NotFound;
    }

    method GetBlob(path: Key) returns (r: Reply)
      ensures r == Respond(entries, Get(path))
    {
      if path !in entries {
        return NotFound;
      }
      r := Blob(entries[path]);
    }

    method GetBlobOrRedirect(path: Key) returns (r: Reply)
      ensures r == Respond(entries, GetOrRedirect(path))
    {
      r := GetBlob(path);
    }

    method BlobExists(path: Key) returns (r: Reply)
      ensures r == Respond(entries, Exists(path))
    {
      r := Answer(path in entries);
    }

    method CopyBlob(from: Key, dest: Key) returns (r: Reply)
      modifies this
      ensures entries == Perform(old(entries), Copy(from, dest)) && r == Respond(old(entries), Copy(from, dest))
    {
      entries := entries[dest := if from in entries then entries[from] else []];
      r := Done;
    }

    method DeleteBlob(path: Key) returns (r: Reply)
      modifies this
      ensures entries == Perform(old(entries), Delete(path)) && r == Respond(old(entries), Delete(path))
    {
      if path !in entries {
        return NotFound;
      }
      entries := entries - {path};
      r := Done;
    }

    /** The loop deletes from the map it ranges over. */
    method DeleteDirectory(prefix: Key) returns (r: Reply)
      modifies this
      ensures entries == Perform(old(entries), DeleteDir(prefix)) && r == Respond(old(entries), DeleteDir(prefix))
    {
      var keys := entries.Keys;
      while keys != {}
        invariant keys <= entries.Keys
        invariant entries == map key | key in old(entries) && (key in keys || !(prefix <= key)) :: old(entries)[key]
        decreases keys
      {
        var key :| key in keys;
        keys := keys - {key};
        if prefix <= key {
          entries := entries - {key};
        }
      }
      r := Done;
    }
  }

  // ---------------------------------------------------------------- runs

  function Run(entries: Entries, ops: seq<Op>): Entries
    decreases |ops|
  {
    if ops == [] then entries else Run(Perform(entries, ops[0]), ops[1..])
  }

  function Replies(entries: Entries, ops: seq<Op>): seq<Reply>
    decreases |ops|
  {
    if ops == [] then [] else [Respond(entries, ops[0])] + Replies(Perform(entries, ops[0]), ops[1..])
  }

  lemma {:induction false} RunMore(entries: Entries, ops: seq<Op>, op: Op)
    ensures Run(entries, ops + [op]) == Perform(Run(entries, ops), op)
    ensures Replies(entries, ops + [op]) == Replies(entries, ops) + [Respond(Run(entries, ops), op)]
    decreases |ops|
  {
    if ops == [] {
      assert ops + [op] == [op];
    } else {
      RunMore(Perform(entries, ops[0]), ops[1..], op);
      assert (ops + [op])[0] == ops[0] && (ops + [op])[1..] == ops[1..] + [op];
    }
  }

  /** Does the operation decide what stands under the path? */
  predicate Writes(op: Op, path: Key) {
    match op
    case Put(to, src) => to == path && src.Some?
    case Copy(_, dest) => dest == path
    case Delete(gone) => gone == path
    case DeleteDir(prefix) => prefix <= path
    case _ => false
  }

  /** What stands under a path after some operations, read off the operations and what was there before:
      the last one that writes the path says it, and a copy says to look at its source before. */
  function Written(entries: Entries, ops: seq<Op>, path: Key): Option<Bytes>
    decreases |ops|
  {
    if ops == [] then (if path in entries then Some(entries[path]) else None)
    else
      var before, last := ops[..|ops| - 1], ops[|ops| - 1];
      if !Writes(last, path) then Written(entries, before, path)
      else
        match last
        case Put(_, src) => src
        case Copy(from, _) => Some(Written(entries, before, from).UnwrapOr([]))
        case _ => None
  }

  /** Over every run a read gives back what the last operation that wrote the path has put there. */
  lemma {:induction false} LastWriteWins(entries: Entries, ops: seq<Op>, path: Key)
    ensures var reply := match Written(entries, ops, path) { case Some(bytes) => Blob(bytes) case None => NotFound };
            && Replies(entries, ops + [Get(path)]) == Replies(entries, ops) + [reply]
            && Replies(entries, ops + [GetOrRedirect(path)]) == Replies(entries, ops) + [reply]
            && Replies(entries, ops + [Head(path)]) == Replies(entries, ops) + [if reply.Blob? then Done else reply]
            && Replies(entries, ops + [Exists(path)]) == Replies(entries, ops) + [Answer(reply.Blob?)]
            && Replies(entries, ops + [Delete(path)]) == Replies(entries, ops) + [if reply.Blob? then Done else reply]
            && Replies(entries, ops + [Put(path, None)]) == Replies(entries, ops) + [Broken]
  {
    StandsAsWritten(entries, ops, path);
    RunMore(entries, ops, Get(path));
    RunMore(entries, ops, GetOrRedirect(path));
    RunMore(entries, ops, Head(path));
    RunMore(entries, ops, Exists(path));
    RunMore(entries, ops, Delete(path));
    RunMore(entries, ops, Put(path, None));
  }

  lemma {:induction false} StandsAsWritten(entries: Entries, ops: seq<Op>, path: Key)
    ensures var after := Run(entries, ops);
            Written(entries, ops, path) == if path in after then Some(after[path]) else None
    decreases |ops|
  {
    if ops != [] {
      var before, last := ops[..|ops| - 1], ops[|ops| - 1];
      assert ops == before + [last];
      RunMore(entries, before, last);
      StandsAsWritten(entries, before, path);
      if last.Copy? {
        StandsAsWritten(entries, before, last.from);
      }
    }
  }
}
