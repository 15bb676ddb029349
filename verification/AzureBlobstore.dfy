/** The upload loop of the Azure blobstore. */
module AzureBlobstores {
  import opened Sequences
  import opened Bits
  import opened BlockIds

  /** What one call of `src.Read` gives: bytes, and whether they are the last or an error came. */
  datatype Ending = More | Eof | Broken
  datatype Read = Read(bytes: Bytes, ending: Ending)

  /** After its last read a source is at its end. */
  function FirstRead(readings: seq<Read>): Read {
    if readings == [] then Read([], Eof) else readings[0]
  }

  function Rest(readings: seq<Read>): seq<Read> {
    if readings == [] then [] else readings[1..]
  }

  /** Everything up to the end of the source. */
  function Content(readings: seq<Read>): Bytes {
    if readings == [] then []
    else if readings[0].ending.More? then readings[0].bytes + Content(readings[1..])
    else readings[0].bytes
  }

  /** No error before the end. */
  predicate Readable(readings: seq<Read>) {
    readings == [] || readings[0].ending.Eof? || (readings[0].ending.More? && Readable(readings[1..]))
  }

  /** Which calls to the service fail. */
  datatype Faults = Faults(create: bool, block: nat -> bool, commit: bool)

  /** Every block that is sent from number `i` on is taken. */
  predicate BlocksTaken(readings: seq<Read>, faults: Faults, i: nat) {
    readings == [] ||
    ((readings[0].bytes != [] ==> !faults.block(i))
     && (readings[0].ending.More? ==> BlocksTaken(readings[1..], faults, i + 1)))
  }

  function Concat(uncommitted: map<string, Bytes>, ids: seq<string>): Bytes {
    if ids == [] then []
    else
      var last := ids[|ids| - 1];
      Concat(uncommitted, ids[..|ids| - 1]) + (if last in uncommitted then uncommitted[last] else [])
  }

  predicate Distinct(ids: seq<string>) {
    forall j, k :: 0 <= j < k < |ids| ==> ids[j] != ids[k]
  }

  /** Blocks that are there, neither empty nor larger than allowed. */
  predicate Sized(uncommitted: map<string, Bytes>, ids: seq<string>, size: nat) {
    forall k :: 0 <= k < |ids| ==> ids[k] in uncommitted && 0 < |uncommitted[ids[k]]| <= size
  }

  /** All IDs belong to numbers below `i`. */
  ghost predicate Below(ids: seq<string>, i: nat) {
    forall k :: 0 <= k < |ids| ==> exists j: nat :: j < i && ids[k] == BlockId(j)
  }

  lemma {:induction false} ConcatMore(uncommitted: map<string, Bytes>, ids: seq<string>, id: string, block: Bytes)
    requires id !in ids
    ensures Concat(uncommitted[id := block], ids) == Concat(uncommitted, ids)
  {
    if ids != [] {
      ConcatMore(uncommitted, ids[..|ids| - 1], id, block);
    }
  }

  lemma NewId(ids: seq<string>, i: nat)
    requires Below(ids, i)
    ensures BlockId(i) !in ids && Below(ids, i + 1) && Below(ids + [BlockId(i)], i + 1)
  {
    forall k | 0 <= k < |ids|
      ensures ids[k] != BlockId(i)
    {
      var j: nat :| j < i && ids[k] == BlockId(j);
      BlockIdsDiffer(i, j);
    }
  }

  ghost predicate Listed(uncommitted: map<string, Bytes>, ids: seq<string>, i: nat, size: nat) {
    Distinct(ids) && Below(ids, i) && Sized(uncommitted, ids, size)
  }

  /** What one turn of the loop makes of the rest of the source. */
  lemma OneRead(readings: seq<Read>, faults: Faults, i: nat)
    ensures var read, rest := FirstRead(readings), Rest(readings);
            && (!read.ending.Broken? ==>
                  Content(readings) == read.bytes + (if read.ending.Eof? then [] else Content(rest)))
            && (Readable(readings) <==> read.ending.Eof? || (read.ending.More? && Readable(rest)))
            && (BlocksTaken(readings, faults, i) <==>
                (read.bytes == [] || !faults.block(i)) && (read.ending.More? ==> BlocksTaken(rest, faults, i + 1)))
  {
  }

  class Blobstore {
    const putBlockSize: nat
    /** Committed blobs, and the uncommitted blocks of the blob that is being uploaded. */
    var blobs: map<Key, Bytes>
    var uncommitted: map<string, Bytes>

    constructor (putBlockSize: nat)
      ensures this.putBlockSize == putBlockSize && blobs == map[] && uncommitted == map[]
    {
      this.putBlockSize := putBlockSize;
      blobs, uncommitted := map[], map[];
    }

    /** One block is stored under its ID and listed. */
    method PutBlock(ids: seq<string>, i: nat, block: Bytes) returns (ids': seq<string>)
      requires Listed(uncommitted, ids, i, putBlockSize) && 0 < |block| <= putBlockSize
      modifies this`uncommitted
      ensures Listed(uncommitted, ids', i + 1, putBlockSize)
      ensures Concat(uncommitted, ids') == Concat(old(uncommitted), ids) + block
    {
      NewId(ids, i);
      ConcatMore(uncommitted, ids, BlockId(i), block);
      uncommitted := uncommitted[BlockId(i) := block];
      ids' := ids + [BlockId(i)];
      assert ids'[..|ids|] == ids;
    }

    /** What has been read goes into a block, unless it is nothing. */
    method Send(ids: seq<string>, i: nat, bytes: Bytes, fails: bool) returns (ok: bool, ids': seq<string>)
      requires Listed(uncommitted, ids, i, putBlockSize) && |bytes| <= putBlockSize
      modifies this`uncommitted
      ensures ok <==> bytes == [] || !fails
      ensures ok ==> Listed(uncommitted, ids', i + 1, putBlockSize)
      ensures ok ==> Concat(uncommitted, ids') == Concat(old(uncommitted), ids) + bytes
    {
      if bytes == [] {
        NewId(ids, i);
        return true, ids;
      }
      if fails {
        return false, [];
      }
      ids' := PutBlock(ids, i, bytes);
      ok := true;
    }

    /** The read loop: the blocks listed make up the source. */
    method PutBlocks(readings: seq<Read>, faults: Faults) returns (ok: bool, ids: seq<string>)
      requires forall k :: 0 <= k < |readings| ==> |readings[k].bytes| <= putBlockSize
      modifies this`uncommitted
      ensures ok <==> Readable(readings) && BlocksTaken(readings, faults, 0)
      ensures ok ==> Concat(uncommitted, ids) == Content(readings)
      ensures ok ==> Distinct(ids) && Sized(uncommitted, ids, putBlockSize)
    {
      hide Readable, BlocksTaken, Content;
      ids := [];
      var eof, i, rest := false, 0, readings;
      ghost var sent: Bytes := [];
      while !eof
        invariant Listed(uncommitted, ids, i, putBlockSize) && Concat(uncommitted, ids) == sent
        invariant forall k :: 0 <= k < |rest| ==> |rest[k].bytes| <= putBlockSize
        invariant Content(readings) == sent + (if eof then [] else Content(rest))
        invariant Readable(readings) && BlocksTaken(readings, faults, 0) <==>
                  eof || (Readable(rest) && BlocksTaken(rest, faults, i))
        decreases !eof, |rest|
      {
        var read := FirstRead(rest);
        OneRead(rest, faults, i);
        rest := Rest(rest);
        if read.ending.Broken? {
          return false, [];
        }
        eof := read.ending.Eof?;
        var taken;
        taken, ids := Send(ids, i, read.bytes, faults.block(i));
        if !taken {
          return false, [];
        }
        Associates(sent, read.bytes, if eof then [] else Content(rest));
        sent := sent + read.bytes;
        i := i + 1;
      }
      ok := true;
    }

    /** A successful upload commits exactly the bytes of the source; one that fails leaves the blob
        empty, unless it could not even be created. */
    method Put(path: Key, readings: seq<Read>, faults: Faults) returns (ok: bool, committed: seq<string>)
      requires forall k :: 0 <= k < |readings| ==> |readings[k].bytes| <= putBlockSize
      modifies this
      ensures ok <==> !faults.create && Readable(readings) && BlocksTaken(readings, faults, 0) && !faults.commit
      ensures blobs == if faults.create then old(blobs) else old(blobs)[path := if ok then Content(readings) else []]
      ensures ok ==> Distinct(committed) && Sized(uncommitted, committed, putBlockSize)
                     && Concat(uncommitted, committed) == Content(readings)
    {
      if faults.create {
        return false, [];
      }
      blobs, uncommitted := blobs[path := []], map[];
      ok, committed := PutBlocks(readings, faults);
      if !ok || faults.commit {
        return false, [];
      }
      blobs := blobs[path := Concat(uncommitted, committed)];
    }
  }

  // ---------------------------------------------------------------- splittings

  function Joined(chunks: seq<Bytes>): Bytes {
    if chunks == [] then [] else chunks[0] + Joined(chunks[1..])
  }

  /** A source that gives these chunks one after the other, some of them perhaps empty, and says that
      it is at its end with the last of them or afterwards. */
  function Reading(chunks: seq<Bytes>, endWithLast: bool): seq<Read> {
    if chunks == [] then []
    else [Read(chunks[0], if endWithLast && |chunks| == 1 then Eof else More)] + Reading(chunks[1..], endWithLast)
  }

  /** However the bytes are split, the content is the same, and it can be read. */
  lemma {:induction false} SplittingDoesNotMatter(chunks: seq<Bytes>, endWithLast: bool)
    ensures Content(Reading(chunks, endWithLast)) == Joined(chunks) && Readable(Reading(chunks, endWithLast))
  {
    if chunks != [] {
      SplittingDoesNotMatter(chunks[1..], endWithLast);
      assert Reading(chunks, endWithLast)[1..] == Reading(chunks[1..], endWithLast);
      assert |chunks| == 1 ==> Joined(chunks[1..]) == [];
    }
  }
}
