/** The client's local chunk files, the two client calls that use them, and what later work leaves of them. */
module ChunkStore {
  import opened Primitives
  import opened Chunking
  import opened Merkle

  const MAX_PROOF_DEPTH: nat := 32
  const MAX_METADATA_LEN: nat := 256

  /** `<id>/<index>.bin`. */
  type Directory = map<nat, Bytes>
  type Directories = map<Hash, Directory>

  /** A directory after `chunks` were written over it; files with larger indices stay. */
  function Overlaid(dir: Directory, chunks: seq<Bytes>): Directory {
    if chunks == [] then dir
    else
      var n := |chunks| - 1;
      Overlaid(dir, chunks[..n])[n := chunks[n]]
  }

  lemma {:induction false} OverlaidAt(dir: Directory, chunks: seq<Bytes>, i: nat)
    requires i < |chunks|
    ensures i in Overlaid(dir, chunks) && Overlaid(dir, chunks)[i] == chunks[i]
  {
    if i < |chunks| - 1 {
      OverlaidAt(dir, chunks[..|chunks| - 1], i);
    }
  }

  /** Files beyond the chunks written stay, and no others appear. */
  lemma {:induction false} OverlaidKeeps(dir: Directory, chunks: seq<Bytes>, i: nat)
    requires i >= |chunks|
    ensures i in Overlaid(dir, chunks) <==> i in dir
    ensures i in dir ==> Overlaid(dir, chunks)[i] == dir[i]
  {
    if chunks != [] {
      OverlaidKeeps(dir, chunks[..|chunks| - 1], i);
    }
  }

  function Existing(dirs: Directories, id: Hash): Directory {
    if id in dirs then dirs[id] else map[]
  }

  function Persisted(dirs: Directories, id: Hash, chunks: seq<Bytes>): Directories {
    dirs[id := Overlaid(Existing(dirs, id), chunks)]
  }

  /** A directory rename: the source must exist, the target must be absent or empty. */
  function Renamed(dirs: Directories, from: Hash, to: Hash): Option<Directories> {
    if from !in dirs then None
    else if from == to then Some(dirs)
    else if Existing(dirs, to) != map[] then None
    else Some((dirs - {from})[to := dirs[from]])
  }

  function Loaded(dirs: Directories, id: Hash, index: nat): Option<Bytes> {
    if index in Existing(dirs, id) then Some(dirs[id][index]) else None
  }

  /** `load_all_chunks`: all of the first `n` files, or nothing. */
  function LoadedAll(dirs: Directories, id: Hash, n: nat): (r: Option<seq<Bytes>>)
    ensures r.Some? ==> |r.value| == n
  {
    if n == 0 then Some([])
    else
      var init := LoadedAll(dirs, id, n - 1);
      var last := Loaded(dirs, id, n - 1);
      if init.None? || last.None? then None else Some(init.value + [last.value])
  }

  lemma {:induction false} LoadedAllIs(dirs: Directories, id: Hash, chunks: seq<Bytes>)
    requires forall i | 0 <= i < |chunks| :: Loaded(dirs, id, i) == Some(chunks[i])
    ensures LoadedAll(dirs, id, |chunks|) == Some(chunks)
  {
    if chunks != [] {
      var n := |chunks| - 1;
      LoadedAllIs(dirs, id, chunks[..n]);
      assert chunks == chunks[..n] + [chunks[n]];
    }
  }

  /**
   Chunks staged under one id and promoted to another are read back in order,
   whatever stale files the staging directory held; the promotion fails only
   when the target directory already holds files.
   */
  lemma StagedChunksComeBack(dirs: Directories, staging: Hash, id: Hash, chunks: seq<Bytes>)
    ensures var staged := Persisted(dirs, staging, chunks);
            var promoted := Renamed(staged, staging, id);
            && (promoted.None? <==> staging != id && Existing(dirs, id) != map[])
            && (promoted.Some? ==> LoadedAll(promoted.value, id, |chunks|) == Some(chunks))
            && (promoted.Some? ==> forall other | other != staging && other != id ::
                  Existing(promoted.value, other) == Existing(dirs, other))
  {
    var staged := Persisted(dirs, staging, chunks);
    var promoted := Renamed(staged, staging, id);
    assert Existing(staged, id) == (if id == staging then staged[staging] else Existing(dirs, id));
    if promoted.Some? {
      forall i | 0 <= i < |chunks| ensures Loaded(promoted.value, id, i) == Some(chunks[i]) {
        OverlaidAt(Existing(dirs, staging), chunks, i);
      }
      LoadedAllIs(promoted.value, id, chunks);
    }
  }

  /** The first `n` files of `id` are all there. */
  predicate Complete(dirs: Directories, id: Hash, n: nat) {
    forall i | 0 <= i < n :: i in Existing(dirs, id)
  }

  /** Loading all chunks succeeds exactly when all files are there, and reads each under its index. */
  lemma {:induction false} LoadedAllReads(dirs: Directories, id: Hash, n: nat)
    ensures LoadedAll(dirs, id, n).Some? <==> Complete(dirs, id, n)
    ensures LoadedAll(dirs, id, n).Some? ==>
              forall i | 0 <= i < n :: LoadedAll(dirs, id, n).value[i] == Existing(dirs, id)[i]
  {
    if n > 0 {
      LoadedAllReads(dirs, id, n - 1);
      assert Complete(dirs, id, n) <==> Complete(dirs, id, n - 1) && n - 1 in Existing(dirs, id);
    }
  }

  datatype StageResult = MetadataTooLarge | EmptyPayload | Staged(root: Hash, total: nat)

  datatype CounterError = IndexOutOfBounds | StorageError | ChunkTooLarge | ProofTooDeep
  datatype CounterArguments = Rejected(error: CounterError) | Arguments(chunk: Bytes, proof: seq<Hash>)

  /**
   What the client may submit against a dispute at `index`: the chunk on disk
   with a proof that verifies against the root of all chunks on disk, within
   both on-chain bounds. Each refusal says what is wrong; a proof is too deep
   only beyond 2^32 chunks.
   */
  predicate Answers(h: HashFunction, dirs: Directories, id: Hash, index: nat, total: nat, r: CounterArguments) {
    if index >= total then r == Rejected(IndexOutOfBounds)
    else if !Complete(dirs, id, total) then r == Rejected(StorageError)
    else if |Existing(dirs, id)[index]| > MAX_CHUNK_LEN then r == Rejected(ChunkTooLarge)
    else if r.Rejected? then r == Rejected(ProofTooDeep) && total > USIZE_RANGE
    else
      && r.chunk == Existing(dirs, id)[index] && |r.proof| <= MAX_PROOF_DEPTH
      && LoadedAll(dirs, id, total).Some?
      && Verify(h, BuiltRoot(h, LoadedAll(dirs, id, total).value), index, h(r.chunk), total, r.proof)
  }

  /** `FsChunkStore`; each directory is one commitment's chunk files. */
  class FsChunkStore {
    var dirs: Directories

    constructor ()
      ensures dirs == map[]
    {
      dirs := map[];
    }

    method Persist(id: Hash, chunks: seq<Bytes>)
      modifies this
      ensures dirs == Persisted(old(dirs), id, chunks)
    {
      dirs := dirs[id := Existing(dirs, id)];
      for i := 0 to |chunks|
        invariant id in dirs && dirs == old(dirs)[id := dirs[id]]
        invariant dirs[id] == Overlaid(Existing(old(dirs), id), chunks[..i])
      {
        assert chunks[..i + 1][..i] == chunks[..i];
        dirs := dirs[id := dirs[id][i := chunks[i]]];
      }
      assert chunks[..|chunks|] == chunks;
    }

    method Rekey(oldId: Hash, newId: Hash) returns (ok: bool)
      modifies this
      ensures ok == Renamed(old(dirs), oldId, newId).Some?
      ensures dirs == if ok then Renamed(old(dirs), oldId, newId).value else old(dirs)
    {
      if oldId !in dirs {
        return false;
      }
      if oldId == newId {
        return true;
      }
      if newId in dirs && dirs[newId] != map[] {
        return false;
      }
      var moved := dirs[oldId];
      dirs := dirs - {oldId};
      dirs := dirs[newId := moved];
      return true;
    }

    /** The part of the client's `register_commitment` that runs before submission. */
    method Stage(h: HashFunction, mode: ChunkMode, payload: Bytes, metadata: Bytes) returns (r: StageResult)
      modifies this
      ensures r.MetadataTooLarge? <==> |metadata| > MAX_METADATA_LEN
      ensures r.EmptyPayload? <==> |metadata| <= MAX_METADATA_LEN && Chunked(mode, payload).None?
      ensures !r.Staged? ==> dirs == old(dirs)
      ensures r.Staged? ==> var chunks := Chunked(mode, payload).value;
                            && chunks != []
                            && r == Staged(BuiltRoot(h, chunks), |chunks|)
                            && dirs == Persisted(old(dirs), h(payload), chunks)
    {
      ChunkedIsWellChunked(mode, payload);
      if |metadata| > MAX_METADATA_LEN {
        return MetadataTooLarge;
      }
      if payload == [] {
        return EmptyPayload;
      }
      var chunks: seq<Bytes>;
      if mode == RowMode {
        var rows := SplitRows(payload);
        if rows.None? {
          return EmptyPayload;
        }
        chunks := rows.value;
      } else {
        chunks := ByteChunks(payload);
      }
      Persist(h(payload), chunks);
      return Staged(BuiltRoot(h, chunks), |chunks|);
    }

    /** The argument-building part of the client's `counter_dispute`. */
    method CounterDispute(h: HashFunction, id: Hash, index: nat, total: nat) returns (r: CounterArguments)
      ensures Answers(h, dirs, id, index, total, r)
    {
      hide Verify, BuiltRoot;
      LoadedAllReads(dirs, id, total);
      if index >= total {
        return Rejected(IndexOutOfBounds);
      }
      var chunks := LoadedAll(dirs, id, total);
      if chunks.None? {
        return Rejected(StorageError);
      }
      var target := chunks.value[index];
      if |target| > MAX_CHUNK_LEN {
        return Rejected(ChunkTooLarge);
      }
      HonestProofVerifies(h, chunks.value, index);
      var proof := GeneratedProof(h, chunks.value, index);
      if |proof| > MAX_PROOF_DEPTH {
        return Rejected(ProofTooDeep);
      }
      return Arguments(target, proof);
    }
  }

  // --------------------------------------------------------------- other client work

  /** Another registration's use of the store: its staging, or its promotion to the id the chain reported. */
  datatype Errand =
    | Staging(mode: ChunkMode, payload: Bytes)
    | Promotion(payload: Bytes, target: Hash)

  function Ran(h: HashFunction, dirs: Directories, e: Errand): Directories {
    match e
    case Staging(mode, payload) =>
      if Chunked(mode, payload).None? then dirs else Persisted(dirs, h(payload), Chunked(mode, payload).value)
    case Promotion(payload, target) =>
      if Renamed(dirs, h(payload), target).None? then dirs else Renamed(dirs, h(payload), target).value
  }

  function Tended(h: HashFunction, dirs: Directories, errands: seq<Errand>): Directories {
    if errands == [] then dirs else Ran(h, Tended(h, dirs, errands[..|errands| - 1]), errands[|errands| - 1])
  }

  /** Files stay as they are through any work whose payloads do not hash to their id. */
  lemma {:induction false} FilesStay(h: HashFunction, dirs: Directories, errands: seq<Errand>, id: Hash)
    requires Existing(dirs, id) != map[]
    requires forall e | e in errands :: h(e.payload) != id
    ensures Existing(Tended(h, dirs, errands), id) == Existing(dirs, id)
  {
    if errands != [] {
      FilesStay(h, dirs, errands[..|errands| - 1], id);
    }
  }

  /** An id no work stages or promotes to stays free. */
  lemma {:induction false} StaysFree(h: HashFunction, dirs: Directories, errands: seq<Errand>, id: Hash)
    requires Existing(dirs, id) == map[]
    requires forall e | e in errands :: h(e.payload) != id && (e.Promotion? ==> e.target != id)
    ensures Existing(Tended(h, dirs, errands), id) == map[]
  {
    if errands != [] {
      StaysFree(h, dirs, errands[..|errands| - 1], id);
    }
  }

  /** Staging, the work done while the registration is in flight, and promotion to the id the chain reported. */
  function Promoted(h: HashFunction, dirs: Directories, payload: Bytes, chunks: seq<Bytes>, inFlight: seq<Errand>,
                    id: Hash): Option<Directories>
  {
    Renamed(Tended(h, Persisted(dirs, h(payload), chunks), inFlight), h(payload), id)
  }

  /** No work in flight uses the staging directory or takes the id. */
  predicate KeepsClear(h: HashFunction, inFlight: seq<Errand>, staging: Hash, id: Hash) {
    forall e | e in inFlight ::
      h(e.payload) != staging && h(e.payload) != id && (e.Promotion? ==> e.target != id)
  }

  lemma PromotionSucceeds(h: HashFunction, dirs: Directories, payload: Bytes, chunks: seq<Bytes>, inFlight: seq<Errand>,
                          id: Hash)
    requires chunks != [] && KeepsClear(h, inFlight, h(payload), id)
    requires h(payload) == id || Existing(dirs, id) == map[]
    ensures var promoted := Promoted(h, dirs, payload, chunks, inFlight, id);
            promoted.Some? && Existing(promoted.value, id) == Overlaid(Existing(dirs, h(payload)), chunks)
  {
    var staged := Persisted(dirs, h(payload), chunks);
    OverlaidAt(Existing(dirs, h(payload)), chunks, 0);
    FilesStay(h, staged, inFlight, h(payload));
    if h(payload) != id {
      StaysFree(h, staged, inFlight, id);
    }
  }

  /**
   Two registrations of one payload in flight share a staging directory: once
   the first is promoted, the second promotion finds nothing to move.
   */
  lemma SharedStagingIsLost(h: HashFunction, dirs: Directories, payload: Bytes, chunks: seq<Bytes>, mode: ChunkMode,
                            other: Hash, id: Hash)
    requires other != h(payload) && Existing(dirs, other) == map[]
    ensures Promoted(h, dirs, payload, chunks, [Staging(mode, payload), Promotion(payload, other)], id).None?
  {
    var staged, first, second := Persisted(dirs, h(payload), chunks), Staging(mode, payload), Promotion(payload, other);
    assert [first, second][..1] == [first] && [first][..0] == [];
    var restaged := Ran(h, staged, first);
    assert Tended(h, staged, [first]) == restaged;
    assert Tended(h, staged, [first, second]) == Ran(h, restaged, second);
    assert h(payload) in restaged && Existing(restaged, other) == map[];
  }

  /**
   The client's whole path: what was chunked, staged and promoted at
   registration answers a dispute at any index with arguments that fit the
   on-chain bounds and verify against the root submitted at registration,
   whatever the store was used for before, between and after.
   */
  lemma StagedPayloadAnswersEveryDispute(h: HashFunction, dirs: Directories, mode: ChunkMode, payload: Bytes,
                                         inFlight: seq<Errand>, id: Hash, errands: seq<Errand>, index: nat,
                                         r: CounterArguments)
    requires Chunked(mode, payload).Some?
    requires index < |Chunked(mode, payload).value| < USIZE_RANGE
    requires h(payload) == id || Existing(dirs, id) == map[]
    requires KeepsClear(h, inFlight, h(payload), id)
    requires forall e | e in errands :: h(e.payload) != id
    ensures var chunks := Chunked(mode, payload).value;
            var promoted := Promoted(h, dirs, payload, chunks, inFlight, id);
            && promoted.Some?
            && (Answers(h, Tended(h, promoted.value, errands), id, index, |chunks|, r) ==>
                  && r.Arguments? && r.chunk == chunks[index]
                  && |r.chunk| <= MAX_CHUNK_LEN && |r.proof| <= MAX_PROOF_DEPTH
                  && Verify(h, BuiltRoot(h, chunks), index, h(r.chunk), |chunks|, r.proof))
  {
    hide Verify, BuiltRoot, Promoted, Ran;
    var chunks := Chunked(mode, payload).value;
    ChunkedIsWellChunked(mode, payload);
    PromotionSucceeds(h, dirs, payload, chunks, inFlight, id);
    var promoted := Promoted(h, dirs, payload, chunks, inFlight, id).value;
    forall i | 0 <= i < |chunks| ensures i in Existing(promoted, id) && Existing(promoted, id)[i] == chunks[i] {
      OverlaidAt(Existing(dirs, h(payload)), chunks, i);
    }
    assert 0 in Existing(promoted, id);
    FilesStay(h, promoted, errands, id);
    var later := Tended(h, promoted, errands);
    LoadedAllReads(later, id, |chunks|);
    assert LoadedAll(later, id, |chunks|).value == chunks;
  }
}
