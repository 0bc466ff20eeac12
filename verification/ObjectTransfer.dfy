/** The client's upload and download loops over the object store. */
module ObjectTransfer {
  import opened Basics
  import opened ObjectStore

  datatype ClientError =
    | WRITE_REJECTED | CHUNK_REJECTED | READ_REJECTED | CHUNK_READ_REJECTED | BAD_CHUNK | INTEGRITY_MISMATCH
    | CONNECTION_LOST  // the server closed the connection instead of answering

  /** What the client makes of an error answer. */
  function Rejected(e: StoreError, as_: ClientError): ClientError {
    if e == OS_ERROR then CONNECTION_LOST else as_
  }

  /** Chunk k of data. */
  function ChunkOf(data: bytes, k: nat): bytes {
    ReadAt(data, k * CHUNK_SIZE, CHUNK_SIZE)
  }

  /** How many chunks data is sent in. */
  function ChunkCount(data: bytes): nat {
    (|data| + CHUNK_SIZE - 1) / CHUNK_SIZE
  }

  /** The shelf after a fresh object was created and its first k chunks were taken in. */
  function Uploading(sha: Sha, s: Shelf, id: Uuid, fileType: bytes, about: bytes, data: bytes, k: nat): Shelf
    decreases k
  {
    if k == 0 then Created(s, id, fileType, |data|, about).0
    else TakenIn(sha, Uploading(sha, s, id, fileType, about, data, k - 1), true, id, ChunkOf(data, k - 1)).0
  }

  /** That shelf, spelled out: the file holds the first k chunks, and the object is finalized at
      exactly the last one. */
  function Holding(sha: Sha, s: Shelf, id: Uuid, fileType: bytes, about: bytes, data: bytes, k: nat): Shelf {
    var sent := data[..Min(|data|, k * CHUNK_SIZE)];
    var info := Info(fileType, |data|, about, if k > 0 && k == ChunkCount(data) then sha(data) else []);
    Shelf(s.rows[id := info], if k == 0 then s.files else s.files[id := sent])
  }

  /** A place where an object can be made: no row and no file. */
  predicate Free(s: Shelf, id: Uuid) {
    id !in s.rows && id !in s.files
  }

  /** After k chunks the file is the data's first k chunks; only the last chunk finalizes. */
  lemma {:induction false} UploadStates(sha: Sha, s: Shelf, id: Uuid, fileType: bytes, about: bytes, data: bytes,
                                        k: nat)
    requires Free(s, id) && k <= ChunkCount(data)
    ensures Uploading(sha, s, id, fileType, about, data, k) == Holding(sha, s, id, fileType, about, data, k)
    ensures k > 0 ==> TakenIn(sha, Uploading(sha, s, id, fileType, about, data, k - 1), true, id,
                              ChunkOf(data, k - 1)).1.Ok?
    decreases k
  {
    if k > 0 {
      UploadStates(sha, s, id, fileType, about, data, k - 1);
      HoldingOneMore(sha, s, id, fileType, about, data, k - 1);
    }
  }

  lemma {:induction false} HoldingOneMore(sha: Sha, s: Shelf, id: Uuid, fileType: bytes, about: bytes, data: bytes,
                                          k: nat)
    requires Free(s, id) && k < ChunkCount(data)
    ensures var (t, r) := TakenIn(sha, Holding(sha, s, id, fileType, about, data, k), true, id, ChunkOf(data, k));
      t == Holding(sha, s, id, fileType, about, data, k + 1) && r.Ok?
  {
    var before := Holding(sha, s, id, fileType, about, data, k);
    NextChunk(data, k);
    TakesIn(sha, before, id, data, k);
    var t := TakenIn(sha, before, true, id, ChunkOf(data, k)).0;
    assert t.rows == Holding(sha, s, id, fileType, about, data, k + 1).rows;
    assert t.files == Holding(sha, s, id, fileType, about, data, k + 1).files;
  }

  lemma {:induction false} NextChunk(data: bytes, k: nat)
    requires k < ChunkCount(data)
    ensures k * CHUNK_SIZE < |data|
    ensures data[..k * CHUNK_SIZE] + ChunkOf(data, k) == data[..Min(|data|, (k + 1) * CHUNK_SIZE)]
    ensures (k + 1) * CHUNK_SIZE >= |data| <==> k + 1 == ChunkCount(data)
  {
  }

  lemma {:induction false} TakesIn(sha: Sha, s: Shelf, id: Uuid, data: bytes, k: nat)
    requires k < ChunkCount(data) && id in s.rows && s.rows[id].integrity == [] && s.rows[id].fileSize == |data|
    requires Contents(s, id) == data[..Min(|data|, k * CHUNK_SIZE)]
    ensures TakenIn(sha, s, true, id, ChunkOf(data, k)).1.Ok?
    ensures var t := TakenIn(sha, s, true, id, ChunkOf(data, k)).0;
      && t.files == s.files[id := data[..Min(|data|, (k + 1) * CHUNK_SIZE)]]
      && t.rows == if k + 1 == ChunkCount(data) then s.rows[id := s.rows[id].(integrity := sha(data))] else s.rows
  {
    NextChunk(data, k);
    if k + 1 == ChunkCount(data) {
      assert data[..|data|] == data;
    }
  }

  /** What the upload loop does from chunk k on, from any state of the store: it stops at the first
      chunk that is refused. */
  function Streamed(sha: Sha, s: Shelf, allowed: bool, id: Uuid, data: bytes, k: nat)
    : (Shelf, Result<(), ClientError>)
    decreases |data| - k * CHUNK_SIZE
  {
    if k * CHUNK_SIZE >= |data| then (s, Ok(()))
    else
      match TakenIn(sha, s, allowed, id, ChunkOf(data, k))
      case (t, Raised(e)) => (t, Raised(Rejected(e, CHUNK_REJECTED)))
      case (t, Ok(_)) => Streamed(sha, t, allowed, id, data, k + 1)
  }

  /** What writing an object does, from any state of the store. */
  function WriteOutcome(sha: Sha, s: Shelf, allowed: bool, id: Uuid, fileType: bytes, data: bytes, about: bytes)
    : (Shelf, Result<(), ClientError>)
  {
    if !allowed || id in s.rows then (s, Raised(WRITE_REJECTED))
    else Streamed(sha, Created(s, id, fileType, |data|, about).0, allowed, id, data, 0)
  }

  lemma {:induction false} StreamOne(sha: Sha, s: Shelf, allowed: bool, id: Uuid, data: bytes, k: nat, t: Shelf)
    requires k * CHUNK_SIZE < |data|
    requires TakenIn(sha, s, allowed, id, ChunkOf(data, k)).0 == t
    requires TakenIn(sha, s, allowed, id, ChunkOf(data, k)).1.Ok?
    ensures Streamed(sha, s, allowed, id, data, k) == Streamed(sha, t, allowed, id, data, k + 1)
  {
  }

  lemma {:induction false} StreamEnd(sha: Sha, s: Shelf, allowed: bool, id: Uuid, data: bytes)
    ensures Streamed(sha, s, allowed, id, data, ChunkCount(data)) == (s, Ok(()))
  {
  }

  /** On a free place no chunk is refused. */
  lemma {:induction false} StreamsThrough(sha: Sha, s: Shelf, id: Uuid, fileType: bytes, about: bytes, data: bytes,
                                          k: nat, t: Shelf)
    requires Free(s, id) && k <= ChunkCount(data) && t == Holding(sha, s, id, fileType, about, data, k)
    ensures Streamed(sha, t, true, id, data, k)
         == (Holding(sha, s, id, fileType, about, data, ChunkCount(data)), Ok(()))
    decreases ChunkCount(data) - k
  {
    if k == ChunkCount(data) {
      StreamEnd(sha, t, true, id, data);
    } else {
      NextChunk(data, k);
      HoldingOneMore(sha, s, id, fileType, about, data, k);
      var next := Holding(sha, s, id, fileType, about, data, k + 1);
      StreamOne(sha, t, true, id, data, k, next);
      StreamsThrough(sha, s, id, fileType, about, data, k + 1, next);
    }
  }

  /** What reading an object returns, from any state of the store. */
  function ReadOutcome(sha: Sha, s: Shelf, allowed: bool, id: Uuid): Result<bytes, ClientError> {
    if !allowed || id !in s.rows then Raised(READ_REJECTED)
    else
      var info := s.rows[id];
      if info.fileSize <= 0 then Verified(sha, [], info.integrity)
      else if id !in s.files then Raised(CONNECTION_LOST)
      else if |s.files[id]| < info.fileSize then Raised(CHUNK_READ_REJECTED)
      else Verified(sha, s.files[id][..Min(|s.files[id]|, RoundUp(info.fileSize))], info.integrity)
  }

  /** The size of the chunks that cover n bytes. */
  function RoundUp(n: nat): nat {
    (n + CHUNK_SIZE - 1) / CHUNK_SIZE * CHUNK_SIZE
  }

  /** The content, checked against the digest when there is one. */
  function Verified(sha: Sha, content: bytes, expected: bytes): Result<bytes, ClientError> {
    if expected != [] && sha(content) != expected then Raised(INTEGRITY_MISMATCH) else Ok(content)
  }

  /** The object is the same in both: row, file, or neither. */
  ghost predicate Same(s: Shelf, t: Shelf, id: Uuid) {
    && (id in t.rows <==> id in s.rows) && (id in s.rows ==> t.rows[id] == s.rows[id])
    && (id in t.files <==> id in s.files) && (id in s.files ==> t.files[id] == s.files[id])
  }

  /** The round trip, for every byte string: what was uploaded is what reading returns; the object is
      finalized with its last chunk, and never when there is none. */
  lemma {:induction false} UploadThenRead(sha: Sha, s: Shelf, id: Uuid, fileType: bytes, about: bytes, data: bytes)
    requires Free(s, id)
    ensures var (t, r) := WriteOutcome(sha, s, true, id, fileType, data, about);
      && r == Ok(())
      && ReadOutcome(sha, t, true, id) == Ok(data)
      && id in t.rows && t.rows[id] == Info(fileType, |data|, about, if data == [] then [] else sha(data))
      && (forall other :: other != id ==> Same(s, t, other))
  {
    StreamsThrough(sha, s, id, fileType, about, data, 0, Created(s, id, fileType, |data|, about).0);
    if data != [] {
      NextChunk(data, ChunkCount(data) - 1);
      assert data[..|data|] == data;
    }
  }

  /** Before its last chunk an object cannot be read: the client gets an error, never a part of it. */
  lemma {:induction false} PartialNeverRead(sha: Sha, s: Shelf, id: Uuid, fileType: bytes, about: bytes, data: bytes,
                                            k: nat)
    requires Free(s, id) && k < ChunkCount(data)
    ensures ReadOutcome(sha, Uploading(sha, s, id, fileType, about, data, k), true, id).Raised?
  {
    UploadStates(sha, s, id, fileType, about, data, k);
    NextChunk(data, k);
  }

  /** Reading an object of a sound store: one declared empty gives nothing; a finalized one gives its
      whole file; one still short of its declared size gives an error; one that is not finalized but has
      that many bytes gives, unverified, the chunks that cover the declared size, which may be more bytes
      than that. The digest never fails to match. */
  lemma {:induction false} ReadOfSound(sha: Sha, s: Shelf, a: Arrivals, id: Uuid)
    requires Sound(sha, s, a) && id in s.rows
    ensures var r, size := ReadOutcome(sha, s, true, id), s.rows[id].fileSize;
      && (size <= 0 ==> r == Ok([]))
      && (size > 0 ==> (r.Ok? <==> id in s.files && |s.files[id]| >= size))
      && (s.rows[id].integrity != [] ==> r == Ok(s.files[id]))
      && (size > 0 && r.Ok? && s.rows[id].integrity == [] ==>
            r.value == s.files[id][..Min(|s.files[id]|, RoundUp(size))] && |r.value| >= size
            && (Complete(s) ==> |s.files[id]| > size))
      && r != Raised(INTEGRITY_MISMATCH)
  {
    assert ObjectOk(sha, s, a, id);
    if s.rows[id].fileSize <= 0 && s.rows[id].integrity != [] {
      assert s.files[id] == [];
    } else if id in s.files && |s.files[id]| >= s.rows[id].fileSize > 0 {
      var file := s.files[id];
      assert RoundUp(s.rows[id].fileSize) >= s.rows[id].fileSize;
      assert file[..|file|] == file;
    }
  }

  class Client {
    const store: Store
    /** Whether the server's permissions let this client read and write the object. */
    const mayRead: bool
    const mayWrite: bool

    constructor (store: Store, mayRead: bool, mayWrite: bool)
      ensures this.store == store && this.mayRead == mayRead && this.mayWrite == mayWrite
    {
      this.store, this.mayRead, this.mayWrite := store, mayRead, mayWrite;
    }

    method SendChunk(id: Uuid, index: int, chunk: bytes) returns (r: Result<Info, ClientError>)
      modifies store
      ensures match TakenIn(store.sha, old(store.Value()), mayWrite, id, chunk)
        case (t, Ok(info)) => store.Value() == t && r == Ok(info)
        case (t, Raised(e)) => store.Value() == t && r == Raised(Rejected(e, CHUNK_REJECTED))
    {
      var taken := HandleObjChunk(store, mayWrite, id, index, chunk);
      r := if taken.Ok? then Ok(taken.value) else Raised(Rejected(taken.error, CHUNK_REJECTED));
    }

    /** Create an object and stream all its chunks. */
    method WriteObject(id: Uuid, fileType: bytes, data: bytes, about: bytes) returns (r: Result<(), ClientError>)
      modifies store
      ensures (store.Value(), r) == WriteOutcome(store.sha, old(store.Value()), mayWrite, id, fileType, data, about)
    {
      ghost var s := store.Value();
      var created := HandleWrite(store, mayWrite, Some(id), fileType, |data|, about);
      if created.Raised? { return Raised(Rejected(created.error, WRITE_REJECTED)); }
      var index := 0;
      ghost var k: nat := 0;
      while index < |data|
        invariant index == k * CHUNK_SIZE
        invariant WriteOutcome(store.sha, s, mayWrite, id, fileType, data, about)
               == Streamed(store.sha, store.Value(), mayWrite, id, data, k)
      {
        var chunk := data[index..Min(index + CHUNK_SIZE, |data|)];
        assert chunk == ChunkOf(data, k);
        var sent := SendChunk(id, index / CHUNK_SIZE, chunk);
        if sent.Raised? { return Raised(sent.error); }
        index := index + CHUNK_SIZE;
        k := k + 1;
      }
      r := Ok(());
    }

    method RequestChunk(id: Uuid, index: nat) returns (r: Result<bytes, ClientError>)
      ensures !mayRead ==> r == Raised(CHUNK_READ_REJECTED)
      ensures mayRead ==>
        r == match ChunkAt(store.Value(), id, index, CHUNK_SIZE)
             case Raised(e) => Raised(Rejected(e, CHUNK_READ_REJECTED))
             case Ok(data) => if data == [] then Raised(CHUNK_READ_REJECTED) else Ok(data)
    {
      var reply := HandleReadChunk(store, mayRead, Some(id), index);
      if reply.Raised? { return Raised(Rejected(reply.error, CHUNK_READ_REJECTED)); }
      if reply.value.object_ != id || reply.value.index != index { return Raised(BAD_CHUNK); }
      r := Ok(reply.value.data);
    }

    /** Fetch an object's chunks until its declared size is reached, and check the digest. */
    method ReadObject(id: Uuid) returns (r: Result<bytes, ClientError>)
      ensures r == ReadOutcome(store.sha, store.Value(), mayRead, id)
    {
      var info := HandleRead(store, mayRead, Some(id));
      if info.Raised? { return Raised(Rejected(info.error, READ_REJECTED)); }
      var expected, size := info.value.integrity, info.value.fileSize;
      var data: bytes := [];
      var index: nat := 0;
      while |data| < size
        invariant index > 0 ==> id in store.files
        invariant index == 0 ==> data == []
        invariant index > 0 ==> data == store.files[id][..Min(|store.files[id]|, index * CHUNK_SIZE)]
        invariant index > 0 ==> (index - 1) * CHUNK_SIZE < size
        decreases size - |data|
      {
        var chunk := RequestChunk(id, index);
        if chunk.Raised? { return Raised(chunk.error); }
        if chunk.value == [] { break; }
        data := data + chunk.value;
        index := index + 1;
      }
      if expected != [] {
        var digest := store.sha(data);
        if digest != expected { return Raised(INTEGRITY_MISMATCH); }
      }
      r := Ok(data);
    }
  }
}
