/** The server's object store: rows that describe objects, files that chunks are appended to in the
    order they arrive, and the handlers that create, fill, finalize and read them. */
module ObjectStore {
  import opened Basics

  /** The 64 hexadecimal digits of a SHA-256 digest; in particular never empty. */
  type Digest = b: bytes | |b| == 64
    witness ZERO64

  const ZERO64: bytes := ZERO32 + ZERO32
  const ZERO32: bytes := [48, 48, 48, 48, 48, 48, 48, 48, 48, 48, 48, 48, 48, 48, 48, 48,
                          48, 48, 48, 48, 48, 48, 48, 48, 48, 48, 48, 48, 48, 48, 48, 48]

  /** SHA-256 as hexadecimal text, left uninterpreted. */
  type Sha = bytes -> Digest

  /** An object's row; integrity is empty until the object is finalized. */
  datatype Info = Info(fileType: bytes, fileSize: int, about: bytes, integrity: bytes)

  datatype Shelf = Shelf(rows: map<Uuid, Info>, files: map<Uuid, bytes>)

  datatype StoreError =
    | ALREADY_EXISTS | NOT_FOUND | FINALIZED | INTEGRITY_FAILURE | FORBIDDEN | BAD_REQUEST
    | OS_ERROR  // a missing file; the only one that is not an ObjectStoreError

  const CHUNK_SIZE := 65536

  // ------------------------------------------------------------------
  // the operations as functions
  // ------------------------------------------------------------------

  function Contents(s: Shelf, id: Uuid): bytes {
    if id in s.files then s.files[id] else []
  }

  function Created(s: Shelf, id: Uuid, fileType: bytes, fileSize: int, about: bytes)
    : (Shelf, Result<Info, StoreError>)
  {
    if id in s.rows then (s, Raised(ALREADY_EXISTS))
    else
      var info := Info(fileType, fileSize, about, []);
      (s.(rows := s.rows[id := info]), Ok(info))
  }

  function Appended(s: Shelf, id: Uuid, data: bytes): (Shelf, Result<(), StoreError>) {
    if id !in s.rows then (s, Raised(NOT_FOUND))
    else if s.rows[id].integrity != [] then (s, Raised(FINALIZED))
    else (s.(files := s.files[id := Contents(s, id) + data]), Ok(()))
  }

  function Finalized(sha: Sha, s: Shelf, id: Uuid): (Shelf, Result<Info, StoreError>) {
    if id !in s.rows then (s, Raised(NOT_FOUND))
    else if s.rows[id].integrity != [] then (s, Ok(s.rows[id]))
    else if id !in s.files then (s, Raised(OS_ERROR))
    else if |s.files[id]| != s.rows[id].fileSize then (s, Raised(INTEGRITY_FAILURE))
    else
      var info := s.rows[id].(integrity := sha(s.files[id]));
      (s.(rows := s.rows[id := info]), Ok(info))
  }

  function Deleted(s: Shelf, id: Uuid): Shelf {
    Shelf(s.rows - {id}, s.files - {id})
  }

  /** Up to size bytes from an offset; nothing past the end. */
  function ReadAt(file: bytes, offset: nat, size: nat): bytes {
    if offset >= |file| then [] else if offset + size <= |file| then file[offset..offset + size] else file[offset..]
  }

  function ChunkAt(s: Shelf, id: Uuid, index: nat, size: nat): Result<bytes, StoreError> {
    if id !in s.rows then Raised(NOT_FOUND)
    else if id !in s.files then Raised(OS_ERROR)
    else Ok(ReadAt(s.files[id], index * size, size))
  }

  /** One chunk taken in: appended, and the object finalized when it has its size. The answer is the
      row as it was before finalizing. */
  function TakenIn(sha: Sha, s: Shelf, allowed: bool, id: Uuid, data: bytes): (Shelf, Result<Info, StoreError>) {
    if !allowed then (s, Raised(FORBIDDEN))
    else
      match Appended(s, id, data)
      case (_, Raised(e)) => (s, Raised(e))
      case (t, Ok(_)) =>
        var info := s.rows[id];
        if |t.files[id]| >= info.fileSize then
          match Finalized(sha, t, id)
          case (u, Ok(_)) => (u, Ok(info))
          case (u, Raised(e)) => (u, Raised(e))
        else (t, Ok(info))
  }

  class Store {
    const sha: Sha
    var rows: map<Uuid, Info>
    var files: map<Uuid, bytes>

    function Value(): Shelf
      reads this
    {
      Shelf(rows, files)
    }

    constructor (sha: Sha)
      ensures this.sha == sha && Value() == Shelf(map[], map[])
    {
      this.sha, rows, files := sha, map[], map[];
    }

    method Create(id: Uuid, fileType: bytes, fileSize: int, about: bytes) returns (r: Result<Info, StoreError>)
      modifies this
      ensures (Value(), r) == Created(old(Value()), id, fileType, fileSize, about)
    {
      if id in rows { return Raised(ALREADY_EXISTS); }
      rows := rows[id := Info(fileType, fileSize, about, [])];
      r := GetInfo(id);
    }

    method GetInfo(id: Uuid) returns (r: Result<Info, StoreError>)
      ensures r == if id in rows then Ok(rows[id]) else Raised(NOT_FOUND)
    {
      r := if id in rows then Ok(rows[id]) else Raised(NOT_FOUND);
    }

    method WriteChunk(id: Uuid, index: int, data: bytes) returns (r: Result<(), StoreError>)
      modifies this
      ensures (Value(), r) == Appended(old(Value()), id, data)
    {
      var info := GetInfo(id);
      if info.Raised? { return Raised(info.error); }
      if info.value.integrity != [] { return Raised(FINALIZED); }
      files := files[id := (if id in files then files[id] else []) + data];
      r := Ok(());
    }

    method ReadChunk(id: Uuid, index: nat, size: nat) returns (r: Result<bytes, StoreError>)
      ensures r == ChunkAt(Value(), id, index, size)
    {
      var info := GetInfo(id);
      if info.Raised? { return Raised(info.error); }
      if id !in files { return Raised(OS_ERROR); }
      r := Ok(ReadAt(files[id], index * size, size));
    }

    method Finalize(id: Uuid) returns (r: Result<Info, StoreError>)
      modifies this
      ensures (Value(), r) == Finalized(sha, old(Value()), id)
    {
      var info := GetInfo(id);
      if info.Raised? || info.value.integrity != [] { return info; }
      if id !in files { return Raised(OS_ERROR); }
      var digest := sha(files[id]);
      if |files[id]| != info.value.fileSize { return Raised(INTEGRITY_FAILURE); }
      rows := rows[id := info.value.(integrity := digest)];
      r := GetInfo(id);
    }

    method Delete(id: Uuid)
      modifies this
      ensures Value() == Deleted(old(Value()), id)
    {
      if id in files {
        files := files - {id};
      }
      rows := rows - {id};
      assert files == old(files) - {id};
    }
  }

  // ------------------------------------------------------------------
  // the handlers
  // ------------------------------------------------------------------

  method HandleWrite(store: Store, allowed: bool, id: Option<Uuid>, fileType: bytes, fileSize: int, about: bytes)
    returns (r: Result<Info, StoreError>)
    modifies store
    ensures (store.Value(), r) ==
      if id.None? then (old(store.Value()), Raised(BAD_REQUEST))
      else if !allowed then (old(store.Value()), Raised(FORBIDDEN))
      else Created(old(store.Value()), id.value, fileType, fileSize, about)
  {
    if id.None? { return Raised(BAD_REQUEST); }
    if !allowed { return Raised(FORBIDDEN); }
    r := store.Create(id.value, fileType, fileSize, about);
  }

  method HandleObjChunk(store: Store, allowed: bool, id: Uuid, index: int, data: bytes)
    returns (r: Result<Info, StoreError>)
    modifies store
    ensures (store.Value(), r) == TakenIn(store.sha, old(store.Value()), allowed, id, data)
  {
    if !allowed { return Raised(FORBIDDEN); }
    var written := store.WriteChunk(id, index, data);
    if written.Raised? { return Raised(written.error); }
    var info := store.GetInfo(id);
    if |store.files[id]| >= info.value.fileSize {
      var done := store.Finalize(id);
      if done.Raised? { return Raised(done.error); }
    }
    r := info;
  }

  method HandleRead(store: Store, allowed: bool, id: Option<Uuid>) returns (r: Result<Info, StoreError>)
    ensures r == if id.None? then Raised(BAD_REQUEST)
                 else if !allowed then Raised(FORBIDDEN)
                 else if id.value in store.rows then Ok(store.rows[id.value])
                 else Raised(NOT_FOUND)
  {
    if id.None? { return Raised(BAD_REQUEST); }
    if !allowed { return Raised(FORBIDDEN); }
    r := store.GetInfo(id.value);
  }

  /** What a chunk is sent back with. */
  datatype ChunkReply = ChunkReply(object_: Uuid, index: int, data: bytes)

  /** A chunk past the end is an error, not an empty answer. */
  method HandleReadChunk(store: Store, allowed: bool, id: Option<Uuid>, index: nat)
    returns (r: Result<ChunkReply, StoreError>)
    ensures id.None? ==> r == Raised(BAD_REQUEST)
    ensures id.Some? && !allowed ==> r == Raised(FORBIDDEN)
    ensures id.Some? && allowed ==>
      r == match ChunkAt(store.Value(), id.value, index, CHUNK_SIZE)
           case Raised(e) => Raised(e)
           case Ok(data) => if data == [] then Raised(NOT_FOUND) else Ok(ChunkReply(id.value, index, data))
  {
    if id.None? { return Raised(BAD_REQUEST); }
    if !allowed { return Raised(FORBIDDEN); }
    var data := store.ReadChunk(id.value, index, CHUNK_SIZE);
    if data.Raised? { return Raised(data.error); }
    if data.value == [] { return Raised(NOT_FOUND); }
    r := Ok(ChunkReply(id.value, index, data.value));
  }

  // ------------------------------------------------------------------
  // what any interleaving of the store's operations keeps
  // ------------------------------------------------------------------

  /** The store's operations, each atomic, in any order and on any number of objects. */
  datatype Step =
    | Create(id: Uuid, fileType: bytes, fileSize: int, about: bytes)
    | Append(id: Uuid, data: bytes)
    | Finalize(id: Uuid)
    | Remove(id: Uuid)

  function After(sha: Sha, s: Shelf, step: Step): Shelf {
    match step
    case Create(id, ft, size, about) => Created(s, id, ft, size, about).0
    case Append(id, data) => Appended(s, id, data).0
    case Finalize(id) => Finalized(sha, s, id).0
    case Remove(id) => Deleted(s, id)
  }

  function Run(sha: Sha, s: Shelf, steps: seq<Step>): Shelf
    decreases steps
  {
    if steps == [] then s else Run(sha, After(sha, s, steps[0]), steps[1..])
  }

  /** The chunks of each object accepted since it was created, in the order they arrived. */
  type Arrivals = map<Uuid, seq<bytes>>

  function Noted(s: Shelf, a: Arrivals, step: Step): Arrivals {
    match step
    case Create(id, _, _, _) => if id in s.rows then a else a[id := []]
    case Append(id, data) =>
      if Appended(s, id, data).1.Ok? && id in a then a[id := a[id] + [data]] else a
    case Finalize(_) => a
    case Remove(id) => a - {id}
  }

  function NotedRun(sha: Sha, s: Shelf, a: Arrivals, steps: seq<Step>): Arrivals
    decreases steps
  {
    if steps == [] then a else NotedRun(sha, After(sha, s, steps[0]), Noted(s, a, steps[0]), steps[1..])
  }

  function Flatten(chunks: seq<bytes>): bytes {
    if chunks == [] then [] else Flatten(chunks[..|chunks| - 1]) + chunks[|chunks| - 1]
  }

  /** One object: its file is its accepted chunks in order of arrival, it has a file as soon as it has
      a chunk, and when it is finalized its file has the declared size and digest. */
  ghost predicate ObjectOk(sha: Sha, s: Shelf, a: Arrivals, id: Uuid)
    requires id in s.rows && id in a
  {
    && Contents(s, id) == Flatten(a[id])
    && (id in s.files <==> a[id] != [])
    && (s.rows[id].integrity != [] ==>
          id in s.files && |s.files[id]| == s.rows[id].fileSize && s.rows[id].integrity == sha(s.files[id]))
  }

  /** A file exists only if its row does, and every object is as it should be. */
  ghost predicate Sound(sha: Sha, s: Shelf, a: Arrivals) {
    s.files.Keys <= s.rows.Keys == a.Keys && forall id :: id in s.rows ==> ObjectOk(sha, s, a, id)
  }

  lemma {:induction false} FlattenSnoc(chunks: seq<bytes>, c: bytes)
    ensures Flatten(chunks + [c]) == Flatten(chunks) + c
  {
  }

  lemma {:induction false} OthersKept(sha: Sha, s: Shelf, a: Arrivals, step: Step, id: Uuid)
    requires Sound(sha, s, a) && id in s.rows && id != step.id
    ensures var t, b := After(sha, s, step), Noted(s, a, step);
      && id in t.rows && t.rows[id] == s.rows[id] && id in b && b[id] == a[id]
      && (id in t.files <==> id in s.files) && Contents(t, id) == Contents(s, id)
  {
  }

  lemma {:induction false} AppendSound(sha: Sha, s: Shelf, a: Arrivals, id: Uuid, data: bytes)
    requires Sound(sha, s, a) && id in s.rows
    ensures var t, b := After(sha, s, Append(id, data)), Noted(s, a, Append(id, data));
      id in t.rows && id in b && ObjectOk(sha, t, b, id)
  {
    FlattenSnoc(a[id], data);
  }

  /** The object a step is about, when it is still there afterwards. */
  lemma {:induction false} OwnStepSound(sha: Sha, s: Shelf, a: Arrivals, step: Step)
    requires Sound(sha, s, a)
    ensures var t, b := After(sha, s, step), Noted(s, a, step);
      step.id in t.rows ==> step.id in b && ObjectOk(sha, t, b, step.id)
  {
    match step
    case Append(id, data) => if id in s.rows { AppendSound(sha, s, a, id, data); }
    case Create(id, _, _, _) => assert id in s.rows ==> ObjectOk(sha, s, a, id);
    case Finalize(id) => assert id in s.rows ==> ObjectOk(sha, s, a, id);
    case Remove(_) =>
  }

  lemma {:induction false} OtherStepSound(sha: Sha, s: Shelf, a: Arrivals, step: Step, id: Uuid)
    requires Sound(sha, s, a) && id != step.id && id in After(sha, s, step).rows
    ensures id in Noted(s, a, step) && ObjectOk(sha, After(sha, s, step), Noted(s, a, step), id)
  {
    assert id in s.rows && ObjectOk(sha, s, a, id);
    OthersKept(sha, s, a, step, id);
    var t := After(sha, s, step);
    assert id in t.files ==> t.files[id] == Contents(t, id);
  }

  lemma {:induction false} StepKeys(sha: Sha, s: Shelf, a: Arrivals, step: Step)
    requires s.files.Keys <= s.rows.Keys == a.Keys
    ensures After(sha, s, step).files.Keys <= After(sha, s, step).rows.Keys == Noted(s, a, step).Keys
  {
  }

  lemma {:induction false} StepSound(sha: Sha, s: Shelf, a: Arrivals, step: Step)
    requires Sound(sha, s, a)
    ensures Sound(sha, After(sha, s, step), Noted(s, a, step))
  {
    StepKeys(sha, s, a, step);
    forall id | id in After(sha, s, step).rows
      ensures id in Noted(s, a, step) && ObjectOk(sha, After(sha, s, step), Noted(s, a, step), id)
    {
      if id == step.id {
        OwnStepSound(sha, s, a, step);
      } else {
        OtherStepSound(sha, s, a, step, id);
      }
    }
  }

  /** The store invariant under any interleaving of the store's operations on any number of objects. */
  lemma {:induction false} StoreInvariant(sha: Sha, s: Shelf, a: Arrivals, steps: seq<Step>)
    requires Sound(sha, s, a)
    ensures Sound(sha, Run(sha, s, steps), NotedRun(sha, s, a, steps))
    decreases steps
  {
    if steps != [] {
      StepSound(sha, s, a, steps[0]);
      StoreInvariant(sha, After(sha, s, steps[0]), Noted(s, a, steps[0]), steps[1..]);
    }
  }

  /** A finalized object is frozen until it is deleted. */
  lemma {:induction false} FinalizedIsFrozen(sha: Sha, s: Shelf, steps: seq<Step>, id: Uuid)
    requires id in s.rows && id in s.files && s.rows[id].integrity != []
    requires Remove(id) !in steps
    ensures var t := Run(sha, s, steps);
      id in t.rows && t.rows[id] == s.rows[id] && id in t.files && t.files[id] == s.files[id]
    decreases steps
  {
    if steps != [] {
      assert steps[0] in steps && forall step :: step in steps[1..] ==> step in steps;
      FinalizedIsFrozen(sha, After(sha, s, steps[0]), steps[1..], id);
    }
  }

  /** An object that once overshoots its declared size is never finalized, whatever follows, until
      it is deleted. */
  lemma {:induction false} OvershootNeverFinalizes(sha: Sha, s: Shelf, steps: seq<Step>, id: Uuid)
    requires id in s.rows && id in s.files && |s.files[id]| > s.rows[id].fileSize && s.rows[id].integrity == []
    requires Remove(id) !in steps
    ensures var t := Run(sha, s, steps);
      && id in t.rows && t.rows[id] == s.rows[id]
      && id in t.files && s.files[id] <= t.files[id]
    decreases steps
  {
    if steps != [] {
      assert steps[0] in steps && forall step :: step in steps[1..] ==> step in steps;
      OvershootNeverFinalizes(sha, After(sha, s, steps[0]), steps[1..], id);
    }
  }

  // ------------------------------------------------------------------
  // whole handlers, one at a time
  // ------------------------------------------------------------------

  datatype Handling =
    | Written(id: Uuid, fileType: bytes, fileSize: int, about: bytes)
    | Chunked(id: Uuid, allowed: bool, data: bytes)
    | Dropped(id: Uuid)

  function Handled(sha: Sha, s: Shelf, h: Handling): Shelf {
    match h
    case Written(id, ft, size, about) => Created(s, id, ft, size, about).0
    case Chunked(id, allowed, data) => TakenIn(sha, s, allowed, id, data).0
    case Dropped(id) => Deleted(s, id)
  }

  function HandledRun(sha: Sha, s: Shelf, hs: seq<Handling>): Shelf
    decreases hs
  {
    if hs == [] then s else HandledRun(sha, Handled(sha, s, hs[0]), hs[1..])
  }

  /** The store's operations that a handler runs. */
  function AsSteps(s: Shelf, h: Handling): seq<Step> {
    match h
    case Written(id, ft, size, about) => [Create(id, ft, size, about)]
    case Chunked(id, allowed, data) =>
      var t := Appended(s, id, data);
      if !allowed then []
      else if t.1.Ok? && |Contents(t.0, id)| >= s.rows[id].fileSize then [Append(id, data), Finalize(id)]
      else [Append(id, data)]
    case Dropped(id) => [Remove(id)]
  }

  lemma {:induction false} RunOne(sha: Sha, s: Shelf, x: Step)
    ensures Run(sha, s, [x]) == After(sha, s, x)
  {
    assert [x][1..] == [];
  }

  lemma {:induction false} RunTwo(sha: Sha, s: Shelf, x: Step, y: Step)
    ensures Run(sha, s, [x, y]) == After(sha, After(sha, s, x), y)
  {
    assert [x, y][1..] == [y];
    RunOne(sha, After(sha, s, x), y);
  }

  lemma {:induction false} HandlerIsSteps(sha: Sha, s: Shelf, h: Handling)
    ensures Handled(sha, s, h) == Run(sha, s, AsSteps(s, h))
  {
    var steps := AsSteps(s, h);
    if |steps| == 2 {
      RunTwo(sha, s, steps[0], steps[1]);
    } else if |steps| == 1 {
      RunOne(sha, s, steps[0]);
    }
  }

  /** Every object is finalized exactly when it has a file of the declared size. */
  ghost predicate Complete(s: Shelf) {
    forall id :: id in s.rows ==>
      (s.rows[id].integrity != [] <==> id in s.files && |s.files[id]| == s.rows[id].fileSize)
  }

  lemma {:induction false} HandlerComplete(sha: Sha, s: Shelf, a: Arrivals, h: Handling)
    requires Sound(sha, s, a) && Complete(s)
    ensures Complete(Handled(sha, s, h))
  {
    if h.Chunked? && h.allowed && h.id in s.rows {
      assert ObjectOk(sha, s, a, h.id);
    }
  }

  /** When handlers do not overlap, the store is sound and moreover an object is finalized exactly when
      its file has the declared size. */
  lemma {:induction false} HandlersComplete(sha: Sha, s: Shelf, a: Arrivals, hs: seq<Handling>) returns (b: Arrivals)
    requires Sound(sha, s, a) && Complete(s)
    ensures Sound(sha, HandledRun(sha, s, hs), b) && Complete(HandledRun(sha, s, hs))
    decreases hs
  {
    if hs == [] {
      b := a;
    } else {
      HandlerIsSteps(sha, s, hs[0]);
      StoreInvariant(sha, s, a, AsSteps(s, hs[0]));
      HandlerComplete(sha, s, a, hs[0]);
      b := HandlersComplete(sha, Handled(sha, s, hs[0]), NotedRun(sha, s, a, AsSteps(s, hs[0])), hs[1..]);
    }
  }

  /** When handlers overlap that can fail, for exactly one reason: between the append that reaches the
      declared size and its finalizing, another handler sees a whole file without a digest. */
  lemma {:induction false} IncompleteInBetween(sha: Sha, s: Shelf, a: Arrivals, id: Uuid, data: bytes)
    requires Sound(sha, s, a) && Complete(s) && Appended(s, id, data).1.Ok?
    ensures Complete(After(sha, s, Append(id, data))) <==> |Contents(s, id) + data| != s.rows[id].fileSize
    ensures Complete(Run(sha, s, [Append(id, data), Finalize(id)]))
  {
    var t := After(sha, s, Append(id, data));
    assert id in t.rows && t.files[id] == Contents(s, id) + data;
    RunTwo(sha, s, Append(id, data), Finalize(id));
  }
}
