/** What the object store's operations answer and leave, in terms of rows and files alone. */
module ObjectOutcomes {
  import opened Basics
  import opened ObjectStore
  import opened ObjectTransfer

  /** Creation needs a free identifier and adds exactly one unfinalized row; files are not looked at. */
  lemma {:induction false} CreateOutcome(s: Shelf, id: Uuid, fileType: bytes, fileSize: int, about: bytes)
    ensures var (t, r) := Created(s, id, fileType, fileSize, about);
      && Decides(Unless(id !in s.rows, ALREADY_EXISTS, None), r)
      && t.files == s.files
      && (r.Raised? ==> t.rows == s.rows)
      && (r.Ok? ==> id in t.rows && r.value == t.rows[id] && t.rows - {id} == s.rows
                    && t.rows[id].fileType == fileType && t.rows[id].fileSize == fileSize
                    && t.rows[id].about == about && t.rows[id].integrity == [])
  {
  }

  /** A chunk is taken in when writing is allowed and the object is there, unfinalized and not made too
      long by it; a chunk that makes it too long is refused only after it was appended. The object is
      finalized when it has exactly its size, and the answer never shows that yet. */
  lemma {:induction false} ChunkOutcome(sha: Sha, s: Shelf, allowed: bool, id: Uuid, data: bytes)
    ensures var ((t, r), after) := (TakenIn(sha, s, allowed, id, data), Contents(s, id) + data);
      var open := allowed && id in s.rows && s.rows[id].integrity == [];
      && Decides(Unless(allowed, FORBIDDEN,
                 Unless(id in s.rows, NOT_FOUND,
                 Unless(open, FINALIZED,
                 Unless(open && |after| <= s.rows[id].fileSize, INTEGRITY_FAILURE, None)))), r)
      && (!open ==> t == s)
      && (open ==>
            && t.files.Keys == s.files.Keys + {id} && t.files[id] == after
            && (forall other :: other in s.files && other != id ==> t.files[other] == s.files[other])
            && t.rows.Keys == s.rows.Keys
            && (forall other :: other in s.rows && other != id ==> t.rows[other] == s.rows[other])
            && t.rows[id] == (if |after| == s.rows[id].fileSize then s.rows[id].(integrity := sha(after))
                              else s.rows[id]))
      && (r.Ok? ==> r.value == s.rows[id] && r.value.integrity == [])
  {
  }

  /** Finalizing sets the digest of the whole file when its size is the declared one; an object that is
      finalized already is answered as it is. */
  lemma {:induction false} FinalizeOutcome(sha: Sha, s: Shelf, id: Uuid)
    ensures var (t, r) := Finalized(sha, s, id);
      var open := id in s.rows && s.rows[id].integrity == [];
      && Decides(Unless(id in s.rows, NOT_FOUND,
                 Unless(open ==> id in s.files, OS_ERROR,
                 Unless(open ==> id in s.files && |s.files[id]| == s.rows[id].fileSize, INTEGRITY_FAILURE, None))), r)
      && t.files == s.files
      && (r.Raised? ==> t == s)
      && (r.Ok? ==>
            && t.rows.Keys == s.rows.Keys && r.value == t.rows[id]
            && (forall other :: other in s.rows && other != id ==> t.rows[other] == s.rows[other])
            && t.rows[id] == (if open then s.rows[id].(integrity := sha(s.files[id])) else s.rows[id]))
  {
  }

  /** Chunk k of a file is its bytes from k times the size on, as many as there are up to the size. */
  lemma {:induction false} ChunkBytes(s: Shelf, id: Uuid, k: nat, size: nat, i: nat)
    ensures Decides(Unless(id in s.rows, NOT_FOUND, Unless(id in s.files, OS_ERROR, None)), ChunkAt(s, id, k, size))
    ensures ChunkAt(s, id, k, size).Ok? ==>
      var chunk := ChunkAt(s, id, k, size).value;
      && |chunk| == Max(0, Min(size, |s.files[id]| - k * size))
      && (i < |chunk| ==> k * size + i < |s.files[id]| && chunk[i] == s.files[id][k * size + i])
  {
  }

  /** Deleting removes row and file of that object and nothing else. */
  lemma {:induction false} DeleteOutcome(s: Shelf, id: Uuid, other: Uuid)
    ensures id !in Deleted(s, id).rows && id !in Deleted(s, id).files
    ensures other != id ==> Same(s, Deleted(s, id), other)
  {
  }

  /** A client without permission gets nothing in and nothing out. */
  lemma {:induction false} ForbiddenDoesNothing(sha: Sha, s: Shelf, id: Uuid, fileType: bytes, data: bytes,
                                                about: bytes)
    ensures WriteOutcome(sha, s, false, id, fileType, data, about) == (s, Raised(WRITE_REJECTED))
    ensures ReadOutcome(sha, s, false, id) == Raised(READ_REJECTED)
  {
  }

  /** SR-21, of any store whatever: content that an object's digest does not match is never returned, and an
      object with a digest that can be read is refused exactly when the bytes read do not match it. */
  lemma {:induction false} ReadVerified(sha: Sha, s: Shelf, id: Uuid)
    ensures var r := ReadOutcome(sha, s, true, id);
      && (r.Ok? ==> id in s.rows && (s.rows[id].integrity == [] || sha(r.value) == s.rows[id].integrity))
      && (r == Raised(INTEGRITY_MISMATCH) <==>
            && id in s.rows && s.rows[id].integrity != []
            && var size := s.rows[id].fileSize;
            && (size > 0 ==> id in s.files && |s.files[id]| >= size)
            && sha(if size <= 0 then [] else s.files[id][..Min(|s.files[id]|, RoundUp(size))]) != s.rows[id].integrity)
  {
  }

  /** In a sound store an upload succeeds exactly when it is permitted and the identifier is free, and
      fails without a trace otherwise. */
  lemma {:induction false} UploadIff(sha: Sha, s: Shelf, a: Arrivals, allowed: bool, id: Uuid, fileType: bytes,
                                     data: bytes, about: bytes)
    requires Sound(sha, s, a)
    ensures var (t, r) := WriteOutcome(sha, s, allowed, id, fileType, data, about);
      && (r.Ok? <==> allowed && id !in s.rows)
      && (r.Raised? ==> t == s && r == Raised(WRITE_REJECTED))
  {
    if allowed && id !in s.rows {
      assert id !in s.files;
      UploadThenRead(sha, s, id, fileType, about, data);
    }
  }
}
