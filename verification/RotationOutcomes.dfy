/** What each transition of the rotation engine does to its records and returns, stated of the records
    alone: which refusal comes first, every field of what is written, and what is handed back. */
module RotationOutcomes {
  import opened Basics
  import opened Credentials
  import opened RotationEngine
  import opened RotationRuns

  ghost predicate Any(m: Records, st: Status) {
    exists v :: Is(m, v, st)
  }

  // ------------------------------------------------------------------
  // new versions
  // ------------------------------------------------------------------

  /** Provisioning adds one ACTIVE record, valid from now for 3T/2 and without a deadline, or nothing. */
  lemma {:induction false} ProvisionOutcome(cfg: Config, m: Records, c: Credential, now: int)
    requires Window(m)
    ensures var s := AfterProvision(cfg, m, c, now);
      && Decides(Unless(!Any(m, ACTIVE) && !Any(m, VALIDATING), ALREADY_PROVISIONED,
                 Unless(m != map[] ==> c.version - 1 in m && c.version !in m && forall w :: w in m ==> w < c.version,
                        VERSION_ORDER,
                 Unless(c.status == GENERATED, INVALID_STATUS, None))), s.result)
      && s.records == (if s.result.Raised? then m else
           m[c.version := Credential(c.identity, c.version, c.ed25519, c.x25519, ACTIVE, now, None, Some(now),
                                     Some(now + 3 * cfg.T / 2))])
  {
  }

  /** A submission adds one VALIDATING record with its deadline T/2 away and its expiry 3T/2 away, or
      nothing; and it needs the ACTIVE credential's signature over the payload naming both versions and
      both keys. */
  lemma {:induction false} SubmitOutcome(cfg: Config, m: Records, c: Credential, sig: bytes, meta: bytes, now: int,
                                         a: int)
    requires Window(m)
    ensures var s := AfterSubmit(cfg, m, c, sig, meta, now);
      && (!Any(m, ACTIVE) ==> s.result == Raised(NO_ACTIVE))
      && (Is(m, a, ACTIVE) ==>
            var p := SuccessorPayload(m[a].identity, a, c.version, c.ed25519, c.x25519, meta);
            Decides(Unless(!Expired(m[a], now), SIGNER_EXPIRED,
                    Unless(!Any(m, VALIDATING), WINDOW_FULL,
                    Unless(c.version - 1 in m && forall w :: w in m ==> w < c.version, VERSION_ORDER,
                    Unless(c.identity == m[a].identity, IDENTITY_MISMATCH,
                    Unless(p.Ok?, UNENCODABLE,
                    Unless(p.Ok? && cfg.verify(m[a].ed25519, p.value, sig), BAD_SUCCESSOR_SIGNATURE, None)))))),
                    s.result))
      && s.records == (if s.result.Raised? then m else
           m[c.version := Credential(c.identity, c.version, c.ed25519, c.x25519, VALIDATING, now,
                                     Some(now + cfg.T / 2), None, Some(now + 3 * cfg.T / 2))])
  {
    if Is(m, a, ACTIVE) {
      assert Lookup(m, ACTIVE) == Some(m[a]);
    }
  }

  // ------------------------------------------------------------------
  // the checkpoint
  // ------------------------------------------------------------------

  /** When a checkpoint is refused, and for what reason. */
  lemma {:induction false} CheckpointOutcome(cfg: Config, m: Records, now: int, v: int)
    requires Window(m)
    ensures var r := AfterCheckpoint(cfg, m, now).result;
      && (!Any(m, VALIDATING) ==> r == Raised(NO_VALIDATING))
      && (Is(m, v, VALIDATING) ==>
            Decides(Unless(OrElse(m[v].deadline, 0) <= now, CHECKPOINT_NOT_REACHED,
                    Unless(!Expired(m[v], now), V3_EXPIRED,
                    Unless(Any(m, ACTIVE), NO_ACTIVE,
                    Unless(forall a :: Is(m, a, ACTIVE) ==> !Expired(m[a], now), FALLBACK_VALIDITY, None)))), r))
  {
    var active := Lookup(m, ACTIVE);
    assert active.Some? ==> forall a :: Is(m, a, ACTIVE) ==> m[a] == active.value;
    if Is(m, v, VALIDATING) {
      assert Lookup(m, VALIDATING) == Some(m[v]);
    }
  }

  /** A refused checkpoint changes nothing, except that one refused for the successor's expiry marks the
      successor EXPIRED. */
  lemma {:induction false} RefusedCheckpoint(cfg: Config, m: Records, now: int, v: int)
    requires Window(m) && AfterCheckpoint(cfg, m, now).result.Raised? && v in m
    ensures var s := AfterCheckpoint(cfg, m, now);
      && s.records.Keys == m.Keys
      && s.records[v] ==
           if s.result == Raised(V3_EXPIRED) && m[v].status == VALIDATING then m[v].(status := EXPIRED) else m[v]
  {
    assert m[v].status == VALIDATING ==> Is(m, v, VALIDATING);
  }

  /** The records a transition returned: by ascending version, each the row as it is afterwards, and
      every version whose row changed among them. */
  ghost predicate Reports(m: Records, n: Records, changed: seq<Credential>) {
    && (forall i, j :: 0 <= i < j < |changed| ==> changed[i].version < changed[j].version)
    && (forall c :: c in changed ==> c.version in n && n[c.version] == c)
    && (forall v :: v in n && (v !in m || m[v] != n[v]) ==> n[v] in changed)
  }

  /** A successful checkpoint returns exactly what it changed, the promoted record last: it is ACTIVE
      from now on and was VALIDATING; the one before it is FALLBACK and was ACTIVE; and before that comes
      what was FALLBACK, if anything was, terminated. */
  lemma {:induction false} CheckpointReturns(cfg: Config, m: Records, now: int)
    requires Window(m) && AfterCheckpoint(cfg, m, now).result.Ok?
    ensures var (n, changed) := (AfterCheckpoint(cfg, m, now).records, AfterCheckpoint(cfg, m, now).result.value);
      && Reports(m, n, changed)
      && |changed| == (if Any(m, FALLBACK) then 3 else 2)
      && var k := |changed|;
      && Is(m, changed[k - 1].version, VALIDATING)
      && changed[k - 1] == m[changed[k - 1].version].(status := ACTIVE, activation := Some(now))
      && Is(m, changed[k - 2].version, ACTIVE) && changed[k - 2].status == FALLBACK
      && (k == 3 ==> Is(m, changed[0].version, FALLBACK) && changed[0].status == TERMINATED)
  {
    var x := CheckpointChanges(cfg, m, now);
    var v1 := Lookup(m, FALLBACK);
    assert forall v :: v in m && m[v].status == FALLBACK ==> Is(m, v, FALLBACK);
  }

  /** The demoted record keeps its own expiry or gets T/2 from now, whichever is later; nothing else of it
      changes but its status. */
  lemma {:induction false} DemotedOutcome(cfg: Config, m: Records, now: int, a: int)
    requires Window(m) && AfterCheckpoint(cfg, m, now).result.Ok? && Is(m, a, ACTIVE)
    ensures AfterCheckpoint(cfg, m, now).records[a] ==
      m[a].(status := FALLBACK, expiration := Some(Max(OrElse(m[a].expiration, 0), now + cfg.T / 2)))
  {
    var x := CheckpointChanges(cfg, m, now);
  }

  // ------------------------------------------------------------------
  // endings
  // ------------------------------------------------------------------

  /** A rollback terminates what is VALIDATING, leaves the rest, and returns the terminated record. */
  lemma {:induction false} RollbackOutcome(m: Records)
    requires Window(m)
    ensures var s := AfterRollback(m);
      && Decides(Unless(Any(m, VALIDATING), NO_VALIDATING, None), s.result)
      && s.records.Keys == m.Keys
      && (forall v :: v in m ==>
            s.records[v] == if m[v].status == VALIDATING then m[v].(status := TERMINATED) else m[v])
      && (s.result.Ok? ==> Reports(m, s.records, [s.result.value]) && s.result.value.status == TERMINATED)
  {
    var v3 := Lookup(m, VALIDATING);
    assert forall v :: v in m && m[v].status == VALIDATING ==> Is(m, v, VALIDATING);
  }

  /** A revocation revokes that version, whatever its status, leaves the rest, and returns the revoked
      record. */
  lemma {:induction false} RevokeOutcome(m: Records, v: int)
    requires Keyed(m)
    ensures var s := AfterRevoke(m, v);
      && Decides(Unless(v in m, UNKNOWN_VERSION, None), s.result)
      && s.records.Keys == m.Keys
      && (forall w :: w in m ==> s.records[w] == if w == v then m[w].(status := REVOKED) else m[w])
      && (s.result.Ok? ==> Reports(m, s.records, [s.result.value]) && s.result.value.version == v)
  {
  }

  /** A sweep marks exactly the ACTIVE and FALLBACK records whose expiry has come. */
  lemma {:induction false} SweepOutcome(m: Records, now: int, v: int)
    requires v in m
    ensures var n := AfterExpiry(m, now);
      && n.Keys == m.Keys
      && n[v] == if m[v].status in {ACTIVE, FALLBACK} && m[v].expiration.Some? && m[v].expiration.value <= now
                 then m[v].(status := EXPIRED) else m[v]
  {
  }

  /** The places of the dictionary whose record a sweep changes, in order. */
  function LapsedAt(order: seq<int>, m: Records, now: int): (at: seq<int>)
    requires forall i :: 0 <= i < |order| ==> order[i] in m
    ensures forall i :: 0 <= i < |at| ==> 0 <= at[i] < |order|
    ensures forall i, j :: 0 <= i < j < |at| ==> at[i] < at[j]
  {
    if order == [] then []
    else
      var front := LapsedAt(order[..|order| - 1], m, now);
      var v := order[|order| - 1];
      if Lapsed(m[v], now) != m[v] then front + [|order| - 1] else front
  }

  lemma {:induction false} PlaceHolds(order: seq<int>, m: Records, now: int, i: nat)
    requires (forall k :: 0 <= k < |order| ==> order[k] in m) && i < |LapsedAt(order, m, now)|
    ensures |NewlyLapsed(order, m, now)| == |LapsedAt(order, m, now)|
    ensures var v := order[LapsedAt(order, m, now)[i]];
      NewlyLapsed(order, m, now)[i] == Lapsed(m[v], now) != m[v]
  {
    var front := order[..|order| - 1];
    if i < |LapsedAt(front, m, now)| {
      PlaceHolds(front, m, now, i);
      assert front[LapsedAt(front, m, now)[i]] == order[LapsedAt(front, m, now)[i]];
    } else if i > 0 {
      PlaceHolds(front, m, now, i - 1);
    } else {
      NoPlaces(front, m, now);
    }
  }

  lemma {:induction false} NoPlaces(order: seq<int>, m: Records, now: int)
    requires (forall k :: 0 <= k < |order| ==> order[k] in m) && LapsedAt(order, m, now) == []
    ensures NewlyLapsed(order, m, now) == []
  {
    if order != [] {
      NoPlaces(order[..|order| - 1], m, now);
    }
  }

  lemma {:induction false} PlaceOf(order: seq<int>, m: Records, now: int, k: nat)
    requires (forall i :: 0 <= i < |order| ==> order[i] in m) && k < |order| && Lapsed(m[order[k]], now) != m[order[k]]
    ensures k in LapsedAt(order, m, now)
  {
    if k < |order| - 1 {
      PlaceOf(order[..|order| - 1], m, now, k);
    }
  }

  /** And it returns exactly those, each as it is afterwards, in the order of the dictionary. */
  lemma {:induction false} SweepReturns(b: Book, now: int)
    requires b.Dict()
    ensures var (at, changed) := (LapsedAt(b.order, b.creds, now), NewlyLapsed(b.order, b.creds, now));
      && |changed| == |at|
      && (forall i, j :: 0 <= i < j < |at| ==> at[i] < at[j])
      && (forall i :: 0 <= i < |at| ==> changed[i] == AfterExpiry(b.creds, now)[b.order[at[i]]])
      && (forall k :: 0 <= k < |b.order| ==>
            (k in at <==> AfterExpiry(b.creds, now)[b.order[k]] != b.creds[b.order[k]]))
  {
    var at, n := LapsedAt(b.order, b.creds, now), AfterExpiry(b.creds, now);
    if at == [] {
      NoPlaces(b.order, b.creds, now);
    } else {
      PlaceHolds(b.order, b.creds, now, 0);
    }
    forall i | 0 <= i < |at|
      ensures |NewlyLapsed(b.order, b.creds, now)| == |at|
      ensures NewlyLapsed(b.order, b.creds, now)[i] == n[b.order[at[i]]] != b.creds[b.order[at[i]]]
    {
      PlaceHolds(b.order, b.creds, now, i);
    }
    forall k | 0 <= k < |b.order| ensures k in at <==> n[b.order[k]] != b.creds[b.order[k]] {
      if n[b.order[k]] != b.creds[b.order[k]] {
        PlaceOf(b.order, b.creds, now, k);
      }
    }
  }

  /** A record authenticates exactly when it is ACTIVE or FALLBACK and its expiry, if any, is to come. */
  lemma {:induction false} AuthOutcome(b: Book, v: int, now: int)
    ensures b.ForAuth(v, now) ==
      if (Is(b.creds, v, ACTIVE) || Is(b.creds, v, FALLBACK))
         && (b.creds[v].expiration.None? || now < b.creds[v].expiration.value)
      then Some(b.creds[v]) else None
    ensures Accepts(b.creds, v, now) <==> b.ForAuth(v, now).Some?
  {
  }

  // ------------------------------------------------------------------
  // the dictionary
  // ------------------------------------------------------------------

  /** The record found by status is the first in insertion order that has it. */
  lemma {:induction false} FirstByStatus(b: Book, st: Status, i: nat)
    requires b.Dict() && i < |b.order| && b.creds[b.order[i]].status == st
    requires forall j :: 0 <= j < i ==> b.creds[b.order[j]].status != st
    ensures b.ByStatus(st) == Some(b.creds[b.order[i]])
  {
    FirstAt(b.order, b.creds, st, i);
  }

  lemma {:induction false} FirstAt(order: seq<int>, m: Records, st: Status, i: nat)
    requires i < |order| && (forall j :: 0 <= j < |order| ==> order[j] in m) && m[order[i]].status == st
    requires forall j :: 0 <= j < i ==> m[order[j]].status != st
    ensures First(order, m, st) == Some(order[i])
  {
    if i > 0 {
      assert m[order[0]].status != st;
      FirstAt(order[1..], m, st, i - 1);
    }
  }

  /** The count of the window is the number of versions that are VALIDATING, ACTIVE or FALLBACK. */
  lemma {:induction false} WindowCount(b: Book)
    requires b.Dict()
    ensures b.InWindowCount() ==
      |set v | v in b.creds && (Is(b.creds, v, VALIDATING) || Is(b.creds, v, ACTIVE) || Is(b.creds, v, FALLBACK))|
  {
    CountIsSize(b.order, b.creds);
    assert InWindowOf(b.order, b.creds) ==
      set v | v in b.creds && (Is(b.creds, v, VALIDATING) || Is(b.creds, v, ACTIVE) || Is(b.creds, v, FALLBACK));
  }

  function InWindowOf(order: seq<int>, m: Records): set<int> {
    set v | v in order && v in m && m[v].status in {VALIDATING, ACTIVE, FALLBACK}
  }

  lemma {:induction false} CountIsSize(order: seq<int>, m: Records)
    requires Distinct(order) && forall i :: 0 <= i < |order| ==> order[i] in m
    ensures CountWindow(order, m) == |InWindowOf(order, m)|
  {
    if order == [] {
      assert InWindowOf(order, m) == {};
    } else {
      var v, rest := order[0], order[1..];
      CountIsSize(rest, m);
      assert v !in rest;
      assert forall w :: w in order <==> w == v || w in rest;
      assert InWindowOf(order, m) ==
        if m[v].status in {VALIDATING, ACTIVE, FALLBACK} then InWindowOf(rest, m) + {v} else InWindowOf(rest, m);
    }
  }

  /** Setting a version that is there keeps its place; a new one goes last. Nothing else moves. */
  lemma {:induction false} PutPlace(b: Book, c: Credential)
    requires b.Dict()
    ensures b.Put(c).creds == b.creds[c.version := c]
    ensures b.order <= b.Put(c).order
    ensures b.Put(c).order[|b.order|..] == if c.version in b.creds then [] else [c.version]
  {
  }
}
