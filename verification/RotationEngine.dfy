/** The credential rotation state machine of one identity. Time is an argument.

    A Book is the value of the engine's dictionary: its records and their insertion order. The
    functions over books are the specification the class is verified against, and what the
    theorems about runs speak of. */
module RotationEngine {
  import opened Basics
  import opened Credentials
  import opened Codec

  datatype Code =
    | ALREADY_PROVISIONED | VERSION_ORDER | INVALID_STATUS | NO_ACTIVE | SIGNER_EXPIRED
    | WINDOW_FULL | IDENTITY_MISMATCH | BAD_SUCCESSOR_SIGNATURE | NO_VALIDATING
    | CHECKPOINT_NOT_REACHED | V3_EXPIRED | FALLBACK_VALIDITY | UNKNOWN_VERSION
    | UNENCODABLE  // struct.error while building the payload, not a RotationError

  // ------------------------------------------------------------------
  // the successor payload
  // ------------------------------------------------------------------

  const SUCCESSOR_TAG: bytes := [83, 73, 72, 45, 83, 85, 67, 67, 45, 49]

  function SuccessorFields(identity: Uuid, old_: int, new_: int, ed: bytes, x: bytes, meta: bytes)
    : seq<Field>
  {
    [Field.Blob(SUCCESSOR_TAG), Field.Id(Some(identity)), Field.U32(old_), Field.U32(new_),
     Field.Blob(ed), Field.Blob(x), Field.Blob(meta)]
  }

  /** The canonical bytes a successor signature covers. */
  function SuccessorPayload(identity: Uuid, old_: int, new_: int, ed: bytes, x: bytes, meta: bytes)
    : Result<bytes, CodecError>
  {
    Encode(SuccessorFields(identity, old_, new_, ed, x, meta))
  }

  /** The signature of `signer` over the payload that introduces c. */
  predicate Authorizes(cfg: Config, signer: Credential, c: Credential, meta: bytes, sig: bytes) {
    var p := SuccessorPayload(signer.identity, signer.version, c.version, c.ed25519, c.x25519, meta);
    p.Ok? && cfg.verify(signer.ed25519, p.value, sig)
  }

  // ------------------------------------------------------------------
  // the dictionary
  // ------------------------------------------------------------------

  type Records = map<int, Credential>

  /** Version v is recorded with status st. */
  predicate Is(m: Records, v: int, st: Status) {
    v in m && m[v].status == st
  }

  datatype Book = Book(order: seq<int>, creds: Records)
  {
    /** What a Python dictionary keyed by version always satisfies. */
    ghost predicate Dict() {
      && (forall i :: 0 <= i < |order| ==> order[i] in creds)
      && (forall v :: v in creds ==> v in order)
      && Distinct(order)
      && (forall v :: v in creds ==> creds[v].version == v)
    }

    function Put(c: Credential): (r: Book)
      requires Dict()
      ensures r.Dict()
    {
      if c.version in creds then Book(order, creds[c.version := c])
      else
        DistinctSnoc(order, c.version);
        Book(order + [c.version], creds[c.version := c])
    }

    /** Put, for a version that is already there. */
    function Update(c: Credential): (r: Book)
      requires Dict() && c.version in creds
      ensures r.Dict() && r == Put(c)
    {
      Book(order, creds[c.version := c])
    }

    /** The first record in insertion order that has the status. */
    function ByStatus(st: Status): (r: Option<Credential>)
      requires Dict()
      ensures r.Some? ==> Is(creds, r.value.version, st) && creds[r.value.version] == r.value
      ensures r.None? ==> forall v :: !Is(creds, v, st)
    {
      var i := First(order, creds, st);
      if i.None? then
        None
      else
        assert i.value in creds;
        assert creds[i.value].version == i.value;
        Some(creds[i.value])
    }

    function MaxVersion(): (m: int)
      requires Dict() && creds != map[]
      ensures m in creds && forall v :: v in creds ==> v <= m
    {
      assert order != [] by {
        assert forall v :: v in creds ==> v in order;
      }
      MaxOf(order)
    }

    /** v continues the recorded versions. */
    predicate Continues(v: int)
      requires Dict()
    {
      creds == map[] || v == MaxVersion() + 1
    }

    function InWindowCount(): nat {
      CountWindow(order, creds)
    }

    /** The record usable to authenticate a message. */
    function ForAuth(v: int, now: int): Option<Credential> {
      if v in creds && Usable(creds[v], now) then Some(creds[v]) else None
    }
  }

  const EMPTY := Book([], map[])

  function First(order: seq<int>, creds: Records, st: Status): (r: Option<int>)
    ensures r.Some? ==> r.value in order && r.value in creds && creds[r.value].status == st
    ensures r.None? ==> forall v :: v in order && v in creds ==> creds[v].status != st
  {
    if order == [] then None
    else if order[0] in creds && creds[order[0]].status == st then Some(order[0])
    else First(order[1..], creds, st)
  }

  function MaxOf(order: seq<int>): (m: int)
    requires order != []
    ensures m in order && forall v :: v in order ==> v <= m
  {
    if |order| == 1 then order[0]
    else
      assert forall v :: v in order ==> v == order[0] || v in order[1..];
      assert MaxOf(order[1..]) in order[1..];
      Max(order[0], MaxOf(order[1..]))
  }

  function CountWindow(order: seq<int>, creds: Records): nat {
    if order == [] then 0
    else
      var rest := CountWindow(order[1..], creds);
      if order[0] in creds && InWindow(creds[order[0]].status) then 1 + rest else rest
  }

  // ------------------------------------------------------------------
  // the transitions
  // ------------------------------------------------------------------

  /** What a transition leaves behind, and what it returns or raises. A transition that raises
      may still have changed the book. */
  datatype Step<+T> = Step(book: Book, result: Result<T, Code>)

  function ProvisionStep(cfg: Config, b: Book, c: Credential, now: int): (s: Step<()>)
    requires b.Dict()
    ensures s.book.Dict()
  {
    var busy := b.ByStatus(ACTIVE).Some? || b.ByStatus(VALIDATING).Some?;
    match ProvisionRecord(cfg, busy, b.Continues(c.version), c, now)
    case Ok(record) => Step(b.Put(record), Ok(()))
    case Raised(e) => Step(b, Raised(e))
  }

  function ProvisionRecord(cfg: Config, busy: bool, inOrder: bool, c: Credential, now: int)
    : Result<Credential, Code>
  {
    if busy then Raised(ALREADY_PROVISIONED)
    else if !inOrder then Raised(VERSION_ORDER)
    else if c.status != GENERATED then Raised(INVALID_STATUS)
    else Ok(Provisioned(cfg, c, now))
  }

  function Provisioned(cfg: Config, c: Credential, now: int): Credential {
    c.(status := ACTIVE, createdAt := now, deadline := None, activation := Some(now),
       expiration := Some(now + cfg.Validity()))
  }

  function SubmitStep(cfg: Config, b: Book, c: Credential, sig: bytes, meta: bytes, now: int)
    : (s: Step<()>)
    requires b.Dict()
    ensures s.book.Dict()
  {
    var busy := b.ByStatus(VALIDATING).Some?;
    var full := !busy && b.InWindowCount() >= 3;
    match SubmitRecord(cfg, b.ByStatus(ACTIVE), busy, full, b.Continues(c.version), c, sig,
                       meta, now)
    case Ok(record) => Step(b.Put(record), Ok(()))
    case Raised(e) => Step(b, Raised(e))
  }

  function SubmitRecord(cfg: Config, signer: Option<Credential>, busy: bool, full: bool,
                        inOrder: bool, c: Credential, sig: bytes, meta: bytes, now: int)
    : Result<Credential, Code>
  {
    if signer.None? then Raised(NO_ACTIVE)
    else if Expired(signer.value, now) then Raised(SIGNER_EXPIRED)
    else if busy then Raised(WINDOW_FULL)
    else if !inOrder then Raised(VERSION_ORDER)
    else if c.identity != signer.value.identity then Raised(IDENTITY_MISMATCH)
    else if full then Raised(WINDOW_FULL)
    else if SuccessorPayload(signer.value.identity, signer.value.version, c.version, c.ed25519,
                             c.x25519, meta).Raised? then Raised(UNENCODABLE)
    else if !Authorizes(cfg, signer.value, c, meta, sig) then Raised(BAD_SUCCESSOR_SIGNATURE)
    else Ok(Submitted(cfg, c, now))
  }

  function Submitted(cfg: Config, c: Credential, now: int): Credential {
    c.(status := VALIDATING, createdAt := now, deadline := Some(now + cfg.Half()),
       activation := None, expiration := Some(now + cfg.Validity()))
  }

  function CheckpointStep(cfg: Config, b: Book, now: int): (s: Step<seq<Credential>>)
    requires b.Dict()
    ensures s.book.Dict()
  {
    var (creds, result) := CheckpointRecords(cfg, b.creds, b.ByStatus(FALLBACK), b.ByStatus(ACTIVE),
                                             b.ByStatus(VALIDATING), now);
    Step(Book(b.order, creds), result)
  }

  function CheckpointRecords(cfg: Config, creds: Records, v1: Option<Credential>,
                             v2: Option<Credential>, v3: Option<Credential>, now: int)
    : (Records, Result<seq<Credential>, Code>)
  {
    if v3.None? then (creds, Raised(NO_VALIDATING))
    else if now < OrElse(v3.value.deadline, 0) then (creds, Raised(CHECKPOINT_NOT_REACHED))
    else if Expired(v3.value, now) then
      (creds[v3.value.version := v3.value.(status := EXPIRED)], Raised(V3_EXPIRED))
    else if v2.None? then (creds, Raised(NO_ACTIVE))
    else if Expired(v2.value, now) then (creds, Raised(FALLBACK_VALIDITY))
    else
      var out := if v1.None? then [] else [v1.value.(status := TERMINATED)];
      var demoted := Demoted(cfg, v2.value, now);
      var promoted := v3.value.(status := ACTIVE, activation := Some(now));
      var ended := if v1.None? then creds else creds[v1.value.version := out[0]];
      (ended[demoted.version := demoted][promoted.version := promoted],
       Ok(out + [demoted, promoted]))
  }

  /** The demoted credential keeps its expiry, extended when that leaves less than T/2. */
  function Demoted(cfg: Config, v2: Credential, now: int): Credential {
    v2.(status := FALLBACK, expiration := Some(Max(OrElse(v2.expiration, 0), now + cfg.Half())))
  }

  function RollbackStep(b: Book): (s: Step<Credential>)
    requires b.Dict()
    ensures s.book.Dict()
  {
    var v3 := b.ByStatus(VALIDATING);
    if v3.None? then Step(b, Raised(NO_VALIDATING))
    else
      var c := v3.value.(status := TERMINATED);
      Step(b.Update(c), Ok(c))
  }

  function RevokeStep(b: Book, version: int): (s: Step<Credential>)
    requires b.Dict()
    ensures s.book.Dict()
  {
    if version !in b.creds then Step(b, Raised(UNKNOWN_VERSION))
    else
      var c := b.creds[version].(status := REVOKED);
      Step(b.Update(c), Ok(c))
  }

  function Lapsed(c: Credential, now: int): Credential {
    if Authenticating(c.status) && Expired(c, now) then c.(status := EXPIRED) else c
  }

  function ExpireAllStep(b: Book, now: int): (r: Book)
    requires b.Dict()
    ensures r.Dict()
  {
    Book(b.order, map v | v in b.creds :: Lapsed(b.creds[v], now))
  }

  /** The records ExpireAll changed, in insertion order. */
  function NewlyLapsed(order: seq<int>, creds: Records, now: int): seq<Credential>
    requires forall i :: 0 <= i < |order| ==> order[i] in creds
  {
    if order == [] then []
    else
      var front := NewlyLapsed(order[..|order| - 1], creds, now);
      var c := creds[order[|order| - 1]];
      if Lapsed(c, now) != c then front + [Lapsed(c, now)] else front
  }

  /** Rebuild the dictionary from records listed in some order. */
  function LoadBook(cs: seq<Credential>): (b: Book)
    ensures b.Dict()
  {
    if cs == [] then EMPTY else LoadBook(cs[..|cs| - 1]).Put(cs[|cs| - 1])
  }

  // ------------------------------------------------------------------
  // the class
  // ------------------------------------------------------------------

  /** Ascending insertion, for the records listed by version. */
  function Insert(xs: seq<int>, v: int): (ys: seq<int>)
    requires forall i, j :: 0 <= i < j < |xs| ==> xs[i] < xs[j]
    requires v !in xs
    ensures forall i, j :: 0 <= i < j < |ys| ==> ys[i] < ys[j]
    ensures forall w :: w in ys <==> w == v || w in xs
  {
    if xs == [] then [v]
    else if v < xs[0] then [v] + xs
    else
      var tail := Insert(xs[1..], v);
      forall j | 0 <= j < |tail| ensures xs[0] < tail[j] {
        assert tail[j] in tail;
      }
      [xs[0]] + tail
  }

  class Engine {
    const cfg: Config
    var order: seq<int>
    var creds: Records

    function Value(): Book
      reads this
    {
      Book(order, creds)
    }

    ghost predicate Valid()
      reads this
    {
      Value().Dict()
    }

    constructor (cfg: Config)
      ensures Valid() && this.cfg == cfg && Value() == EMPTY
    {
      this.cfg := cfg;
      order, creds := [], map[];
    }

    constructor Load(cfg: Config, cs: seq<Credential>)
      ensures Valid() && this.cfg == cfg && Value() == LoadBook(cs)
    {
      this.cfg := cfg;
      order, creds := [], map[];
      new;
      for i := 0 to |cs|
        invariant Value() == LoadBook(cs[..i])
      {
        assert cs[..i + 1][..i] == cs[..i];
        Set(cs[i]);
      }
      assert cs[..|cs|] == cs;
    }

    /** self._creds[c.version] = c */
    method Set(c: Credential)
      requires Valid()
      modifies this
      ensures Value() == old(Value()).Put(c)
    {
      if c.version !in creds {
        order := order + [c.version];
      }
      creds := creds[c.version := c];
    }

    method Get(version: int) returns (r: Option<Credential>)
      ensures r == if version in creds then Some(creds[version]) else None
    {
      r := if version in creds then Some(creds[version]) else None;
    }

    method ByStatus(st: Status) returns (r: Option<Credential>)
      requires Valid()
      ensures r == Value().ByStatus(st)
    {
      for i := 0 to |order|
        invariant First(order, creds, st) == First(order[i..], creds, st)
      {
        assert order[i..][1..] == order[i + 1..];
        if creds[order[i]].status == st {
          return Some(creds[order[i]]);
        }
      }
      r := None;
    }

    method VersionsInWindow() returns (n: nat)
      requires Valid()
      ensures n == Value().InWindowCount()
    {
      n := 0;
      for i := 0 to |order|
        invariant n + CountWindow(order[i..], creds) == CountWindow(order, creds)
      {
        assert order[i..][1..] == order[i + 1..];
        if InWindow(creds[order[i]].status) {
          n := n + 1;
        }
      }
    }

    /** All records by ascending version. */
    method All() returns (cs: seq<Credential>)
      requires Valid()
      ensures forall i, j :: 0 <= i < j < |cs| ==> cs[i].version < cs[j].version
      ensures forall c :: c in cs ==> c.version in creds && creds[c.version] == c
      ensures forall v :: v in creds ==> creds[v] in cs
    {
      var vs: seq<int> := [];
      for i := 0 to |order|
        invariant forall k, j :: 0 <= k < j < |vs| ==> vs[k] < vs[j]
        invariant forall w :: w in vs <==> w in order[..i]
      {
        vs := Insert(vs, order[i]);
        assert order[..i + 1] == order[..i] + [order[i]];
      }
      assert order[..|order|] == order;
      forall k | 0 <= k < |vs| ensures vs[k] in creds {
        assert vs[k] in vs;
        var j :| 0 <= j < |order| && order[j] == vs[k];
      }
      var byVersion := creds;
      cs := seq(|vs|, i requires 0 <= i < |vs| && vs[i] in byVersion => byVersion[vs[i]]);
      forall v | v in creds ensures creds[v] in cs {
        assert v in vs;
        var i :| 0 <= i < |vs| && vs[i] == v;
        assert cs[i] == creds[v];
      }
    }

    method ProvisionInitial(c: Credential, now: int) returns (r: Result<(), Code>)
      requires Valid()
      modifies this
      ensures Valid()
      ensures Step(Value(), r) == ProvisionStep(cfg, old(Value()), c, now)
    {
      var active := ByStatus(ACTIVE);
      var validating := ByStatus(VALIDATING);
      if active.Some? || validating.Some? { return Raised(ALREADY_PROVISIONED); }
      if creds != map[] && c.version != Value().MaxVersion() + 1 { return Raised(VERSION_ORDER); }
      if c.status != GENERATED { return Raised(INVALID_STATUS); }
      Set(Provisioned(cfg, c, now));
      r := Ok(());
    }

    method SubmitSuccessor(c: Credential, sig: bytes, meta: bytes, now: int)
      returns (r: Result<(), Code>)
      requires Valid()
      modifies this
      ensures Valid()
      ensures Step(Value(), r) == SubmitStep(cfg, old(Value()), c, sig, meta, now)
    {
      var signer := ByStatus(ACTIVE);
      if signer.None? { return Raised(NO_ACTIVE); }
      if Expired(signer.value, now) { return Raised(SIGNER_EXPIRED); }
      var validating := ByStatus(VALIDATING);
      if validating.Some? { return Raised(WINDOW_FULL); }
      if c.version != Value().MaxVersion() + 1 { return Raised(VERSION_ORDER); }
      if c.identity != signer.value.identity { return Raised(IDENTITY_MISMATCH); }
      var n := VersionsInWindow();
      if n >= 3 { return Raised(WINDOW_FULL); }
      var payload := SuccessorPayload(signer.value.identity, signer.value.version, c.version,
                                      c.ed25519, c.x25519, meta);
      if payload.Raised? { return Raised(UNENCODABLE); }
      if !cfg.verify(signer.value.ed25519, payload.value, sig) {
        return Raised(BAD_SUCCESSOR_SIGNATURE);
      }
      Set(Submitted(cfg, c, now));
      r := Ok(());
    }

    method Checkpoint(now: int) returns (r: Result<seq<Credential>, Code>)
      requires Valid()
      modifies this
      ensures Valid()
      ensures Step(Value(), r) == CheckpointStep(cfg, old(Value()), now)
    {
      var v3 := ByStatus(VALIDATING);
      if v3.None? { return Raised(NO_VALIDATING); }
      if now < OrElse(v3.value.deadline, 0) { return Raised(CHECKPOINT_NOT_REACHED); }
      if Expired(v3.value, now) {
        Set(v3.value.(status := EXPIRED));
        return Raised(V3_EXPIRED);
      }
      var v2 := ByStatus(ACTIVE);
      if v2.None? { return Raised(NO_ACTIVE); }
      if Expired(v2.value, now) { return Raised(FALLBACK_VALIDITY); }
      var changed := [];
      var v1 := ByStatus(FALLBACK);
      if v1.Some? {
        Set(v1.value.(status := TERMINATED));
        changed := changed + [v1.value.(status := TERMINATED)];
      }
      var demoted := Demoted(cfg, v2.value, now);
      Set(demoted);
      changed := changed + [demoted];
      var promoted := v3.value.(status := ACTIVE, activation := Some(now));
      Set(promoted);
      changed := changed + [promoted];
      ghost var out := if v1.None? then [] else [v1.value.(status := TERMINATED)];
      assert changed == out + [demoted, promoted];
      r := Ok(changed);
    }

    method Rollback(now: int) returns (r: Result<Credential, Code>)
      requires Valid()
      modifies this
      ensures Valid()
      ensures Step(Value(), r) == RollbackStep(old(Value()))
    {
      var v3 := ByStatus(VALIDATING);
      if v3.None? { return Raised(NO_VALIDATING); }
      Set(v3.value.(status := TERMINATED));
      r := Ok(v3.value.(status := TERMINATED));
    }

    method Revoke(version: int, now: int) returns (r: Result<Credential, Code>)
      requires Valid()
      modifies this
      ensures Valid()
      ensures Step(Value(), r) == RevokeStep(old(Value()), version)
    {
      var c := Get(version);
      if c.None? { return Raised(UNKNOWN_VERSION); }
      Set(c.value.(status := REVOKED));
      r := Ok(c.value.(status := REVOKED));
    }

    method ExpireAll(now: int) returns (changed: seq<Credential>)
      requires Valid()
      modifies this
      ensures Valid()
      ensures Value() == ExpireAllStep(old(Value()), now)
      ensures changed == NewlyLapsed(old(order), old(creds), now)
    {
      changed := [];
      ghost var was := creds;
      for i := 0 to |order|
        invariant order == old(order) && creds.Keys == was.Keys
        invariant forall j :: 0 <= j < i ==> creds[order[j]] == Lapsed(was[order[j]], now)
        invariant forall j :: i <= j < |order| ==> creds[order[j]] == was[order[j]]
        invariant changed == NewlyLapsed(order[..i], was, now)
      {
        var c := creds[order[i]];
        assert order[..i + 1][..i] == order[..i];
        if Authenticating(c.status) && Expired(c, now) {
          creds := creds[order[i] := c.(status := EXPIRED)];
          changed := changed + [c.(status := EXPIRED)];
        }
      }
      assert order[..|order|] == order;
      forall v | v in creds ensures creds[v] == Lapsed(was[v], now) {
        var j :| 0 <= j < |order| && order[j] == v;
      }
      assert creds == ExpireAllStep(old(Value()), now).creds;
    }

    method CredentialForAuth(version: int, now: int) returns (r: Option<Credential>)
      ensures r == Value().ForAuth(version, now)
    {
      var c := Get(version);
      if c.None? { return None; }
      if !Authenticating(c.value.status) { return None; }
      if Expired(c.value, now) { return None; }
      r := c;
    }
  }
}
