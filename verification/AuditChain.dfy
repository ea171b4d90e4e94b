/** The hash chain of `crud/migration_event.py`: what is hashed, how a chain is verified, and
    which changes to a stored log the verification exposes. */
module AuditChain {
  import opened Options
  import opened CanonicalJson

  datatype EventType = StateTransition | StageEvent | ClassifiedError | Heartbeat

  function TypeValue(t: EventType): string {
    match t
    case StateTransition => "state_transition"
    case StageEvent => "stage_event"
    case ClassifiedError => "classified_error"
    case Heartbeat => "heartbeat"
  }

  /** The ten chained columns of a row of `migration_events`. */
  datatype Event = Event(
    migrationId: int,
    tenantId: string,
    sequenceId: int,
    eventType: EventType,
    fromStatus: Option<string>,
    toStatus: Option<string>,
    actorId: Option<int>,
    actorType: string,
    message: Option<string>,
    payload: Option<map<string, Json>>)

  /** A stored row: legacy rows have no hash. `id` and `created_at` are not part of the chain. */
  datatype Row = Row(event: Event, rowHash: Option<string>)

  // ----- The hashed text -----------------------------------------------------------------

  function OptStr(o: Option<string>): Json {
    match o case None => Null case Some(s) => Str(s)
  }

  function OptInt(o: Option<int>): Json {
    match o case None => Null case Some(i) => Int(i)
  }

  function OptObj(o: Option<map<string, Json>>): Json {
    match o case None => Null case Some(m) => Obj(m)
  }

  function EventFields(e: Event): map<string, Json> {
    map[
      "migration_id" := Int(e.migrationId),
      "tenant_id" := Str(e.tenantId),
      "sequence_id" := Int(e.sequenceId),
      "event_type" := Str(TypeValue(e.eventType)),
      "from_status" := OptStr(e.fromStatus),
      "to_status" := OptStr(e.toStatus),
      "actor_id" := OptInt(e.actorId),
      "actor_type" := Str(e.actorType),
      "message" := OptStr(e.message),
      "payload" := OptObj(e.payload)]
  }

  function Canonical(e: Event): string {
    Encode(Obj(EventFields(e)))
  }

  lemma TypeValueInjective(t: EventType, u: EventType)
    ensures TypeValue(t) == TypeValue(u) <==> t == u
  {
    if t != u {
      assert |TypeValue(t)| != |TypeValue(u)| || TypeValue(t)[0] != TypeValue(u)[0];
    }
  }

  lemma FieldsDetermineEvent(a: Event, b: Event)
    requires EventFields(a) == EventFields(b)
    ensures a == b
  {
    var m, n := EventFields(a), EventFields(b);
    TypeValueInjective(a.eventType, b.eventType);
    assert m["migration_id"] == n["migration_id"];
    assert m["tenant_id"] == n["tenant_id"];
    assert m["sequence_id"] == n["sequence_id"];
    assert m["event_type"] == n["event_type"];
    assert m["from_status"] == n["from_status"];
    assert m["to_status"] == n["to_status"];
    assert m["actor_id"] == n["actor_id"];
    assert m["actor_type"] == n["actor_type"];
    assert m["message"] == n["message"];
    assert m["payload"] == n["payload"];
  }

  /** The canonical text stands for exactly the ten chained columns. */
  lemma CanonicalDeterminesEvent(a: Event, b: Event)
    ensures Canonical(a) == Canonical(b) <==> a == b
  {
    EncodeInjective(Obj(EventFields(a)), Obj(EventFields(b)));
    if EventFields(a) == EventFields(b) {
      FieldsDetermineEvent(a, b);
    }
  }

  /** Which column stands under which key. */
  ghost predicate Columns(m: map<string, Json>, e: Event) {
    m.Keys == {"migration_id", "tenant_id", "sequence_id", "event_type", "from_status", "to_status",
               "actor_id", "actor_type", "message", "payload"}
    && m["migration_id"] == Int(e.migrationId)
    && m["tenant_id"] == Str(e.tenantId)
    && m["sequence_id"] == Int(e.sequenceId)
    && m["event_type"] == Str(match e.eventType
                              case StateTransition => "state_transition"
                              case StageEvent => "stage_event"
                              case ClassifiedError => "classified_error"
                              case Heartbeat => "heartbeat")
    && m["from_status"] == (match e.fromStatus case None => Null case Some(x) => Str(x))
    && m["to_status"] == (match e.toStatus case None => Null case Some(x) => Str(x))
    && m["actor_id"] == (match e.actorId case None => Null case Some(x) => Int(x))
    && m["actor_type"] == Str(e.actorType)
    && m["message"] == (match e.message case None => Null case Some(x) => Str(x))
    && m["payload"] == (match e.payload case None => Null case Some(x) => Obj(x))
  }

  lemma FieldsAreColumns(e: Event)
    ensures Columns(EventFields(e), e)
  {
  }

  /** A JSON reader finds in the hashed text an object with exactly the ten columns, each under its name. */
  lemma CanonicalColumns(e: Event)
    ensures Decode(Canonical(e)).Some? && Decode(Canonical(e)).value.Obj?
    ensures Columns(Decode(Canonical(e)).value.fields, e)
  {
    RoundTrip(Obj(EventFields(e)));
    FieldsAreColumns(e);
  }

  lemma CanonicalIsObject(e: Event)
    ensures Canonical(e) != "" && Canonical(e)[0] == '{'
  {
  }

  // ----- The hash ------------------------------------------------------------------------

  predicate IsDigest(s: string) {
    |s| == 64 && forall k :: 0 <= k < 64 ==> '0' <= s[k] <= '9' || 'a' <= s[k] <= 'f'
  }

  /** The two functions the chain is built from: SHA-256 in hexadecimal, and the text of an event
      (`Canonical` in the code). */
  datatype Chain = Chain(sha: string -> string, text: Event -> string)

  /** What the theorems need of them: digests are 64 hexadecimal digits, and the text is a JSON
      object that determines the event. */
  ghost predicate Sound(c: Chain) {
    (forall s :: IsDigest(c.sha(s)))
    && (forall e :: c.text(e) != "" && c.text(e)[0] == '{')
    && (forall a, b :: c.text(a) == c.text(b) ==> a == b)
  }

  function CodeChain(sha: string -> string): Chain { Chain(sha, e => Canonical(e)) }

  lemma CodeChainIsSound(sha: string -> string)
    requires forall s :: IsDigest(sha(s))
    ensures Sound(CodeChain(sha))
    ensures CodeChain(sha).sha == sha && forall e :: CodeChain(sha).text(e) == Canonical(e)
  {
    var c := CodeChain(sha);
    forall e ensures c.text(e) != "" && c.text(e)[0] == '{' { CanonicalIsObject(e); }
    forall a, b | c.text(a) == c.text(b) ensures a == b { CanonicalDeterminesEvent(a, b); }
  }

  const GENESIS := ""

  function RowHash(c: Chain, prev: string, e: Event): string {
    c.sha(prev + c.text(e))
  }

  /** What precedes the payload in the hashed text: nothing, or the digest of the row before. */
  predicate IsLink(s: string) { s == GENESIS || IsDigest(s) }

  /** The hashed text falls apart in one way only. */
  lemma HashInputDecodes(c: Chain, p: string, a: Event, q: string, b: Event)
    requires Sound(c) && IsLink(p) && IsLink(q)
    ensures p + c.text(a) == q + c.text(b) <==> p == q && a == b
  {
    var s, t := c.text(a), c.text(b);
    if p + s == q + t {
      SplitHashInput(p, s, q, t);
    }
  }

  lemma SplitHashInput(p: string, s: string, q: string, t: string)
    requires IsLink(p) && IsLink(q) && s != "" && t != "" && s[0] == '{' && t[0] == '{'
    requires p + s == q + t
    ensures p == q && s == t
  {
    BraceFirst(p, s);
    BraceFirst(q, t);
    assert |p| == |q|;
    assert (p + s)[..|p|] == p && (q + t)[..|q|] == q;
    assert (p + s)[|p|..] == s && (q + t)[|q|..] == t;
  }

  lemma BraceFirst(p: string, s: string)
    requires IsLink(p) && s != "" && s[0] == '{'
    ensures (p + s)[0] == '{' <==> p == GENESIS
  {
  }

  // ----- Verification --------------------------------------------------------------------

  /** The hash row `i` is chained to: the genesis at the start and behind an unchained row. */
  function PrevHash(rows: seq<Row>, i: nat): string
    requires i <= |rows|
  {
    if i == 0 || rows[i - 1].rowHash.None? then GENESIS else rows[i - 1].rowHash.value
  }

  function LastHash(rows: seq<Row>): string { PrevHash(rows, |rows|) }

  ghost predicate RowVerified(c: Chain, rows: seq<Row>, i: nat)
    requires i < |rows|
  {
    rows[i].rowHash.Some? ==> rows[i].rowHash.value == RowHash(c, PrevHash(rows, i), rows[i].event)
  }

  ghost predicate Verified(c: Chain, rows: seq<Row>) {
    forall i :: 0 <= i < |rows| ==> RowVerified(c, rows, i)
  }

  /** What a verified log is, in terms of the hash and the text alone: a chained row at the start, or behind
      an unchained row, carries the digest of its own text; any other chained row that of the digest before
      it followed by its text. Unchained rows are free. */
  lemma VerifiedMeans(c: Chain, rows: seq<Row>)
    ensures Verified(c, rows) <==>
            forall i :: 0 <= i < |rows| && rows[i].rowHash.Some? ==>
              if i == 0 || rows[i - 1].rowHash.None? then rows[i].rowHash == Some(c.sha(c.text(rows[i].event)))
              else rows[i].rowHash == Some(c.sha(rows[i - 1].rowHash.value + c.text(rows[i].event)))
  {
    assert forall i :: 0 <= i < |rows| ==> "" + c.text(rows[i].event) == c.text(rows[i].event);
    assert forall i :: 0 <= i < |rows| && rows[i].rowHash.Some? ==>
             (RowVerified(c, rows, i) <==>
              if i == 0 || rows[i - 1].rowHash.None? then rows[i].rowHash == Some(c.sha(c.text(rows[i].event)))
              else rows[i].rowHash == Some(c.sha(rows[i - 1].rowHash.value + c.text(rows[i].event))));
  }

  /** The loop of `verify_event_chain` over the rows of one migration in sequence order. */
  method VerifyEventChain(c: Chain, rows: seq<Row>) returns (intact: bool, broken: Option<int>)
    ensures intact <==> Verified(c, rows)
    ensures intact <==> broken == None
    ensures !intact ==>
      exists i :: 0 <= i < |rows| && broken == Some(rows[i].event.sequenceId)
                  && !RowVerified(c, rows, i) && Verified(c, rows[..i])
  {
    var prevHash := GENESIS;
    for k := 0 to |rows|
      invariant prevHash == PrevHash(rows, k)
      invariant forall i :: 0 <= i < k ==> RowVerified(c, rows, i)
    {
      var row := rows[k];
      if row.rowHash.None? {
        prevHash := GENESIS;
      } else {
        var expected := RowHash(c, prevHash, row.event);
        if expected != row.rowHash.value {
          PrefixVerified(c, rows, k);
          assert !RowVerified(c, rows, k);
          return false, Some(row.event.sequenceId);
        }
        prevHash := row.rowHash.value;
      }
    }
    return true, None;
  }

  lemma PrefixVerified(c: Chain, rows: seq<Row>, k: nat)
    requires k <= |rows| && forall i :: 0 <= i < k ==> RowVerified(c, rows, i)
    ensures Verified(c, rows[..k])
  {
    forall i | 0 <= i < k ensures RowVerified(c, rows[..k], i) {
      assert RowVerified(c, rows, i);
      assert PrevHash(rows[..k], i) == PrevHash(rows, i);
    }
  }

  // ----- Tamper evidence -----------------------------------------------------------------

  ghost predicate FullyChained(rows: seq<Row>) {
    forall i :: 0 <= i < |rows| ==> rows[i].rowHash.Some?
  }

  /** The texts that verifying `rows` hashes; an unchained row is not hashed. */
  ghost function Inputs(c: Chain, rows: seq<Row>): set<string> {
    set i | 0 <= i < |rows| && rows[i].rowHash.Some? :: PrevHash(rows, i) + c.text(rows[i].event)
  }

  /** No two different texts among the hashed ones share a digest. */
  ghost predicate NoCollision(c: Chain, inputs: set<string>) {
    forall x, y :: x in inputs && y in inputs && c.sha(x) == c.sha(y) ==> x == y
  }

  lemma VerifiedLinks(c: Chain, rows: seq<Row>, i: nat)
    requires Sound(c) && Verified(c, rows) && i <= |rows|
    ensures IsLink(PrevHash(rows, i))
    ensures i > 0 ==> (PrevHash(rows, i) == GENESIS <==> rows[i - 1].rowHash.None?)
  {
    if i > 0 { assert RowVerified(c, rows, i - 1); }
  }

  /** Two verified logs with equal hashes on two chained rows hold the same row there,
      chained to the same hash. */
  lemma EqualHashEqualRow(c: Chain, l: seq<Row>, i: nat, t: seq<Row>, j: nat)
    requires Sound(c) && Verified(c, l) && Verified(c, t)
    requires NoCollision(c, Inputs(c, l) + Inputs(c, t))
    requires i < |l| && j < |t| && l[i].rowHash.Some? && l[i].rowHash == t[j].rowHash
    ensures l[i] == t[j] && PrevHash(l, i) == PrevHash(t, j)
  {
    assert RowVerified(c, l, i) && RowVerified(c, t, j);
    VerifiedLinks(c, l, i);
    VerifiedLinks(c, t, j);
    assert PrevHash(l, i) + c.text(l[i].event) in Inputs(c, l);
    assert PrevHash(t, j) + c.text(t[j].event) in Inputs(c, t);
    HashInputDecodes(c, PrevHash(l, i), l[i].event, PrevHash(t, j), t[j].event);
  }

  /** `l` from row `i` on and `t` from row `j` on are the same rows behind the same hash. */
  predicate Agree(l: seq<Row>, i: int, t: seq<Row>, j: int) {
    0 <= i <= |l| && 0 <= j <= |t| && l[i..] == t[j..] && PrevHash(l, i) == PrevHash(t, j)
  }

  lemma LastAgrees(c: Chain, l: seq<Row>, t: seq<Row>)
    requires Sound(c) && Verified(c, l) && Verified(c, t)
    requires NoCollision(c, Inputs(c, l) + Inputs(c, t))
    requires FullyChained(l) && l != [] && t != [] && l[|l| - 1] == t[|t| - 1]
    ensures Agree(l, |l| - 1, t, |t| - 1)
  {
    EqualHashEqualRow(c, l, |l| - 1, t, |t| - 1);
  }

  /** Going back from a common last row, the two logs agree as long as `l` lasts. */
  lemma {:induction false} SuffixAgrees(c: Chain, l: seq<Row>, t: seq<Row>, k: nat)
    requires Sound(c) && Verified(c, l) && Verified(c, t)
    requires NoCollision(c, Inputs(c, l) + Inputs(c, t))
    requires FullyChained(l) && l != [] && t != [] && l[|l| - 1] == t[|t| - 1]
    requires 1 <= k <= |l|
    ensures Agree(l, |l| - k, t, |t| - k)
  {
    if k == 1 {
      LastAgrees(c, l, t);
    } else {
      SuffixAgrees(c, l, t, k - 1);
      StepBack(c, l, |l| - k, t, |t| - k);
    }
  }

  lemma StepBack(c: Chain, l: seq<Row>, i: nat, t: seq<Row>, j: int)
    requires Sound(c) && Verified(c, l) && Verified(c, t)
    requires NoCollision(c, Inputs(c, l) + Inputs(c, t))
    requires i < |l| && l[i].rowHash.Some? && Agree(l, i + 1, t, j + 1)
    ensures Agree(l, i, t, j)
  {
    VerifiedLinks(c, l, i + 1);
    VerifiedLinks(c, t, j + 1);
    EqualHashEqualRow(c, l, i, t, j);
    assert l[i..] == [l[i]] + l[i + 1..] && t[j..] == [t[j]] + t[j + 1..];
  }

  /** `t` is `l` behind rows that verify by themselves and end in an unchained row. */
  ghost predicate ExtendsBackwards(c: Chain, t: seq<Row>, l: seq<Row>) {
    |l| <= |t|
    && var n := |t| - |l|;
       t[n..] == l && Verified(c, t[..n]) && (n > 0 ==> t[n - 1].rowHash.None?)
  }

  lemma JoinVerified(c: Chain, x: seq<Row>, l: seq<Row>)
    requires Verified(c, x) && Verified(c, l) && (x != [] ==> x[|x| - 1].rowHash.None?)
    ensures Verified(c, x + l)
  {
    var t := x + l;
    forall i | 0 <= i < |t| ensures RowVerified(c, t, i) {
      if i < |x| {
        assert RowVerified(c, x, i) && PrevHash(t, i) == PrevHash(x, i);
      } else {
        assert RowVerified(c, l, i - |x|) && PrevHash(t, i) == PrevHash(l, i - |x|);
      }
    }
  }

  /** Tamper evidence. Let `l` be a verified log without unchained rows. A log `t` that ends in
      the same last row verifies exactly if it is `l` itself, possibly behind older rows that
      verify on their own and end in an unchained row, unless two hashed texts collide. */
  lemma TamperEvident(c: Chain, l: seq<Row>, t: seq<Row>)
    requires Sound(c) && NoCollision(c, Inputs(c, l) + Inputs(c, t))
    requires Verified(c, l) && FullyChained(l) && l != [] && t != [] && l[|l| - 1] == t[|t| - 1]
    ensures Verified(c, t) <==> ExtendsBackwards(c, t, l)
  {
    if Verified(c, t) { VerifiedExtends(c, l, t); }
    if ExtendsBackwards(c, t, l) { ExtensionVerified(c, l, t); }
  }

  lemma VerifiedExtends(c: Chain, l: seq<Row>, t: seq<Row>)
    requires Sound(c) && NoCollision(c, Inputs(c, l) + Inputs(c, t))
    requires Verified(c, l) && FullyChained(l) && l != [] && t != [] && l[|l| - 1] == t[|t| - 1]
    requires Verified(c, t)
    ensures ExtendsBackwards(c, t, l)
  {
    SuffixAgrees(c, l, t, |l|);
    var n := |t| - |l|;
    assert l[0..] == l;
    PrefixVerified(c, t, n);
    VerifiedLinks(c, t, n);
  }

  lemma ExtensionVerified(c: Chain, l: seq<Row>, t: seq<Row>)
    requires Verified(c, l) && ExtendsBackwards(c, t, l)
    ensures Verified(c, t)
  {
    var n := |t| - |l|;
    JoinVerified(c, t[..n], l);
    assert t == t[..n] + l;
  }

  /** With the last row kept: an edit or a reordering of earlier rows, the removal of earlier
      rows, and any other rewrite that leaves no unchained row fail to verify. */
  lemma ChangesBeforeLastRowAreFlagged(c: Chain, l: seq<Row>, t: seq<Row>)
    requires Sound(c) && NoCollision(c, Inputs(c, l) + Inputs(c, t))
    requires Verified(c, l) && FullyChained(l) && l != [] && t != [] && l[|l| - 1] == t[|t| - 1]
    ensures t != l && |t| <= |l| ==> !Verified(c, t)
    ensures t != l && FullyChained(t) ==> !Verified(c, t)
  {
    TamperEvident(c, l, t);
    if |t| == |l| { assert t[0..] == t; }
  }

  /** What goes unnoticed: cutting off the tail, and rewriting the last row with a fresh hash.
      No later row exists whose hash would break. */
  lemma TailIsNotProtected(c: Chain, l: seq<Row>, k: nat, e: Event)
    requires Verified(c, l) && k <= |l|
    ensures Verified(c, l[..k])
    ensures Verified(c, l[..k] + [Sealed(c, l[..k], e)])
  {
    PrefixVerified(c, l, k);
    AppendVerified(c, l[..k], e);
  }

  /** The row `record_event` writes behind `rows`. */
  function Sealed(c: Chain, rows: seq<Row>, e: Event): Row {
    Row(e, Some(RowHash(c, LastHash(rows), e)))
  }

  lemma AppendVerified(c: Chain, rows: seq<Row>, e: Event)
    requires Verified(c, rows)
    ensures Verified(c, rows + [Sealed(c, rows, e)])
  {
    var t := rows + [Sealed(c, rows, e)];
    forall i | 0 <= i < |t| ensures RowVerified(c, t, i) {
      if i < |rows| { assert RowVerified(c, rows, i); }
      assert PrevHash(t, i) == PrevHash(rows, i);
    }
  }
}
