/** Refresh-token families in Redis (`core/refresh_token_store.py`): rotation with reuse detection,
    section 4.14.2 of RFC 9700. Every Redis command, and every MULTI/EXEC block, is one step; the
    steps of any number of calls interleave with each other and with the clock. */
module RefreshTokens {
  import opened Options

  /** `rt:fam:<family>:meta` and `rt:fam:<family>:<jti>`. Identifiers are uuid4 hexadecimals, so
      different families and tokens have different keys. */
  datatype Key = MetaKey(fam: string) | JtiKey(fam: string, jti: string)

  /** The stored user id and the second at which the key expires. */
  datatype Entry = Entry(user: int, exp: int)

  type Store = map<Key, Entry>

  datatype Result = RotateOk(user: int, newJti: string) | RotateReuseDetected(owner: int) | RotateUnknown | Revoked

  /** The command a call runs next. `owner` is set if the wipe follows a detected reuse; `due` are the
      family's keys when the SCAN began, `done` those it has deleted. */
  datatype Pc =
    | Del
    | HGetOwner
    | Reissue
    | HGetReuse
    | ScanStart(owner: Option<int>)
    | Scanning(owner: Option<int>, due: set<Key>, done: set<Key>)
    | ScanDel(owner: Option<int>, due: set<Key>, done: set<Key>, key: Key)
    | Finished(result: Result)

  datatype Call = Call(fam: string, jti: string, user: int, pc: Pc)

  /** `creator`, `issued` and `latest` record what was created. The code has no such record; the steps
      use it only to draw unused uuids. */
  datatype State = State(
    store: Store,
    now: int,
    calls: map<nat, Call>,
    creator: map<string, int>,
    issued: set<string>,
    latest: map<string, string>)

  const INITIAL := State(map[], 0, map[], map[], {}, map[])

  // ----- Redis commands ------------------------------------------------------------------

  predicate LiveIn(store: Store, now: int, k: Key) { k in store && now < store[k].exp }

  predicate Live(s: State, k: Key) { LiveIn(s.store, s.now, k) }

  /** MULTI: SET the token, HSET the meta hash, EXPIRE it. EXEC. */
  function FamilyCreated(store: Store, now: int, ttl: int, fam: string, jti: string, user: int): Store {
    store[JtiKey(fam, jti) := Entry(user, now + ttl)][MetaKey(fam) := Entry(user, now + ttl)]
  }

  /** MULTI: SET the new token, EXPIRE the meta key, which does nothing if the key is gone. EXEC. */
  function Reissued(store: Store, now: int, ttl: int, fam: string, jti: string, user: int): Store {
    var withToken := store[JtiKey(fam, jti) := Entry(user, now + ttl)];
    if LiveIn(store, now, MetaKey(fam))
    then withToken[MetaKey(fam) := Entry(store[MetaKey(fam)].user, now + ttl)] else withToken
  }

  function FamilyKeys(store: Store, now: int, fam: string): set<Key> {
    set k | k in store && k.fam == fam && LiveIn(store, now, k)
  }

  // ----- Steps ---------------------------------------------------------------------------

  datatype Action =
    | Tick(seconds: nat)
    | Create(newFam: string, newJti: string, user: int)
    | StartRotate(c: nat, fam: string, jti: string, user: int)
    | StartRevoke(c: nat, fam: string)
    /** The next command of call `c`; `uuid` is the uuid it draws if it needs one. */
    | Next(c: nat, uuid: string)
    /** SCAN hands `key` to call `c`. It may be stale, and the same key may come twice. */
    | ScanKey(c: nat, key: Key)
    /** SCAN ends. It has returned every key that was there from its beginning to its end. */
    | ScanEnd(c: nat)

  function SetPc(s: State, c: nat, pc: Pc): State
    requires c in s.calls
  {
    s.(calls := s.calls[c := s.calls[c].(pc := pc)])
  }

  function NextCommand(ttl: int, s: State, c: nat, uuid: string): State
    requires c in s.calls
  {
    var call := s.calls[c];
    var meta := MetaKey(call.fam);
    match call.pc
    case Del =>
      var key := JtiKey(call.fam, call.jti);
      if Live(s, key) then SetPc(s, c, HGetOwner).(store := s.store - {key}) else SetPc(s, c, HGetReuse)
    case HGetOwner =>
      SetPc(s, c, if Live(s, meta) && s.store[meta].user == call.user then Reissue else Finished(RotateUnknown))
    case Reissue =>
      if uuid in s.issued then s
      else
        SetPc(s, c, Finished(RotateOk(call.user, uuid))).(
          store := Reissued(s.store, s.now, ttl, call.fam, uuid, call.user),
          issued := s.issued + {uuid},
          latest := s.latest[call.fam := uuid])
    case HGetReuse =>
      SetPc(s, c, if Live(s, meta) then ScanStart(Some(s.store[meta].user)) else Finished(RotateUnknown))
    case ScanStart(owner) => SetPc(s, c, Scanning(owner, FamilyKeys(s.store, s.now, call.fam), {}))
    case ScanDel(owner, due, done, key) => SetPc(s, c, Scanning(owner, due, done + {key})).(store := s.store - {key})
    case _ => s
  }

  /** A uuid nobody has seen: not created, and not named by any call. */
  predicate NewFamily(s: State, fam: string) {
    fam !in s.creator && forall c :: c in s.calls ==> s.calls[c].fam != fam
  }

  /** No key that was there when the SCAN began and still is has been kept from the call. (No key is
      created twice, so such a key was there all the time.) */
  predicate ScanComplete(s: State, pc: Pc)
    requires pc.Scanning?
  {
    forall k :: k in pc.due && Live(s, k) ==> k in pc.done
  }

  /** One step; an action that is not possible now changes nothing. */
  function Step(ttl: int, s: State, a: Action): State {
    match a
    case Tick(seconds) => s.(now := s.now + seconds)
    case Create(fam, jti, user) =>
      if NewFamily(s, fam) && jti !in s.issued then
        s.(store := FamilyCreated(s.store, s.now, ttl, fam, jti, user),
           creator := s.creator[fam := user], issued := s.issued + {jti}, latest := s.latest[fam := jti])
      else s
    case StartRotate(c, fam, jti, user) =>
      if c in s.calls then s else s.(calls := s.calls[c := Call(fam, jti, user, Del)])
    case StartRevoke(c, fam) =>
      if c in s.calls then s else s.(calls := s.calls[c := Call(fam, "", 0, ScanStart(None))])
    case Next(c, uuid) => if c in s.calls then NextCommand(ttl, s, c, uuid) else s
    case ScanKey(c, key) =>
      if c in s.calls && s.calls[c].pc.Scanning? && key.fam == s.calls[c].fam
      then SetPc(s, c, ScanDel(s.calls[c].pc.owner, s.calls[c].pc.due, s.calls[c].pc.done, key)) else s
    case ScanEnd(c) =>
      if c in s.calls && s.calls[c].pc.Scanning? && ScanComplete(s, s.calls[c].pc)
      then SetPc(s, c, Finished(match s.calls[c].pc.owner case Some(u) => RotateReuseDetected(u) case None => Revoked))
      else s
  }

  function Run(ttl: int, s: State, acts: seq<Action>): State {
    if acts == [] then s else Step(ttl, Run(ttl, s, acts[..|acts| - 1]), acts[|acts| - 1])
  }

  // ----- The invariant -------------------------------------------------------------------

  /** The call consumed its token: its DEL deleted the key. */
  predicate InFlight(call: Call) { call.pc.HGetOwner? || call.pc.Reissue? }

  predicate Won(call: Call) { InFlight(call) || (call.pc.Finished? && call.pc.result.RotateOk?) }

  /** What can hold the one valid token of a family. */
  datatype Holder = InStore(jti: string) | InCall(c: nat)

  predicate Holds(s: State, fam: string, h: Holder) {
    match h
    case InStore(j) => Live(s, JtiKey(fam, j))
    case InCall(c) => c in s.calls && s.calls[c].fam == fam && InFlight(s.calls[c])
  }

  ghost predicate AtMostOneToken(s: State, fam: string) {
    forall g, h :: Holds(s, fam, g) && Holds(s, fam, h) ==> g == h
  }

  ghost predicate StoreOk(s: State) {
    (forall k :: k in s.store ==> k.fam in s.creator)
    && (forall k :: k in s.store && k.MetaKey? ==> s.store[k].user == s.creator[k.fam])
    && (forall k :: k in s.store && k.JtiKey? ==> k.jti in s.issued)
    && (forall fam, j {:trigger JtiKey(fam, j)} ::
          Live(s, MetaKey(fam)) && Live(s, JtiKey(fam, j)) ==>
          s.store[MetaKey(fam)].exp == s.store[JtiKey(fam, j)].exp)
  }

  ghost predicate CallOk(s: State, call: Call) {
    var meta := MetaKey(call.fam);
    (Won(call) ==> call.fam in s.creator && call.jti in s.issued && !Live(s, JtiKey(call.fam, call.jti)))
    && (call.pc.Reissue? ==> call.user == s.creator[call.fam])
    && (call.pc.Finished? && call.pc.result.RotateOk? ==>
          call.pc.result.user == call.user == s.creator[call.fam])
    && ((call.pc.Scanning? || call.pc.ScanDel?) && Live(s, meta) ==>
          meta in call.pc.due && meta !in call.pc.done)
    && (call.pc.ScanDel? ==> call.pc.key.fam == call.fam)
    && (call.pc.Finished? && (call.pc.result.RotateReuseDetected? || call.pc.result.Revoked?) ==> !Live(s, meta))
  }

  ghost predicate Inv(s: State) {
    StoreOk(s)
    && (forall c :: c in s.calls ==> CallOk(s, s.calls[c]))
    && (forall fam :: AtMostOneToken(s, fam))
    && (forall c, d :: c in s.calls && d in s.calls && c != d && Won(s.calls[c]) && Won(s.calls[d]) ==>
          s.calls[c].fam != s.calls[d].fam || s.calls[c].jti != s.calls[d].jti)
  }

  lemma InitialInv()
    ensures Inv(INITIAL)
  {
  }

  /** Time passes, keys disappear; nothing is written. */
  ghost predicate OnlyLoses(s: State, s': State) {
    s'.now >= s.now && s'.creator == s.creator && s'.issued == s.issued
    && forall k :: k in s'.store ==> k in s.store && s'.store[k] == s.store[k]
  }

  lemma CallStaysOk(s: State, s': State, call: Call)
    requires CallOk(s, call) && OnlyLoses(s, s')
    ensures CallOk(s', call)
  {
    assert Live(s', MetaKey(call.fam)) ==> Live(s, MetaKey(call.fam));
    assert Live(s', JtiKey(call.fam, call.jti)) ==> Live(s, JtiKey(call.fam, call.jti));
  }

  lemma StoreStaysOk(s: State, s': State)
    requires StoreOk(s) && OnlyLoses(s, s')
    ensures StoreOk(s')
  {
    forall fam, j {:trigger JtiKey(fam, j)} | Live(s', MetaKey(fam)) && Live(s', JtiKey(fam, j))
      ensures s'.store[MetaKey(fam)].exp == s'.store[JtiKey(fam, j)].exp
    {
      assert Live(s, MetaKey(fam)) && Live(s, JtiKey(fam, j));
    }
  }

  /** Call `c` moves on, or is new, without consuming a token. */
  ghost predicate Quiet(s: State, s': State, c: nat) {
    OnlyLoses(s, s') && c in s'.calls && s'.calls == s.calls[c := s'.calls[c]]
    && CallOk(s', s'.calls[c])
    && (InFlight(s'.calls[c]) ==> c in s.calls && InFlight(s.calls[c]))
    && (Won(s'.calls[c]) ==> c in s.calls && Won(s.calls[c]))
    && (c in s.calls ==> s'.calls[c].fam == s.calls[c].fam && s'.calls[c].jti == s.calls[c].jti)
  }

  lemma QuietKeepsInv(s: State, s': State, c: nat)
    requires Inv(s) && Quiet(s, s', c)
    ensures Inv(s')
  {
    StoreStaysOk(s, s');
    forall d | d in s'.calls && d != c ensures CallOk(s', s'.calls[d]) {
      CallStaysOk(s, s', s.calls[d]);
    }
    forall fam ensures AtMostOneToken(s', fam) {
      assert AtMostOneToken(s, fam);
      assert forall h :: Holds(s', fam, h) ==> Holds(s, fam, h);
    }
  }

  lemma TickKeepsInv(ttl: int, s: State, seconds: nat)
    requires Inv(s)
    ensures Inv(Step(ttl, s, Tick(seconds)))
  {
    var s' := Step(ttl, s, Tick(seconds));
    StoreStaysOk(s, s');
    forall d | d in s'.calls ensures CallOk(s', s'.calls[d]) {
      CallStaysOk(s, s', s.calls[d]);
    }
    forall fam ensures AtMostOneToken(s', fam) {
      assert AtMostOneToken(s, fam);
      assert forall h :: Holds(s', fam, h) ==> Holds(s, fam, h);
    }
  }

  lemma CreateKeepsInv(ttl: int, s: State, fam: string, jti: string, user: int)
    requires Inv(s) && ttl > 0
    ensures Inv(Step(ttl, s, Create(fam, jti, user)))
  {
    var s' := Step(ttl, s, Create(fam, jti, user));
    if s' != s {
      assert forall k: Key :: k.fam != fam ==> (Live(s', k) <==> Live(s, k));
      assert forall j :: Live(s', JtiKey(fam, j)) ==> j == jti;
      forall d | d in s'.calls ensures CallOk(s', s'.calls[d]) {
        assert CallOk(s, s.calls[d]);
      }
      CreateStoreOk(ttl, s, fam, jti, user);
      forall f ensures AtMostOneToken(s', f) {
        assert AtMostOneToken(s, f);
        if f != fam { assert forall h :: Holds(s', f, h) ==> Holds(s, f, h); }
      }
    }
  }

  lemma CreateStoreOk(ttl: int, s: State, fam: string, jti: string, user: int)
    requires StoreOk(s) && ttl > 0 && NewFamily(s, fam) && jti !in s.issued
    ensures StoreOk(Step(ttl, s, Create(fam, jti, user)))
  {
    var s' := Step(ttl, s, Create(fam, jti, user));
    forall f, j {:trigger JtiKey(f, j)} | Live(s', MetaKey(f)) && Live(s', JtiKey(f, j))
      ensures s'.store[MetaKey(f)].exp == s'.store[JtiKey(f, j)].exp
    {
      if f != fam { assert Live(s, MetaKey(f)) && Live(s, JtiKey(f, j)); }
    }
  }

  /** A call that only moves on. */
  lemma MoveIsQuiet(s: State, c: nat, pc: Pc)
    requires c in s.calls && CallOk(s, s.calls[c].(pc := pc))
    requires var moved := s.calls[c].(pc := pc);
             (InFlight(moved) ==> InFlight(s.calls[c])) && (Won(moved) ==> Won(s.calls[c]))
    ensures Quiet(s, SetPc(s, c, pc), c)
  {
    var s' := SetPc(s, c, pc);
    assert s'.store == s.store && s'.now == s.now;
    CallStaysOk(s, s', s.calls[c].(pc := pc));
  }

  /** The wipe deletes one key. */
  lemma ScanDelIsQuiet(ttl: int, s: State, c: nat, uuid: string)
    requires c in s.calls && s.calls[c].pc.ScanDel? && CallOk(s, s.calls[c])
    ensures Quiet(s, NextCommand(ttl, s, c, uuid), c)
  {
  }

  /** Every command but a winning DEL and the reissue is quiet. */
  lemma NextIsQuiet(ttl: int, s: State, c: nat, uuid: string)
    requires c in s.calls && CallOk(s, s.calls[c]) && !s.calls[c].pc.Reissue? && StoreOk(s)
    requires !(s.calls[c].pc.Del? && Live(s, JtiKey(s.calls[c].fam, s.calls[c].jti)))
    requires NextCommand(ttl, s, c, uuid) != s
    ensures Quiet(s, NextCommand(ttl, s, c, uuid), c)
  {
    if s.calls[c].pc.ScanDel? {
      ScanDelIsQuiet(ttl, s, c, uuid);
    } else {
      MoveIsQuiet(s, c, NextCommand(ttl, s, c, uuid).calls[c].pc);
    }
  }

  lemma NextKeepsInv(ttl: int, s: State, c: nat, uuid: string)
    requires Inv(s) && ttl > 0 && c in s.calls
    ensures Inv(NextCommand(ttl, s, c, uuid))
  {
    var s' := NextCommand(ttl, s, c, uuid);
    var call := s.calls[c];
    if call.pc.Reissue? {
      ReissueKeepsInv(ttl, s, c, uuid);
    } else if call.pc.Del? && Live(s, JtiKey(call.fam, call.jti)) {
      ConsumeKeepsInv(ttl, s, c, uuid);
    } else if s' != s {
      assert CallOk(s, s.calls[c]);
      NextIsQuiet(ttl, s, c, uuid);
      QuietKeepsInv(s, s', c);
    }
  }

  lemma ConsumeKeepsInv(ttl: int, s: State, c: nat, uuid: string)
    requires Inv(s) && c in s.calls && s.calls[c].pc.Del? && Live(s, JtiKey(s.calls[c].fam, s.calls[c].jti))
    ensures Inv(NextCommand(ttl, s, c, uuid))
  {
    var s' := NextCommand(ttl, s, c, uuid);
    var call := s.calls[c];
    StoreStaysOk(s, s');
    forall d | d in s'.calls && d != c ensures CallOk(s', s'.calls[d]) {
      CallStaysOk(s, s', s.calls[d]);
    }
    assert Holds(s, call.fam, InStore(call.jti));
    forall f ensures AtMostOneToken(s', f) {
      assert AtMostOneToken(s, f);
      if f == call.fam {
        assert forall h :: Holds(s', f, h) && h != InCall(c) ==> Holds(s, f, h) && h != InStore(call.jti);
      } else {
        assert forall h :: Holds(s', f, h) ==> Holds(s, f, h);
      }
    }
    forall d | d in s.calls && d != c && Won(s.calls[d])
      ensures s.calls[d].fam != call.fam || s.calls[d].jti != call.jti
    {
      assert CallOk(s, s.calls[d]);
    }
  }

  lemma ReissueStoreOk(ttl: int, s: State, c: nat, uuid: string)
    requires Inv(s) && ttl > 0 && c in s.calls && s.calls[c].pc.Reissue? && uuid !in s.issued
    ensures var fam := s.calls[c].fam;
            var s' := NextCommand(ttl, s, c, uuid);
            StoreOk(s')
            && (forall j :: Live(s', JtiKey(fam, j)) ==> j == uuid)
            && (forall k: Key :: k.fam != fam ==> (Live(s', k) <==> Live(s, k)))
            && (Live(s', MetaKey(fam)) <==> Live(s, MetaKey(fam)))
  {
    var s' := NextCommand(ttl, s, c, uuid);
    var fam := s.calls[c].fam;
    assert CallOk(s, s.calls[c]);
    assert Holds(s, fam, InCall(c)) && AtMostOneToken(s, fam);
    forall j ensures !Live(s, JtiKey(fam, j)) {
      assert Holds(s, fam, InStore(j)) <==> Live(s, JtiKey(fam, j));
    }
    forall f, j {:trigger JtiKey(f, j)} | Live(s', MetaKey(f)) && Live(s', JtiKey(f, j))
      ensures s'.store[MetaKey(f)].exp == s'.store[JtiKey(f, j)].exp
    {
      if f != fam { assert Live(s, MetaKey(f)) && Live(s, JtiKey(f, j)); }
    }
  }

  lemma ReissueCallsOk(ttl: int, s: State, c: nat, uuid: string, d: nat)
    requires Inv(s) && ttl > 0 && c in s.calls && s.calls[c].pc.Reissue? && uuid !in s.issued && d in s.calls
    ensures CallOk(NextCommand(ttl, s, c, uuid), NextCommand(ttl, s, c, uuid).calls[d])
  {
    ReissueStoreOk(ttl, s, c, uuid);
    assert CallOk(s, s.calls[c]) && CallOk(s, s.calls[d]);
  }

  lemma ReissueKeepsOneToken(ttl: int, s: State, c: nat, uuid: string, f: string)
    requires Inv(s) && ttl > 0 && c in s.calls && s.calls[c].pc.Reissue? && uuid !in s.issued
    ensures AtMostOneToken(NextCommand(ttl, s, c, uuid), f)
  {
    var s' := NextCommand(ttl, s, c, uuid);
    ReissueStoreOk(ttl, s, c, uuid);
    assert Holds(s, s.calls[c].fam, InCall(c)) && AtMostOneToken(s, f);
    if f == s.calls[c].fam {
      assert forall h :: Holds(s', f, h) && h.InCall? ==> Holds(s, f, h) && h != InCall(c);
    } else {
      assert forall h :: Holds(s', f, h) ==> Holds(s, f, h);
    }
  }

  lemma ReissueKeepsInv(ttl: int, s: State, c: nat, uuid: string)
    requires Inv(s) && ttl > 0 && c in s.calls && s.calls[c].pc.Reissue?
    ensures Inv(NextCommand(ttl, s, c, uuid))
  {
    var s' := NextCommand(ttl, s, c, uuid);
    if uuid !in s.issued {
      ReissueStoreOk(ttl, s, c, uuid);
      forall d | d in s'.calls ensures CallOk(s', s'.calls[d]) {
        ReissueCallsOk(ttl, s, c, uuid, d);
      }
      forall f ensures AtMostOneToken(s', f) {
        ReissueKeepsOneToken(ttl, s, c, uuid, f);
      }
    }
  }

  lemma ScanIsQuiet(ttl: int, s: State, a: Action, c: nat)
    requires Inv(s) && (a.ScanKey? || a.ScanEnd?) && a.c == c && Step(ttl, s, a) != s
    ensures Quiet(s, Step(ttl, s, a), c)
  {
    var s' := Step(ttl, s, a);
    assert CallOk(s, s.calls[c]);
    MoveIsQuiet(s, c, s'.calls[c].pc);
  }

  lemma StepKeepsInv(ttl: int, s: State, a: Action)
    requires Inv(s) && ttl > 0
    ensures Inv(Step(ttl, s, a))
  {
    var s' := Step(ttl, s, a);
    match a
    case Tick(seconds) => TickKeepsInv(ttl, s, seconds);
    case Create(fam, jti, user) => CreateKeepsInv(ttl, s, fam, jti, user);
    case Next(c, uuid) => if c in s.calls { NextKeepsInv(ttl, s, c, uuid); }
    case StartRotate(c, _, _, _) => if s' != s { QuietKeepsInv(s, s', c); }
    case StartRevoke(c, _) => if s' != s { QuietKeepsInv(s, s', c); }
    case ScanKey(c, _) => if s' != s { ScanIsQuiet(ttl, s, a, c); QuietKeepsInv(s, s', c); }
    case ScanEnd(c) => if s' != s { ScanIsQuiet(ttl, s, a, c); QuietKeepsInv(s, s', c); }
  }

  lemma {:induction false} RunKeepsInv(ttl: int, s: State, acts: seq<Action>)
    requires Inv(s) && ttl > 0
    ensures Inv(Run(ttl, s, acts))
  {
    if acts == [] {
    } else {
      RunKeepsInv(ttl, s, acts[..|acts| - 1]);
      StepKeepsInv(ttl, Run(ttl, s, acts[..|acts| - 1]), acts[|acts| - 1]);
    }
  }

  // ----- What the writing steps leave ----------------------------------------------------

  /** A new family: token and meta key belong to the user and expire together, one lifetime from now;
      no other key changes. */
  lemma CreateWrites(ttl: int, s: State, fam: string, jti: string, user: int)
    requires NewFamily(s, fam) && jti !in s.issued
    ensures var s' := Step(ttl, s, Create(fam, jti, user));
            s'.now == s.now && s'.calls == s.calls
            && JtiKey(fam, jti) in s'.store && s'.store[JtiKey(fam, jti)] == Entry(user, s.now + ttl)
            && MetaKey(fam) in s'.store && s'.store[MetaKey(fam)] == Entry(user, s.now + ttl)
            && forall k :: k != JtiKey(fam, jti) && k != MetaKey(fam) ==>
                 (k in s'.store <==> k in s.store) && (k in s.store ==> s'.store[k] == s.store[k])
  {
  }

  /** The reissue: the new token gets a whole lifetime, and so does the meta key if it is still there; a
      meta key that is gone is not made again; no other key changes. */
  lemma ReissueWrites(ttl: int, s: State, c: nat, uuid: string)
    requires c in s.calls && s.calls[c].pc.Reissue? && uuid !in s.issued
    ensures var fam, user := s.calls[c].fam, s.calls[c].user;
            var s' := NextCommand(ttl, s, c, uuid);
            s'.now == s.now && s'.calls == s.calls[c := s.calls[c].(pc := Finished(RotateOk(user, uuid)))]
            && JtiKey(fam, uuid) in s'.store && s'.store[JtiKey(fam, uuid)] == Entry(user, s.now + ttl)
            && (Live(s, MetaKey(fam)) ==>
                  MetaKey(fam) in s'.store && s'.store[MetaKey(fam)] == Entry(s.store[MetaKey(fam)].user, s.now + ttl))
            && (!Live(s, MetaKey(fam)) ==> !Live(s', MetaKey(fam)))
            && forall k :: k != JtiKey(fam, uuid) && k != MetaKey(fam) ==>
                 (k in s'.store <==> k in s.store) && (k in s.store ==> s'.store[k] == s.store[k])
  {
  }

  // ----- At most one token, at most one winner -------------------------------------------

  /** In every reachable state a family has at most one valid token: a live key, or a rotation
      between its DEL and its SET. */
  lemma OneTokenPerFamily(ttl: int, acts: seq<Action>, fam: string)
    requires ttl > 0
    ensures AtMostOneToken(Run(ttl, INITIAL, acts), fam)
  {
    InitialInv();
    RunKeepsInv(ttl, INITIAL, acts);
  }

  /** Over any run at most one call that presents a given token returns `RotateOk`, and it does so
      for the user who created the family. */
  lemma TokenRotatesOnce(ttl: int, acts: seq<Action>, c: nat, d: nat)
    requires ttl > 0
    ensures var calls := Run(ttl, INITIAL, acts).calls;
            c in calls && calls[c].pc.Finished? && calls[c].pc.result.RotateOk? ==>
              calls[c].fam in Run(ttl, INITIAL, acts).creator
              && calls[c].pc.result.user == calls[c].user == Run(ttl, INITIAL, acts).creator[calls[c].fam]
              && (d in calls && d != c && calls[d].pc.Finished? && calls[d].pc.result.RotateOk? ==>
                    calls[d].fam != calls[c].fam || calls[d].jti != calls[c].jti)
  {
    InitialInv();
    RunKeepsInv(ttl, INITIAL, acts);
    var s := Run(ttl, INITIAL, acts);
    if c in s.calls { assert CallOk(s, s.calls[c]); }
  }

  // ----- A family without its meta key is dead -------------------------------------------

  predicate Gone(s: State, fam: string) { fam in s.creator && !Live(s, MetaKey(fam)) }

  /** Call `c` has not seen the meta key of `fam` alive. */
  predicate NotPastCheck(s: State, fam: string, c: nat) {
    c in s.calls && s.calls[c].fam == fam ==>
      match s.calls[c].pc
      case Del => true
      case HGetOwner => true
      case HGetReuse => true
      case Reissue => false
      case Finished(r) => r.RotateUnknown? || r.Revoked?
      case ScanStart(owner) => owner.None?
      case Scanning(owner, _, _) => owner.None?
      case ScanDel(owner, _, _, _) => owner.None?
  }

  lemma NextKeepsGone(ttl: int, s: State, d: nat, uuid: string, fam: string, c: nat)
    requires Gone(s, fam) && d in s.calls
    ensures Gone(NextCommand(ttl, s, d, uuid), fam)
    ensures NotPastCheck(s, fam, c) ==> NotPastCheck(NextCommand(ttl, s, d, uuid), fam, c)
  {
  }

  lemma StepKeepsGone(ttl: int, s: State, a: Action, fam: string, c: nat)
    requires Gone(s, fam)
    ensures Gone(Step(ttl, s, a), fam)
    ensures NotPastCheck(s, fam, c) ==> NotPastCheck(Step(ttl, s, a), fam, c)
  {
    if a.Next? && a.c in s.calls { NextKeepsGone(ttl, s, a.c, a.uuid, fam, c); }
  }

  /** Once a family's meta key is gone it stays gone, and every call on the family that had not
      passed its check by then, or starts later, can only end in `RotateUnknown` (or, if it is a
      logout, in `Revoked`). Tokens written late by calls past their check change nothing. */
  lemma {:induction false} GoneForGood(ttl: int, s: State, acts: seq<Action>, fam: string, c: nat)
    requires Gone(s, fam)
    ensures Gone(Run(ttl, s, acts), fam)
    ensures NotPastCheck(s, fam, c) ==> NotPastCheck(Run(ttl, s, acts), fam, c)
  {
    if acts == [] {
    } else {
      GoneForGood(ttl, s, acts[..|acts| - 1], fam, c);
      StepKeepsGone(ttl, Run(ttl, s, acts[..|acts| - 1]), acts[|acts| - 1], fam, c);
    }
  }

  /** When a wipe has ended, whatever ran in between, its family is dead for good. */
  lemma WipedForGood(ttl: int, acts: seq<Action>, w: nat, more: seq<Action>, c: nat)
    requires ttl > 0
    ensures var s := Run(ttl, INITIAL, acts);
            w in s.calls && s.calls[w].fam in s.creator && s.calls[w].pc.Finished?
            && (s.calls[w].pc.result.RotateReuseDetected? || s.calls[w].pc.result.Revoked?) ==>
              Gone(Run(ttl, s, more), s.calls[w].fam)
              && (NotPastCheck(s, s.calls[w].fam, c) ==> NotPastCheck(Run(ttl, s, more), s.calls[w].fam, c))
  {
    InitialInv();
    RunKeepsInv(ttl, INITIAL, acts);
    var s := Run(ttl, INITIAL, acts);
    if w in s.calls {
      assert CallOk(s, s.calls[w]);
      if Gone(s, s.calls[w].fam) { GoneForGood(ttl, s, more, s.calls[w].fam, c); }
    }
  }

  // ----- A client that waits for each reply ----------------------------------------------

  predicate Unfinished(s: State, fam: string, c: nat) {
    c in s.calls && s.calls[c].fam == fam && !s.calls[c].pc.Finished?
  }

  predicate Quiescent(s: State, fam: string) {
    forall c :: c in s.calls ==> !Unfinished(s, fam, c)
  }

  /** The family's client presents its latest token under its own name, or logs out, and only when
      its earlier calls have returned. Other families may do anything. */
  predicate Careful(s: State, fam: string, a: Action) {
    match a
    case StartRotate(_, f, jti, user) =>
      f == fam ==> Quiescent(s, fam) && fam in s.creator && user == s.creator[fam]
                   && fam in s.latest && jti == s.latest[fam]
    case StartRevoke(_, f) => f == fam ==> Quiescent(s, fam)
    case _ => true
  }

  ghost predicate CarefulRun(ttl: int, fam: string, acts: seq<Action>) {
    acts == []
    || (CarefulRun(ttl, fam, acts[..|acts| - 1])
        && Careful(Run(ttl, INITIAL, acts[..|acts| - 1]), fam, acts[|acts| - 1]))
  }

  predicate HoldsLatest(s: State, fam: string) {
    fam in s.latest && (Live(s, MetaKey(fam)) ==> Live(s, JtiKey(fam, s.latest[fam])))
  }

  ghost predicate ClientCallOk(s: State, fam: string, call: Call) {
    match call.pc
    case Del => fam in s.creator && call.user == s.creator[fam] && HoldsLatest(s, fam) && call.jti == s.latest[fam]
    case HGetOwner => fam in s.creator && call.user == s.creator[fam]
    case Reissue => true
    case HGetReuse => !Live(s, MetaKey(fam))
    case Finished(r) => !r.RotateReuseDetected?
    case ScanStart(owner) => owner.None?
    case Scanning(owner, _, _) => owner.None?
    case ScanDel(owner, _, _, _) => owner.None?
  }

  ghost predicate ClientOk(s: State, fam: string) {
    (forall c :: c in s.calls && s.calls[c].fam == fam ==> ClientCallOk(s, fam, s.calls[c]))
    && (forall c, d :: Unfinished(s, fam, c) && Unfinished(s, fam, d) ==> c == d)
    && (fam in s.creator ==> fam in s.latest)
    && (fam in s.creator && Quiescent(s, fam) ==> HoldsLatest(s, fam))
  }

  lemma OnlyOneUnfinished(s: State, s': State, fam: string, c: nat)
    requires ClientOk(s, fam) && c in s'.calls && s'.calls == s.calls[c := s'.calls[c]]
    requires forall d :: Unfinished(s, fam, d) ==> d == c
    ensures forall d :: Unfinished(s', fam, d) ==> d == c
  {
    forall d | Unfinished(s', fam, d) ensures d == c {
      if d != c { assert Unfinished(s, fam, d); }
    }
  }

  lemma LatestOutlivesMeta(s: State, s': State, fam: string)
    requires StoreOk(s) && HoldsLatest(s, fam)
    requires s'.now >= s.now && s'.latest == s.latest && s'.store == s.store
    ensures HoldsLatest(s', fam)
  {
    var j := s.latest[fam];
    assert Live(s, MetaKey(fam)) && Live(s, JtiKey(fam, j)) ==> s.store[MetaKey(fam)].exp == s.store[JtiKey(fam, j)].exp;
  }

  ghost predicate SameKeys(store: Store, store': Store, fam: string) {
    forall k: Key :: k.fam == fam ==> (k in store' <==> k in store) && (k in store ==> store'[k] == store[k])
  }

  ghost predicate SameCalls(calls: map<nat, Call>, calls': map<nat, Call>, fam: string) {
    (forall c :: c in calls' && calls'[c].fam == fam ==> c in calls && calls'[c] == calls[c])
    && (forall c :: c in calls && calls[c].fam == fam ==> c in calls' && calls'[c] == calls[c])
  }

  ghost predicate SameForFamily(s: State, s': State, fam: string) {
    s'.now == s.now
    && SameCalls(s.calls, s'.calls, fam) && SameKeys(s.store, s'.store, fam)
    && (fam in s'.creator <==> fam in s.creator) && (fam in s.creator ==> s'.creator[fam] == s.creator[fam])
    && (fam in s'.latest <==> fam in s.latest) && (fam in s.latest ==> s'.latest[fam] == s.latest[fam])
  }

  lemma OthersKeepClientOk(s: State, s': State, fam: string)
    requires ClientOk(s, fam) && SameForFamily(s, s', fam)
    ensures ClientOk(s', fam)
  {
    assert HoldsLatest(s, fam) ==> HoldsLatest(s', fam);
    assert forall c :: Unfinished(s', fam, c) <==> Unfinished(s, fam, c);
    assert Quiescent(s', fam) ==> Quiescent(s, fam);
    forall c | c in s'.calls && s'.calls[c].fam == fam ensures ClientCallOk(s', fam, s'.calls[c]) {
      assert ClientCallOk(s, fam, s.calls[c]);
    }
  }

  /** The client's own call: it stays well, and once it has returned the client holds the latest token. */
  lemma NextOfClient(ttl: int, s: State, c: nat, uuid: string, fam: string)
    requires c in s.calls && s.calls[c].fam == fam && ttl > 0 && StoreOk(s)
    requires CallOk(s, s.calls[c]) && ClientCallOk(s, fam, s.calls[c])
    requires NextCommand(ttl, s, c, uuid) != s
    ensures var s' := NextCommand(ttl, s, c, uuid);
            c in s'.calls && ClientCallOk(s', fam, s'.calls[c])
            && (s'.calls[c].pc.Finished? && fam in s'.creator && fam in s'.latest ==> HoldsLatest(s', fam))
  {
  }

  lemma NextKeepsClientOk(ttl: int, s: State, c: nat, uuid: string, fam: string)
    requires Inv(s) && ttl > 0 && ClientOk(s, fam) && c in s.calls && s.calls[c].fam == fam
    ensures ClientOk(NextCommand(ttl, s, c, uuid), fam)
  {
    var s' := NextCommand(ttl, s, c, uuid);
    if s' != s {
      assert Unfinished(s, fam, c) && CallOk(s, s.calls[c]) && ClientCallOk(s, fam, s.calls[c]);
      NextOfClient(ttl, s, c, uuid, fam);
      OnlyOneUnfinished(s, s', fam, c);
      forall d | d in s'.calls && s'.calls[d].fam == fam && d != c ensures ClientCallOk(s', fam, s'.calls[d]) {
        assert ClientCallOk(s, fam, s.calls[d]) && !Unfinished(s, fam, d);
      }
      if Quiescent(s', fam) { assert !Unfinished(s', fam, c) && s'.calls[c].pc.Finished?; }
    }
  }

  lemma TickKeepsClientOk(ttl: int, s: State, seconds: nat, fam: string)
    requires StoreOk(s) && ClientOk(s, fam)
    ensures ClientOk(Step(ttl, s, Tick(seconds)), fam)
  {
    var s' := Step(ttl, s, Tick(seconds));
    if HoldsLatest(s, fam) { LatestOutlivesMeta(s, s', fam); }
    assert forall c :: Unfinished(s', fam, c) <==> Unfinished(s, fam, c);
    assert Quiescent(s', fam) ==> Quiescent(s, fam);
    forall c | c in s'.calls && s'.calls[c].fam == fam ensures ClientCallOk(s', fam, s'.calls[c]) {
      assert ClientCallOk(s, fam, s.calls[c]);
    }
  }

  /** Creation of another family, and steps of calls on other families. */
  predicate Elsewhere(s: State, a: Action, fam: string) {
    match a
    case Tick(_) => false
    case Create(f, _, _) => f != fam
    case StartRotate(_, f, _, _) => f != fam
    case StartRevoke(_, f) => f != fam
    case Next(c, _) => c in s.calls && s.calls[c].fam != fam
    case ScanKey(c, _) => c in s.calls && s.calls[c].fam != fam
    case ScanEnd(c) => c in s.calls && s.calls[c].fam != fam
  }

  lemma CallElsewhere(s: State, s': State, c: nat, fam: string)
    requires c in s'.calls && s'.calls == s.calls[c := s'.calls[c]] && s' == s.(calls := s'.calls)
    requires s'.calls[c].fam != fam && (c in s.calls ==> s.calls[c].fam != fam)
    ensures SameForFamily(s, s', fam)
  {
  }

  lemma RemoveElsewhere(s: State, c: nat, pc: Pc, key: Key, fam: string)
    requires c in s.calls && s.calls[c].fam != fam && key.fam != fam
    ensures SameForFamily(s, SetPc(s, c, pc).(store := s.store - {key}), fam)
  {
    assert SameKeys(s.store, s.store - {key}, fam);
  }

  lemma ReissueElsewhere(ttl: int, s: State, c: nat, uuid: string, fam: string)
    requires c in s.calls && s.calls[c].fam != fam && s.calls[c].pc.Reissue?
    ensures SameForFamily(s, NextCommand(ttl, s, c, uuid), fam)
  {
    var call := s.calls[c];
    assert SameKeys(s.store, Reissued(s.store, s.now, ttl, call.fam, uuid, call.user), fam);
  }

  lemma NextElsewhere(ttl: int, s: State, c: nat, uuid: string, fam: string)
    requires c in s.calls && s.calls[c].fam != fam && CallOk(s, s.calls[c])
    ensures SameForFamily(s, NextCommand(ttl, s, c, uuid), fam)
  {
    var s', call := NextCommand(ttl, s, c, uuid), s.calls[c];
    var key := JtiKey(call.fam, call.jti);
    if call.pc.Reissue? {
      ReissueElsewhere(ttl, s, c, uuid, fam);
    } else if call.pc.Del? && Live(s, key) {
      RemoveElsewhere(s, c, HGetOwner, key, fam);
    } else if call.pc.ScanDel? {
      RemoveElsewhere(s, c, s'.calls[c].pc, call.pc.key, fam);
    } else if s' != s {
      CallElsewhere(s, s', c, fam);
    }
  }

  lemma CreateElsewhere(ttl: int, s: State, a: Action, fam: string)
    requires a.Create? && a.newFam != fam
    ensures SameForFamily(s, Step(ttl, s, a), fam)
  {
    assert SameKeys(s.store, FamilyCreated(s.store, s.now, ttl, a.newFam, a.newJti, a.user), fam);
  }

  lemma StepElsewhere(ttl: int, s: State, a: Action, fam: string)
    requires Elsewhere(s, a, fam) && forall c :: c in s.calls ==> CallOk(s, s.calls[c])
    ensures SameForFamily(s, Step(ttl, s, a), fam)
  {
    var s' := Step(ttl, s, a);
    if s' != s {
      match a
      case Create(_, _, _) => CreateElsewhere(ttl, s, a, fam);
      case StartRotate(c, _, _, _) => CallElsewhere(s, s', c, fam);
      case StartRevoke(c, _) => CallElsewhere(s, s', c, fam);
      case Next(c, uuid) => NextElsewhere(ttl, s, c, uuid, fam);
      case ScanKey(c, _) => CallElsewhere(s, s', c, fam);
      case ScanEnd(c) => CallElsewhere(s, s', c, fam);
    }
  }

  lemma ElsewhereKeepsClientOk(ttl: int, s: State, a: Action, fam: string)
    requires Inv(s) && ClientOk(s, fam) && Elsewhere(s, a, fam)
    ensures ClientOk(Step(ttl, s, a), fam)
  {
    StepElsewhere(ttl, s, a, fam);
    OthersKeepClientOk(s, Step(ttl, s, a), fam);
  }

  lemma CreateKeepsClientOk(ttl: int, s: State, fam: string, jti: string, user: int)
    requires ttl > 0 && ClientOk(s, fam)
    ensures ClientOk(Step(ttl, s, Create(fam, jti, user)), fam)
  {
    var s' := Step(ttl, s, Create(fam, jti, user));
    if s' != s { assert forall c :: !Unfinished(s', fam, c); }
  }

  lemma StepKeepsClientOk(ttl: int, s: State, a: Action, fam: string)
    requires Inv(s) && ttl > 0 && ClientOk(s, fam) && Careful(s, fam, a)
    ensures ClientOk(Step(ttl, s, a), fam)
  {
    if Step(ttl, s, a) != s {
      if Elsewhere(s, a, fam) {
        ElsewhereKeepsClientOk(ttl, s, a, fam);
      } else {
        match a
        case Tick(seconds) => TickKeepsClientOk(ttl, s, seconds, fam);
        case Create(f, jti, user) => CreateKeepsClientOk(ttl, s, f, jti, user);
        case Next(c, uuid) => NextKeepsClientOk(ttl, s, c, uuid, fam);
        case _ => OwnCallKeepsClientOk(ttl, s, a, fam);
      }
    }
  }

  /** The client starts a call, or its wipe goes on. */
  lemma OwnCallKeepsClientOk(ttl: int, s: State, a: Action, fam: string)
    requires Inv(s) && ClientOk(s, fam) && Careful(s, fam, a) && Step(ttl, s, a) != s
    requires a.StartRotate? || a.StartRevoke? || a.ScanKey? || a.ScanEnd?
    requires !Elsewhere(s, a, fam)
    ensures ClientOk(Step(ttl, s, a), fam)
  {
    var s' := Step(ttl, s, a);
    if a.StartRotate? || a.StartRevoke? {
      StartKeepsClientOk(s, s', a.c, fam);
    } else {
      assert CallOk(s, s.calls[a.c]) && ClientCallOk(s, fam, s.calls[a.c]);
      ScanKeepsClientOk(s, s', a.c, fam);
    }
  }

  lemma StartKeepsClientOk(s: State, s': State, c: nat, fam: string)
    requires ClientOk(s, fam) && Quiescent(s, fam) && c !in s.calls && c in s'.calls
    requires s' == s.(calls := s.calls[c := s'.calls[c]]) && s'.calls[c].fam == fam
    requires var call := s'.calls[c];
             call.pc == ScanStart(None)
             || (call.pc.Del? && fam in s.creator && call.user == s.creator[fam]
                 && fam in s.latest && call.jti == s.latest[fam])
    ensures ClientOk(s', fam)
  {
    assert Unfinished(s', fam, c);
    assert HoldsLatest(s, fam) ==> HoldsLatest(s', fam);
    forall d | d in s'.calls && s'.calls[d].fam == fam && d != c ensures ClientCallOk(s', fam, s'.calls[d]) {
      assert ClientCallOk(s, fam, s.calls[d]) && !Unfinished(s, fam, d);
    }
    assert forall d :: Unfinished(s', fam, d) ==> d == c;
  }

  lemma ScanKeepsClientOk(s: State, s': State, c: nat, fam: string)
    requires ClientOk(s, fam) && Unfinished(s, fam, c) && c in s'.calls && s' == SetPc(s, c, s'.calls[c].pc)
    requires var pc := s'.calls[c].pc;
             (pc.ScanDel? && pc.owner.None?)
             || (pc == Finished(Revoked) && (fam in s.creator ==> HoldsLatest(s', fam)))
    ensures ClientOk(s', fam)
  {
    OnlyOneUnfinished(s, s', fam, c);
    forall d | d in s'.calls && s'.calls[d].fam == fam && d != c ensures ClientCallOk(s', fam, s'.calls[d]) {
      assert ClientCallOk(s, fam, s.calls[d]) && !Unfinished(s, fam, d);
    }
  }

  lemma {:induction false} CarefulRunOk(ttl: int, fam: string, acts: seq<Action>)
    requires ttl > 0 && CarefulRun(ttl, fam, acts)
    ensures Inv(Run(ttl, INITIAL, acts)) && ClientOk(Run(ttl, INITIAL, acts), fam)
  {
    if acts == [] {
      InitialInv();
    } else {
      CarefulRunOk(ttl, fam, acts[..|acts| - 1]);
      StepKeepsInv(ttl, Run(ttl, INITIAL, acts[..|acts| - 1]), acts[|acts| - 1]);
      StepKeepsClientOk(ttl, Run(ttl, INITIAL, acts[..|acts| - 1]), acts[|acts| - 1], fam);
    }
  }

  /** A client that waits for each reply and presents its latest token is never accused of reuse. */
  lemma CarefulClientIsNeverAccused(ttl: int, fam: string, acts: seq<Action>, c: nat)
    requires ttl > 0 && CarefulRun(ttl, fam, acts)
    ensures var s := Run(ttl, INITIAL, acts);
            c in s.calls && s.calls[c].fam == fam && s.calls[c].pc.Finished? ==>
              !s.calls[c].pc.result.RotateReuseDetected?
  {
    CarefulRunOk(ttl, fam, acts);
    var s := Run(ttl, INITIAL, acts);
    if c in s.calls && s.calls[c].fam == fam { assert ClientCallOk(s, fam, s.calls[c]); }
  }

  predicate LatestExpired(s: State, fam: string) {
    fam in s.creator && fam in s.latest && !Live(s, JtiKey(fam, s.latest[fam]))
  }

  /** If such a client idles until its latest token has expired, the family is dead: whatever it
      starts from then on ends in `RotateUnknown` or, for a logout, in `Revoked`. */
  lemma IdlingEndsTheFamily(ttl: int, fam: string, acts: seq<Action>, more: seq<Action>, c: nat)
    requires ttl > 0 && CarefulRun(ttl, fam, acts)
    ensures var s := Run(ttl, INITIAL, acts);
            Quiescent(s, fam) && LatestExpired(s, fam) ==>
              Gone(Run(ttl, s, more), fam)
              && (c !in s.calls ==> NotPastCheck(Run(ttl, s, more), fam, c))
  {
    CarefulRunOk(ttl, fam, acts);
    var s := Run(ttl, INITIAL, acts);
    if Quiescent(s, fam) && LatestExpired(s, fam) {
      GoneForGood(ttl, s, more, fam, c);
    }
  }
}
