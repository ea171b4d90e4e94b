/** The functions of `core/refresh_token_store.py` as they run when no other call interferes,
    changing the store in place. `SoloRotation` ties them to the interleaved steps of
    `RefreshTokens`. */
module RefreshTokenStore {
  import opened Options
  import opened RefreshTokens

  /** The owner that HGET on the meta key finds. */
  function Owner(store: Store, now: int, fam: string): Option<int> {
    if LiveIn(store, now, MetaKey(fam)) then Some(store[MetaKey(fam)].user) else None
  }

  function KeysOf(scan: seq<Key>): set<Key> { set k | k in scan }

  /** What SCAN returns for the family's pattern: all its live keys, in any order, some perhaps more
      than once or already expired. */
  ghost predicate ScanOf(store: Store, now: int, family: string, scan: seq<Key>) {
    (forall i :: 0 <= i < |scan| ==> scan[i].fam == family)
    && FamilyKeys(store, now, family) <= KeysOf(scan)
  }

  lemma KeysOfAppend(scan: seq<Key>, i: nat)
    requires i < |scan|
    ensures KeysOf(scan[..i + 1]) == KeysOf(scan[..i]) + {scan[i]}
  {
    assert scan[..i + 1] == scan[..i] + [scan[i]];
  }

  lemma OneMore(all: set<Key>, gone: set<Key>, key: Key)
    ensures |all * (gone + {key})| == |all * gone| + (if key in all && key !in gone then 1 else 0)
  {
    if key in all && key !in gone {
      assert all * (gone + {key}) == all * gone + {key};
    } else {
      assert all * (gone + {key}) == all * gone;
    }
  }

  lemma Minus(store: Store, gone: set<Key>, key: Key)
    ensures (store - gone) - {key} == store - (gone + {key})
  {
  }

  /** The first `i` keys of the scan are gone, and those among them that were live are counted. */
  ghost predicate Progress(before: Store, now: int, family: string, scan: seq<Key>, i: nat, store: Store, deleted: nat) {
    i <= |scan|
    && store == before - KeysOf(scan[..i])
    && deleted == |FamilyKeys(before, now, family) * KeysOf(scan[..i])|
  }

  lemma FirstProgress(before: Store, now: int, family: string, scan: seq<Key>)
    ensures Progress(before, now, family, scan, 0, before, 0)
  {
    assert KeysOf(scan[..0]) == {};
    assert FamilyKeys(before, now, family) * {} == {};
  }

  lemma NextProgress(before: Store, now: int, family: string, scan: seq<Key>, i: nat, store: Store, deleted: nat)
    requires Progress(before, now, family, scan, i, store, deleted) && i < |scan| && scan[i].fam == family
    ensures Progress(before, now, family, scan, i + 1, store - {scan[i]},
                     if LiveIn(store, now, scan[i]) then deleted + 1 else deleted)
  {
    var key, gone := scan[i], KeysOf(scan[..i]);
    KeysOfAppend(scan, i);
    OneMore(FamilyKeys(before, now, family), gone, key);
    assert LiveIn(store, now, key) <==> key in FamilyKeys(before, now, family) && key !in gone;
    Minus(before, gone, key);
  }

  lemma LastProgress(before: Store, now: int, family: string, scan: seq<Key>, store: Store, deleted: nat)
    requires Progress(before, now, family, scan, |scan|, store, deleted) && ScanOf(before, now, family, scan)
    ensures store == before - KeysOf(scan)
    ensures FamilyKeys(store, now, family) == {}
    ensures deleted == |FamilyKeys(before, now, family)|
  {
    assert scan[..|scan|] == scan;
    assert FamilyKeys(before, now, family) * KeysOf(scan) == FamilyKeys(before, now, family);
  }

  class TokenStore {
    const ttl: int
    var store: Store
    var now: int

    constructor (ttl: int)
      ensures this.ttl == ttl && store == map[] && now == 0
    {
      this.ttl, store, now := ttl, map[], 0;
    }

    /** Token and meta key are there with one owner and one expiry, so the token can be rotated until
        then; nothing else changes. The store is the one the protocol's step leaves. */
    method CreateFamily(user: int, family: string, jti: string)
      modifies this`store
      ensures JtiKey(family, jti) in store && store[JtiKey(family, jti)] == Entry(user, now + ttl)
      ensures MetaKey(family) in store && store[MetaKey(family)] == Entry(user, now + ttl)
      ensures forall t :: now <= t ==>
                (LiveIn(store, t, JtiKey(family, jti)) <==> t < now + ttl)
                && Owner(store, t, family) == if t < now + ttl then Some(user) else None
      ensures forall k :: k != JtiKey(family, jti) && k != MetaKey(family) ==>
                (k in store <==> k in old(store)) && (k in store ==> store[k] == old(store)[k])
      ensures store == FamilyCreated(old(store), now, ttl, family, jti, user)
    {
      store := store[JtiKey(family, jti) := Entry(user, now + ttl)];
      store := store[MetaKey(family) := Entry(user, now + ttl)];
    }

    /** DEL: answers whether a live key was removed. */
    method Delete(k: Key) returns (existed: bool)
      modifies this`store
      ensures existed == LiveIn(old(store), now, k)
      ensures store == old(store) - {k}
    {
      existed := LiveIn(store, now, k);
      store := store - {k};
    }

    method RevokeFamily(family: string, scan: seq<Key>) returns (deleted: nat)
      requires ScanOf(store, now, family, scan)
      modifies this`store
      ensures deleted == |FamilyKeys(old(store), now, family)|
      ensures FamilyKeys(store, now, family) == {}
      ensures forall k :: k in store && k.fam == family ==> store[k].exp <= now
      ensures store == old(store) - KeysOf(scan)
    {
      deleted := 0;
      ghost var before := store;
      FirstProgress(before, now, family, scan);
      for i := 0 to |scan|
        invariant Progress(before, now, family, scan, i, store, deleted)
      {
        NextProgress(before, now, family, scan, i, store, deleted);
        var existed := Delete(scan[i]);
        if existed { deleted := deleted + 1; }
      }
      LastProgress(before, now, family, scan, store, deleted);
    }

    /** `uuid` is the identifier drawn for the new token; `scan` serves the wipe after a reuse. */
    method Rotate(family: string, jti: string, user: int, uuid: string, scan: seq<Key>) returns (r: Result)
      requires ScanOf(store, now, family, scan)
      modifies this`store
      ensures var token, meta := JtiKey(family, jti), MetaKey(family);
              var valid := token in old(store) && now < old(store)[token].exp;
              var alive := meta in old(store) && now < old(store)[meta].exp;
              r == (if !valid && alive then RotateReuseDetected(old(store)[meta].user)
                    else if valid && alive && old(store)[meta].user == user then RotateOk(user, uuid)
                    else RotateUnknown)
      // A rotation consumes the old token; the new one and the family both get a whole lifetime from now.
      ensures r.RotateOk? ==>
                JtiKey(family, uuid) in store && MetaKey(family) in store
                && store[JtiKey(family, uuid)] == store[MetaKey(family)] == Entry(user, now + ttl)
                && (uuid != jti ==> JtiKey(family, jti) !in store)
      ensures r.RotateOk? ==>
                forall t :: now <= t ==>
                  (LiveIn(store, t, JtiKey(family, uuid)) <==> t < now + ttl)
                  && Owner(store, t, family) == if t < now + ttl then Some(user) else None
      ensures r.RotateOk? ==>
                forall k :: k != JtiKey(family, jti) && k != JtiKey(family, uuid) && k != MetaKey(family) ==>
                  (k in store <==> k in old(store)) && (k in store ==> store[k] == old(store)[k])
      ensures r.RotateOk? ==> store == Reissued(old(store) - {JtiKey(family, jti)}, now, ttl, family, uuid, user)
      ensures r.RotateReuseDetected? ==>
                (forall k :: k in store && k.fam == family ==> store[k].exp <= now)
                && store == old(store) - {JtiKey(family, jti)} - KeysOf(scan)
      ensures r.RotateUnknown? ==> store == old(store) - {JtiKey(family, jti)}
      ensures forall k :: k in old(store) && k.fam != family ==> k in store && store[k] == old(store)[k]
    {
      var existed := Delete(JtiKey(family, jti));
      assert FamilyKeys(store, now, family) <= FamilyKeys(old(store), now, family);
      if existed {
        var owner := Owner(store, now, family);
        if owner.None? || owner.value != user {
          return RotateUnknown;
        }
        store := Reissued(store, now, ttl, family, uuid, user);
        return RotateOk(user, uuid);
      }
      var owner := Owner(store, now, family);
      if owner.Some? {
        var deleted := RevokeFamily(family, scan);
        return RotateReuseDetected(owner.value);
      }
      return RotateUnknown;
    }
  }

  /** The token and the family's meta key with the same entry. */
  function WithToken(store: Store, fam: string, jti: string, e: Entry): (after: Store)
    ensures after.Keys == store.Keys + {JtiKey(fam, jti), MetaKey(fam)}
    ensures after[JtiKey(fam, jti)] == after[MetaKey(fam)] == e
    ensures forall k :: k in store && k != JtiKey(fam, jti) && k != MetaKey(fam) ==> after[k] == store[k]
  {
    store[JtiKey(fam, jti) := e][MetaKey(fam) := e]
  }

  // ----- The interleaved steps, uninterrupted ----------------------------------------------

  /** The commands up to the answer, or to the start of the wipe. */
  function Commands(c: nat, fam: string, jti: string, user: int, uuid: string): seq<Action> {
    [StartRotate(c, fam, jti, user), Next(c, uuid), Next(c, uuid), Next(c, uuid)]
  }

  /** SCAN returns the keys of `scan` and each is deleted. */
  function WipeCommands(c: nat, scan: seq<Key>, uuid: string): seq<Action> {
    if scan == [] then [ScanEnd(c)] else [ScanKey(c, scan[0]), Next(c, uuid)] + WipeCommands(c, scan[1..], uuid)
  }

  function Solo(ttl: int, s: State, c: nat, fam: string, jti: string, user: int, uuid: string, scan: seq<Key>): State {
    Run(ttl, Run(ttl, s, Commands(c, fam, jti, user, uuid)), WipeCommands(c, scan, uuid))
  }

  lemma RunFour(ttl: int, s: State, a: Action, b: Action, c: Action, d: Action)
    ensures Run(ttl, s, [a, b, c, d]) == Step(ttl, Step(ttl, Step(ttl, Step(ttl, s, a), b), c), d)
  {
    assert [a, b, c, d][..3] == [a, b, c] && [a, b, c][..2] == [a, b] && [a, b][..1] == [a] && [a][..0] == [];
    assert Run(ttl, s, []) == s;
    assert Run(ttl, s, [a]) == Step(ttl, s, a);
    assert Run(ttl, s, [a, b]) == Step(ttl, Step(ttl, s, a), b);
    assert Run(ttl, s, [a, b, c]) == Step(ttl, Step(ttl, Step(ttl, s, a), b), c);
  }

  lemma {:induction false} RunFirst(ttl: int, s: State, a: Action, rest: seq<Action>)
    ensures Run(ttl, s, [a] + rest) == Run(ttl, Step(ttl, s, a), rest)
  {
    if rest == [] {
      assert [a] + rest == [a] && [a][..0] == [];
      assert Run(ttl, s, []) == s;
    } else {
      RunFirst(ttl, s, a, rest[..|rest| - 1]);
      assert ([a] + rest)[..|rest|] == [a] + rest[..|rest| - 1];
    }
  }

  lemma RunOne(ttl: int, s: State, a: Action)
    ensures Run(ttl, s, [a]) == Step(ttl, s, a)
  {
    assert [a][..0] == [] && Run(ttl, s, []) == s;
  }

  lemma RunFirstTwo(ttl: int, s: State, a: Action, b: Action, rest: seq<Action>)
    ensures Run(ttl, s, [a, b] + rest) == Run(ttl, Step(ttl, Step(ttl, s, a), b), rest)
  {
    RunFirst(ttl, s, a, [b] + rest);
    RunFirst(ttl, Step(ttl, s, a), b, rest);
    assert [a, b] + rest == [a] + ([b] + rest);
  }

  lemma DeletedInTurn(store: Store, scan: seq<Key>)
    requires scan != []
    ensures (store - {scan[0]}) - KeysOf(scan[1..]) == store - KeysOf(scan)
  {
    assert KeysOf(scan) == {scan[0]} + KeysOf(scan[1..]);
    Minus(store, {scan[0]}, scan[0]);
  }

  /** One key is scanned and deleted. */
  lemma WipeStep(ttl: int, s: State, c: nat, key: Key, uuid: string)
    requires c in s.calls && s.calls[c].pc.Scanning? && key.fam == s.calls[c].fam
    ensures var pc := s.calls[c].pc;
            Step(ttl, Step(ttl, s, ScanKey(c, key)), Next(c, uuid))
            == SetPc(s, c, Scanning(pc.owner, pc.due, pc.done + {key})).(store := s.store - {key})
  {
    var pc := s.calls[c].pc;
    var t := Step(ttl, s, ScanKey(c, key));
    assert t.calls[c].pc == ScanDel(pc.owner, pc.due, pc.done, key);
    assert t.calls[c := t.calls[c].(pc := Scanning(pc.owner, pc.due, pc.done + {key}))]
           == s.calls[c := s.calls[c].(pc := Scanning(pc.owner, pc.due, pc.done + {key}))];
  }

  /** A wipe that meets nobody deletes what was scanned and then ends. */
  lemma {:induction false} SoloWipe(ttl: int, s: State, c: nat, scan: seq<Key>, uuid: string)
    requires c in s.calls && s.calls[c].pc.Scanning? && forall i :: 0 <= i < |scan| ==> scan[i].fam == s.calls[c].fam
    requires forall k :: k in s.calls[c].pc.due && Live(s, k) ==> k in s.calls[c].pc.done || k in scan
    ensures var s' := Run(ttl, s, WipeCommands(c, scan, uuid));
            c in s'.calls && s'.store == s.store - KeysOf(scan)
            && s'.calls[c].pc == Finished(match s.calls[c].pc.owner case Some(u) => RotateReuseDetected(u) case None => Revoked)
    decreases |scan|
  {
    if scan == [] {
      RunOne(ttl, s, ScanEnd(c));
      assert s.store - KeysOf(scan) == s.store;
    } else {
      var t := Step(ttl, Step(ttl, s, ScanKey(c, scan[0])), Next(c, uuid));
      WipeStep(ttl, s, c, scan[0], uuid);
      assert forall k :: k in scan ==> k == scan[0] || k in scan[1..];
      SoloWipe(ttl, t, c, scan[1..], uuid);
      RunFirstTwo(ttl, s, ScanKey(c, scan[0]), Next(c, uuid), WipeCommands(c, scan[1..], uuid));
      DeletedInTurn(s.store, scan);
    }
  }

  /** After its answer a call does nothing more. */
  lemma {:induction false} AnsweredStays(ttl: int, s: State, c: nat, scan: seq<Key>, uuid: string)
    requires c in s.calls && s.calls[c].pc.Finished?
    ensures Run(ttl, s, WipeCommands(c, scan, uuid)) == s
    decreases |scan|
  {
    if scan == [] {
      RunOne(ttl, s, ScanEnd(c));
    } else {
      AnsweredStays(ttl, s, c, scan[1..], uuid);
      RunFirstTwo(ttl, s, ScanKey(c, scan[0]), Next(c, uuid), WipeCommands(c, scan[1..], uuid));
    }
  }

  lemma CommandsRun(ttl: int, s: State, c: nat, fam: string, jti: string, user: int, uuid: string)
    requires c !in s.calls
    ensures var s1 := Step(ttl, s, StartRotate(c, fam, jti, user));
            c in s1.calls && s1.calls[c] == Call(fam, jti, user, Del) && s1 == s.(calls := s1.calls)
            && Run(ttl, s, Commands(c, fam, jti, user, uuid))
               == NextCommand(ttl, NextCommand(ttl, NextCommand(ttl, s1, c, uuid), c, uuid), c, uuid)
  {
    RunFour(ttl, s, StartRotate(c, fam, jti, user), Next(c, uuid), Next(c, uuid), Next(c, uuid));
  }

  /** The answer and the store after a rotation of a live token by `call`, started on `store` at `now`. */
  ghost predicate RotatedLive(ttl: int, store: Store, now: int, call: Call, uuid: string, s': State, c: nat) {
    var rest := store - {JtiKey(call.fam, call.jti)};
    c in s'.calls
    && (if Owner(store, now, call.fam) == Some(call.user)
        then s'.calls[c].pc == Finished(RotateOk(call.user, uuid))
             && s'.store == WithToken(rest, call.fam, uuid, Entry(call.user, now + ttl))
        else s'.calls[c].pc == Finished(RotateUnknown) && s'.store == rest)
  }

  /** The token is live. */
  lemma SoloOfLive(ttl: int, s: State, c: nat, fam: string, jti: string, user: int, uuid: string, scan: seq<Key>)
    requires c !in s.calls && uuid !in s.issued && Live(s, JtiKey(fam, jti))
    ensures RotatedLive(ttl, s.store, s.now, Call(fam, jti, user, Del), uuid, Solo(ttl, s, c, fam, jti, user, uuid, scan), c)
  {
    CommandsRun(ttl, s, c, fam, jti, user, uuid);
    SoloValid(ttl, Step(ttl, s, StartRotate(c, fam, jti, user)), c, uuid);
    AnsweredStays(ttl, Run(ttl, s, Commands(c, fam, jti, user, uuid)), c, scan, uuid);
  }

  /** The token is gone. */
  lemma SoloOfDead(ttl: int, s: State, c: nat, fam: string, jti: string, user: int, uuid: string, scan: seq<Key>)
    requires c !in s.calls && !Live(s, JtiKey(fam, jti)) && ScanOf(s.store, s.now, fam, scan)
    ensures var s' := Solo(ttl, s, c, fam, jti, user, uuid, scan);
            c in s'.calls
            && (match Owner(s.store, s.now, fam)
                case None => s'.calls[c].pc == Finished(RotateUnknown) && s'.store == s.store
                case Some(owner) => s'.calls[c].pc == Finished(RotateReuseDetected(owner)) && s'.store == s.store - KeysOf(scan))
  {
    CommandsRun(ttl, s, c, fam, jti, user, uuid);
    SoloInvalid(ttl, Step(ttl, s, StartRotate(c, fam, jti, user)), c, uuid);
    var s4 := Run(ttl, s, Commands(c, fam, jti, user, uuid));
    if Owner(s.store, s.now, fam).None? { AnsweredStays(ttl, s4, c, scan, uuid); } else { SoloWipe(ttl, s4, c, scan, uuid); }
  }

  /** Alone, the steps of a rotation give the answer and the store of `TokenStore.Rotate`, the wipe after
      a detected reuse included. */
  lemma SoloRotation(ttl: int, s: State, c: nat, fam: string, jti: string, user: int, uuid: string, scan: seq<Key>)
    requires c !in s.calls && uuid !in s.issued && ScanOf(s.store, s.now, fam, scan)
    ensures var valid := Live(s, JtiKey(fam, jti));
            var owner := Owner(s.store, s.now, fam);
            var s' := Solo(ttl, s, c, fam, jti, user, uuid, scan);
            var rest := s.store - {JtiKey(fam, jti)};
            c in s'.calls
            && (valid && owner == Some(user) ==>
                  s'.calls[c].pc == Finished(RotateOk(user, uuid))
                  && s'.store == WithToken(rest, fam, uuid, Entry(user, s.now + ttl)))
            && (valid && owner != Some(user) ==> s'.calls[c].pc == Finished(RotateUnknown) && s'.store == rest)
            && (!valid && owner.None? ==> s'.calls[c].pc == Finished(RotateUnknown) && s'.store == s.store)
            && (!valid && owner.Some? ==>
                  s'.calls[c].pc == Finished(RotateReuseDetected(owner.value)) && s'.store == s.store - KeysOf(scan))
  {
    if Live(s, JtiKey(fam, jti)) {
      SoloOfLive(ttl, s, c, fam, jti, user, uuid, scan);
    } else {
      SoloOfDead(ttl, s, c, fam, jti, user, uuid, scan);
    }
  }

  /** Alone, the steps of a logout give the store of `TokenStore.RevokeFamily`. */
  lemma SoloRevoke(ttl: int, s: State, c: nat, fam: string, uuid: string, scan: seq<Key>)
    requires c !in s.calls && ScanOf(s.store, s.now, fam, scan)
    ensures var s' := Run(ttl, Run(ttl, s, [StartRevoke(c, fam), Next(c, uuid)]), WipeCommands(c, scan, uuid));
            c in s'.calls && s'.calls[c].pc == Finished(Revoked) && s'.store == s.store - KeysOf(scan)
  {
    RunFirst(ttl, s, StartRevoke(c, fam), [Next(c, uuid)]);
    RunOne(ttl, Step(ttl, s, StartRevoke(c, fam)), Next(c, uuid));
    assert [StartRevoke(c, fam), Next(c, uuid)] == [StartRevoke(c, fam)] + [Next(c, uuid)];
    SoloWipe(ttl, Run(ttl, s, [StartRevoke(c, fam), Next(c, uuid)]), c, scan, uuid);
  }

  lemma SoloValid(ttl: int, s: State, c: nat, uuid: string)
    requires c in s.calls && s.calls[c].pc.Del? && uuid !in s.issued && Live(s, JtiKey(s.calls[c].fam, s.calls[c].jti))
    ensures var s' := NextCommand(ttl, NextCommand(ttl, NextCommand(ttl, s, c, uuid), c, uuid), c, uuid);
            RotatedLive(ttl, s.store, s.now, s.calls[c], uuid, s', c)
  {
    var s2 := NextCommand(ttl, s, c, uuid);
    assert s2.calls[c] == s.calls[c].(pc := HGetOwner);
    assert Owner(s2.store, s2.now, s2.calls[c].fam) == Owner(s.store, s.now, s.calls[c].fam);
  }

  lemma SoloInvalid(ttl: int, s: State, c: nat, uuid: string)
    requires c in s.calls && s.calls[c].pc.Del? && !Live(s, JtiKey(s.calls[c].fam, s.calls[c].jti))
    ensures var call := s.calls[c];
            var owner := Owner(s.store, s.now, call.fam);
            var s' := NextCommand(ttl, NextCommand(ttl, NextCommand(ttl, s, c, uuid), c, uuid), c, uuid);
            c in s'.calls && s'.store == s.store
            && s'.now == s.now && s'.calls[c].fam == call.fam
            && s'.calls[c].pc == if owner.None? then Finished(RotateUnknown)
                                 else Scanning(owner, FamilyKeys(s.store, s.now, call.fam), {})
  {
    var s2 := NextCommand(ttl, s, c, uuid);
    assert s2.calls[c] == s.calls[c].(pc := HGetReuse) && s2.store == s.store;
  }
}
