/** How long a session lasts: a client that waits for each reply and rotates within one lifetime of its
    last token keeps rotating, for as long as it likes. */
module RefreshTokenLifetime {
  import opened Options
  import opened RefreshTokens

  // ----- A session until second `until` --------------------------------------------------

  predicate TokenThere(s: State, fam: string, until: int) {
    fam in s.latest && JtiKey(fam, s.latest[fam]) in s.store && s.store[JtiKey(fam, s.latest[fam])].exp >= until
  }

  predicate MetaThere(s: State, fam: string, until: int) {
    fam in s.creator && MetaKey(fam) in s.store
    && s.store[MetaKey(fam)].exp >= until && s.store[MetaKey(fam)].user == s.creator[fam]
  }

  /** Where a call of the client can be, and that it is the owner's and presents the latest token. */
  predicate CallInSession(s: State, fam: string, until: int, call: Call) {
    match call.pc
    case Del =>
      fam in s.creator && call.user == s.creator[fam] && TokenThere(s, fam, until) && call.jti == s.latest[fam]
    case HGetOwner => fam in s.creator && call.user == s.creator[fam]
    case Reissue => fam in s.creator && call.user == s.creator[fam]
    case Finished(r) => r.RotateOk? && fam in s.creator && r.user == s.creator[fam]
    case _ => false
  }

  /** The calls in `before` have been answered; all others of the client are on their way to `RotateOk`, or
      there. The token is in the store or in the hands of one of them. */
  ghost predicate InSession(s: State, fam: string, until: int, before: set<nat>) {
    MetaThere(s, fam, until)
    && (forall c :: c in s.calls && s.calls[c].fam == fam ==>
          if c in before then s.calls[c].pc.Finished? else CallInSession(s, fam, until, s.calls[c]))
    && (TokenThere(s, fam, until) || exists c :: c in s.calls && s.calls[c].fam == fam && InFlight(s.calls[c]))
  }

  lemma OthersKeepSession(s: State, s': State, fam: string, until: int, before: set<nat>)
    requires InSession(s, fam, until, before) && SameForFamily(s, s', fam)
    ensures InSession(s', fam, until, before)
  {
    assert TokenThere(s, fam, until) ==> TokenThere(s', fam, until);
    forall c | c in s'.calls && s'.calls[c].fam == fam && c !in before
      ensures CallInSession(s', fam, until, s'.calls[c])
    {
      assert CallInSession(s, fam, until, s.calls[c]);
    }
    if c :| c in s.calls && s.calls[c].fam == fam && InFlight(s.calls[c]) {
      assert s'.calls[c] == s.calls[c];
    }
  }

  /** The client's own command. No other call of the client is unfinished. */
  lemma NextKeepsSession(ttl: int, s: State, x: nat, uuid: string, fam: string, until: int, before: set<nat>)
    requires InSession(s, fam, until, before) && x in s.calls && s.calls[x].fam == fam
    requires s.now < until <= s.now + ttl
    requires forall c :: Unfinished(s, fam, c) ==> c == x
    requires NextCommand(ttl, s, x, uuid) != s
    ensures InSession(NextCommand(ttl, s, x, uuid), fam, until, before)
  {
    var s', call := NextCommand(ttl, s, x, uuid), s.calls[x];
    assert x !in before && CallInSession(s, fam, until, call) && Unfinished(s, fam, x);
    forall c | c in s'.calls && s'.calls[c].fam == fam && c != x
      ensures if c in before then s'.calls[c].pc.Finished? else CallInSession(s', fam, until, s'.calls[c])
    {
      assert !Unfinished(s, fam, c) && s'.calls[c] == s.calls[c];
    }
    if call.pc.Reissue? {
      ReissueWrites(ttl, s, x, uuid);
      assert TokenThere(s', fam, until);
    } else {
      assert InFlight(s'.calls[x]);
    }
  }

  lemma StartKeepsSession(ttl: int, s: State, a: Action, fam: string, until: int, before: set<nat>)
    requires InSession(s, fam, until, before) && a.StartRotate? && a.fam == fam && Careful(s, fam, a) && a.c !in s.calls
    requires a.c !in before
    ensures InSession(Step(ttl, s, a), fam, until, before)
  {
    var s' := Step(ttl, s, a);
    forall c | c in s.calls && s.calls[c].fam == fam ensures !InFlight(s.calls[c]) {
      assert !Unfinished(s, fam, c);
    }
    assert TokenThere(s, fam, until) && TokenThere(s', fam, until);
    forall c | c in s'.calls && s'.calls[c].fam == fam && c !in before && c != a.c
      ensures CallInSession(s', fam, until, s'.calls[c])
    {
      assert CallInSession(s, fam, until, s.calls[c]);
    }
  }

  lemma TickKeepsSession(ttl: int, s: State, seconds: nat, fam: string, until: int, before: set<nat>)
    requires InSession(s, fam, until, before)
    ensures InSession(Step(ttl, s, Tick(seconds)), fam, until, before)
  {
    var s' := Step(ttl, s, Tick(seconds));
    assert TokenThere(s, fam, until) ==> TokenThere(s', fam, until);
    forall c | c in s'.calls && s'.calls[c].fam == fam && c !in before
      ensures CallInSession(s', fam, until, s'.calls[c])
    {
      assert CallInSession(s, fam, until, s.calls[c]);
    }
    if c :| c in s.calls && s.calls[c].fam == fam && InFlight(s.calls[c]) {
      assert s'.calls[c] == s.calls[c];
    }
  }

  predicate LogsOut(a: Action, fam: string) { a.StartRevoke? && a.fam == fam }

  lemma StepKeepsSession(ttl: int, s: State, a: Action, fam: string, until: int, before: set<nat>)
    requires Inv(s) && ttl > 0 && ClientOk(s, fam) && Careful(s, fam, a) && !LogsOut(a, fam)
    requires InSession(s, fam, until, before) && before <= s.calls.Keys
    requires Step(ttl, s, a).now < until <= s.now + ttl
    ensures InSession(Step(ttl, s, a), fam, until, before)
  {
    if Step(ttl, s, a) != s {
      if Elsewhere(s, a, fam) {
        StepElsewhere(ttl, s, a, fam);
        OthersKeepSession(s, Step(ttl, s, a), fam, until, before);
      } else {
        match a
        case Tick(seconds) => TickKeepsSession(ttl, s, seconds, fam, until, before);
        case StartRotate(_, _, _, _) => StartKeepsSession(ttl, s, a, fam, until, before);
        case Next(x, uuid) => OwnNextKeepsSession(ttl, s, x, uuid, fam, until, before);
        case _ =>
      }
    }
  }

  lemma OwnNextKeepsSession(ttl: int, s: State, x: nat, uuid: string, fam: string, until: int, before: set<nat>)
    requires ClientOk(s, fam) && InSession(s, fam, until, before) && x in s.calls && s.calls[x].fam == fam
    requires s.now < until <= s.now + ttl && NextCommand(ttl, s, x, uuid) != s
    ensures InSession(NextCommand(ttl, s, x, uuid), fam, until, before)
  {
    assert Unfinished(s, fam, x);
    NextKeepsSession(ttl, s, x, uuid, fam, until, before);
  }

  // ----- The law -------------------------------------------------------------------------

  lemma ClockNeverGoesBack(ttl: int, s: State, a: Action)
    ensures s.now <= Step(ttl, s, a).now
    ensures s.calls.Keys <= Step(ttl, s, a).calls.Keys
  {
    assert forall c :: c in s.calls ==> c in Step(ttl, s, a).calls;
  }

  lemma CarefulPrefix(ttl: int, fam: string, acts: seq<Action>, more: seq<Action>)
    requires CarefulRun(ttl, fam, acts + more)
    ensures CarefulRun(ttl, fam, acts)
    decreases |more|
  {
    if more == [] {
      assert acts + more == acts;
    } else {
      assert (acts + more)[..|acts + more| - 1] == acts + more[..|more| - 1];
      CarefulPrefix(ttl, fam, acts, more[..|more| - 1]);
    }
  }

  /** Where the client is after `acts` and `more`, if its session ran when `more` began. */
  ghost predicate StillInSession(ttl: int, fam: string, acts: seq<Action>, more: seq<Action>, until: int) {
    var s := Run(ttl, INITIAL, acts);
    var s' := Run(ttl, INITIAL, acts + more);
    s.now <= s'.now && s.calls.Keys <= s'.calls.Keys
    && (s'.now < until ==> InSession(s', fam, until, s.calls.Keys))
  }

  lemma {:induction false} SessionGoesOn(ttl: int, fam: string, acts: seq<Action>, more: seq<Action>, until: int)
    requires ttl > 0 && CarefulRun(ttl, fam, acts + more) && forall k :: 0 <= k < |more| ==> !LogsOut(more[k], fam)
    requires var s := Run(ttl, INITIAL, acts); until <= s.now + ttl && InSession(s, fam, until, s.calls.Keys)
    ensures StillInSession(ttl, fam, acts, more, until)
  {
    if more == [] {
      assert acts + more == acts;
    } else {
      var a, earlier := more[|more| - 1], more[..|more| - 1];
      assert acts + more == (acts + earlier) + [a] && (acts + more)[..|acts + more| - 1] == acts + earlier;
      SessionGoesOn(ttl, fam, acts, earlier, until);
      var before := Run(ttl, INITIAL, acts + earlier);
      CarefulRunOk(ttl, fam, acts + earlier);
      ClockNeverGoesBack(ttl, before, a);
      if Step(ttl, before, a).now < until {
        StepKeepsSession(ttl, before, a, fam, until, Run(ttl, INITIAL, acts).calls.Keys);
      }
    }
  }

  /** The step gives the client a token: the family is created, or a rotation is reissued while its
      family lives. */
  predicate Issues(s: State, a: Action, fam: string) {
    match a
    case Create(f, jti, _) => f == fam && NewFamily(s, fam) && jti !in s.issued
    case Next(c, uuid) =>
      c in s.calls && s.calls[c].fam == fam && s.calls[c].pc.Reissue? && uuid !in s.issued && Live(s, MetaKey(fam))
    case _ => false
  }

  /** Token and family then live for one whole lifetime, and nothing of the client is under way. */
  lemma IssuingOpensSession(ttl: int, s: State, a: Action, fam: string)
    requires Inv(s) && ttl > 0 && ClientOk(s, fam) && Careful(s, fam, a) && Issues(s, a, fam)
    ensures var s' := Step(ttl, s, a);
            s'.now == s.now && InSession(s', fam, s.now + ttl, s'.calls.Keys)
  {
    var s' := Step(ttl, s, a);
    StepKeepsInv(ttl, s, a);
    if a.Create? {
      CreateWrites(ttl, s, fam, a.newJti, a.user);
    } else {
      ReissueWrites(ttl, s, a.c, a.uuid);
      assert Unfinished(s, fam, a.c) && CallOk(s, s.calls[a.c]);
      forall c | c in s'.calls && s'.calls[c].fam == fam ensures s'.calls[c].pc.Finished? {
        if c != a.c { assert s'.calls[c] == s.calls[c] && !Unfinished(s, fam, c); }
      }
    }
  }

  lemma SessionOpened(ttl: int, fam: string, acts: seq<Action>, a: Action)
    requires ttl > 0 && CarefulRun(ttl, fam, acts + [a]) && Issues(Run(ttl, INITIAL, acts), a, fam)
    ensures var s := Run(ttl, INITIAL, acts + [a]);
            InSession(s, fam, s.now + ttl, s.calls.Keys)
  {
    assert (acts + [a])[..|acts|] == acts;
    CarefulRunOk(ttl, fam, acts);
    IssuingOpensSession(ttl, Run(ttl, INITIAL, acts), a, fam);
  }

  /** A client that waits for each reply, presents its latest token and does not log out gets `RotateOk`
      from every rotation it makes within one lifetime of its last token, whatever other families do. */
  lemma RotatingInTimeSucceeds(ttl: int, fam: string, acts: seq<Action>, a: Action, more: seq<Action>, c: nat)
    requires ttl > 0 && CarefulRun(ttl, fam, acts + [a] + more) && Issues(Run(ttl, INITIAL, acts), a, fam)
    requires forall k :: 0 <= k < |more| ==> !LogsOut(more[k], fam)
    ensures var issued := Run(ttl, INITIAL, acts + [a]);
            var s := Run(ttl, INITIAL, acts + [a] + more);
            s.now < issued.now + ttl && c in s.calls && c !in issued.calls && s.calls[c].fam == fam && s.calls[c].pc.Finished? ==>
              fam in s.creator && s.calls[c].pc.result.RotateOk? && s.calls[c].pc.result.user == s.creator[fam]
  {
    CarefulPrefix(ttl, fam, acts + [a], more);
    SessionOpened(ttl, fam, acts, a);
    SessionGoesOn(ttl, fam, acts + [a], more, Run(ttl, INITIAL, acts + [a]).now + ttl);
  }
}
