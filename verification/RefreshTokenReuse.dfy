/** Reuse detection, the promise of refresh-token rotation (section 4.14.2 of RFC 9700): once two calls
    have presented one token and one of them was answered, the family is dead. */
module RefreshTokenReuse {
  import opened Options
  import opened RefreshTokens

  predicate SameToken(a: Call, b: Call) { a.fam == b.fam && a.jti == b.jti }

  predicate AnsweredUnknown(call: Call) { call.pc.Finished? && call.pc.result.RotateUnknown? }

  /** A call that was answered `RotateUnknown` while its family lives on has used up its token itself:
      the owner did not match. No other call wins that token. */
  ghost predicate UsedUp(s: State, c: nat)
    requires c in s.calls
  {
    var call := s.calls[c];
    AnsweredUnknown(call) && Live(s, MetaKey(call.fam)) ==>
      call.jti in s.issued && !Live(s, JtiKey(call.fam, call.jti))
      && forall d :: d in s.calls && d != c && Won(s.calls[d]) ==> !SameToken(call, s.calls[d])
  }

  ghost predicate AllUsedUp(s: State) {
    forall c :: c in s.calls ==> UsedUp(s, c)
  }

  /** Nothing is created and no call wins. */
  lemma LosingKeepsUsedUp(s: State, s': State, c: nat)
    requires c in s.calls && UsedUp(s, c) && OnlyLoses(s, s') && c in s'.calls && s'.calls[c] == s.calls[c]
    requires forall d :: d in s'.calls && Won(s'.calls[d]) ==> d in s.calls && Won(s.calls[d]) && SameToken(s'.calls[d], s.calls[d])
    ensures UsedUp(s', c)
  {
    var call := s.calls[c];
    assert Live(s', MetaKey(call.fam)) ==> Live(s, MetaKey(call.fam));
    assert Live(s', JtiKey(call.fam, call.jti)) ==> Live(s, JtiKey(call.fam, call.jti));
  }

  /** The call that moves on quietly. */
  lemma QuietKeepsUsedUp(s: State, s': State, x: nat)
    requires AllUsedUp(s) && Quiet(s, s', x)
    requires UsedUp(s', x)
    ensures AllUsedUp(s')
  {
    forall c | c in s'.calls && c != x ensures UsedUp(s', c) {
      LosingKeepsUsedUp(s, s', c);
    }
  }

  lemma ConsumeKeepsUsedUp(ttl: int, s: State, x: nat, uuid: string)
    requires Inv(s) && AllUsedUp(s) && x in s.calls && s.calls[x].pc.Del?
    requires Live(s, JtiKey(s.calls[x].fam, s.calls[x].jti))
    ensures AllUsedUp(NextCommand(ttl, s, x, uuid))
  {
    var s' := NextCommand(ttl, s, x, uuid);
    forall c | c in s'.calls ensures UsedUp(s', c) {
      assert UsedUp(s, c);
    }
  }

  lemma ReissueKeepsUsedUp(ttl: int, s: State, x: nat, uuid: string)
    requires Inv(s) && ttl > 0 && AllUsedUp(s) && x in s.calls && s.calls[x].pc.Reissue? && uuid !in s.issued
    ensures AllUsedUp(NextCommand(ttl, s, x, uuid))
  {
    var s' := NextCommand(ttl, s, x, uuid);
    ReissueStoreOk(ttl, s, x, uuid);
    forall c | c in s'.calls ensures UsedUp(s', c) {
      assert UsedUp(s, c);
    }
  }

  /** A call that is answered `RotateUnknown` has either used up its token or found the family dead. */
  lemma AnswerIsUsedUp(ttl: int, s: State, x: nat, uuid: string)
    requires Inv(s) && x in s.calls && !s.calls[x].pc.Reissue? && NextCommand(ttl, s, x, uuid) != s
    ensures x in NextCommand(ttl, s, x, uuid).calls && UsedUp(NextCommand(ttl, s, x, uuid), x)
  {
    assert CallOk(s, s.calls[x]);
  }

  lemma NextKeepsUsedUp(ttl: int, s: State, x: nat, uuid: string)
    requires Inv(s) && ttl > 0 && AllUsedUp(s) && x in s.calls
    ensures AllUsedUp(NextCommand(ttl, s, x, uuid))
  {
    var s', call := NextCommand(ttl, s, x, uuid), s.calls[x];
    if s' != s {
      if call.pc.Reissue? {
        ReissueKeepsUsedUp(ttl, s, x, uuid);
      } else if call.pc.Del? && Live(s, JtiKey(call.fam, call.jti)) {
        ConsumeKeepsUsedUp(ttl, s, x, uuid);
      } else {
        assert CallOk(s, call);
        NextIsQuiet(ttl, s, x, uuid);
        AnswerIsUsedUp(ttl, s, x, uuid);
        QuietKeepsUsedUp(s, s', x);
      }
    }
  }

  lemma CreateKeepsUsedUp(ttl: int, s: State, fam: string, jti: string, user: int)
    requires AllUsedUp(s)
    ensures AllUsedUp(Step(ttl, s, Create(fam, jti, user)))
  {
    var s' := Step(ttl, s, Create(fam, jti, user));
    forall c | c in s'.calls ensures UsedUp(s', c) {
      assert UsedUp(s, c);
      if s' != s { assert s.calls[c].fam != fam; }
    }
  }

  lemma StepKeepsUsedUp(ttl: int, s: State, a: Action)
    requires Inv(s) && ttl > 0 && AllUsedUp(s)
    ensures AllUsedUp(Step(ttl, s, a))
  {
    var s' := Step(ttl, s, a);
    if s' != s {
      match a
      case Tick(_) =>
        forall c | c in s'.calls ensures UsedUp(s', c) { LosingKeepsUsedUp(s, s', c); }
      case Create(fam, jti, user) => CreateKeepsUsedUp(ttl, s, fam, jti, user);
      case Next(x, uuid) => NextKeepsUsedUp(ttl, s, x, uuid);
      case StartRotate(x, _, _, _) => QuietKeepsUsedUp(s, s', x);
      case StartRevoke(x, _) => QuietKeepsUsedUp(s, s', x);
      case ScanKey(x, _) => ScanIsQuiet(ttl, s, a, x); QuietKeepsUsedUp(s, s', x);
      case ScanEnd(x) => ScanIsQuiet(ttl, s, a, x); QuietKeepsUsedUp(s, s', x);
    }
  }

  lemma {:induction false} RunKeepsUsedUp(ttl: int, acts: seq<Action>)
    requires ttl > 0
    ensures Inv(Run(ttl, INITIAL, acts)) && AllUsedUp(Run(ttl, INITIAL, acts))
  {
    if acts == [] {
      InitialInv();
    } else {
      RunKeepsUsedUp(ttl, acts[..|acts| - 1]);
      StepKeepsInv(ttl, Run(ttl, INITIAL, acts[..|acts| - 1]), acts[|acts| - 1]);
      StepKeepsUsedUp(ttl, Run(ttl, INITIAL, acts[..|acts| - 1]), acts[|acts| - 1]);
    }
  }

  /** If one call got `RotateOk` for a token and another call that presented the same token has been
      answered, the family is dead, and stays so: neither the thief nor the client rotates again. */
  lemma ReuseKillsTheFamily(ttl: int, acts: seq<Action>, winner: nat, other: nat, more: seq<Action>, later: nat)
    requires ttl > 0
    ensures var s := Run(ttl, INITIAL, acts);
            winner in s.calls && other in s.calls && winner != other && SameToken(s.calls[winner], s.calls[other])
            && s.calls[winner].pc.Finished? && s.calls[winner].pc.result.RotateOk? && s.calls[other].pc.Finished? ==>
              var fam := s.calls[winner].fam;
              Gone(s, fam) && Gone(Run(ttl, s, more), fam)
              && (NotPastCheck(s, fam, later) ==> NotPastCheck(Run(ttl, s, more), fam, later))
  {
    RunKeepsUsedUp(ttl, acts);
    var s := Run(ttl, INITIAL, acts);
    if winner in s.calls && other in s.calls && winner != other && SameToken(s.calls[winner], s.calls[other])
       && s.calls[winner].pc.Finished? && s.calls[winner].pc.result.RotateOk? && s.calls[other].pc.Finished? {
      assert CallOk(s, s.calls[winner]) && CallOk(s, s.calls[other]) && UsedUp(s, other);
      GoneForGood(ttl, s, more, s.calls[winner].fam, later);
    }
  }
}
