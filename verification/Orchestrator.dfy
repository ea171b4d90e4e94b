/** The orchestrator of one migration (`tasks/migration.py`). The broker may deliver its message
    any number of times, one delivery after the other; a delivery may die between any two
    commits. */
module Orchestrator {
  import opened Options
  import opened AuditChain
  import opened MigrationCrud
  import C = Conversion

  // ----- Waiting for the conversions -----------------------------------------------------

  datatype WaitResult = AllReady | Vanished | Ended(status: C.GroupStatus) | TimedOut

  predicate FailedGroup(s: C.GroupStatus) { s.GroupFailed? || s.Partial? || s.GroupCancelled? }

  function Max0(t: int): nat { if t < 0 then 0 else t }

  /** The polling loop. Poll `k` finds the group status `poll(k)` and then reads the clock as
      `clock(k)`; between two polls it sleeps five seconds. The deadline is `timeout` seconds
      after `start`. */
  method WaitForConversions(poll: nat -> Option<C.GroupStatus>, clock: nat -> int, start: int, timeout: int)
    returns (r: WaitResult, polls: nat)
    requires clock(0) >= start && forall k: nat :: clock(k + 1) >= clock(k) + 5
    ensures 1 <= polls <= (Max0(timeout) + 4) / 5 + 1
    // Every poll but the last found an unfinished group before the deadline.
    ensures forall k :: 0 <= k < polls - 1 ==>
              poll(k).Some? && poll(k).value in {C.GroupPending, C.InProgress} && clock(k) < start + Max0(timeout)
    ensures r == match poll(polls - 1)
                 case None => Vanished
                 case Some(s) =>
                   if s == C.GroupReady then AllReady
                   else if s in {C.GroupFailed, C.Partial, C.GroupCancelled} then Ended(s) else TimedOut
    ensures r == TimedOut ==> clock(polls - 1) >= start + Max0(timeout)
  {
    var deadline := start + Max0(timeout);
    polls := 0;
    while true
      invariant clock(polls) >= start + 5 * polls
      invariant polls > 0 ==> clock(polls - 1) < deadline && 5 * (polls - 1) < Max0(timeout)
      invariant forall k :: 0 <= k < polls ==>
                  poll(k).Some? && poll(k).value in {C.GroupPending, C.InProgress} && clock(k) < deadline
      decreases Max0(timeout) - 5 * polls + 5
    {
      var group := poll(polls);
      var now := clock(polls);
      polls := polls + 1;
      match group
      case None => return Vanished, polls;
      case Some(s) =>
        if s.GroupReady? { return AllReady, polls; }
        if FailedGroup(s) { return Ended(s), polls; }
        if now >= deadline { return TimedOut, polls; }
    }
  }

  // ----- Finding the group ---------------------------------------------------------------

  /** The conversion groups of the migration's VM and tenant in order of creation, each given by
      its `migration_id`. */
  type Groups = seq<Option<int>>

  const CANDIDATES := 50

  /** `list_groups(limit=50)` returns the newest ones. */
  function Newest(groups: Groups): Groups {
    if |groups| <= CANDIDATES then groups else groups[|groups| - CANDIDATES..]
  }

  method FindExistingGroup(groups: Groups, mid: int) returns (r: Option<nat>)
    ensures r.None? <==> forall i :: 0 <= i < |groups| && i >= |groups| - 50 ==> groups[i] != Some(mid)
    ensures r.Some? ==> r.value < |groups| && groups[r.value] == Some(mid)
                        && forall i :: r.value < i < |groups| ==> groups[i] != Some(mid)
  {
    var candidates := Newest(groups);
    var offset := |groups| - |candidates|;
    var k := |candidates|;
    while k > 0
      invariant 0 <= k <= |candidates|
      invariant forall i :: offset + k <= i < |groups| ==> groups[i] != Some(mid)
    {
      k := k - 1;
      assert candidates[k] == groups[offset + k];
      if candidates[k] == Some(mid) {
        return Some(offset + k);
      }
    }
    return None;
  }

  function WithGroup(groups: Groups, mid: int): Groups {
    if Some(mid) in Newest(groups) then groups else groups + [Some(mid)]
  }

  function CountGroups(groups: Groups, mid: int): nat { multiset(groups)[Some(mid)] }

  // ----- Deliveries ----------------------------------------------------------------------

  /** What a delivery commits on its way, in this order. */
  datatype Effect = SetTo(status: Status) | EnsureGroup

  const PIPELINE: seq<Effect> :=
    [SetTo(Validating), SetTo(Preparing), EnsureGroup, SetTo(Transferring), SetTo(Configuring),
     SetTo(Starting), SetTo(Verifying), SetTo(Completed)]

  datatype Pc =
    | NoDelivery
    | AtStage(k: nat)
    /** An exception was caught; `_fail` is about to lock and read the row. */
    | Failing(code: string, message: string)
    /** `fail_migration` has committed, the status write has not. */
    | FailStamped

  datatype World = World(db: Db, groups: Groups, pc: Pc)

  datatype Action =
    | Deliver
    /** The next effect of the pipeline; `answers` is false if its audit write raises. The failed
        transaction then makes `_fail` raise too, and the delivery ends. */
    | Advance(now: int, answers: bool)
    | Emit(kind: EventType, text: Option<string>, answers: bool)
    | Throw(code: string, message: string)
    | FailStep(now: int, answers: bool)
    | Crash
    /** The cancel endpoint, between deliveries. */
    | Cancel(now: int, answers: bool)
    /** A group for the same VM that belongs to no or to another migration. */
    | OtherGroup(owner: Option<int>)

  predicate Protected(s: Status) { s in {Completed, Cancelled, RolledBack} }

  function Step(c: Chain, mid: int, w: World, a: Action): World
    requires mid in w.db.migrations
    ensures mid in Step(c, mid, w, a).db.migrations
  {
    var status := w.db.migrations[mid].status;
    match a
    case Deliver => if w.pc.NoDelivery? && !Terminal(status) then w.(pc := AtStage(0)) else w
    case Advance(now, answers) =>
      if !w.pc.AtStage? then w
      else if w.pc.k >= |PIPELINE| then w.(pc := NoDelivery)
      else
        (match PIPELINE[w.pc.k]
         case SetTo(s) =>
           if answers || s == status then w.(db := StatusSet(c, w.db, mid, s, now), pc := AtStage(w.pc.k + 1))
           else w.(pc := NoDelivery)
         case EnsureGroup => w.(groups := WithGroup(w.groups, mid), pc := AtStage(w.pc.k + 1)))
    case Emit(kind, text, answers) =>
      if w.pc.AtStage? && answers then w.(db := Recorded(c, w.db, mid, NoteBody(w.db.migrations[mid], kind, text))) else w
    case Throw(code, message) => if w.pc.AtStage? then w.(pc := Failing(code, message)) else w
    case FailStep(now, answers) =>
      (match w.pc
       case Failing(code, message) =>
         if Protected(status) then w.(pc := NoDelivery)
         else w.(db := Stamped(w.db, mid, code, message), pc := FailStamped)
       case FailStamped =>
         if answers || status == Failed then w.(db := StatusSet(c, w.db, mid, Failed, now), pc := NoDelivery)
         else w.(pc := NoDelivery)
       case _ => w)
    case Crash => w.(pc := NoDelivery)
    case Cancel(now, answers) =>
      if w.pc.NoDelivery? && Active(status) && answers then w.(db := StatusSet(c, w.db, mid, Cancelled, now)) else w
    case OtherGroup(owner) => if owner != Some(mid) then w.(groups := w.groups + [owner]) else w
  }

  function Run(c: Chain, mid: int, w: World, acts: seq<Action>): World
    requires mid in w.db.migrations
    ensures mid in Run(c, mid, w, acts).db.migrations
  {
    if acts == [] then w else Step(c, mid, Run(c, mid, w, acts[..|acts| - 1]), acts[|acts| - 1])
  }

  /** Where a delivery can be while the row is in a given status. */
  ghost predicate Inv(mid: int, w: World)
    requires mid in w.db.migrations
  {
    var status := w.db.migrations[mid].status;
    (w.pc.AtStage? && w.pc.k < |PIPELINE| ==> !Terminal(status))
    && (w.pc.AtStage? && w.pc.k >= |PIPELINE| ==> status == Completed)
    && (w.pc.Failing? ==> status != Failed)
    && (w.pc.FailStamped? ==> !Terminal(status))
  }

  lemma StepKeepsInv(c: Chain, mid: int, w: World, a: Action)
    requires mid in w.db.migrations && Inv(mid, w)
    ensures Inv(mid, Step(c, mid, w, a))
    ensures Terminal(w.db.migrations[mid].status) ==> Step(c, mid, w, a).db.migrations == w.db.migrations
  {
    if a.Advance? && w.pc.AtStage? && w.pc.k < |PIPELINE| {
      assert PIPELINE[w.pc.k].SetTo? ==> (Terminal(PIPELINE[w.pc.k].status) ==> w.pc.k == |PIPELINE| - 1);
      assert PIPELINE[|PIPELINE| - 1] == SetTo(Completed);
    }
  }

  lemma {:induction false} RunKeepsInv(c: Chain, mid: int, w: World, acts: seq<Action>)
    requires mid in w.db.migrations && Inv(mid, w)
    ensures Inv(mid, Run(c, mid, w, acts))
    ensures Terminal(w.db.migrations[mid].status) ==> Run(c, mid, w, acts).db.migrations == w.db.migrations
  {
    if acts == [] {
    } else {
      RunKeepsInv(c, mid, w, acts[..|acts| - 1]);
      StepKeepsInv(c, mid, Run(c, mid, w, acts[..|acts| - 1]), acts[|acts| - 1]);
    }
  }

  /** Once the migration has reached a terminal status, in or between deliveries, its row never
      changes again: not its status, not its error, not its result. */
  lemma {:induction false} TerminalIsAbsorbing(c: Chain, mid: int, db: Db, groups: Groups, acts: seq<Action>, more: seq<Action>)
    requires mid in db.migrations
    ensures var w := Run(c, mid, World(db, groups, NoDelivery), acts);
            Terminal(w.db.migrations[mid].status) ==> Run(c, mid, w, more).db.migrations[mid] == w.db.migrations[mid]
  {
    RunKeepsInv(c, mid, World(db, groups, NoDelivery), acts);
    RunKeepsInv(c, mid, Run(c, mid, World(db, groups, NoDelivery), acts), more);
  }

  /** A cancel during a delivery is outside that theorem, and rightly so: no status write of a delivery
      looks at the status again. It is overwritten exactly by the delivery's next status write, which is
      a stage's, or that of a failure handler whose guard lies behind it. */
  lemma CancelDuringDelivery(c: Chain, mid: int, w: World, a: Action)
    requires mid in w.db.migrations && w.db.migrations[mid].status == Cancelled
    ensures Step(c, mid, w, a).db.migrations[mid].status != Cancelled <==>
            (a.Advance? && a.answers && w.pc.AtStage? && w.pc.k < |PIPELINE| && PIPELINE[w.pc.k].SetTo?)
            || (a.FailStep? && a.answers && w.pc.FailStamped?)
  {
    assert forall k :: 0 <= k < |PIPELINE| && PIPELINE[k].SetTo? ==> PIPELINE[k].status != Cancelled;
  }

  /** The step looks for the migration's group while newer groups of the VM have pushed it out of
      the 50 candidates. */
  predicate LooksInVain(mid: int, w: World, a: Action) {
    a.Advance? && w.pc.AtStage? && w.pc.k < |PIPELINE| && PIPELINE[w.pc.k].EnsureGroup?
    && Some(mid) in w.groups && forall i :: 0 <= i < |w.groups| && i >= |w.groups| - 50 ==> w.groups[i] != Some(mid)
  }

  predicate EverLooksInVain(c: Chain, mid: int, w: World, acts: seq<Action>)
    requires mid in w.db.migrations
  {
    acts != []
    && (EverLooksInVain(c, mid, w, acts[..|acts| - 1])
        || LooksInVain(mid, Run(c, mid, w, acts[..|acts| - 1]), acts[|acts| - 1]))
  }

  /** However often the message is delivered and wherever a delivery dies, at most one group carries the
      migration's id, unless, and only unless, a search misses the group it made before. */
  lemma {:induction false} OneGroupUnlessPushedOut(c: Chain, mid: int, w: World, acts: seq<Action>)
    requires mid in w.db.migrations && Some(mid) !in w.groups
    ensures CountGroups(Run(c, mid, w, acts).groups, mid) <= 1 <==> !EverLooksInVain(c, mid, w, acts)
    ensures EverLooksInVain(c, mid, w, acts) ==> |Run(c, mid, w, acts).groups| > 50
  {
    if acts == [] {
    } else {
      var before := Run(c, mid, w, acts[..|acts| - 1]);
      OneGroupUnlessPushedOut(c, mid, w, acts[..|acts| - 1]);
      StepGroups(c, mid, before, acts[|acts| - 1]);
    }
  }

  lemma StepGroups(c: Chain, mid: int, w: World, a: Action)
    requires mid in w.db.migrations
    ensures |w.groups| <= |Step(c, mid, w, a).groups|
    ensures var more := CountGroups(Step(c, mid, w, a).groups, mid) - CountGroups(w.groups, mid);
            0 <= more <= 1
            && (LooksInVain(mid, w, a) ==> more == 1 && |w.groups| > CANDIDATES)
            && (more == 1 && CountGroups(w.groups, mid) > 0 ==> LooksInVain(mid, w, a))
            && (LooksInVain(mid, w, a) ==> CountGroups(w.groups, mid) > 0)
  {
    GroupAdded(w.groups, mid);
    match a
    case OtherGroup(owner) =>
      assert CountGroups(w.groups + [owner], mid) == CountGroups(w.groups, mid) + (if owner == Some(mid) then 1 else 0);
    case _ =>
  }

  lemma GroupAdded(groups: Groups, mid: int)
    ensures Some(mid) in groups <==> CountGroups(groups, mid) > 0
    ensures CountGroups(groups + [Some(mid)], mid) == CountGroups(groups, mid) + 1
    ensures Some(mid) in Newest(groups) ==> Some(mid) in groups
    ensures Some(mid) in Newest(groups) <==> exists i :: 0 <= i < |groups| && i >= |groups| - 50 && groups[i] == Some(mid)
  {
  }

  /** In particular with at most 50 groups for the VM and tenant. */
  lemma {:induction false} OneGroup(c: Chain, mid: int, w: World, acts: seq<Action>)
    requires mid in w.db.migrations && Some(mid) !in w.groups
    requires |Run(c, mid, w, acts).groups| <= 50
    ensures CountGroups(Run(c, mid, w, acts).groups, mid) <= 1
  {
    OneGroupUnlessPushedOut(c, mid, w, acts);
  }

  // ----- The stages ----------------------------------------------------------------------

  /** A delivery that nothing disturbs, `n` commits long. */
  function Undisturbed(n: nat, now: int): seq<Action> { [Deliver] + seq(n, _ => Advance(now, true)) }

  /** The status after `n` commits; the third one is the conversion group. */
  function StageReached(n: nat): Status
    requires 1 <= n <= 9
  {
    if n == 1 then Validating else if n <= 3 then Preparing else if n == 4 then Transferring
    else if n == 5 then Configuring else if n == 6 then Starting else if n == 7 then Verifying else Completed
  }

  /** `w'` is `w` after `n` commits of one delivery. */
  ghost predicate Reached(mid: int, w: World, n: nat, w': World)
    requires mid in w.db.migrations && mid in w'.db.migrations && n <= 9
  {
    (if n == 0 then w'.db.migrations == w.db.migrations else w'.db.migrations[mid].status == StageReached(n))
    && (if n >= 3 then Some(mid) in w'.groups else w'.groups == w.groups)
    && w'.pc == if n == 9 then NoDelivery else AtStage(n)
  }

  lemma StageCommits(c: Chain, mid: int, w: World, s: Status, now: int)
    requires mid in w.db.migrations && w.pc.AtStage? && w.pc.k < 8 && PIPELINE[w.pc.k] == SetTo(s)
    ensures var w' := Step(c, mid, w, Advance(now, true));
            mid in w'.db.migrations && w'.db.migrations[mid].status == s
            && w'.groups == w.groups && w'.pc == AtStage(w.pc.k + 1)
  {
  }

  lemma HasGroup(groups: Groups, mid: int)
    ensures Some(mid) in WithGroup(groups, mid)
  {
  }

  lemma NextStage(c: Chain, mid: int, start: World, n: nat, w: World, now: int)
    requires mid in start.db.migrations && mid in w.db.migrations && n < 9 && Reached(mid, start, n, w)
    ensures Reached(mid, start, n + 1, Step(c, mid, w, Advance(now, true)))
  {
    if n == 2 {
      HasGroup(w.groups, mid);
    } else if n < 8 {
      StageCommits(c, mid, w, StageReached(n + 1), now);
    }
  }

  lemma OneMoreCommit(n: nat, now: int)
    ensures Undisturbed(0, now) == [Deliver]
    ensures Undisturbed(n + 1, now) == Undisturbed(n, now) + [Advance(now, true)]
  {
  }

  lemma Delivered(c: Chain, mid: int, w: World, now: int)
    requires mid in w.db.migrations && w.pc.NoDelivery?
    requires w.db.migrations[mid].status !in {Completed, Failed, Cancelled, RolledBack}
    ensures Reached(mid, w, 0, Run(c, mid, w, Undisturbed(0, now)))
  {
    OneMoreCommit(0, now);
    assert [] + [Deliver] == [Deliver] && Run(c, mid, w, []) == w;
    RunLast(c, mid, w, [], Deliver);
  }

  /** The stages in their order: an undisturbed delivery of a migration that is not finished takes it from
      VALIDATING to COMPLETED, through the group, which it has from its third commit on, and then ends. */
  lemma {:induction false} StagesInOrder(c: Chain, mid: int, w: World, n: nat, now: int)
    requires mid in w.db.migrations && w.pc.NoDelivery? && n <= 9
    requires w.db.migrations[mid].status !in {Completed, Failed, Cancelled, RolledBack}
    ensures Reached(mid, w, n, Run(c, mid, w, Undisturbed(n, now)))
  {
    if n == 0 {
      Delivered(c, mid, w, now);
    } else {
      StagesInOrder(c, mid, w, n - 1, now);
      OneMoreCommit(n - 1, now);
      RunLast(c, mid, w, Undisturbed(n - 1, now), Advance(now, true));
      NextStage(c, mid, w, n - 1, Run(c, mid, w, Undisturbed(n - 1, now)), now);
    }
  }

  /** A stage that throws: a migration that is completed, cancelled or rolled back is left as it is; any
      other ends FAILED with the code and the message of the exception. Either way the delivery ends. */
  lemma ThrowingStageFails(c: Chain, mid: int, w: World, code: string, message: string, now: int)
    requires mid in w.db.migrations && w.pc.AtStage?
    ensures var thrown := Step(c, mid, Step(c, mid, w, Throw(code, message)), FailStep(now, true));
            var ended := Step(c, mid, thrown, FailStep(now, true));
            if w.db.migrations[mid].status in {Completed, Cancelled, RolledBack}
            then thrown == w.(pc := NoDelivery)
            else ended.pc == NoDelivery && ended.db.migrations[mid].status == Failed
                 && ended.db.migrations[mid].errorCode == Some(code) && ended.db.migrations[mid].errorMessage == Some(message)
  {
  }

  // ----- A run with two groups -----------------------------------------------------------

  lemma {:induction false} RunConcat(c: Chain, mid: int, w: World, a: seq<Action>, b: seq<Action>)
    requires mid in w.db.migrations
    ensures Run(c, mid, w, a + b) == Run(c, mid, Run(c, mid, w, a), b)
  {
    if b == [] {
      assert a + b == a;
    } else {
      RunConcat(c, mid, w, a, b[..|b| - 1]);
      assert (a + b)[..|a + b| - 1] == a + b[..|b| - 1];
    }
  }

  lemma RunLast(c: Chain, mid: int, w: World, acts: seq<Action>, a: Action)
    requires mid in w.db.migrations
    ensures Run(c, mid, w, acts + [a]) == Step(c, mid, Run(c, mid, w, acts), a)
    ensures LooksInVain(mid, Run(c, mid, w, acts), a) ==> EverLooksInVain(c, mid, w, acts + [a])
  {
    assert (acts + [a])[..|acts|] == acts;
  }

  /** A delivery up to its search, and with it. */
  function UpToSearch(now: int): seq<Action> { [Deliver, Advance(now, true), Advance(now, true)] }

  function UpToGroup(now: int): seq<Action> { UpToSearch(now) + [Advance(now, true)] }

  lemma RunThree(c: Chain, mid: int, w: World, x: Action, y: Action, z: Action)
    requires mid in w.db.migrations
    ensures Run(c, mid, w, [x, y, z]) == Step(c, mid, Step(c, mid, Step(c, mid, w, x), y), z)
  {
    assert [x, y, z][..2] == [x, y] && [x, y][..1] == [x] && [x][..0] == [];
    assert Run(c, mid, w, []) == w;
    assert Run(c, mid, w, [x]) == Step(c, mid, w, x);
    assert Run(c, mid, w, [x, y]) == Step(c, mid, Step(c, mid, w, x), y);
  }

  /** A delivery before its search. */
  lemma BeforeGroup(c: Chain, mid: int, w: World, now: int)
    requires mid in w.db.migrations && w.pc.NoDelivery? && !Terminal(w.db.migrations[mid].status)
    ensures var w' := Run(c, mid, w, UpToSearch(now));
            w'.pc == AtStage(2) && w'.groups == w.groups && w'.db.migrations[mid].status == Preparing
  {
    RunThree(c, mid, w, Deliver, Advance(now, true), Advance(now, true));
  }

  lemma UpToGroupRuns(c: Chain, mid: int, w: World, now: int)
    requires mid in w.db.migrations && w.pc.NoDelivery? && !Terminal(w.db.migrations[mid].status)
    ensures var w' := Run(c, mid, w, UpToGroup(now));
            w'.pc == AtStage(3) && w'.groups == WithGroup(w.groups, mid) && w'.db.migrations[mid].status == Preparing
    ensures Some(mid) in w.groups && Some(mid) !in Newest(w.groups) ==> EverLooksInVain(c, mid, w, UpToGroup(now))
  {
    BeforeGroup(c, mid, w, now);
    RunLast(c, mid, w, UpToSearch(now), Advance(now, true));
  }

  function Others(n: nat): seq<Action> { seq(n, _ => OtherGroup(None)) }

  lemma {:induction false} OthersRun(c: Chain, mid: int, w: World, n: nat)
    requires mid in w.db.migrations
    ensures Run(c, mid, w, Others(n)) == w.(groups := w.groups + seq(n, _ => None))
  {
    if n == 0 {
      assert w.groups + seq(0, _ => None) == w.groups;
    } else {
      OthersRun(c, mid, w, n - 1);
      assert Others(n)[..n - 1] == Others(n - 1);
      assert w.groups + seq(n - 1, _ => None) + [None] == w.groups + seq(n, _ => None);
    }
  }

  lemma {:induction false} EverInVainLater(c: Chain, mid: int, w: World, a: seq<Action>, b: seq<Action>)
    requires mid in w.db.migrations && EverLooksInVain(c, mid, Run(c, mid, w, a), b)
    ensures EverLooksInVain(c, mid, w, a + b)
  {
    if b == [] {
    } else {
      assert (a + b)[..|a + b| - 1] == a + b[..|b| - 1];
      RunConcat(c, mid, w, a, b[..|b| - 1]);
      if EverLooksInVain(c, mid, Run(c, mid, w, a), b[..|b| - 1]) { EverInVainLater(c, mid, w, a, b[..|b| - 1]); }
    }
  }

  /** Deliver, make the group, die; 50 other groups of the VM; deliver again. */
  function TwoDeliveries(now: int): seq<Action> { (UpToGroup(now) + [Crash]) + Others(CANDIDATES) + UpToGroup(now) }

  lemma FirstDelivery(c: Chain, mid: int, db: Db, now: int)
    requires mid in db.migrations && !Terminal(db.migrations[mid].status)
    ensures var w := Run(c, mid, World(db, [], NoDelivery), UpToGroup(now) + [Crash]);
            w.pc == NoDelivery && w.groups == [Some(mid)] && w.db.migrations[mid].status == Preparing
  {
    UpToGroupRuns(c, mid, World(db, [], NoDelivery), now);
    assert (UpToGroup(now) + [Crash])[..|UpToGroup(now)|] == UpToGroup(now);
  }

  /** The second group does arise: this run ends with two groups for the migration. */
  lemma SecondGroupArises(c: Chain, mid: int, db: Db, now: int)
    requires mid in db.migrations && !Terminal(db.migrations[mid].status)
    ensures var w := World(db, [], NoDelivery);
            EverLooksInVain(c, mid, w, TwoDeliveries(now))
            && CountGroups(Run(c, mid, w, TwoDeliveries(now)).groups, mid) == 2
  {
    var w, first := World(db, [], NoDelivery), UpToGroup(now) + [Crash];
    var w1 := Run(c, mid, w, first);
    FirstDelivery(c, mid, db, now);
    RunConcat(c, mid, w, first, Others(CANDIDATES));
    OthersRun(c, mid, w1, CANDIDATES);
    var w2 := Run(c, mid, w, first + Others(CANDIDATES));
    PushedOut(mid);
    UpToGroupRuns(c, mid, w2, now);
    RunConcat(c, mid, w, first + Others(CANDIDATES), UpToGroup(now));
    EverInVainLater(c, mid, w, first + Others(CANDIDATES), UpToGroup(now));
  }

  lemma PushedOut(mid: int)
    ensures var groups := [Some(mid)] + seq(CANDIDATES, _ => None);
            Some(mid) in groups && Some(mid) !in Newest(groups) && CountGroups(groups + [Some(mid)], mid) == 2
  {
    var others: Groups := seq(CANDIDATES, _ => None);
    var groups := [Some(mid)] + others;
    assert groups[0] == Some(mid) && groups[1..] == others;
    assert multiset(groups + [Some(mid)]) == multiset{Some(mid)} + multiset(others) + multiset{Some(mid)};
    assert Some(mid) !in others;
  }

  // ----- The audit log -------------------------------------------------------------------

  /** Deliveries keep every audit log in step with its row. */
  lemma {:induction false} DeliveriesAreTold(c: Chain, mid: int, w: World, acts: seq<Action>, k: int)
    requires mid in w.db.migrations && DbOk(c, w.db, k)
    ensures DbOk(c, Run(c, mid, w, acts).db, k)
  {
    if acts == [] {
    } else {
      DeliveriesAreTold(c, mid, w, acts[..|acts| - 1], k);
      StepIsToldOp(c, mid, Run(c, mid, w, acts[..|acts| - 1]), acts[|acts| - 1], k);
    }
  }

  /** Each step commits what one of the writer's logged operations commits, or nothing. */
  lemma StepIsToldOp(c: Chain, mid: int, w: World, a: Action, k: int)
    requires mid in w.db.migrations && DbOk(c, w.db, k)
    ensures DbOk(c, Step(c, mid, w, a).db, k)
  {
    match a
    case Advance(now, answers) =>
      if w.pc.AtStage? && w.pc.k < |PIPELINE| && PIPELINE[w.pc.k].SetTo? {
        StepTold(c, w.db, SetStatus(mid, PIPELINE[w.pc.k].status, now, answers), k);
      }
    case Emit(kind, text, answers) => StepTold(c, w.db, Note(mid, kind, text, answers), k);
    case FailStep(now, answers) =>
      if w.pc.Failing? { StepTold(c, w.db, Stamp(mid, w.pc.code, w.pc.message), k); }
      StepTold(c, w.db, SetStatus(mid, Failed, now, answers), k);
    case Cancel(now, answers) => StepTold(c, w.db, SetStatus(mid, Cancelled, now, answers), k);
    case _ =>
  }

  // ----- `_fail` -------------------------------------------------------------------------

  /** The failure handler on a clean session: a protected row is left alone; otherwise the error is
      stamped and committed, and then the status is written and committed. */
  method Fail(s: Session, mid: int, code: string, message: string, now: int, answers: bool) returns (raised: bool)
    requires s.working == s.committed
    modifies s
    ensures mid in old(s.committed).migrations ==>
      var db := old(s.committed);
      if db.migrations[mid].status in {Completed, Cancelled, RolledBack} then s.committed == db && !raised
      else
        var stamped := Stamped(db, mid, code, message);
        raised == !(answers || db.migrations[mid].status == Failed)
        && s.committed == if raised then stamped else StatusSet(s.c, stamped, mid, Failed, now)
    ensures mid !in old(s.committed).migrations ==> s.committed == old(s.committed) && !raised
  {
    if mid in s.working.migrations && Protected(s.working.migrations[mid].status) {
      s.Commit();
      return false;
    }
    var stamp := s.FailMigration(mid, code, message);
    var write := s.SetMigrationStatus(mid, Failed, now, answers);
    if write == Raised { return true; }
    s.Commit();
    return false;
  }
}
