/** The aggregate status of a conversion group (`crud/conversion.py`). */
module Conversion {
  import opened Options

  datatype JobStatus =
    | Pending | Planning | Staging | Converting | Verifying | Ready | Failed | Cancelled | Retrying | Expired

  datatype GroupStatus = GroupPending | InProgress | GroupReady | Partial | GroupFailed | GroupCancelled

  predicate InFlight(s: JobStatus) {
    s.Pending? || s.Planning? || s.Staging? || s.Converting? || s.Verifying? || s.Retrying?
  }

  predicate TerminalFail(s: JobStatus) { s.Failed? || s.Expired? }

  predicate TerminalGroup(s: GroupStatus) {
    s.GroupReady? || s.GroupFailed? || s.Partial? || s.GroupCancelled?
  }

  /** The cascade of `recompute_group_status`. */
  function Aggregate(statuses: seq<JobStatus>): GroupStatus {
    var hasInFlight := exists k :: 0 <= k < |statuses| && InFlight(statuses[k]);
    var hasReady := Ready in statuses;
    var hasFailed := exists k :: 0 <= k < |statuses| && TerminalFail(statuses[k]);
    var hasCancelled := Cancelled in statuses;
    if hasInFlight then InProgress
    else if forall k :: 0 <= k < |statuses| ==> statuses[k] == Ready then GroupReady
    else if hasReady && (hasFailed || hasCancelled) then Partial
    else if forall k :: 0 <= k < |statuses| ==> TerminalFail(statuses[k]) then GroupFailed
    else if forall k :: 0 <= k < |statuses| ==> statuses[k] == Cancelled then GroupCancelled
    else GroupFailed
  }

  /** Each aggregate status in terms of the jobs, for every non-empty group. In particular the
      order of the jobs does not matter. */
  lemma AggregateExact(statuses: seq<JobStatus>)
    requires statuses != []
    ensures var g := Aggregate(statuses);
            (g == InProgress <==> exists s :: s in statuses && s !in {Ready, Failed, Cancelled, Expired})
            && (g == GroupReady <==> forall s :: s in statuses ==> s == Ready)
            && (g == GroupCancelled <==> forall s :: s in statuses ==> s == Cancelled)
            && (g == Partial <==> (forall s :: s in statuses ==> s in {Ready, Failed, Cancelled, Expired})
                                  && Ready in statuses && exists s :: s in statuses && s != Ready)
            && (g == GroupFailed <==> (forall s :: s in statuses ==> s in {Ready, Failed, Cancelled, Expired})
                                      && Ready !in statuses && exists s :: s in statuses && s != Cancelled)
            && g != GroupPending
  {
    assert statuses[0] in statuses;
    assert forall k :: 0 <= k < |statuses| ==> statuses[k] in statuses;
    assert forall s :: s in statuses ==> (InFlight(s) <==> s !in {Ready, Failed, Cancelled, Expired});
  }

  lemma OrderDoesNotMatter(a: seq<JobStatus>, b: seq<JobStatus>)
    requires multiset(a) == multiset(b)
    ensures Aggregate(a) == Aggregate(b)
  {
    assert forall s :: s in a <==> s in multiset(a);
    assert forall s :: s in b <==> s in multiset(b);
    if a == [] {
      assert |multiset(b)| == 0;
      assert b == [];
    } else {
      assert a[0] in b;
      AggregateExact(a);
      AggregateExact(b);
    }
  }

  /** A `conversion_groups` row with the status of its jobs. */
  class Group {
    var status: GroupStatus
    var startedAt: Option<int>
    var completedAt: Option<int>
    var jobs: seq<JobStatus>

    constructor (jobs: seq<JobStatus>)
      ensures status == GroupPending && startedAt == completedAt == None && this.jobs == jobs
    {
      status, startedAt, completedAt, this.jobs := GroupPending, None, None, jobs;
    }

    method SetGroupStatus(s: GroupStatus, now: int)
      modifies this`status, this`startedAt, this`completedAt
      ensures status == s
      ensures startedAt == if s == InProgress && old(startedAt).None? then Some(now) else old(startedAt)
      ensures completedAt == if s in {GroupReady, GroupFailed, Partial, GroupCancelled} then Some(now) else old(completedAt)
    {
      status := s;
      if s == InProgress && startedAt.None? { startedAt := Some(now); }
      if TerminalGroup(s) { completedAt := Some(now); }
    }

    /** A group without jobs is left as it is. */
    method RecomputeGroupStatus(now: int)
      modifies this`status, this`startedAt, this`completedAt
      ensures status == if jobs == [] then old(status) else Aggregate(jobs)
      ensures jobs == [] ==> completedAt == old(completedAt) && startedAt == old(startedAt)
      ensures jobs != [] && (forall j :: j in jobs ==> j in {Ready, Failed, Cancelled, Expired}) ==> completedAt == Some(now)
    {
      if jobs == [] { return; }
      var hasInFlight, hasReady, hasFailed, hasCancelled := false, false, false, false;
      var allReady, allFail, allCancelled := true, true, true;
      for k := 0 to |jobs|
        invariant hasInFlight <==> exists i :: 0 <= i < k && InFlight(jobs[i])
        invariant hasReady <==> Ready in jobs[..k]
        invariant hasFailed <==> exists i :: 0 <= i < k && TerminalFail(jobs[i])
        invariant hasCancelled <==> Cancelled in jobs[..k]
        invariant allReady <==> forall i :: 0 <= i < k ==> jobs[i] == Ready
        invariant allFail <==> forall i :: 0 <= i < k ==> TerminalFail(jobs[i])
        invariant allCancelled <==> forall i :: 0 <= i < k ==> jobs[i] == Cancelled
      {
        var s := jobs[k];
        assert jobs[..k + 1] == jobs[..k] + [s];
        hasInFlight, hasReady := hasInFlight || InFlight(s), hasReady || s == Ready;
        hasFailed, hasCancelled := hasFailed || TerminalFail(s), hasCancelled || s == Cancelled;
        allReady, allFail, allCancelled := allReady && s == Ready, allFail && TerminalFail(s), allCancelled && s == Cancelled;
      }
      assert jobs[..|jobs|] == jobs;
      var next :=
        if hasInFlight then InProgress
        else if allReady then GroupReady
        else if hasReady && (hasFailed || hasCancelled) then Partial
        else if allFail then GroupFailed
        else if allCancelled then GroupCancelled
        else GroupFailed;
      AggregateExact(jobs);
      SetGroupStatus(next, now);
    }
  }
}
