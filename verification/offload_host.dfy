/**
  The host's half of the offload protocol (`runtime/mesh/hes_host.c`) gets on: a post that is accepted
  goes out in a bounded number of the host's own steps, and a wait returns in five of them once the job
  is done -- whatever host, control core and compute cores do in between. Nothing is said here about
  how the steps work, only where they lead.
 */
module OffloadHost {
  import opened Offload

  /** How many steps of a run are the host's. */
  ghost function HostSteps(run: seq<Action>): nat
    decreases |run|
  {
    if run == [] then 0 else (if run[0].HostStep? then 1 else 0) + HostSteps(run[1..])
  }

  /* ---- A wait ---- */

  /** Steps a wait is from its end, once the job is done. */
  function ReadRank(pc: HostPc): nat {
    match pc
    case Poll(_) => 5
    case ReadCycles(_) => 4
    case ReadCores(_, _) => 3
    case ReadStaged(_, _, _) => 2
    case ReadError(_, _, _, _) => 1
    case _ => 0
  }

  /** The host waits for job q, which is done and ended in `o`. */
  ghost predicate Collects(s: State, q: nat, o: Outcome, results: seq<(nat, Outcome)>) {
    && ReadRank(s.host.pc) > 0 && s.host.pc.q == q && !s.host.inFlight
    && s.mbox.doneSeq == q && 0 < q <= |s.log.outcomes| && s.log.outcomes[q - 1] == o && s.log.results == results
  }

  /** The wait has returned, with that. */
  ghost predicate Collected(s: State, q: nat, o: Outcome, results: seq<(nat, Outcome)>) {
    && s.host.pc.Idle? && !s.host.inFlight && s.log.results == results + [(q, o)]
    && 0 < q <= |s.log.outcomes| && s.log.outcomes[q - 1] == o
  }

  lemma HostCollects(c: Cluster, s: State, q: nat, o: Outcome, results: seq<(nat, Outcome)>)
    requires Inv(c, s) && Collects(s, q, o, results)
    ensures Enabled(c, s, HostStep)
    ensures var t := Apply(c, s, HostStep);
            if ReadRank(s.host.pc) == 1 then Collected(t, q, o, results)
            else Collects(t, q, o, results) && ReadRank(t.host.pc) == ReadRank(s.host.pc) - 1
  {
    hide Awake, Stable, Faithful, Fenced, Answers;
  }

  /** Meanwhile the cluster rests. */
  lemma OthersWait(c: Cluster, s: State, q: nat, o: Outcome, results: seq<(nat, Outcome)>, a: Action)
    requires Inv(c, s) && Collects(s, q, o, results) && Enabled(c, s, a) && !a.HostStep?
    ensures Collects(Apply(c, s, a), q, o, results) && Apply(c, s, a).host == s.host
  {
    hide Awake, Stable, Faithful, Answers;
  }

  /** A wait for a job that is done returns the job's outcome, in five steps of the host. */
  lemma {:induction false} WaitReturns(c: Cluster, s: State, run: seq<Action>, q: nat, o: Outcome,
                                       results: seq<(nat, Outcome)>) returns (n: nat)
    requires Inv(c, s) && Possible(c, s, run) && Collects(s, q, o, results) && ReadRank(s.host.pc) <= HostSteps(run)
    ensures n <= |run| && Possible(c, s, run[..n]) && Collected(After(c, s, run[..n]), q, o, results)
    ensures HostSteps(run[..n]) == ReadRank(s.host.pc)
    decreases |run|
  {
    hide Inv, Apply, Enabled, Collects, Collected;
    SomethingLeft(s, q, o, results);
    var s' := Apply(c, s, run[0]);
    StepKeeps(c, s, run[0]);
    if !run[0].HostStep? {
      OthersWait(c, s, q, o, results, run[0]);
      n := WaitReturns(c, s', run[1..], q, o, results);
    } else {
      HostCollects(c, s, q, o, results);
      if ReadRank(s.host.pc) == 1 {
        n := 0;
        assert run[1..][..0] == [];
      } else {
        n := WaitReturns(c, s', run[1..], q, o, results);
      }
    }
    StartsWith(c, s, run, n);
    FirstAndRest(run, n);
    n := n + 1;
  }

  lemma SomethingLeft(s: State, q: nat, o: Outcome, results: seq<(nat, Outcome)>)
    requires Collects(s, q, o, results)
    ensures ReadRank(s.host.pc) > 0
  {
  }

  lemma FirstAndRest(run: seq<Action>, n: nat)
    requires n < |run|
    ensures HostSteps(run[..n + 1]) == (if run[0].HostStep? then 1 else 0) + HostSteps(run[1..][..n])
  {
    assert run[..n + 1][0] == run[0] && run[..n + 1][1..] == run[1..][..n];
  }

  /* ---- From the wait's call to its return ---- */

  /** A poll before the job is done changes nothing; nor does anyone else touch the host. */
  lemma StillPolling(c: Cluster, s: State, q: nat, a: Action)
    requires Inv(c, s) && s.host.pc == Poll(q) && !s.host.inFlight && s.mbox.doneSeq != q && Enabled(c, s, a)
    ensures var t := Apply(c, s, a); t.host == s.host && t.log.results == s.log.results
    ensures Outstanding(s) && (Outstanding(Apply(c, s, a)) || Apply(c, s, a).mbox.doneSeq == q)
  {
    hide Awake, Stable, Faithful, Fenced, Answers, Reported;
    StepKeeps(c, s, a);
  }

  /** The job just found done has an outcome. */
  lemma NowDone(c: Cluster, s: State, q: nat)
    requires Inv(c, s) && s.host.pc == Poll(q) && !s.host.inFlight && s.mbox.doneSeq == q
    ensures 0 < q <= |s.log.outcomes| && Collects(s, q, s.log.outcomes[q - 1], s.log.results)
  {
    hide Awake, Stable, Faithful, Fenced, Answers;
  }

  /**
    A wait that polls. Let the cluster first take the steps the job's rank asks for, and then the host
    five of its own, all in any order with everybody else's: by then the wait has returned the outcome
    of its own job, and nothing else.
   */
  lemma {:induction false} PollingEnds(c: Cluster, s: State, run: seq<Action>, k: nat, q: nat)
    returns (n: nat, o: Outcome)
    requires Inv(c, s) && s.host.pc == Poll(q) && !s.host.inFlight && Possible(c, s, run) && k <= |run|
    requires Possible(c, s, run[..k]) && (Outstanding(s) ==> Rank(c, s) <= Advancing(c, s, run[..k]))
    requires 5 <= HostSteps(run[k..])
    ensures n <= |run| && Possible(c, s, run[..n])
    ensures Collected(After(c, s, run[..n]), q, o, s.log.results)
    decreases |run|
  {
    hide Inv, Apply, Enabled, Outstanding, Rank, Advances, Collects, Collected;
    if s.mbox.doneSeq == q {
      NowDone(c, s, q);
      o := s.log.outcomes[q - 1];
      StepsOfRest(run, k);
      n := WaitReturns(c, s, run, q, o, s.log.results);
    } else {
      StillOut(c, s, q);
      RankPositive(c, s);
      assert run[..k][0] == run[0] && run[..k][1..] == run[1..][..k - 1] && run[1..][k - 1..] == run[k..];
      var s' := Apply(c, s, run[0]);
      StepKeeps(c, s, run[0]);
      StillPolling(c, s, q, run[0]);
      if Advances(s, run[0]) { RankFalls(c, s, run[0]); } else { RankStays(c, s, run[0]); }
      n, o := PollingEnds(c, s', run[1..], k - 1, q);
      StartsWith(c, s, run, n);
      n := n + 1;
    }
  }

  /** Every wait returns, from its call with a job in flight on. */
  lemma EveryWaitReturns(c: Cluster, s: State, run: seq<Action>, k: nat) returns (n: nat, o: Outcome)
    requires Inv(c, s) && s.host.pc.Idle? && s.host.inFlight && Possible(c, Apply(c, s, CallWait), run)
    requires var s1 := Apply(c, s, CallWait);
             && k <= |run| && Possible(c, s1, run[..k])
             && (Outstanding(s1) ==> Rank(c, s1) <= Advancing(c, s1, run[..k]))
    requires 5 <= HostSteps(run[k..])
    ensures var s1 := Apply(c, s, CallWait);
            && n <= |run| && Possible(c, s1, run[..n])
            && Collected(After(c, s1, run[..n]), |s.log.posted|, o, s.log.results)
  {
    StepKeeps(c, s, CallWait);
    NumberInFlight(c, s);
    assert Apply(c, s, CallWait).host.pc == Poll(s.host.nextSeq);
    hide Inv, Rank, Collected, Outstanding;
    n, o := PollingEnds(c, Apply(c, s, CallWait), run, k, s.host.nextSeq);
  }

  lemma NumberInFlight(c: Cluster, s: State)
    requires Inv(c, s)
    ensures s.host.nextSeq == |s.log.posted|
  {
    hide Awake, Faithful, Fenced, Reported, Describes, Prepared;
  }

  lemma StillOut(c: Cluster, s: State, q: nat)
    requires Inv(c, s) && s.host.pc == Poll(q) && s.mbox.doneSeq != q
    ensures Outstanding(s)
  {
    hide Awake, Stable, Faithful, Fenced, Reported;
  }

  lemma {:induction false} StepsOfRest(run: seq<Action>, k: nat)
    requires k <= |run|
    ensures HostSteps(run[k..]) <= HostSteps(run)
  {
    if k > 0 {
      assert run[1..][k - 1..] == run[k..];
      StepsOfRest(run[1..], k - 1);
    }
  }

  /* ---- A post ---- */

  /** Steps an accepted post is from its end: its arguments, five stores, the doorbell and the mark. */
  function WriteRank(pc: HostPc): nat {
    match pc
    case WriteArg(job, i) => 7 + Left(i, if |job.args| < MAX_ARGS then |job.args| else MAX_ARGS)
    case WriteKernel(_) => 6
    case WriteNargs(_) => 5
    case WriteFlags(_) => 4
    case Publish(_) => 3
    case Ring => 2
    case MarkInFlight => 1
    case _ => 0
  }

  /** The host posts `job` after the jobs `asked`. */
  ghost predicate Posts(s: State, job: Job, asked: seq<Job>) {
    && WriteRank(s.host.pc) > 0 && !s.host.inFlight
    && if Writing(s.host.pc) then s.host.pc.job == job && s.log.asked == asked else s.log.asked == asked + [job]
  }

  /** It is out: published as asked, under the next number, and in flight. */
  ghost predicate Posted(c: Cluster, s: State, job: Job, asked: seq<Job>) {
    && s.host.pc.Idle? && s.host.inFlight && s.log.asked == asked + [job]
    && s.mbox.seqNo == |s.log.posted| == |asked| + 1 && Describes(c, job, s.log.posted[|asked|])
  }

  lemma HostPosts(c: Cluster, s: State, job: Job, asked: seq<Job>)
    requires Inv(c, s) && Posts(s, job, asked)
    ensures Enabled(c, s, HostStep)
    ensures var t := Apply(c, s, HostStep);
            if WriteRank(s.host.pc) == 1 then Posted(c, t, job, asked)
            else Posts(t, job, asked) && WriteRank(t.host.pc) == WriteRank(s.host.pc) - 1
    ensures WriteRank(s.host.pc) == 2 ==> Apply(c, s, HostStep).doorbell
  {
    hide Numbers, Awake, Faithful, Fenced, Reported;
  }

  lemma OthersLetPost(c: Cluster, s: State, job: Job, asked: seq<Job>, a: Action)
    requires Posts(s, job, asked) && Enabled(c, s, a) && !a.HostStep?
    ensures Posts(Apply(c, s, a), job, asked) && Apply(c, s, a).host == s.host
  {
  }

  /**
    An accepted post goes out in as many steps of the host as it has stores to make: after n steps of
    the run the job is published and in flight, and the doorbell was rung with step m.
   */
  lemma {:induction false} PostGoesOut(c: Cluster, s: State, run: seq<Action>, job: Job, asked: seq<Job>)
    returns (m: nat, n: nat)
    requires Inv(c, s) && Possible(c, s, run) && Posts(s, job, asked) && WriteRank(s.host.pc) <= HostSteps(run)
    ensures n <= |run| && Possible(c, s, run[..n]) && Posted(c, After(c, s, run[..n]), job, asked)
    ensures HostSteps(run[..n]) == WriteRank(s.host.pc)
    ensures WriteRank(s.host.pc) > 1 ==> m < n && Possible(c, s, run[..m]) && After(c, s, run[..m]).doorbell
    decreases |run|
  {
    hide Inv, Apply, Enabled, Posts, Posted;
    StillPosting(s, job, asked);
    var s' := Apply(c, s, run[0]);
    StepKeeps(c, s, run[0]);
    m, n := 0, 0;
    if !run[0].HostStep? {
      OthersLetPost(c, s, job, asked, run[0]);
      m, n := PostGoesOut(c, s', run[1..], job, asked);
    } else {
      HostPosts(c, s, job, asked);
      if WriteRank(s.host.pc) == 1 {
        assert run[1..][..0] == [];
      } else {
        m, n := PostGoesOut(c, s', run[1..], job, asked);
        if WriteRank(s.host.pc) == 2 { m := 0; assert run[1..][..0] == []; }
      }
    }
    if WriteRank(s.host.pc) > 1 { StartsWith(c, s, run, m); }
    StartsWith(c, s, run, n);
    FirstAndRest(run, n);
    m, n := m + 1, n + 1;
  }

  lemma StillPosting(s: State, job: Job, asked: seq<Job>)
    requires Posts(s, job, asked)
    ensures WriteRank(s.host.pc) > 0
  {
  }

  /** From the call of `hes_post` with nothing in flight; and a call with a job in flight does nothing. */
  lemma EveryPostGoesOut(c: Cluster, s: State, run: seq<Action>, job: Job) returns (m: nat, n: nat)
    requires Inv(c, s) && s.host.pc.Idle? && !s.host.inFlight
    requires Possible(c, Apply(c, s, CallPost(job)), run) && 7 + MAX_ARGS <= HostSteps(run)
    ensures var s1 := Apply(c, s, CallPost(job));
            && m < n <= |run| && Possible(c, s1, run[..m]) && After(c, s1, run[..m]).doorbell
            && Possible(c, s1, run[..n]) && Posted(c, After(c, s1, run[..n]), job, s.log.asked)
  {
    var s1 := Apply(c, s, CallPost(job));
    StepKeeps(c, s, CallPost(job));
    assert Posts(s1, job, s.log.asked);
    hide Inv, Apply, Enabled, Posts, Posted;
    m, n := PostGoesOut(c, s1, run, job, s.log.asked);
  }
}
