/**
  What the offload protocol makes of a job, said of the job's own data: when a cluster refuses it
  (`runtime/mesh/cluster_main.c`), which pointers its cores run on, and which copies it makes. The
  protocol's own definitions do not occur.
 */
module OffloadJobs {
  import opened Options
  import opened Offload

  /** The job is to be staged, and its operands fit. */
  ghost predicate Fits(c: Cluster, d: Descriptor) { d.stage && c.plan(d.kernel, d.args).Some? }

  /** Arguments in which every operand's slot points at its copy, and every other slot is as posted. */
  ghost predicate PointAtCopies(args: seq<nat>, posted: seq<nat>, ops: seq<Placement>) {
    && |args| == |posted|
    && (forall i :: 0 <= i < |ops| && ops[i].slot < |args| && LastFor(ops, i) ==> args[ops[i].slot] == ops[i].local)
    && (forall s :: 0 <= s < |args| && (forall i :: 0 <= i < |ops| ==> ops[i].slot != s) ==> args[s] == posted[s])
  }

  /** No later operand takes the same slot. */
  ghost predicate LastFor(ops: seq<Placement>, i: nat)
    requires i < |ops|
  {
    forall j :: i < j < |ops| ==> ops[j].slot != ops[i].slot
  }

  lemma {:induction false} RewrittenPoints(args: seq<nat>, ops: seq<Placement>, n: nat)
    requires n <= |ops|
    ensures PointAtCopies(Rewritten(args, ops, n), args, ops[..n])
  {
    if n > 0 {
      RewrittenPoints(args, ops, n - 1);
      var few, all := ops[..n - 1], ops[..n];
      var before, after := Rewritten(args, ops, n - 1), Rewritten(args, ops, n);
      forall i | 0 <= i < n && all[i].slot < |after| && LastFor(all, i)
        ensures after[all[i].slot] == all[i].local
      {
        if i < n - 1 {
          assert all[n - 1].slot != all[i].slot;
          assert few[i] == all[i];
          forall j | i < j < n - 1 ensures few[j].slot != few[i].slot {
            assert few[j] == all[j];
          }
          assert LastFor(few, i);
        }
      }
      forall s | 0 <= s < |after| && (forall i :: 0 <= i < n ==> all[i].slot != s) ensures after[s] == args[s] {
        assert all[n - 1].slot != s;
        forall i | 0 <= i < n - 1 ensures few[i].slot != s { assert few[i] == all[i]; }
      }
    }
  }

  /**
    What a compute core runs, in whatever order everybody moves. The job's own kernel exactly if it is
    not refused -- for want of staging on a cluster that needs it, or for want of scratch -- and else
    none. A cluster that needs staging never runs a kernel on a pointer the host posted for an operand.
   */
  lemma CoresStayLocal(c: Cluster, s0: State, run: seq<Action>, core: nat)
    requires Initial(c, s0) && Possible(c, s0, run)
    requires var s := After(c, s0, run); core < |s.compute| && s.compute[core].Running?
    ensures var s := After(c, s0, run);
            && 0 < s.control.served <= |s.log.posted|
            && var d, k := s.log.posted[s.control.served - 1], s.control;
               && (k.kernel == d.kernel || k.kernel == K_NONE)
               && (d.kernel != K_NONE ==>
                     (k.kernel == K_NONE <==>
                      || (c.requiresStaging && !Fits(c, d))
                      || (c.wantScratch(d.kernel, d.args) && c.scratch(d.kernel, d.args).base == 0)))
               && (Fits(c, d) ==> PointAtCopies(k.args, d.args, c.plan(d.kernel, d.args).value))
               && (!Fits(c, d) ==> k.args == d.args)
               && (c.requiresStaging && k.kernel != K_NONE ==> Fits(c, d))
  {
    CoresRunThePostedJob(c, s0, run, core);
    var s := After(c, s0, run);
    var d := s.log.posted[s.control.served - 1];
    hide Possible, Initial, After, Rewritten, PointAtCopies, Describes;
    if Fits(c, d) {
      var ops := c.plan(d.kernel, d.args).value;
      RewrittenPoints(d.args, ops, |ops|);
      assert ops[..|ops|] == ops;
    }
  }

  /** The copies back: of every output operand, from its copy to where the job said, and of nothing else. */
  ghost predicate CopiesBack(copies: seq<Copy>, posted: seq<nat>, ops: seq<Placement>) {
    forall x :: x in copies <==> exists i :: 0 <= i < |ops| && Returns(x, posted, ops[i])
  }

  ghost predicate Returns(x: Copy, posted: seq<nat>, op: Placement) {
    op.output && op.slot < |posted| && x.to == posted[op.slot] && x.from == op.local
  }

  lemma {:induction false} CopiesAre(args: seq<nat>, ops: seq<Placement>, n: nat)
    requires n <= |ops|
    ensures CopiesBack(CopiesOf(args, ops, n), args, ops[..n])
  {
    if n > 0 {
      CopiesAre(args, ops, n - 1);
      var few, all := ops[..n - 1], ops[..n];
      var before, after := CopiesOf(args, ops, n - 1), CopiesOf(args, ops, n);
      forall x ensures x in after <==> exists i :: 0 <= i < n && Returns(x, args, all[i]) {
        assert x in after <==> x in before || Returns(x, args, ops[n - 1]);
        if i :| 0 <= i < n - 1 && Returns(x, args, few[i]) { assert few[i] == all[i]; }
        if i :| 0 <= i < n && Returns(x, args, all[i]) {
          if i < n - 1 { assert few[i] == all[i]; } else { assert all[i] == ops[n - 1]; }
        }
        assert all[n - 1] == ops[n - 1];
      }
    }
  }

  /** What a wait that has returned was told, and what had been copied for it by then. */
  lemma OutcomesMean(c: Cluster, s0: State, run: seq<Action>, r: (nat, Outcome))
    requires Initial(c, s0) && Possible(c, s0, run) && r in After(c, s0, run).log.results
    ensures var s := After(c, s0, run);
            && 0 < r.0 <= |s.log.posted| && r.0 <= |s.log.copiedOut|
            && var d, o := s.log.posted[r.0 - 1], r.1;
               && o.staged == Fits(c, d) && o.nbCores == c.nbCompute
               && (o.error == ERR_NEEDS_STAGING <==> c.requiresStaging && !Fits(c, d))
               && (o.error == ERR_NO_SCRATCH <==>
                   && !(c.requiresStaging && !Fits(c, d))
                   && c.wantScratch(d.kernel, d.args) && c.scratch(d.kernel, d.args).base == 0)
               && (o.error == ERR_NONE || o.error == ERR_NEEDS_STAGING || o.error == ERR_NO_SCRATCH)
               && (if Fits(c, d)
                   then CopiesBack(s.log.copiedOut[r.0 - 1], d.args, c.plan(d.kernel, d.args).value)
                   else s.log.copiedOut[r.0 - 1] == [])
  {
    WaitsReturnTheirOwnResults(c, s0, run, r);
    var s := After(c, s0, run);
    var d := s.log.posted[r.0 - 1];
    hide Possible, Initial, After, CopiesOf, CopiesBack, Describes;
    if Fits(c, d) {
      var ops := c.plan(d.kernel, d.args).value;
      CopiesAre(d.args, ops, |ops|);
      assert ops[..|ops|] == ops;
    }
  }
}
