/**
  The offload protocol between the host (`runtime/mesh/hes_host.c`) and one cluster
  (`runtime/mesh/cluster_main.c`): a mailbox, a doorbell with wfi, and a hardware barrier.
  A transition system over single loads and stores, in any interleaving of the host, the control
  core and any number of compute cores. The host calls post and wait as it likes, with any jobs.
 */
module Offload {
  import opened Options

  const MAX_ARGS: nat := 16
  const K_NONE: nat := 0
  const ERR_NONE: nat := 0
  const ERR_NEEDS_STAGING: nat := 1
  const ERR_NO_SCRATCH: nat := 2

  /** What a caller hands to `hes_post`. */
  datatype Job = Job(kernel: nat, args: seq<nat>, stage: bool)

  /** What the mailbox says about a job. */
  datatype Descriptor = Descriptor(kernel: nat, args: seq<nat>, nargs: nat, stage: bool)

  /** One staged operand: the argument slot, where its copy is, and whether the kernel writes it. */
  datatype Placement = Placement(slot: nat, local: nat, output: bool)

  datatype Scratch = Scratch(base: nat, stride: nat)

  /**
    A cluster: its compute cores, whether its kernels reach local memory only, and what its
    planning comes to for a kernel and its arguments -- working storage (base 0 if none is needed
    or none is left) and, if everything fits behind it, the staged operands.
   */
  datatype Cluster = Cluster(
    nbCompute: nat, requiresStaging: bool,
    wantScratch: (nat, seq<nat>) -> bool, scratch: (nat, seq<nat>) -> Scratch,
    plan: (nat, seq<nat>) -> Option<seq<Placement>>)

  datatype Outcome = Outcome(cycles: nat, nbCores: nat, staged: bool, error: nat)

  datatype Copy = Copy(to: nat, from: nat)

  datatype Mailbox = Mailbox(seqNo: nat, doneSeq: nat, kernel: nat, args: seq<nat>, nargs: nat, stage: bool,
                             cycles: nat, nbCores: nat, staged: bool, error: nat)

  datatype HostPc =
    | Idle
    | WriteArg(job: Job,
               i: nat) | WriteKernel(job: Job) | WriteNargs(job: Job) | WriteFlags(job: Job) | Publish(job: Job)
    | Ring | MarkInFlight
    | Poll(q: nat) | ReadCycles(q: nat) | ReadCores(q: nat, cycles: nat) | ReadStaged(q: nat, cycles: nat, cores: nat)
    | ReadError(q: nat, cycles: nat, cores: nat, staged: bool)

  datatype ControlPc =
    | Check | Wfi | Clear | Serve
    | LoadKernel | LoadArg(i: nat) | ReserveScratch | LoadFlags | StageArg(i: nat) | Restore(i: nat) | WriteError
    | Barrier1 | Barrier2
    | CopyOut(i: nat) | WriteCycles | WriteStaged | WriteCores | PublishDone

  datatype ComputePc = AtBarrier1 | Running | AtBarrier2

  /** The host's own variables for this engine. */
  datatype Host = Host(pc: HostPc, nextSeq: nat, inFlight: bool)

  /** The control core's variables, and the ones it shares with the compute cores. */
  datatype Control = Control(
    pc: ControlPc, served: nat, wanted: bool, staged: bool, ops: seq<Placement>, copied: seq<Copy>,
    kernel: nat, args: seq<nat>, scratch: Scratch)

  /** What has happened: the jobs asked for, as posted, how each ended, what the waits returned, what was copied out. */
  datatype Log = Log(asked: seq<Job>, posted: seq<Descriptor>, outcomes: seq<Outcome>, results: seq<(nat, Outcome)>,
                     copiedOut: seq<seq<Copy>>)

  datatype State = State(mbox: Mailbox, doorbell: bool, host: Host, control: Control, compute: seq<ComputePc>, log: Log)

  /** Who moves next; a cycle counter that is read shows any value. */
  datatype Action =
    | CallPost(job: Job) | CallWait | HostStep
    | ControlStep(clock: nat) | ComputeStep(core: nat) | BarrierFires

  /* ---- What a job should come to ---- */

  function Stages(c: Cluster, d: Descriptor): bool { d.stage && c.plan(d.kernel, d.args).Some? }

  function ErrorOf(c: Cluster, d: Descriptor): nat {
    if c.requiresStaging && !Stages(c, d) then ERR_NEEDS_STAGING
    else if c.wantScratch(d.kernel, d.args) && c.scratch(d.kernel, d.args).base == 0 then ERR_NO_SCRATCH
    else ERR_NONE
  }

  function KernelOf(c: Cluster, d: Descriptor): nat { if ErrorOf(c, d) == ERR_NONE then d.kernel else K_NONE }

  /** The arguments with the first n staged operands replaced by their copies. */
  function Rewritten(args: seq<nat>, ops: seq<Placement>, n: nat): (r: seq<nat>)
    requires n <= |ops|
    ensures |r| == |args|
  {
    if n == 0 then args
    else
      var r := Rewritten(args, ops, n - 1);
      if ops[n - 1].slot < |r| then r[ops[n - 1].slot := ops[n - 1].local] else r
  }

  function ArgsOf(c: Cluster, d: Descriptor): seq<nat> {
    if Stages(c, d) then var ops := c.plan(d.kernel, d.args).value; Rewritten(d.args, ops, |ops|) else d.args
  }

  /** Results copied back to main memory, through the job's own pointers. */
  function CopiesOf(args: seq<nat>, ops: seq<Placement>, n: nat): seq<Copy>
    requires n <= |ops|
  {
    if n == 0 then []
    else
      CopiesOf(args, ops, n - 1) +
      (if ops[n - 1].output && ops[n - 1].slot < |args| then [Copy(args[ops[n - 1].slot], ops[n - 1].local)] else [])
  }

  function OutputsOf(c: Cluster, d: Descriptor): seq<Copy> {
    if Stages(c, d) then var ops := c.plan(d.kernel, d.args).value; CopiesOf(d.args, ops, |ops|) else []
  }

  function DescriptorIn(m: Mailbox): Descriptor { Descriptor(m.kernel, m.args, m.nargs, m.stage) }

  /** The mailbox says what was asked for. Slots past the job's own arguments keep what they held. */
  ghost predicate Describes(c: Cluster, j: Job, d: Descriptor) {
    && d.kernel == j.kernel && d.nargs == |j.args| && d.stage == (j.stage || c.requiresStaging) && |d.args| == MAX_ARGS
    && forall i :: 0 <= i < |j.args| && i < MAX_ARGS ==> d.args[i] == j.args[i]
  }

  /* ---- The steps ---- */

  ghost predicate Enabled(c: Cluster, s: State, a: Action) {
    match a
    case CallPost(_) => s.host.pc.Idle?
    case CallWait => s.host.pc.Idle?
    case HostStep => !s.host.pc.Idle?
    case ControlStep(_) => (s.control.pc.Wfi? ==> s.doorbell) && !s.control.pc.Barrier1? && !s.control.pc.Barrier2?
    case ComputeStep(i) => i < |s.compute| && s.compute[i].Running?
    case BarrierFires =>
      || (s.control.pc.Barrier1? && forall i :: 0 <= i < |s.compute| ==> s.compute[i].AtBarrier1?)
      || (s.control.pc.Barrier2? && forall i :: 0 <= i < |s.compute| ==> s.compute[i].AtBarrier2?)
  }

  ghost function Apply(c: Cluster, s: State, a: Action): State
    requires Enabled(c, s, a)
  {
    match a
    case CallPost(job) => if s.host.inFlight then s else s.(host := s.host.(pc := WriteArg(job, 0)))
    case CallWait => if s.host.inFlight then s.(host := s.host.(inFlight := false, pc := Poll(s.host.nextSeq))) else s
    case HostStep => HostNext(c, s)
    case ControlStep(clock) => ControlNext(c, s, clock)
    case ComputeStep(i) => s.(compute := s.compute[i := AtBarrier2])
    case BarrierFires =>
      if s.control.pc.Barrier1?
      then s.(control := s.control.(pc := Barrier2), compute := seq(|s.compute|, _ => Running))
      else s.(control := s.control.(pc := CopyOut(0), copied := []), compute := seq(|s.compute|, _ => AtBarrier1))
  }

  /** The host's next step: a store to the mailbox, the doorbell, or a load while it waits. */
  ghost function HostNext(c: Cluster, s: State): State
    requires !s.host.pc.Idle?
  {
    var m, h := s.mbox, s.host;
    match h.pc
    case WriteArg(job, i) =>
      if i < |job.args| && i < MAX_ARGS && i < |m.args|
      then s.(mbox := m.(args := m.args[i := job.args[i]]), host := h.(pc := WriteArg(job, i + 1)))
      else s.(host := h.(pc := WriteKernel(job)))
    case WriteKernel(job) => s.(mbox := m.(kernel := job.kernel), host := h.(pc := WriteNargs(job)))
    case WriteNargs(job) => s.(mbox := m.(nargs := |job.args|), host := h.(pc := WriteFlags(job)))
    case WriteFlags(job) => s.(mbox := m.(stage := job.stage || c.requiresStaging), host := h.(pc := Publish(job)))
    case Publish(job) =>
      s.(mbox := m.(seqNo := h.nextSeq + 1), host := h.(pc := Ring, nextSeq := h.nextSeq + 1),
         log := s.log.(asked := s.log.asked + [job], posted := s.log.posted + [DescriptorIn(m)]))
    case Ring => s.(doorbell := true, host := h.(pc := MarkInFlight))
    case MarkInFlight => s.(host := h.(pc := Idle, inFlight := true))
    case Poll(q) => if m.doneSeq == q then s.(host := h.(pc := ReadCycles(q))) else s
    case ReadCycles(q) => s.(host := h.(pc := ReadCores(q, m.cycles)))
    case ReadCores(q, cycles) => s.(host := h.(pc := ReadStaged(q, cycles, m.nbCores)))
    case ReadStaged(q, cycles, cores) => s.(host := h.(pc := ReadError(q, cycles, cores, m.staged)))
    case ReadError(q, cycles, cores, staged) =>
      var result := (q, Outcome(cycles, cores, staged, m.error));
      s.(host := h.(pc := Idle), log := s.log.(results := s.log.results + [result]))
  }

  /** The control core's next step. */
  ghost function ControlNext(c: Cluster, s: State, clock: nat): State
    requires !s.control.pc.Barrier1? && !s.control.pc.Barrier2?
  {
    var m, k := s.mbox, s.control;
    match k.pc
    case Check => s.(control := k.(pc := if m.seqNo == k.served then Wfi else Serve))
    case Wfi => s.(control := k.(pc := Clear))
    case Clear => s.(doorbell := false, control := k.(pc := Check))
    case Serve => s.(control := k.(served := m.seqNo, pc := LoadKernel))
    case LoadKernel => s.(control := k.(kernel := m.kernel, pc := LoadArg(0)))
    case LoadArg(i) =>
      if i < MAX_ARGS && i < |m.args| && i < |k.args|
      then s.(control := k.(args := k.args[i := m.args[i]], pc := LoadArg(i + 1)))
      else s.(control := k.(staged := false, ops := [], pc := ReserveScratch))
    case ReserveScratch =>
      s.(control := k.(scratch := c.scratch(k.kernel, m.args), wanted := c.wantScratch(k.kernel, m.args),
                       pc := LoadFlags))
    case LoadFlags =>
      if !m.stage then s.(control := k.(pc := WriteError))
      else (match c.plan(k.kernel, m.args)
            case None => s.(control := k.(pc := Restore(0)))
            case Some(ops) => s.(control := k.(ops := ops, pc := StageArg(0))))
    case StageArg(i) =>
      if i >= |k.ops| then s.(control := k.(staged := true, pc := WriteError))
      else if k.ops[i].slot < |k.args|
      then s.(control := k.(args := k.args[k.ops[i].slot := k.ops[i].local], pc := StageArg(i + 1)))
      else s.(control := k.(pc := StageArg(i + 1)))
    case Restore(i) =>
      if i < MAX_ARGS && i < |m.args| && i < |k.args|
      then s.(control := k.(args := k.args[i := m.args[i]], pc := Restore(i + 1)))
      else s.(control := k.(pc := WriteError))
    case WriteError =>
      if c.requiresStaging && !k.staged
      then s.(mbox := m.(error := ERR_NEEDS_STAGING), control := k.(kernel := K_NONE, pc := Barrier1))
      else if k.wanted && k.scratch.base == 0
      then s.(mbox := m.(error := ERR_NO_SCRATCH), control := k.(kernel := K_NONE, pc := Barrier1))
      else s.(mbox := m.(error := ERR_NONE), control := k.(pc := Barrier1))
    case CopyOut(i) =>
      if !k.staged || i >= |k.ops| then s.(control := k.(pc := WriteCycles))
      else if k.ops[i].output && k.ops[i].slot < |m.args|
      then s.(control := k.(copied := k.copied + [Copy(m.args[k.ops[i].slot], k.ops[i].local)], pc := CopyOut(i + 1)))
      else s.(control := k.(pc := CopyOut(i + 1)))
    case WriteCycles => s.(mbox := m.(cycles := clock), control := k.(pc := WriteStaged))
    case WriteStaged => s.(mbox := m.(staged := k.staged), control := k.(pc := WriteCores))
    case WriteCores => s.(mbox := m.(nbCores := c.nbCompute), control := k.(pc := PublishDone))
    case PublishDone =>
      s.(mbox := m.(doneSeq := k.served), control := k.(pc := Check),
         log := s.log.(copiedOut := s.log.copiedOut + [k.copied],
                       outcomes := s.log.outcomes + [Outcome(m.cycles, m.nbCores, m.staged, m.error)]))
  }

  /** After signing in: nothing posted, nobody running. */
  ghost predicate Initial(c: Cluster, s: State) {
    && s.mbox.seqNo == s.mbox.doneSeq == s.host.nextSeq == s.control.served == 0 &&
       |s.mbox.args| == |s.control.args| == MAX_ARGS
    && !s.host.inFlight && s.host.pc == Idle && s.control.pc == Check
    && |s.compute| == c.nbCompute && (forall i :: 0 <= i < |s.compute| ==> s.compute[i].AtBarrier1?)
    && s.log == Log([], [], [], [], [])
  }

  /* ---- The invariant ---- */

  predicate Resting(pc: ControlPc) { pc.Check? || pc.Wfi? || pc.Clear? }

  predicate Writing(pc: HostPc) { pc.WriteArg? || pc.WriteKernel? || pc.WriteNargs? || pc.WriteFlags? || pc.Publish? }

  predicate Collecting(pc: HostPc) { pc.ReadCycles? || pc.ReadCores? || pc.ReadStaged? || pc.ReadError? }

  /** The job numbers: at most one job is under way, and who has seen which number. */
  ghost predicate Numbers(seqNo: nat, doneSeq: nat, h: Host, pc: ControlPc, served: nat) {
    && h.nextSeq == seqNo && doneSeq <= served <= seqNo <= doneSeq + 1
    && (Resting(pc) ==> doneSeq == served)
    && (pc.Serve? ==> doneSeq == served < seqNo)
    && (!Resting(pc) && !pc.Serve? ==> doneSeq < served == seqNo)
    && (Writing(h.pc) ==> doneSeq == seqNo && !h.inFlight)
    && (h.pc.Idle? && !h.inFlight ==> doneSeq == seqNo)
    && (h.pc.Ring? || h.pc.MarkInFlight? || h.inFlight ==> seqNo > 0)
    && (h.pc.Poll? ==> h.pc.q == seqNo > 0)
    && (Collecting(h.pc) ==> h.pc.q == seqNo == doneSeq > 0)
  }

  /**
    No wake-up is lost: if the control core sleeps with a job waiting, the doorbell is pending, or about
    to be rung.
   */
  ghost predicate Awake(seqNo: nat, doorbell: bool, h: HostPc, pc: ControlPc, served: nat) {
    pc.Wfi? && seqNo != served ==> doorbell || h.Ring?
  }

  /** The mailbox holds the job posted last, except while the host writes the next one. */
  ghost predicate Stable(c: Cluster, m: Mailbox, h: HostPc, log: Log) {
    && |m.args| == MAX_ARGS && |log.posted| == |log.asked| == m.seqNo
    && (log.posted != [] && !Writing(h) ==> DescriptorIn(m) == log.posted[|log.posted| - 1])
    && (forall i :: 0 <= i < |log.posted| ==> Describes(c, log.asked[i], log.posted[i]))
    && (Writing(h) ==> Prepared(c, m, h))
  }

  /** How far the host has come with the descriptor. */
  ghost predicate Prepared(c: Cluster, m: Mailbox, pc: HostPc)
    requires Writing(pc) && |m.args| == MAX_ARGS
  {
    var j := pc.job;
    && (forall i :: 0 <= i < |j.args| && i < MAX_ARGS && (pc.WriteArg? ==> i < pc.i) ==> m.args[i] == j.args[i])
    && (pc.WriteNargs? || pc.WriteFlags? || pc.Publish? ==> m.kernel == j.kernel)
    && (pc.WriteFlags? || pc.Publish? ==> m.nargs == |j.args|)
    && (pc.Publish? ==> m.stage == (j.stage || c.requiresStaging))
  }

  /** How far the control core has come with job `d`. */
  ghost predicate Loaded(c: Cluster, k: Control, m: Mailbox, d: Descriptor) {
    && |k.args| == |d.args| == MAX_ARGS
    && match k.pc
       case Check => true
       case Wfi => true
       case Clear => true
       case Serve => true
       case LoadKernel => true
       case LoadArg(i) => k.kernel == d.kernel && forall j :: 0 <= j < i && j < MAX_ARGS ==> k.args[j] == d.args[j]
       case ReserveScratch => k.kernel == d.kernel && k.args == d.args && !k.staged
       case LoadFlags => k.kernel == d.kernel && k.args == d.args && !k.staged && Planned(c, k, d)
       case StageArg(i) =>
         && k.kernel == d.kernel && !k.staged && Planned(c, k, d)
         && Stages(c, d) && k.ops == c.plan(d.kernel, d.args).value && i <= |k.ops| &&
            k.args == Rewritten(d.args, k.ops, i)
       case Restore(i) => k.kernel == d.kernel && k.args == d.args && !k.staged && Planned(c, k, d) && !Stages(c, d)
       case WriteError => k.kernel == d.kernel && k.args == ArgsOf(c, d) && Planned(c, k, d) && Staged(c, k, d)
       case Barrier1 => Published(c, k, m, d)
       case Barrier2 => Published(c, k, m, d)
       case CopyOut(i) => Published(c, k, m, d) &&
                          k.copied == (if k.staged && i <= |k.ops| then CopiesOf(d.args, k.ops, i) else []) &&
                            (k.staged ==> i <= |k.ops|)
       case WriteCycles => Published(c, k, m, d) && k.copied == OutputsOf(c, d)
       case WriteStaged => Published(c, k, m, d) && k.copied == OutputsOf(c, d)
       case WriteCores => Published(c, k, m, d) && k.copied == OutputsOf(c, d) && m.staged == Stages(c, d)
       case PublishDone => Published(c, k, m, d) && k.copied == OutputsOf(c, d) && m.staged == Stages(c, d) &&
                           m.nbCores == c.nbCompute
  }

  ghost predicate Planned(c: Cluster, k: Control, d: Descriptor) {
    k.scratch == c.scratch(d.kernel, d.args) && k.wanted == c.wantScratch(d.kernel, d.args)
  }

  ghost predicate Staged(c: Cluster, k: Control, d: Descriptor) {
    k.staged == Stages(c, d) && (k.staged ==> k.ops == c.plan(d.kernel, d.args).value)
  }

  /** What the compute cores are handed. */
  ghost predicate Published(c: Cluster, k: Control, m: Mailbox, d: Descriptor) {
    && k.kernel == KernelOf(c, d) && k.args == ArgsOf(c, d) && k.scratch == c.scratch(d.kernel, d.args)
    && m.error == ErrorOf(c, d) && Staged(c, k, d)
  }

  /** While a job is under way it is the one posted last. */
  ghost predicate Faithful(c: Cluster, m: Mailbox, k: Control, log: Log) {
    && |k.args| == MAX_ARGS
    && (m.doneSeq < k.served ==> 0 < k.served <= |log.posted| && Loaded(c, k, m, log.posted[k.served - 1]))
  }

  /** Compute cores run only between the barriers; outside, all of them wait in the first. */
  ghost predicate Fenced(c: Cluster, compute: seq<ComputePc>, pc: ControlPc) {
    && |compute| == c.nbCompute
    && forall i :: 0 <= i < |compute| ==> (compute[i].AtBarrier1? <==> !pc.Barrier2?)
  }

  /** What was reported for each finished job, and what the waits returned. */
  ghost predicate Reported(c: Cluster, m: Mailbox, h: HostPc, log: Log) {
    && |log.outcomes| == |log.copiedOut| == m.doneSeq <= |log.posted|
    && (forall i :: 0 <= i < |log.outcomes| ==> Answers(c, log.posted[i], log.outcomes[i], log.copiedOut[i]))
    && (forall r :: r in log.results ==> 0 < r.0 <= |log.outcomes| && r.1 == log.outcomes[r.0 - 1])
    && (log.outcomes != [] && m.doneSeq == m.seqNo ==> Shown(m, h, log.outcomes[|log.outcomes| - 1]))
  }

  /** The mailbox shows the last outcome, and so does what the host has read of it. */
  ghost predicate Shown(m: Mailbox, h: HostPc, o: Outcome) {
    && m.cycles == o.cycles && m.nbCores == o.nbCores && m.staged == o.staged && m.error == o.error
    && (h.ReadCores? || h.ReadStaged? || h.ReadError? ==> h.cycles == o.cycles)
    && (h.ReadStaged? || h.ReadError? ==> h.cores == o.nbCores)
    && (h.ReadError? ==> h.staged == o.staged)
  }

  ghost predicate Answers(c: Cluster, d: Descriptor, o: Outcome, copies: seq<Copy>) {
    o.error == ErrorOf(c, d) && o.staged == Stages(c, d) && o.nbCores == c.nbCompute && copies == OutputsOf(c, d)
  }

  ghost predicate Inv(c: Cluster, s: State) {
    && Numbers(s.mbox.seqNo, s.mbox.doneSeq, s.host, s.control.pc, s.control.served)
    && Awake(s.mbox.seqNo, s.doorbell, s.host.pc, s.control.pc, s.control.served)
    && Stable(c, s.mbox, s.host.pc, s.log)
    && Faithful(c, s.mbox, s.control, s.log)
    && Fenced(c, s.compute, s.control.pc)
    && Reported(c, s.mbox, s.host.pc, s.log)
  }

  lemma InitialInv(c: Cluster, s: State)
    requires Initial(c, s)
    ensures Inv(c, s)
  {
  }

  /* ---- How far a job is from its end ---- */

  ghost function StillRunning(compute: seq<ComputePc>): nat {
    if compute == [] then 0
    else StillRunning(compute[..|compute| - 1]) + (if compute[|compute| - 1].Running? then 1 else 0)
  }

  /** Operands of the job under way. */
  ghost function OperandCount(c: Cluster, d: Descriptor): nat
  {
    if Stages(c, d) then |c.plan(d.kernel, d.args).value| else 0
  }

  function Left(i: nat, n: nat): nat { if i < n then n - i else 0 }

  /** How many steps job `d` is from being done, at most. */
  ghost function ControlRank(c: Cluster, pc: ControlPc, d: Descriptor, running: nat): nat {
    var n, p := c.nbCompute, OperandCount(c, d);
    match pc
    case PublishDone => 1
    case WriteCores => 2
    case WriteStaged => 3
    case WriteCycles => 4
    case CopyOut(i) => 5 + Left(i, p)
    case Barrier2 => 6 + p + running
    case Barrier1 => 7 + p + n
    case WriteError => 8 + p + n
    case Restore(i) => 9 + p + n + Left(i, MAX_ARGS)
    case StageArg(i) => 9 + p + n + Left(i, p)
    case LoadFlags => 10 + 2 * p + n + MAX_ARGS
    case ReserveScratch => 11 + 2 * p + n + MAX_ARGS
    case LoadArg(i) => 12 + 2 * p + n + MAX_ARGS + Left(i, MAX_ARGS)
    case LoadKernel => 13 + 2 * p + n + 2 * MAX_ARGS
    case Serve => 14 + 2 * p + n + 2 * MAX_ARGS
    case Check => 15 + 2 * p + n + 2 * MAX_ARGS
    case Clear => 16 + 2 * p + n + 2 * MAX_ARGS
    case Wfi => 17 + 2 * p + n + 2 * MAX_ARGS
  }

  ghost function Rank(c: Cluster, s: State): nat {
    if s.log.posted == [] then 0
    else ControlRank(c, s.control.pc, s.log.posted[|s.log.posted| - 1],
                     StillRunning(s.compute)) + (if s.host.pc.Ring? then 1 else 0)
  }

  /* ---- Every step keeps the invariant ---- */

  /** Filling in the descriptor: nobody is looking. */
  lemma HostWrites(c: Cluster, s: State)
    requires Inv(c, s) && (s.host.pc.WriteKernel? || s.host.pc.WriteNargs? || s.host.pc.WriteFlags?)
    ensures Inv(c, HostNext(c, s))
  {
    hide Loaded, Answers, Describes;
  }

  lemma HostWritesArg(c: Cluster, s: State)
    requires Inv(c, s) && s.host.pc.WriteArg?
    ensures Inv(c, HostNext(c, s))
  {
    hide Loaded, Answers, Describes;
  }

  lemma HostPublishes(c: Cluster, s: State)
    requires Inv(c, s) && s.host.pc.Publish?
    ensures Inv(c, HostNext(c, s))
  {
    hide Loaded, Answers;
    var j, d := s.host.pc.job, DescriptorIn(s.mbox);
    assert Describes(c, j, d);
  }

  lemma HostRings(c: Cluster, s: State)
    requires Inv(c, s) && (s.host.pc.Ring? || s.host.pc.MarkInFlight?)
    ensures Inv(c, HostNext(c, s))
  {
    hide Loaded, Answers, Describes, Prepared;
  }

  lemma HostPolls(c: Cluster, s: State)
    requires Inv(c, s) && (s.host.pc.Poll? || s.host.pc.ReadCycles? || s.host.pc.ReadCores? || s.host.pc.ReadStaged?)
    ensures Inv(c, HostNext(c, s))
  {
    hide Loaded, Answers, Describes, Prepared;
  }

  /** The wait returns what was reported for its own job. */
  lemma HostReturns(c: Cluster, s: State)
    requires Inv(c, s) && s.host.pc.ReadError?
    ensures Inv(c, HostNext(c, s))
    ensures var r := HostNext(c, s).log.results;
    r != [] && r[|r| - 1] == (s.host.nextSeq, s.log.outcomes[s.host.nextSeq - 1])
  {
    hide Loaded, Answers, Describes, Prepared;
    var s' := HostNext(c, s);
    forall r | r in s'.log.results ensures 0 < r.0 <= |s.log.outcomes| && r.1 == s.log.outcomes[r.0 - 1] {
      assert r in s.log.results || r == s'.log.results[|s.log.results|];
    }
  }

  lemma HostCalls(c: Cluster, s: State, a: Action)
    requires Inv(c, s) && (a.CallPost? || a.CallWait?) && Enabled(c, s, a)
    ensures Inv(c, Apply(c, s, a))
  {
    hide Loaded, Answers, Describes;
  }

  lemma HostStepKeeps(c: Cluster, s: State)
    requires Inv(c, s) && !s.host.pc.Idle?
    ensures Inv(c, HostNext(c, s))
  {
    hide Inv, HostNext;
    if s.host.pc.Publish? { HostPublishes(c, s); }
    else if s.host.pc.WriteArg? { HostWritesArg(c, s); }
    else if Writing(s.host.pc) { HostWrites(c, s); }
    else if s.host.pc.Ring? || s.host.pc.MarkInFlight? { HostRings(c, s); }
    else if s.host.pc.ReadError? { HostReturns(c, s); }
    else { HostPolls(c, s); }
  }

  lemma ControlWakes(c: Cluster, s: State, clock: nat)
    requires Inv(c, s) && (Resting(s.control.pc) || s.control.pc.Serve?)
    ensures Inv(c, ControlNext(c, s, clock))
  {
    hide Answers, Describes, Prepared;
  }

  /** The control core is at work on a job: past reading its number, not yet done. */
  predicate Busy(pc: ControlPc) { !Resting(pc) && !pc.Serve? }

  /** A step of the control core on a job that touches nothing but its own variables and the result fields. */
  ghost predicate Quiet(s: State, t: State) {
    && t == s.(control := t.control,
               mbox := s.mbox.(cycles := t.mbox.cycles, nbCores := t.mbox.nbCores, staged := t.mbox.staged,
                               error := t.mbox.error))
    && t.control.served == s.control.served && |t.control.args| == |s.control.args|
    && Busy(s.control.pc) && Busy(t.control.pc) && !s.control.pc.Barrier2? && !t.control.pc.Barrier2?
  }

  /** ... after which the control core has come further with job `d`, and has less to do. */
  ghost predicate Further(c: Cluster, s: State, t: State, d: Descriptor, running: nat) {
    && Quiet(s, t) && Loaded(c, t.control, t.mbox, d)
    && ControlRank(c, t.control.pc, d, running) < ControlRank(c, s.control.pc, d, running)
  }

  /** Such a step keeps everything if it keeps how far the control core has come. */
  lemma QuietKeeps(c: Cluster, s: State, t: State)
    requires Inv(c, s) && Quiet(s, t)
    requires 0 < s.control.served <= |s.log.posted| ==> Loaded(c, t.control, t.mbox, s.log.posted[s.control.served - 1])
    ensures Inv(c, t)
  {
    hide Loaded, Answers, Describes, Shown;
  }

  /** What the control core reads of the mailbox is the job posted last. */
  lemma LoadingSteps(c: Cluster, s: State, clock: nat, d: Descriptor, running: nat)
    requires Loaded(c, s.control, s.mbox, d) && DescriptorIn(s.mbox) == d
    requires s.control.pc.LoadKernel? || s.control.pc.LoadArg? || s.control.pc.ReserveScratch?
    ensures Further(c, s, ControlNext(c, s, clock), d, running)
  {
    hide Rewritten, CopiesOf, ArgsOf, KernelOf, ErrorOf;
    assert s.control.pc.LoadArg? && s.control.pc.i >= MAX_ARGS ==> s.control.args == d.args;
  }

  lemma PlanningSteps(c: Cluster, s: State, clock: nat, d: Descriptor, running: nat)
    requires Loaded(c, s.control, s.mbox, d) && DescriptorIn(s.mbox) == d
    requires s.control.pc.LoadFlags?
    ensures Further(c, s, ControlNext(c, s, clock), d, running)
  {
    hide CopiesOf, KernelOf, ErrorOf;
  }

  lemma StagingSteps(c: Cluster, s: State, clock: nat, d: Descriptor, running: nat)
    requires Loaded(c, s.control, s.mbox, d) && DescriptorIn(s.mbox) == d
    requires s.control.pc.StageArg? || s.control.pc.Restore?
    ensures Further(c, s, ControlNext(c, s, clock), d, running)
  {
    hide CopiesOf, KernelOf, ErrorOf;
    var k := s.control;
    if k.pc.Restore? && k.pc.i < MAX_ARGS { assert k.args[k.pc.i := s.mbox.args[k.pc.i]] == k.args; }
  }

  lemma DecidingSteps(c: Cluster, s: State, clock: nat, d: Descriptor, running: nat)
    requires Loaded(c, s.control, s.mbox, d) && DescriptorIn(s.mbox) == d
    requires s.control.pc.WriteError?
    ensures Further(c, s, ControlNext(c, s, clock), d, running)
  {
    hide Rewritten, CopiesOf, ArgsOf;
  }

  lemma CopyingSteps(c: Cluster, s: State, clock: nat, d: Descriptor, running: nat)
    requires Loaded(c, s.control, s.mbox, d) && DescriptorIn(s.mbox) == d
    requires s.control.pc.CopyOut?
    ensures Further(c, s, ControlNext(c, s, clock), d, running)
  {
    var k, i := s.control, s.control.pc.i;
    if k.staged && i < |k.ops| { CopiesOneMore(d.args, k.ops, i); }
    hide Rewritten, ArgsOf, KernelOf, ErrorOf, CopiesOf;
  }

  lemma CopiesOneMore(args: seq<nat>, ops: seq<Placement>, n: nat)
    requires n < |ops|
    ensures CopiesOf(args, ops, n + 1) ==
            CopiesOf(args, ops, n) +
            (if ops[n].output && ops[n].slot < |args| then [Copy(args[ops[n].slot], ops[n].local)] else [])
  {
  }

  lemma ReportingSteps(c: Cluster, s: State, clock: nat, d: Descriptor, running: nat)
    requires Loaded(c, s.control, s.mbox, d) && DescriptorIn(s.mbox) == d
    requires s.control.pc.WriteCycles? || s.control.pc.WriteStaged? || s.control.pc.WriteCores?
    ensures Further(c, s, ControlNext(c, s, clock), d, running)
  {
    hide Rewritten, CopiesOf, ArgsOf, KernelOf, ErrorOf, OutputsOf;
  }

  lemma WorkSteps(c: Cluster, s: State, clock: nat, d: Descriptor, running: nat)
    requires Loaded(c, s.control, s.mbox, d) && DescriptorIn(s.mbox) == d
    requires Busy(s.control.pc) && !s.control.pc.Barrier1? && !s.control.pc.Barrier2? && !s.control.pc.PublishDone?
    ensures Further(c, s, ControlNext(c, s, clock), d, running)
  {
    hide Loaded, Further, ControlNext;
    var pc := s.control.pc;
    if pc.LoadKernel? || pc.LoadArg? || pc.ReserveScratch? { LoadingSteps(c, s, clock, d, running); }
    else if pc.LoadFlags? { PlanningSteps(c, s, clock, d, running); }
    else if pc.StageArg? || pc.Restore? { StagingSteps(c, s, clock, d, running); }
    else if pc.WriteError? { DecidingSteps(c, s, clock, d, running); }
    else if pc.CopyOut? { CopyingSteps(c, s, clock, d, running); }
    else { ReportingSteps(c, s, clock, d, running); }
  }

  lemma ControlWorks(c: Cluster, s: State, clock: nat)
    requires Inv(c, s) && Busy(s.control.pc) && !s.control.pc.Barrier1? && !s.control.pc.Barrier2? &&
             !s.control.pc.PublishDone?
    ensures Inv(c, ControlNext(c, s, clock))
  {
    var d := UnderWay(c, s);
    hide Inv, ControlNext, Loaded, Quiet, ControlRank;
    WorkSteps(c, s, clock, d, 0);
    QuietKeeps(c, s, ControlNext(c, s, clock));
  }

  /** The job a busy control core is at, as the mailbox shows it. */
  lemma UnderWay(c: Cluster, s: State) returns (d: Descriptor)
    requires Inv(c, s) && Busy(s.control.pc)
    ensures s.log.posted != [] && s.control.served == |s.log.posted| && d == s.log.posted[|s.log.posted| - 1]
    ensures DescriptorIn(s.mbox) == d && Loaded(c, s.control, s.mbox, d)
  {
    hide Loaded, Answers, Describes, Prepared, Shown;
    d := s.log.posted[|s.log.posted| - 1];
  }

  lemma ControlFinishes(c: Cluster, s: State, clock: nat)
    requires Inv(c, s) && s.control.pc.PublishDone?
    ensures Inv(c, ControlNext(c, s, clock))
  {
    hide Describes, Prepared, Rewritten, CopiesOf;
  }

  lemma ControlStepKeeps(c: Cluster, s: State, clock: nat)
    requires Inv(c, s) && !s.control.pc.Barrier1? && !s.control.pc.Barrier2?
    ensures Inv(c, ControlNext(c, s, clock))
  {
    hide Inv, ControlNext;
    var pc := s.control.pc;
    if Resting(pc) || pc.Serve? { ControlWakes(c, s, clock); }
    else if pc.PublishDone? { ControlFinishes(c, s, clock); }
    else { ControlWorks(c, s, clock); }
  }

  lemma CoreStepKeeps(c: Cluster, s: State, a: Action)
    requires Inv(c, s) && a.ComputeStep? && Enabled(c, s, a)
    ensures Inv(c, Apply(c, s, a))
  {
    hide Answers, Describes, Prepared, Rewritten, Reported;
  }

  lemma BarrierKeeps(c: Cluster, s: State, a: Action)
    requires Inv(c, s) && a.BarrierFires? && Enabled(c, s, a)
    ensures Inv(c, Apply(c, s, a))
  {
    var d := UnderWay(c, s);
    BarrierLoaded(c, s, a, d);
    hide Answers, Describes, Prepared, Loaded, Reported;
  }

  /** Nothing of the job under way changes at a barrier. */
  lemma BarrierLoaded(c: Cluster, s: State, a: Action, d: Descriptor)
    requires a.BarrierFires? && Enabled(c, s, a) && Loaded(c, s.control, s.mbox, d)
    ensures Loaded(c, Apply(c, s, a).control, s.mbox, d)
  {
    hide Published;
    PublishedAcross(c, s.control, Apply(c, s, a).control, s.mbox, d);
  }

  lemma PublishedAcross(c: Cluster, k: Control, k': Control, m: Mailbox, d: Descriptor)
    requires k' == k.(pc := k'.pc, copied := k'.copied)
    ensures Published(c, k', m, d) == Published(c, k, m, d)
  {
  }

  lemma StepKeeps(c: Cluster, s: State, a: Action)
    requires Inv(c, s) && Enabled(c, s, a)
    ensures Inv(c, Apply(c, s, a))
  {
    hide Inv, HostNext, ControlNext;
    match a
    case CallPost(_) => HostCalls(c, s, a);
    case CallWait => HostCalls(c, s, a);
    case HostStep => HostStepKeeps(c, s);
    case ControlStep(clock) => ControlStepKeeps(c, s, clock);
    case ComputeStep(_) => CoreStepKeeps(c, s, a);
    case BarrierFires => BarrierKeeps(c, s, a);
  }

  /* ---- Whole runs ---- */

  ghost predicate Possible(c: Cluster, s: State, run: seq<Action>)
    decreases |run|
  {
    run == [] || (Enabled(c, s, run[0]) && Possible(c, Apply(c, s, run[0]), run[1..]))
  }

  ghost function After(c: Cluster, s: State, run: seq<Action>): State
    requires Possible(c, s, run)
    decreases |run|
  {
    if run == [] then s else After(c, Apply(c, s, run[0]), run[1..])
  }

  lemma {:induction false} RunKeeps(c: Cluster, s: State, run: seq<Action>)
    requires Inv(c, s) && Possible(c, s, run)
    ensures Inv(c, After(c, s, run))
    decreases |run|
  {
    hide Inv, Apply, Enabled;
    if run != [] {
      StepKeeps(c, s, run[0]);
      RunKeeps(c, Apply(c, s, run[0]), run[1..]);
    }
  }

  /** The descriptor of the job a cluster is serving. */
  ghost predicate Serving(c: Cluster, s: State, q: nat) {
    && 0 < q <= |s.log.posted| == |s.log.asked|
    && Describes(c, s.log.asked[q - 1], s.log.posted[q - 1])
  }

  /**
    In whatever order host, control core and compute cores move: a compute core runs only while the
    control core waits in the second barrier, so nothing it reads is being written; and what it
    runs is the job posted with the number being served, staged and checked as that job demands.
   */
  lemma CoresRunThePostedJob(c: Cluster, s0: State, run: seq<Action>, core: nat)
    requires Initial(c, s0) && Possible(c, s0, run)
    requires var s := After(c, s0, run); core < |s.compute| && s.compute[core].Running?
    ensures var s := After(c, s0, run);
            && s.control.pc.Barrier2? && Serving(c, s, s.control.served) && s.control.served == s.mbox.seqNo
            && var d := s.log.posted[s.control.served - 1];
               s.control.kernel == KernelOf(c, d) && s.control.args == ArgsOf(c, d) &&
                 s.control.scratch == c.scratch(d.kernel, d.args)
  {
    hide *;
    InitialInv(c, s0);
    RunKeeps(c, s0, run);
    RunningMeans(c, After(c, s0, run), core);
  }

  lemma RunningMeans(c: Cluster, s: State, core: nat)
    requires Inv(c, s) && core < |s.compute| && s.compute[core].Running?
    ensures s.control.pc.Barrier2? && Serving(c, s, s.control.served) && s.control.served == s.mbox.seqNo
    ensures var d := s.log.posted[s.control.served - 1];
            && s.control.kernel == KernelOf(c, d) && s.control.args == ArgsOf(c, d)
            && s.control.scratch == c.scratch(d.kernel, d.args)
  {
    hide Describes, Rewritten, Reported, Prepared;
  }

  /**
    A wait that has returned gave the outcome the cluster reported for that very job, its cycle
    count included: the error its planning comes to, whether it was staged, and its results copied
    to where the job said.
   */
  lemma WaitsReturnTheirOwnResults(c: Cluster, s0: State, run: seq<Action>, r: (nat, Outcome))
    requires Initial(c, s0) && Possible(c, s0, run) && r in After(c, s0, run).log.results
    ensures var s := After(c, s0, run);
            && Serving(c, s, r.0) && r.0 <= |s.log.copiedOut|
            && |s.log.outcomes| == |s.log.copiedOut| && r.1 == s.log.outcomes[r.0 - 1]
            && Answers(c, s.log.posted[r.0 - 1], r.1, s.log.copiedOut[r.0 - 1])
  {
    RunKeeps(c, s0, run);
    hide Describes, Answers, Loaded, Prepared;
  }

  /* ---- No lost wake-up, no deadlock, and every job ends ---- */

  /** A job has been posted and not finished. */
  ghost predicate Outstanding(s: State) { s.mbox.doneSeq < s.mbox.seqNo }

  /** A step of the cluster, or the host ringing the doorbell. */
  ghost predicate Advances(s: State, a: Action) {
    a.ControlStep? || a.ComputeStep? || a.BarrierFires? || (a.HostStep? && s.host.pc.Ring?)
  }

  lemma NoLostWakeUp(c: Cluster, s0: State, run: seq<Action>)
    requires Initial(c, s0) && Possible(c, s0, run)
    ensures var s := After(c, s0, run);
            s.control.pc.Wfi? && s.mbox.seqNo != s.control.served ==> s.doorbell || s.host.pc.Ring?
  {
    RunKeeps(c, s0, run);
    hide Numbers, Stable, Faithful, Fenced, Reported;
  }

  /** While a job is outstanding some step that brings it forward can be taken. */
  lemma NoDeadlock(c: Cluster, s: State)
    requires Inv(c, s) && Outstanding(s)
    ensures exists a :: Enabled(c, s, a) && Advances(s, a)
  {
    hide Stable, Faithful, Reported;
    var pc := s.control.pc;
    if pc.Barrier1? {
      assert Enabled(c, s, BarrierFires) && Advances(s, BarrierFires);
    } else if pc.Barrier2? {
      if i :| 0 <= i < |s.compute| && s.compute[i].Running? {
        assert Enabled(c, s, ComputeStep(i)) && Advances(s, ComputeStep(i));
      } else {
        assert Enabled(c, s, BarrierFires) && Advances(s, BarrierFires);
      }
    } else if pc.Wfi? && !s.doorbell {
      assert Enabled(c, s, HostStep) && Advances(s, HostStep);
    } else {
      assert Enabled(c, s, ControlStep(0)) && Advances(s, ControlStep(0));
    }
  }

  lemma {:induction false} OneLessRunning(compute: seq<ComputePc>, i: nat)
    requires i < |compute| && compute[i].Running?
    ensures StillRunning(compute[i := AtBarrier2]) == StillRunning(compute) - 1
  {
    var n := |compute| - 1;
    if i < n {
      assert compute[i := AtBarrier2][..n] == compute[..n][i := AtBarrier2];
      OneLessRunning(compute[..n], i);
    } else {
      assert compute[i := AtBarrier2][..n] == compute[..n];
    }
  }

  lemma {:induction false} AllRunning(compute: seq<ComputePc>)
    ensures StillRunning(compute) <= |compute|
  {
    if compute != [] { AllRunning(compute[..|compute| - 1]); }
  }

  lemma ControlFalls(c: Cluster, s: State, clock: nat)
    requires Inv(c, s) && Outstanding(s) && Enabled(c, s, ControlStep(clock))
    ensures !Outstanding(ControlNext(c, s, clock)) || Rank(c, ControlNext(c, s, clock)) < Rank(c, s)
  {
    hide Inv, Outstanding, Rank, ControlNext, Enabled;
    if Resting(s.control.pc) || s.control.pc.Serve? {
      WakingFalls(c, s, clock);
    } else if s.control.pc.PublishDone? {
      LastStep(c, s, clock);
    } else {
      WorkFalls(c, s, clock);
    }
  }

  lemma WorkFalls(c: Cluster, s: State, clock: nat)
    requires Inv(c, s) && Enabled(c, s, ControlStep(clock)) && Busy(s.control.pc) && !s.control.pc.PublishDone?
    ensures Rank(c, ControlNext(c, s, clock)) < Rank(c, s)
  {
    var d := UnderWay(c, s);
    hide Inv, ControlNext, Loaded, StillRunning, ControlRank;
    WorkSteps(c, s, clock, d, StillRunning(s.compute));
  }

  lemma LastStep(c: Cluster, s: State, clock: nat)
    requires Inv(c, s) && s.control.pc.PublishDone?
    ensures !Outstanding(ControlNext(c, s, clock))
  {
    hide Stable, Faithful, Fenced, Reported, Awake;
  }

  lemma WakingFalls(c: Cluster, s: State, clock: nat)
    requires Inv(c, s) && Outstanding(s) && Enabled(c, s, ControlStep(clock))
    requires Resting(s.control.pc) || s.control.pc.Serve?
    ensures Rank(c, ControlNext(c, s, clock)) < Rank(c, s)
  {
    JobThere(c, s);
    hide Stable, Faithful, Fenced, Reported, Awake, StillRunning, Stages, OperandCount;
  }

  /** Every step that brings a job forward shortens the way to its end. */
  lemma RankFalls(c: Cluster, s: State, a: Action)
    requires Inv(c, s) && Outstanding(s) && Enabled(c, s, a) && Advances(s, a)
    ensures !Outstanding(Apply(c, s, a)) || Rank(c, Apply(c, s, a)) < Rank(c, s)
  {
    if a.ControlStep? {
      hide Inv, ControlNext, Rank, Outstanding;
      ControlFalls(c, s, a.clock);
    } else if a.ComputeStep? {
      hide Stable, Faithful, Reported, Awake, StillRunning, Numbers, Stages;
      OneLessRunning(s.compute, a.core);
    } else if a.BarrierFires? {
      BarrierFalls(c, s);
    } else {
      hide Faithful, Fenced, Reported, Awake, StillRunning, Numbers, Stages, ControlRank, Loaded, Describes;
    }
  }

  lemma BarrierFalls(c: Cluster, s: State)
    requires Inv(c, s) && Outstanding(s) && Enabled(c, s, BarrierFires)
    ensures Rank(c, Apply(c, s, BarrierFires)) < Rank(c, s)
  {
    AllRunning(Apply(c, s, BarrierFires).compute);
    JobThere(c, s);
    hide Inv, StillRunning, ControlRank, Outstanding;
    var d := s.log.posted[|s.log.posted| - 1];
    BarrierRanks(c, d, StillRunning(s.compute), StillRunning(Apply(c, s, BarrierFires).compute));
  }

  lemma BarrierRanks(c: Cluster, d: Descriptor, running: nat, running': nat)
    ensures running' <= c.nbCompute ==> ControlRank(c, Barrier2, d, running') < ControlRank(c, Barrier1, d, running)
    ensures ControlRank(c, CopyOut(0), d, running') < ControlRank(c, Barrier2, d, running)
  {
  }

  lemma JobThere(c: Cluster, s: State)
    requires Inv(c, s) && Outstanding(s)
    ensures s.log.posted != [] && |s.compute| == c.nbCompute
  {
  }

  /** No other step lengthens it, and the job stays the one under way. */
  lemma RankStays(c: Cluster, s: State, a: Action)
    requires Inv(c, s) && Outstanding(s) && Enabled(c, s, a) && !Advances(s, a)
    ensures Outstanding(Apply(c, s, a)) && Rank(c, Apply(c, s, a)) <= Rank(c, s)
  {
    hide Answers, Describes, Prepared, Rewritten, CopiesOf, Reported, Loaded, StillRunning, ControlRank;
  }

  /** How many steps of a run bring a job forward. */
  ghost function Advancing(c: Cluster, s: State, run: seq<Action>): nat
    requires Possible(c, s, run)
    decreases |run|
  {
    if run == [] then 0
    else (if Advances(s, run[0]) then 1 else 0) + Advancing(c, Apply(c, s, run[0]), run[1..])
  }

  /**
    Every job ends: a run in which the cluster (with the host's ring) takes as many steps as the
    rank says, however they are interleaved with the host's, comes by a state where it is done.
   */
  lemma {:induction false} EveryJobEnds(c: Cluster, s: State, run: seq<Action>)
    requires Inv(c, s) && Outstanding(s) && Possible(c, s, run) && Rank(c, s) <= Advancing(c, s, run)
    ensures exists n :: 0 <= n <= |run| && Possible(c, s, run[..n]) && !Outstanding(After(c, s, run[..n]))
    decreases |run|
  {
    hide Inv, Apply, Enabled, Rank, Outstanding, Advances;
    RankPositive(c, s);
    var s' := Apply(c, s, run[0]);
    StepKeeps(c, s, run[0]);
    if Advances(s, run[0]) { RankFalls(c, s, run[0]); } else { RankStays(c, s, run[0]); }
    if !Outstanding(s') {
      StartsWith(c, s, run, 0);
    } else {
      EveryJobEnds(c, s', run[1..]);
      var m :| 0 <= m <= |run[1..]| && Possible(c, s', run[1..][..m]) && !Outstanding(After(c, s', run[1..][..m]));
      StartsWith(c, s, run, m);
    }
  }

  /** The first m + 1 steps of a run are its first step and the first m after it. */
  lemma StartsWith(c: Cluster, s: State, run: seq<Action>, m: nat)
    requires run != [] && m <= |run| - 1 && Enabled(c, s, run[0]) && Possible(c, Apply(c, s, run[0]), run[1..][..m])
    ensures var n := m + 1;
            Possible(c, s, run[..n]) && After(c, s, run[..n]) == After(c, Apply(c, s, run[0]), run[1..][..m])
  {
    hide Enabled, Apply;
    var n := m + 1;
    assert run[..n][0] == run[0] && run[..n][1..] == run[1..][..m];
  }

  lemma RankPositive(c: Cluster, s: State)
    requires Inv(c, s) && Outstanding(s)
    ensures Rank(c, s) > 0
  {
    hide StillRunning;
  }
}
