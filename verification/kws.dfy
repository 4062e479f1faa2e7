/**
  Keyword spotting with both clusters at once (`runtime/mesh/kws_main.c`): the front-end of clip
  n + 1 is posted before the classifier of clip n runs and collected after it, through two feature
  buffers. While a front-end job is in flight its cluster may store anything into the job's output
  buffer at any moment; a schedule says what, and every schedule is considered.
 */
module Kws {

  const TOLERANCE: real := 0.001

  /** What the run is about: the features the front-end computes for a clip, and what they are checked against. */
  datatype Clip = Clip(features: seq<real>, faulty: bool, expected: seq<real>, keyword: nat, reference: nat)

  /** One step of the network: on the host, or offloaded to a cluster. */
  datatype Node<!V> = Node(engine: nat, f: V -> V)

  datatype Network<!V> = Network(load: seq<real> -> V, nodes: seq<Node<V>>, scores: V -> seq<real>)

  /** A store the front-end's cluster makes while its job is in flight. */
  datatype Store = Store(index: nat, value: real)

  /** What became of one clip: the features it was classified from, and the keyword it was taken for. */
  datatype Verdict = Verdict(features: seq<real>, got: nat)

  datatype Report = Report(correct: nat, agree: nat, worst: real)

  /* ---- What the run should come to ---- */

  /** `argmax`: the first of the largest. */
  function Best(p: seq<real>, n: nat): (b: nat)
    requires n <= |p|
    ensures n > 0 ==> b < n
    ensures n == 0 ==> b == 0
    ensures forall j :: 0 <= j < n ==> p[j] <= p[b]
    ensures forall j :: 0 <= j < b ==> p[j] < p[b]
  {
    if n <= 1 then 0
    else
      var b := Best(p, n - 1);
      if p[n - 1] > p[b] then n - 1 else b
  }

  function Through<V>(nodes: seq<Node<V>>, v: V, n: nat): V
    requires n <= |nodes|
  {
    if n == 0 then v else nodes[n - 1].f(Through(nodes, v, n - 1))
  }

  function Prediction<V>(net: Network<V>, clip: Clip): nat {
    var p := net.scores(Through(net.nodes, net.load(clip.features), |net.nodes|));
    Best(p, |p|)
  }

  function Gap(clip: Clip, i: nat): real
    requires i < |clip.features| && i < |clip.expected|
  {
    var d := clip.features[i] - clip.expected[i];
    if d < 0.0 then -d else d
  }

  /** The distance between a feature and what was expected, whichever is larger. */
  lemma GapIsDistance(clip: Clip, i: nat)
    requires i < |clip.features| && i < |clip.expected|
    ensures var f, e, g := clip.features[i], clip.expected[i], Gap(clip, i);
            f <= e + g && e <= f + g && (f == e + g || e == f + g)
  {
  }

  ghost function Correct<V>(net: Network<V>, clips: seq<Clip>, n: nat): nat
    requires n <= |clips|
  {
    if n == 0 then 0
    else Correct(net, clips, n - 1) + (if Prediction(net, clips[n - 1]) == clips[n - 1].keyword then 1 else 0)
  }

  ghost function Agreeing<V>(net: Network<V>, clips: seq<Clip>, n: nat): (a: nat)
    requires n <= |clips|
    ensures a <= n
    ensures a == n <==> forall k :: 0 <= k < n ==> Prediction(net, clips[k]) == clips[k].reference
  {
    if n == 0 then 0
    else Agreeing(net, clips, n - 1) + (if Prediction(net, clips[n - 1]) == clips[n - 1].reference then 1 else 0)
  }

  ghost predicate Sized(clips: seq<Clip>, elems: nat) {
    forall k :: 0 <= k < |clips| ==> |clips[k].features| == |clips[k].expected| == elems
  }

  /** The largest gap over the first n clips and the first m elements of the next. */
  ghost predicate Worst(clips: seq<Clip>, elems: nat, n: nat, m: nat, w: real)
    requires Sized(clips, elems) && n <= |clips| && m <= elems && (m > 0 ==> n < |clips|)
  {
    && 0.0 <= w
    && (forall k, i :: 0 <= k < n && 0 <= i < elems ==> Gap(clips[k], i) <= w)
    && (forall i :: 0 <= i < m ==> Gap(clips[n], i) <= w)
    && (w == 0.0 || (exists k, i :: 0 <= k < n && 0 <= i < elems && Gap(clips[k], i) == w) ||
        (exists i :: 0 <= i < m && Gap(clips[n], i) == w))
  }

  /** Front-end jobs that failed. */
  ghost function Faults(clips: seq<Clip>, n: nat): (f: nat)
    requires n <= |clips|
    ensures f == 0 <==> forall k :: 0 <= k < n ==> !clips[k].faulty
  {
    if n == 0 then 0 else Faults(clips, n - 1) + (if clips[n - 1].faulty then 1 else 0)
  }

  /** Network nodes placed on the front-end's own cluster. */
  ghost function Shared<V>(nodes: seq<Node<V>>, fe: nat, n: nat): (q: nat)
    requires n <= |nodes|
    ensures q == 0 <==> forall k :: 0 <= k < n ==> nodes[k].engine != fe
  {
    if n == 0 then 0 else Shared(nodes, fe, n - 1) + (if nodes[n - 1].engine == fe then 1 else 0)
  }

  /** The first n clips that are classified right, that agree with the reference, whose front-end failed. */
  ghost function Right<V>(net: Network<V>, clips: seq<Clip>, n: nat): set<nat>
    requires n <= |clips|
  {
    set k: nat | k < n && Prediction(net, clips[k]) == clips[k].keyword
  }

  ghost function AsReferred<V>(net: Network<V>, clips: seq<Clip>, n: nat): set<nat>
    requires n <= |clips|
  {
    set k: nat | k < n && Prediction(net, clips[k]) == clips[k].reference
  }

  ghost function Failed(clips: seq<Clip>, n: nat): set<nat>
    requires n <= |clips|
  {
    set k: nat | k < n && clips[k].faulty
  }

  /** What the tallies count: clips, each once. */
  lemma {:induction false} TalliesCount<V>(net: Network<V>, clips: seq<Clip>, n: nat)
    requires n <= |clips|
    ensures Correct(net, clips, n) == |Right(net, clips, n)|
    ensures Agreeing(net, clips, n) == |AsReferred(net, clips, n)|
    ensures Faults(clips, n) == |Failed(clips, n)|
  {
    if n > 0 {
      hide Right, AsReferred, Failed, Prediction;
      TalliesCount(net, clips, n - 1);
      OneMoreRight(net, clips, n);
      OneMoreAsReferred(net, clips, n);
      OneMoreFailed(clips, n);
    }
  }

  lemma OneMoreRight<V>(net: Network<V>, clips: seq<Clip>, n: nat)
    requires 0 < n <= |clips|
    ensures |Right(net, clips, n)| ==
            |Right(net, clips, n - 1)| + if Prediction(net, clips[n - 1]) == clips[n - 1].keyword then 1 else 0
  {
    hide Prediction;
    var all, few := Right(net, clips, n), Right(net, clips, n - 1);
    assert all == if Prediction(net, clips[n - 1]) == clips[n - 1].keyword then few + {n - 1} else few;
  }

  lemma OneMoreAsReferred<V>(net: Network<V>, clips: seq<Clip>, n: nat)
    requires 0 < n <= |clips|
    ensures |AsReferred(net, clips, n)| ==
            |AsReferred(net, clips, n - 1)| + if Prediction(net, clips[n - 1]) == clips[n - 1].reference then 1 else 0
  {
    hide Prediction;
    var all, few := AsReferred(net, clips, n), AsReferred(net, clips, n - 1);
    assert all == if Prediction(net, clips[n - 1]) == clips[n - 1].reference then few + {n - 1} else few;
  }

  lemma OneMoreFailed(clips: seq<Clip>, n: nat)
    requires 0 < n <= |clips|
    ensures |Failed(clips, n)| == |Failed(clips, n - 1)| + if clips[n - 1].faulty then 1 else 0
  {
    var all, few := Failed(clips, n), Failed(clips, n - 1);
    assert all == if clips[n - 1].faulty then few + {n - 1} else few;
  }

  ghost predicate Faithful<V>(net: Network<V>, clips: seq<Clip>, elems: nat, n: nat, r: Report)
    requires Sized(clips, elems) && n <= |clips|
  {
    r.correct == Correct(net, clips, n) && r.agree == Agreeing(net, clips, n) && Worst(clips, elems, n, 0, r.worst)
  }

  /** The front-end jobs are sound, and no overlapped network node wants the front-end's cluster. */
  ghost predicate Undisturbed<V>(net: Network<V>, clips: seq<Clip>, fe: nat, n: nat, pipelined: bool)
    requires n <= |clips|
  {
    && (forall k :: 0 <= k < n || (k == 0 && |clips| > 0) ==> !clips[k].faulty)
    && (pipelined && n > 1 ==> forall k :: 0 <= k < |net.nodes| ==> net.nodes[k].engine != fe)
  }

  /** Nothing keeps clip k from being classified: no node needs the cluster that runs the next front-end. */
  ghost predicate Alone<V>(net: Network<V>, fe: nat, k: nat, runClips: nat, pipelined: bool) {
    pipelined && k + 1 < runClips ==> forall j :: 0 <= j < |net.nodes| ==> net.nodes[j].engine != fe
  }

  /** The verdicts on the first n clips, each right if its own front-end job was, whatever became of the others. */
  ghost predicate Judged<V>(net: Network<V>, clips: seq<Clip>, fe: nat, n: nat, runClips: nat, pipelined: bool,
                            seen: seq<Verdict>)
    requires n <= |clips|
  {
    && |seen| == n
    && forall k :: 0 <= k < n && !clips[k].faulty ==>
         && seen[k].features == clips[k].features
         && (Alone(net, fe, k, runClips, pipelined) ==> seen[k].got == Prediction(net, clips[k]))
  }

  /** What a passing run means. */
  ghost predicate Passes<V>(net: Network<V>, clips: seq<Clip>, elems: nat, n: nat)
    requires Sized(clips, elems) && n <= |clips|
  {
    && (forall k :: 0 <= k < n ==> Prediction(net, clips[k]) == clips[k].reference)
    && (forall k, i :: 0 <= k < n && 0 <= i < elems ==> Gap(clips[k], i) <= TOLERANCE)
  }

  /* ---- The run ---- */

  /** The host's memory and its side of the front-end's cluster. Host is engine 0. */
  class Board {
    const fe: nat
    const elems: nat
    const features: array2<real>
    const schedule: nat -> seq<Store>
    var inFlight: bool
    var clip: nat
    var out: nat
    var failures: nat
    var time: nat
    ghost var seen: seq<Verdict>

    ghost predicate Valid()
      reads this
    {
      fe > 0 && features.Length0 == 2 && features.Length1 == elems && out < 2
    }

    /** Buffer b holds x. */
    ghost predicate Holds(b: nat, x: seq<real>)
      requires Valid() && b < 2
      reads this, features
    {
      |x| == elems && forall i :: 0 <= i < elems ==> features[b, i] == x[i]
    }

    /** Buffer b is not being written by a job in flight. */
    ghost predicate Quiet(b: nat)
      reads this
    {
      !(inFlight && out == b)
    }

    constructor (fe: nat, elems: nat, schedule: nat -> seq<Store>)
      requires fe > 0
      ensures Valid() && fresh(features) && this.fe == fe && this.elems == elems && !inFlight && failures == 0 &&
              seen == []
    {
      this.fe := fe;
      this.elems := elems;
      this.schedule := schedule;
      this.features := new real[2, elems]((_, _) => 0.0);
      inFlight, clip, out, failures, time, seen := false, 0, 0, 0, 0, [];
    }

    /** Time passes: the front-end's cluster stores what it likes into the buffer of its job. */
    method Tick()
      requires Valid()
      modifies this`time, features
      ensures Valid()
      ensures forall b, i :: 0 <= b < 2 && 0 <= i < elems && Quiet(b) ==> features[b, i] == old(features[b, i])
    {
      if inFlight {
        var stores := schedule(time);
        for k := 0 to |stores|
          modifies features
          invariant Valid() && inFlight
          invariant forall b, i :: 0 <= b < 2 && 0 <= i < elems && b != out ==> features[b, i] == old(features[b, i])
        {
          if stores[k].index < elems { features[out, stores[k].index] := stores[k].value; }
        }
      }
      time := time + 1;
    }

    /** `hes_post_mfcc`: refused while a job is in flight. */
    method Post(k: nat, b: nat) returns (ok: bool)
      requires Valid() && b < 2
      modifies this`inFlight, this`clip, this`out
      ensures Valid() && ok == !old(inFlight) && inFlight
      ensures if ok then clip == k && out == b else clip == old(clip) && out == old(out)
    {
      if inFlight { return false; }
      inFlight, clip, out := true, k, b;
      ok := true;
    }

    /** `hes_check` of `hes_wait`: the job is over; if it went well its buffer holds the clip's features. */
    method Wait(clips: seq<Clip>)
      requires Valid() && Sized(clips, elems) && (inFlight ==> clip < |clips|)
      modifies this`inFlight, this`failures, this`time, features
      ensures Valid() && !inFlight
      ensures failures == old(failures) + (if old(inFlight) && !clips[clip].faulty then 0 else 1)
      ensures old(inFlight) && !clips[clip].faulty ==> Holds(out, clips[clip].features)
      ensures forall b, i :: 0 <= b < 2 && 0 <= i < elems && old(Quiet(b)) ==> features[b, i] == old(features[b, i])
    {
      if !inFlight { failures := failures + 1; return; }
      Tick();
      if !clips[clip].faulty { Deliver(clips[clip].features); } else { failures := failures + 1; }
      inFlight := false;
    }

    /** The last stores of a job that goes well. */
    method Deliver(x: seq<real>)
      requires Valid() && |x| == elems && inFlight
      modifies features
      ensures Valid() && Holds(out, x)
      ensures forall b, i :: 0 <= b < 2 && 0 <= i < elems && b != out ==> features[b, i] == old(features[b, i])
    {
      for i := 0 to elems
        modifies features
        invariant Valid() && (forall j :: 0 <= j < i ==> features[out, j] == x[j])
        invariant forall b, j :: 0 <= b < 2 && 0 <= j < elems && b != out ==> features[b, j] == old(features[b, j])
      {
        features[out, i] := x[i];
      }
    }

    /** `hes_offload_mfcc`: post and wait; a refused post counts as a failure. */
    method Offload(clips: seq<Clip>, k: nat, b: nat)
      requires Valid() && Sized(clips, elems) && k < |clips| && b < 2
      modifies this`inFlight, this`clip, this`out, this`failures, this`time, features
      ensures Valid() && inFlight == old(inFlight)
      ensures failures == old(failures) + (if !old(inFlight) && !clips[k].faulty then 0 else 1)
      ensures !old(inFlight) && !clips[k].faulty ==> Holds(b, clips[k].features)
    {
      var ok := Post(k, b);
      if ok { Wait(clips); } else { failures := failures + 1; }
    }

    /** The copy into the network's input, from a buffer no job in flight writes. */
    method CopyIn(b: nat, ghost x: seq<real>) returns (input: seq<real>)
      requires Valid() && b < 2 && Quiet(b)
      modifies this`time, features
      ensures Valid() && |input| == elems
      ensures forall i :: 0 <= i < elems ==> features[b, i] == old(features[b, i])
      ensures old(Holds(b, x)) ==> Holds(b, x) && input == x
    {
      input := [];
      for i := 0 to elems
        modifies this`time, features
        invariant Valid() && |input| == i
        invariant forall j :: 0 <= j < elems ==> features[b, j] == old(features[b, j])
        invariant forall j :: 0 <= j < i ==> input[j] == features[b, j]
      {
        Tick();
        input := input + [features[b, i]];
      }
    }

    /**
      `RunNetwork`: node after node. A node on a cluster with a job in flight is refused, leaves
      its output as it is and counts as a failure.
     */
    method RunNetwork<V>(net: Network<V>, input: seq<real>) returns (v: V)
      requires Valid()
      modifies this`time, this`failures, features
      ensures Valid()
      ensures failures == old(failures) + (if inFlight then Shared(net.nodes, fe, |net.nodes|) else 0)
      ensures failures == old(failures) ==> v == Through(net.nodes, net.load(input), |net.nodes|)
      ensures forall b, i :: 0 <= b < 2 && 0 <= i < elems && Quiet(b) ==> features[b, i] == old(features[b, i])
    {
      v := net.load(input);
      for k := 0 to |net.nodes|
        modifies this`time, this`failures, features
        invariant Valid() && failures == old(failures) + (if inFlight then Shared(net.nodes, fe, k) else 0)
        invariant failures == old(failures) ==> v == Through(net.nodes, net.load(input), k)
        invariant forall b, i :: 0 <= b < 2 && 0 <= i < elems && Quiet(b) ==> features[b, i] == old(features[b, i])
      {
        Tick();
        if net.nodes[k].engine == fe && inFlight { failures := failures + 1; } else { v := net.nodes[k].f(v); }
      }
    }

    /** The features of clip n against the reference front-end, element by element. */
    method Compare(clips: seq<Clip>, n: nat, b: nat, worst: real) returns (w: real)
      requires Valid() && Sized(clips, elems) && n < |clips| && b < 2 && Quiet(b)
      modifies this`time, features
      ensures Valid()
      ensures forall i :: 0 <= i < elems ==> features[b, i] == old(features[b, i])
      ensures old(Holds(b, clips[n].features)) && Worst(clips, elems, n, 0, worst) ==> Worst(clips, elems, n + 1, 0, w)
    {
      w := worst;
      for i := 0 to elems
        modifies this`time, features
        invariant Valid()
        invariant forall j :: 0 <= j < elems ==> features[b, j] == old(features[b, j])
        invariant old(Holds(b, clips[n].features)) && Worst(clips, elems, n, 0, worst) ==> Worst(clips, elems, n, i, w)
      {
        Tick();
        var d := features[b, i] - clips[n].expected[i];
        var gap := if d < 0.0 then -d else d;
        ghost var before := w;
        if gap > w { w := gap; }
        if old(Holds(b, clips[n].features)) && Worst(clips, elems, n, 0, worst) {
          assert gap == Gap(clips[n], i);
          WorstGrows(clips, elems, n, i, before);
        }
      }
      if old(Holds(b, clips[n].features)) && Worst(clips, elems, n, 0, worst) { WorstCarries(clips, elems, n, w); }
    }

    method ArgMax(p: seq<real>) returns (best: nat)
      ensures best == Best(p, |p|)
    {
      best := 0;
      var i := 1;
      while i < |p|
        invariant 1 <= i && best == Best(p, if i <= |p| then i else |p|)
      {
        if p[i] > p[best] { best := i; }
        i := i + 1;
      }
    }

    /** One clip: its features are copied, classified, checked and scored. */
    method Score<V>(net: Network<V>, clips: seq<Clip>, n: nat, r: Report) returns (r': Report)
      requires Valid() && Sized(clips, elems) && n < |clips| && Quiet(n % 2)
      modifies this`time, this`failures, this`seen, features
      ensures Valid()
      ensures failures == old(failures) + (if inFlight then Shared(net.nodes, fe, |net.nodes|) else 0)
      ensures |seen| == |old(seen)| + 1 && seen[..|old(seen)|] == old(seen)
      ensures old(Holds(n % 2, clips[n].features)) ==>
                && seen[|old(seen)|].features == clips[n].features
                && (failures == old(failures) ==> seen[|old(seen)|].got == Prediction(net, clips[n]))
      ensures old(Holds(n % 2, clips[n].features)) && failures == old(failures) && Faithful(net, clips, elems, n, r)
              ==> Faithful(net, clips, elems, n + 1, r')
    {
      var b := n % 2;
      var input := CopyIn(b, clips[n].features);
      var v := RunNetwork(net, input);
      assert old(Holds(b, clips[n].features)) ==> Holds(b, clips[n].features);
      var worst := Compare(clips, n, b, r.worst);
      var got := ArgMax(net.scores(v));
      r' := Report(r.correct + (if got == clips[n].keyword then 1 else 0),
                   r.agree + (if got == clips[n].reference then 1 else 0), worst);
      seen := seen + [Verdict(input, got)];
    }

    /** Where the run is when clip n is about to be scored. */
    ghost predicate Reached<V>(net: Network<V>, clips: seq<Clip>, n: nat, runClips: nat, pipelined: bool, r: Report)
      requires Valid() && Sized(clips, elems) && n <= runClips <= |clips| && |clips| > 0
      reads this, features
    {
      && !inFlight
      && failures == Failures(net, clips, fe, n, runClips, pipelined)
      && ((n < runClips || n == 0) && !clips[n].faulty ==> Holds(n % 2, clips[n].features))
      && Judged(net, clips, fe, n, runClips, pipelined, seen)
      && (failures == 0 ==> Faithful(net, clips, elems, n, r))
    }

    /** The front-end of the next clip is started, if it is to overlap, and this clip is classified. */
    method Classify<V>(net: Network<V>, clips: seq<Clip>, n: nat, runClips: nat, pipelined: bool, r: Report)
      returns (r': Report)
      requires Valid() && Sized(clips, elems) && n < runClips <= |clips| &&
               Reached(net, clips, n, runClips, pipelined, r)
      modifies this, features
      ensures Valid() && inFlight == (pipelined && n + 1 < runClips)
      ensures inFlight ==> clip == n + 1 && out == (n + 1) % 2
      ensures failures == old(failures) + (if inFlight then Shared(net.nodes, fe, |net.nodes|) else 0)
      ensures Judged(net, clips, fe, n + 1, runClips, pipelined, seen)
      ensures failures == 0 ==> Faithful(net, clips, elems, n + 1, r')
    {
      assert |seen| == n;
      if failures == 0 { SoundSoFar(net, clips, fe, n, runClips, pipelined); }
      hide Faithful, Shared, Sized, Judged, Alone, Failures;
      if pipelined && n + 1 < runClips { var _ := Post(n + 1, (n + 1) % 2); }
      ghost var before := seen;
      r' := Score(net, clips, n, r);
      AloneMeans(net, fe, n, runClips, pipelined);
      JudgedOneMore(net, clips, fe, n, runClips, pipelined, before, seen);
    }

    /** One turn of the loop. */
    method Turn<V>(net: Network<V>, clips: seq<Clip>, n: nat, runClips: nat, pipelined: bool, r: Report)
      returns (r': Report)
      requires Valid() && Sized(clips, elems) && n < runClips <= |clips| &&
               Reached(net, clips, n, runClips, pipelined, r)
      modifies this, features
      ensures Valid() && Reached(net, clips, n + 1, runClips, pipelined, r')
    {
      r' := Classify(net, clips, n, runClips, pipelined, r);
      hide Faithful, Shared, Sized, Judged, Failures;
      if n + 1 < runClips {
        if pipelined { Wait(clips); } else { Offload(clips, n + 1, (n + 1) % 2); }
      }
      FailuresGrow(net, clips, fe, n, runClips, pipelined);
    }

    /**
      The whole run over the first clips, overlapped or not. The failures it counts are those of
      the front-end jobs and, overlapped, of network nodes that want the front-end's cluster; it
      passes exactly if there are none and every prediction and every feature is right. Each clip whose
      own front-end job went well is classified from its own features, failures elsewhere or not.
     */
    method Run<V>(net: Network<V>, clips: seq<Clip>, runClips: nat, pipelined: bool) returns (r: Report, pass: bool)
      requires Valid() && !inFlight && failures == 0 && seen == []
      requires Sized(clips, elems) && runClips <= |clips| && |clips| > 0
      modifies this, features
      ensures Valid() && !inFlight && failures == Failures(net, clips, fe, runClips, runClips, pipelined)
      ensures failures == 0 <==> Undisturbed(net, clips, fe, runClips, pipelined)
      ensures Judged(net, clips, fe, runClips, runClips, pipelined, seen)
      ensures failures == 0 ==> Faithful(net, clips, elems, runClips, r)
      ensures pass <==> Undisturbed(net, clips, fe, runClips, pipelined) && Passes(net, clips, elems, runClips)
    {
      Offload(clips, 0, 0);
      r := Report(0, 0, 0.0);
      for n := 0 to runClips
        invariant Valid() && Reached(net, clips, n, runClips, pipelined, r)
      {
        r := Turn(net, clips, n, runClips, pipelined, r);
      }
      pass := r.agree == runClips && failures == 0 && r.worst <= TOLERANCE;
      NoFailuresIff(net, clips, fe, runClips, pipelined);
      if failures == 0 { PassesIff(net, clips, elems, runClips, r); }
    }
  }

  lemma SoundSoFar<V>(net: Network<V>, clips: seq<Clip>, fe: nat, n: nat, runClips: nat, pipelined: bool)
    requires n < runClips <= |clips| && Failures(net, clips, fe, n, runClips, pipelined) == 0
    ensures !clips[n].faulty
  {
  }

  lemma AloneMeans<V>(net: Network<V>, fe: nat, n: nat, runClips: nat, pipelined: bool)
    ensures Alone(net, fe, n, runClips, pipelined) && pipelined && n + 1 < runClips ==>
              Shared(net.nodes, fe, |net.nodes|) == 0
  {
  }

  lemma JudgedOneMore<V>(net: Network<V>, clips: seq<Clip>, fe: nat, n: nat, runClips: nat, pipelined: bool,
                         seen: seq<Verdict>, seen': seq<Verdict>)
    requires n < |clips| && Judged(net, clips, fe, n, runClips, pipelined, seen)
    requires |seen'| == n + 1 && seen'[..n] == seen
    requires !clips[n].faulty ==> seen'[n].features == clips[n].features
    requires !clips[n].faulty && Alone(net, fe, n, runClips, pipelined) ==> seen'[n].got == Prediction(net, clips[n])
    ensures Judged(net, clips, fe, n + 1, runClips, pipelined, seen')
  {
    hide Alone;
    forall k | 0 <= k < n ensures seen'[k] == seen[k] { assert seen'[..n][k] == seen'[k]; }
  }

  /** Front-end jobs collected when clip n is about to be scored. */
  ghost function Collected(n: nat, runClips: nat): nat {
    if runClips == 0 then 1 else if n < runClips then n + 1 else runClips
  }

  /** Clips before the n-th that were scored while the next one's front-end was running. */
  ghost function Overlapped(n: nat, runClips: nat): nat { if n < runClips || n == 0 then n else n - 1 }

  /** Failures counted when clip n is about to be scored. */
  ghost function Failures<V>(net: Network<V>, clips: seq<Clip>, fe: nat, n: nat, runClips: nat, pipelined: bool): nat
    requires n <= runClips <= |clips| && |clips| > 0
  {
    Faults(clips, Collected(n, runClips)) +
    (if pipelined then Overlapped(n, runClips) * Shared(net.nodes, fe, |net.nodes|) else 0)
  }

  lemma FailuresGrow<V>(net: Network<V>, clips: seq<Clip>, fe: nat, n: nat, runClips: nat, pipelined: bool)
    requires n < runClips <= |clips|
    ensures var last := n + 1 == runClips;
            Failures(net, clips, fe, n + 1, runClips, pipelined) ==
            Failures(net, clips, fe, n, runClips, pipelined) +
            (if !last && clips[n + 1].faulty then 1 else 0) +
            (if !last && pipelined then Shared(net.nodes, fe, |net.nodes|) else 0)
  {
    var q := Shared(net.nodes, fe, |net.nodes|);
    assert (n + 1) * q == n * q + q;
  }

  /** No failure is counted exactly if nothing disturbs the run. */
  lemma NoFailuresIff<V>(net: Network<V>, clips: seq<Clip>, fe: nat, runClips: nat, pipelined: bool)
    requires runClips <= |clips| && |clips| > 0
    ensures Failures(net, clips, fe, runClips, runClips, pipelined) == 0 <==>
            Undisturbed(net, clips, fe, runClips, pipelined)
  {
    var q := Shared(net.nodes, fe, |net.nodes|);
    if runClips > 1 && q > 0 { assert (runClips - 1) * q > 0; }
  }

  /** Two clips, front-end jobs that go well, and a network of one node on the front-end's own cluster. */
  lemma SharedClusterExample<V>(net: Network<V>, clip: Clip, fe: nat)
    requires |net.nodes| == 1 && net.nodes[0].engine == fe && !clip.faulty
    ensures Failures(net, [clip, clip], fe, 2, 2, true) == 1 && Failures(net, [clip, clip], fe, 2, 2, false) == 0
  {
    var clips := [clip, clip];
    assert Shared(net.nodes, fe, 1) == Shared(net.nodes, fe, 0) + 1;
    assert Overlapped(2, 2) == 1 && Collected(2, 2) == 2;
    assert Faults(clips, 2) == 0;
  }

  lemma PassesIff<V>(net: Network<V>, clips: seq<Clip>, elems: nat, n: nat, r: Report)
    requires Sized(clips, elems) && n <= |clips| && Faithful(net, clips, elems, n, r)
    ensures r.agree == n && r.worst <= TOLERANCE <==> Passes(net, clips, elems, n)
  {
  }

  lemma WorstGrows(clips: seq<Clip>, elems: nat, n: nat, i: nat, w: real)
    requires Sized(clips, elems) && n < |clips| && i < elems && Worst(clips, elems, n, i, w)
    ensures Worst(clips, elems, n, i + 1, if Gap(clips[n], i) > w then Gap(clips[n], i) else w)
  {
  }

  lemma WorstCarries(clips: seq<Clip>, elems: nat, n: nat, w: real)
    requires Sized(clips, elems) && n < |clips| && Worst(clips, elems, n, elems, w)
    ensures Worst(clips, elems, n + 1, 0, w)
  {
  }

  /** The largest gap is one number. */
  lemma WorstIsOne(clips: seq<Clip>, elems: nat, n: nat, w: real, w': real)
    requires Sized(clips, elems) && n <= |clips| && Worst(clips, elems, n, 0, w) && Worst(clips, elems, n, 0, w')
    ensures w == w'
  {
  }

  /**
    Overlapping changes nothing: on two boards, whatever each one's clusters store and when, every
    clip whose front-end job went well is classified from the same features, and for the same keyword
    if no network node wants the front-end's cluster. If no front-end job fails either, both builds
    report the same; and the overlapped build passes exactly if the serial one does and no node
    wants that cluster (with one clip nothing overlaps).
   */
  method OverlappedIsSerial<V>(net: Network<V>, clips: seq<Clip>, runClips: nat, fe: nat, elems: nat,
                               schedule: nat -> seq<Store>, schedule': nat -> seq<Store>)
    returns (overlapped: bool, serial: bool, r: Report, r': Report, ghost seen: seq<Verdict>, ghost seen': seq<Verdict>)
    requires fe > 0 && Sized(clips, elems) && runClips <= |clips| && |clips| > 0
    ensures overlapped <==> serial && (runClips > 1 ==> forall k :: 0 <= k < |net.nodes| ==> net.nodes[k].engine != fe)
    ensures |seen| == |seen'| == runClips
    ensures forall k :: 0 <= k < runClips && !clips[k].faulty ==>
              && seen[k].features == seen'[k].features == clips[k].features
              && seen'[k].got == Prediction(net, clips[k])
              && (Alone(net, fe, k, runClips, true) ==> seen[k] == seen'[k])
    ensures Undisturbed(net, clips, fe, runClips, true) ==> r == r'
  {
    var one := new Board(fe, elems, schedule);
    r, overlapped := one.Run(net, clips, runClips, true);
    var two := new Board(fe, elems, schedule');
    r', serial := two.Run(net, clips, runClips, false);
    seen, seen' := one.seen, two.seen;
    if Undisturbed(net, clips, fe, runClips, true) { WorstIsOne(clips, elems, runClips, r.worst, r'.worst); }
  }
}
