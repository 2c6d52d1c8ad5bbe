/**
 * Escape-time trajectories and the record stream that carries them back from
 * the GPU.
 *
 * The geometry shader's `main` emits, for each input point, the seed, then the
 * iterates Z := pow_vec4(Z, 2) + C up to `max_iterations` of them, stopping
 * right after the first iterate whose length is at least `threshold`, and then
 * a sentinel record (10000, 10000, 10000, 10000). Transform feedback captures
 * the records of all points, in input order, into one flat float buffer, and
 * `get_trajectories` splits that buffer at the sentinels again.
 */
module Trajectories {
  import opened Float32
  import opened Geometry

  /** 10000.0f, the value of every component of the end-of-trajectory record. */
  const SentinelComponent: Float := 0x461C_4000

  const Sentinel: Quat := Quat(SentinelComponent, SentinelComponent, SentinelComponent, SentinelComponent)

  /** The feedback buffer has room for this many records per input point. */
  const MaxOutputRecordsPerInput: nat := 502

  /**
   * The shader's uniforms and the float operations it uses, which are not
   * interpreted: `square` is pow_vec4(Z, 2.0), `add` a float addition,
   * `length` GLSL's length().
   */
  datatype Fractal = Fractal(
    square: Quat -> Quat,
    add: (Float, Float) -> Float,
    c: Quat,
    length: Quat -> Float,
    threshold: Float,
    maxIterations: int)

  /** Z := pow_vec4(Z, 2.0) + C, the vector sum taken component by component. */
  function Step(p: Fractal, z: Quat): Quat {
    var s := p.square(z);
    Quat(p.add(s.x, p.c.x), p.add(s.y, p.c.y), p.add(s.z, p.c.z), p.add(s.w, p.c.w))
  }

  /** The escape test `length(Z) >= threshold`. */
  predicate Escaped(p: Fractal, z: Quat) {
    AtLeast(p.length(z), p.threshold)
  }

  /** How many times the shader's counted loop may run. */
  function Budget(p: Fractal): nat {
    if p.maxIterations < 0 then 0 else p.maxIterations
  }

  /** The iterates that follow `z` when at most `budget` more steps are allowed. */
  function Iterates(p: Fractal, z: Quat, budget: nat): seq<Quat>
    decreases budget
  {
    if budget == 0 then []
    else
      var next := Step(p, z);
      if Escaped(p, next) then [next] else [next] + Iterates(p, next, budget - 1)
  }

  /** The trajectory of one point: the seed, then its iterates. */
  function Orbit(p: Fractal, seed: Quat): seq<Quat> {
    [seed] + Iterates(p, seed, Budget(p))
  }

  /** The records the shader emits for one point. */
  function Emitted(p: Fractal, seed: Quat): seq<Quat> {
    Orbit(p, seed) + [Sentinel]
  }

  predicate StepsTo(p: Fractal, t: seq<Quat>, j: nat)
    requires j + 1 < |t|
  {
    t[j + 1] == Step(p, t[j])
  }

  /**
   * What a trajectory is, independently of how it is computed: it starts at its
   * seed, each element is the step of the one before, no iterate before the
   * last has escaped (the seed itself is never tested), and it ends either with
   * the budget used up or on an iterate that has escaped.
   */
  ghost predicate IsOrbit(p: Fractal, budget: nat, t: seq<Quat>) {
    && 1 <= |t| <= budget + 1
    && (forall j: nat :: j + 1 < |t| ==> StepsTo(p, t, j))
    && (forall j :: 1 <= j < |t| - 1 ==> !Escaped(p, t[j]))
    && (|t| == budget + 1 || (|t| > 1 && Escaped(p, t[|t| - 1])))
  }

  lemma {:induction false} IteratesFormOrbit(p: Fractal, z: Quat, budget: nat)
    ensures IsOrbit(p, budget, [z] + Iterates(p, z, budget))
    decreases budget
  {
    var t := [z] + Iterates(p, z, budget);
    if budget > 0 {
      var next := Step(p, z);
      if Escaped(p, next) {
        assert t == [z, next];
      } else {
        var tail := [next] + Iterates(p, next, budget - 1);
        IteratesFormOrbit(p, next, budget - 1);
        assert t == [z] + tail;
        forall j: nat | j + 1 < |t|
          ensures StepsTo(p, t, j)
        {
          if j > 0 {
            assert StepsTo(p, tail, j - 1);
          }
        }
        forall j | 1 <= j < |t| - 1
          ensures !Escaped(p, t[j])
        {
          if j > 1 {
            assert t[j] == tail[j - 1];
          }
        }
      }
    }
  }

  /** A sequence with the characteristic properties of a trajectory is the one computed from its seed. */
  lemma {:induction false} OrbitUnique(p: Fractal, budget: nat, t: seq<Quat>)
    requires IsOrbit(p, budget, t)
    ensures t == [t[0]] + Iterates(p, t[0], budget)
    decreases budget
  {
    if budget > 0 {
      var next := Step(p, t[0]);
      assert StepsTo(p, t, 0);
      if Escaped(p, next) {
        assert t == [t[0], next];
      } else {
        var tail := t[1..];
        forall j: nat | j + 1 < |tail|
          ensures StepsTo(p, tail, j)
        {
          assert StepsTo(p, t, j + 1);
        }
        forall j | 1 <= j < |tail| - 1
          ensures !Escaped(p, tail[j])
        {
          assert tail[j] == t[j + 1];
        }
        assert IsOrbit(p, budget - 1, tail);
        OrbitUnique(p, budget - 1, tail);
        assert t == [t[0]] + tail;
      }
    }
  }

  /** Orbit is exactly the trajectory described by IsOrbit. */
  lemma OrbitCharacterised(p: Fractal, seed: Quat, t: seq<Quat>)
    ensures IsOrbit(p, Budget(p), Orbit(p, seed))
    ensures IsOrbit(p, Budget(p), t) && t[0] == seed <==> t == Orbit(p, seed)
  {
    IteratesFormOrbit(p, seed, Budget(p));
    if IsOrbit(p, Budget(p), t) && t[0] == seed {
      OrbitUnique(p, Budget(p), t);
    }
  }

  /** One point yields between 2 and Budget + 2 records, the sentinel included. */
  lemma EmittedLength(p: Fractal, seed: Quat)
    ensures 2 <= |Emitted(p, seed)| <= Budget(p) + 2
    ensures Emitted(p, seed)[0] == seed && Emitted(p, seed)[|Emitted(p, seed)| - 1] == Sentinel
  {
    IteratesFormOrbit(p, seed, Budget(p));
  }

  /**
   * The escape boundary is closed: an iterate whose length equals a non-NaN
   * threshold ends the trajectory.
   */
  lemma StopsAtThreshold(p: Fractal, seed: Quat, j: nat)
    requires 1 <= j < |Orbit(p, seed)|
    requires !IsNaN(p.threshold) && p.length(Orbit(p, seed)[j]) == p.threshold
    ensures j == |Orbit(p, seed)| - 1
  {
    IteratesFormOrbit(p, seed, Budget(p));
    assert Escaped(p, Orbit(p, seed)[j]);
  }

  /** The geometry shader's `main` for one input point. */
  method ShaderMain(p: Fractal, seed: Quat) returns (records: seq<Quat>)
    ensures records == Emitted(p, seed)
  {
    var z := seed;
    records := [z];
    var i := 0;
    while i < p.maxIterations
      invariant 0 <= i <= Budget(p)
      invariant records + Iterates(p, z, Budget(p) - i) == Orbit(p, seed)
      decreases p.maxIterations - i
    {
      var previous := z;
      z := Step(p, z);
      records := records + [z];
      if Escaped(p, z) {
        assert Iterates(p, previous, Budget(p) - i) == [z];
        break;
      }
      assert Iterates(p, previous, Budget(p) - i) == [z] + Iterates(p, z, Budget(p) - (i + 1));
      i := i + 1;
    }
    records := records + [Sentinel];
  }

  // ----- The captured stream -----

  /** Each trajectory followed by a sentinel, all concatenated. */
  function Join(ts: seq<seq<Quat>>): seq<Quat> {
    if ts == [] then [] else Join(ts[..|ts| - 1]) + ts[|ts| - 1] + [Sentinel]
  }

  function Orbits(p: Fractal, points: seq<Quat>): (r: seq<seq<Quat>>)
    ensures |r| == |points|
  {
    seq(|points|, i requires 0 <= i < |points| => Orbit(p, points[i]))
  }

  /** The records of one draw call: the points' records in input order. */
  function Stream(p: Fractal, points: seq<Quat>): seq<Quat> {
    Join(Orbits(p, points))
  }

  /** Transform feedback stops writing once the buffer is full. */
  function Capture(records: seq<Quat>, capacity: nat): (r: seq<Quat>)
    ensures r <= records && |r| <= capacity
    ensures |records| <= capacity ==> r == records
    ensures capacity < |records| ==> |r| == capacity
  {
    if |records| <= capacity then records else records[..capacity]
  }

  /**
   * The float buffer read back after drawing the points held in `data`
   * (4 floats per point) with 502 records of room per point.
   */
  function GpuFeedback(p: Fractal, data: seq<Float>): seq<Float> {
    var points := Unflatten(data);
    Flatten(Capture(Stream(p, points), MaxOutputRecordsPerInput * |points|))
  }

  lemma {:induction false} StreamLength(p: Fractal, points: seq<Quat>)
    ensures 2 * |points| <= |Stream(p, points)| <= (Budget(p) + 2) * |points|
    decreases |points|
  {
    if points != [] {
      var init := points[..|points| - 1];
      var last := points[|points| - 1];
      StreamLength(p, init);
      assert Orbits(p, points)[..|points| - 1] == Orbits(p, init);
      assert Stream(p, points) == Stream(p, init) + Orbit(p, last) + [Sentinel];
      EmittedLength(p, last);
      MultiplySucc(Budget(p) + 2, |init|);
    }
  }

  // ----- Splitting the stream at the sentinels -----

  /** The trajectories closed by a sentinel, in stream order. */
  function Terminated(s: seq<Quat>): seq<seq<Quat>> {
    if s == [] then []
    else
      var init := s[..|s| - 1];
      if s[|s| - 1] == Sentinel then Terminated(init) + [Trailing(init)] else Terminated(init)
  }

  /** The records after the last sentinel, which no sentinel closes. */
  function Trailing(s: seq<Quat>): seq<Quat> {
    if s == [] then []
    else
      var init := s[..|s| - 1];
      if s[|s| - 1] == Sentinel then [] else Trailing(init) + [s[|s| - 1]]
  }

  /** The read-back loop of `get_trajectories`. */
  method GetTrajectories(feedback: seq<Float>) returns (trajectories: seq<seq<Quat>>)
    ensures trajectories == Terminated(Unflatten(feedback))
  {
    trajectories := [];
    ghost var records := Unflatten(feedback);
    var primitives := |feedback| / 4;
    var trajectory: seq<Quat> := [];
    for i := 0 to primitives
      invariant trajectories == Terminated(records[..i])
      invariant trajectory == Trailing(records[..i])
    {
      var feedbackIndex := 4 * i;
      assert records[..i + 1][..i] == records[..i];
      if feedback[feedbackIndex] == SentinelComponent && feedback[feedbackIndex + 1] == SentinelComponent
        && feedback[feedbackIndex + 2] == SentinelComponent && feedback[feedbackIndex + 3] == SentinelComponent
      {
        trajectories := trajectories + [trajectory];
        trajectory := [];
      } else {
        var q := Quat(feedback[feedbackIndex], feedback[feedbackIndex + 1], feedback[feedbackIndex + 2], feedback[feedbackIndex + 3]);
        trajectory := trajectory + [q];
      }
    }
    assert records[..primitives] == records;
  }

  /** Records with no sentinel among them only extend the trailing run. */
  lemma {:induction false} AppendUnterminated(s: seq<Quat>, t: seq<Quat>)
    requires Sentinel !in t
    ensures Terminated(s + t) == Terminated(s)
    ensures Trailing(s + t) == Trailing(s) + t
    decreases |t|
  {
    if t == [] {
      assert s + t == s;
    } else {
      var init := t[..|t| - 1];
      assert Sentinel !in init by {
        forall r | r in init ensures r in t { }
      }
      AppendUnterminated(s, init);
      assert (s + t)[..|s + t| - 1] == s + init;
      assert t == init + [t[|t| - 1]];
    }
  }

  /** Splitting what Join produced gives the trajectories back, with nothing left over. */
  lemma {:induction false} TerminatedJoin(ts: seq<seq<Quat>>)
    requires forall i :: 0 <= i < |ts| ==> Sentinel !in ts[i]
    ensures Terminated(Join(ts)) == ts
    ensures Trailing(Join(ts)) == []
    decreases |ts|
  {
    if ts != [] {
      var init := ts[..|ts| - 1];
      var last := ts[|ts| - 1];
      TerminatedJoin(init);
      AppendUnterminated(Join(init), last);
      var s := Join(init) + last;
      assert Join(ts) == s + [Sentinel];
      assert (s + [Sentinel])[..|s|] == s;
      assert Terminated(Join(ts)) == Terminated(s) + [Trailing(s)];
      assert Trailing(s) == [] + last == last;
      assert ts == init + [last];
    }
  }

  /** Joining the trajectories and appending the trailing records rebuilds the stream. */
  lemma {:induction false} JoinTerminated(s: seq<Quat>)
    ensures Join(Terminated(s)) + Trailing(s) == s
    decreases |s|
  {
    if s != [] {
      var init := s[..|s| - 1];
      JoinTerminated(init);
      if s[|s| - 1] == Sentinel {
        var ts := Terminated(init) + [Trailing(init)];
        assert ts[..|ts| - 1] == Terminated(init);
      }
      assert s == init + [s[|s| - 1]];
    }
  }

  /** No trajectory and no trailing run holds the sentinel record. */
  lemma {:induction false} TerminatedSentinelFree(s: seq<Quat>)
    ensures forall i :: 0 <= i < |Terminated(s)| ==> Sentinel !in Terminated(s)[i]
    ensures Sentinel !in Trailing(s)
    decreases |s|
  {
    if s != [] {
      TerminatedSentinelFree(s[..|s| - 1]);
    }
  }

  /** One trajectory per sentinel record. */
  lemma {:induction false} TerminatedCount(s: seq<Quat>)
    ensures |Terminated(s)| == multiset(s)[Sentinel]
    decreases |s|
  {
    if s != [] {
      var init := s[..|s| - 1];
      TerminatedCount(init);
      assert s == init + [s[|s| - 1]];
    }
  }

  /** Splitting a prefix of a stream gives a prefix of its trajectories. */
  lemma {:induction false} TerminatedPrefix(s: seq<Quat>, j: nat)
    requires j <= |s|
    ensures Terminated(s[..j]) <= Terminated(s)
    decreases |s|
  {
    if j < |s| {
      var init := s[..|s| - 1];
      assert s[..j] == init[..j];
      TerminatedPrefix(init, j);
    } else {
      assert s[..j] == s;
    }
  }

  /**
   * When no trajectory meets the sentinel value, splitting a captured stream
   * gives the points' trajectories in input order, cut short only where the
   * buffer was full.
   */
  lemma CapturedTrajectories(p: Fractal, points: seq<Quat>, capacity: nat)
    requires forall i :: 0 <= i < |points| ==> Sentinel !in Orbit(p, points[i])
    ensures Terminated(Capture(Stream(p, points), capacity)) <= Orbits(p, points)
    ensures |Stream(p, points)| <= capacity ==> Terminated(Capture(Stream(p, points), capacity)) == Orbits(p, points)
  {
    TerminatedJoin(Orbits(p, points));
    var s := Stream(p, points);
    if capacity < |s| {
      TerminatedPrefix(s, capacity);
    }
  }

  /** The batch's records fit the feedback buffer: 502 records of room per point. */
  predicate StreamFits(p: Fractal, points: seq<Quat>) {
    |Stream(p, points)| <= MaxOutputRecordsPerInput * |points|
  }

  /** A loop budget that leaves every trajectory at most 502 records makes any batch fit. */
  lemma BudgetStreamFits(p: Fractal, points: seq<Quat>)
    requires Budget(p) + 2 <= MaxOutputRecordsPerInput
    ensures StreamFits(p, points)
  {
    StreamLength(p, points);
    MultiplyMonotone(Budget(p) + 2, MaxOutputRecordsPerInput, |points|);
  }

  /**
   * End to end for one batch: when no trajectory meets the sentinel value,
   * `get_trajectories` returns the trajectories of the batch's points in input
   * order, at most one per point, and all of them when the batch's records fit
   * the 502 records of room per point, in particular when every trajectory
   * does.
   */
  lemma FeedbackTrajectories(p: Fractal, points: seq<Quat>)
    requires forall i :: 0 <= i < |points| ==> Sentinel !in Orbit(p, points[i])
    ensures Terminated(Unflatten(GpuFeedback(p, Flatten(points)))) <= Orbits(p, points)
    ensures StreamFits(p, points) ==>
              Terminated(Unflatten(GpuFeedback(p, Flatten(points)))) == Orbits(p, points)
    ensures Budget(p) + 2 <= MaxOutputRecordsPerInput ==>
              Terminated(Unflatten(GpuFeedback(p, Flatten(points)))) == Orbits(p, points)
  {
    var capacity := MaxOutputRecordsPerInput * |points|;
    FeedbackRecords(p, Flatten(points));
    UnflattenFlatten(points);
    assert Unflatten(GpuFeedback(p, Flatten(points))) == Capture(Stream(p, points), capacity);
    CapturedTrajectories(p, points, capacity);
    if Budget(p) + 2 <= MaxOutputRecordsPerInput {
      BudgetStreamFits(p, points);
    }
  }

  /**
   * The float buffer read back after a draw call holds, as 4-float records,
   * the points' records in input order, as many as fit in 502 records per
   * point.
   */
  lemma FeedbackRecords(p: Fractal, data: seq<Float>)
    ensures Unflatten(GpuFeedback(p, data))
         == Capture(Stream(p, Unflatten(data)), MaxOutputRecordsPerInput * (|data| / 4))
    ensures |GpuFeedback(p, data)| <= 4 * (MaxOutputRecordsPerInput * (|data| / 4))
  {
    UnflattenFlatten(Capture(Stream(p, Unflatten(data)), MaxOutputRecordsPerInput * (|data| / 4)));
  }

  lemma MultiplyMonotone(a: nat, b: nat, n: nat)
    requires a <= b
    ensures a * n <= b * n
  {
  }

  lemma MultiplySucc(a: nat, n: nat)
    ensures a * (n + 1) == a * n + a
  {
  }
}
