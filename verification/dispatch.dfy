/** The visibility manager's `LateUpdate`: whether anything is dispatched this frame, and to which
    renderers with how many thread groups. */
module VisibilityDispatch {
  import opened Geometry
  import opened PointCloudRenderer

  /** Threads per group of the visibility kernel. */
  const ThreadGroupSize: nat := 64

  /** A 4x4 matrix, kept opaque: only its identity matters here. */
  type Matrix = seq<real>

  /** The manager's state after its own `Awake`: whether a compute shader is assigned, the kernel index
      `FindKernel` returned, whether `Camera.main` was found, and the two memory rates (whatever value
      the fields hold: the `[Range(0,1)]` attribute limits only the inspector's slider). */
  datatype Manager = Manager(shaderAssigned: bool, kernel: int, cameraAssigned: bool,
                             learnRate: real, forgetRate: real)

  /** Per-frame inputs: the camera's view-projection, screen size, frame time and whether the global
      `_CustomDepthTexture` is available yet. */
  datatype FrameInput = FrameInput(viewProj: Matrix, screenWidth: int, screenHeight: int,
                                   deltaTime: real, depthTexture: bool)

  /** An entry of the `renderers` array: the component and its object's local-to-world matrix. */
  datatype Slot = Slot(renderer: Renderer, localToWorld: Matrix)

  /** Whether the loop throws at this entry and so ends there: a null entry throws on `r.PointCount`;
      a destroyed component still answers `PointCount`, and if it has points the count is set and then
      `r.transform` throws. A destroyed component without points is skipped before `transform`. */
  predicate StopsLoop(entry: Option<Slot>)
  {
    entry.None? || (PointCount(entry.value.renderer) > 0 && entry.value.renderer.destroyed)
  }

  /** The calls `LateUpdate` makes on the compute shader, in order. */
  datatype Command =
    | SetDepthTexture
    | SetScreenSize(width: int, height: int)
    | SetDeltaTime(dt: real)
    | SetLearnRate(learn: real)
    | SetForgetRate(forget: real)
    | SetViewProj(vp: Matrix)
    | SetCount(count: nat)
    | SetLocalToWorld(ltw: Matrix)
    | SetPositionBuffer(positions: Option<GpuBuffer<Vec3>>)
    | SetMemoryBuffer(memory: Option<GpuBuffer<real>>)
    | Dispatch(groups: nat)

  /** The calls made inside the renderer loop, as opposed to the frame-wide ones before it. */
  predicate PerRendererCall(c: Command)
  {
    c.SetCount? || c.SetLocalToWorld? || c.SetPositionBuffer? || c.SetMemoryBuffer? || c.Dispatch?
  }

  /** `(cnt + 63) / 64`: enough groups to give every point a thread, with fewer than a group to spare. */
  function GroupCount(cnt: nat): (groups: nat)
    ensures groups * ThreadGroupSize >= cnt
    ensures cnt > 0 ==> (groups - 1) * ThreadGroupSize < cnt
    ensures cnt == 0 <==> groups == 0
  {
    (cnt + ThreadGroupSize - 1) / ThreadGroupSize
  }

  // ---------------------------------------------------------------------------------------------
  // The group count as written: `Mathf.CeilToInt(cnt / 64f)` converts `cnt` to single precision first.

  /** Below 2^24 every integer is a single-precision value. */
  const SingleExactLimit: nat := 0x100_0000

  /** The gap between neighbouring single-precision values around `n`. */
  function Spacing(n: nat): (s: nat)
    ensures s >= 1
    ensures n < SingleExactLimit ==> s == 1
  {
    if n < SingleExactLimit then 1 else 2 * Spacing(n / 2)
  }

  /** The distance between two naturals. */
  function Distance(a: nat, b: nat): nat
  {
    if a >= b then a - b else b - a
  }

  /** `n` rounded to the nearest multiple of `s`, ties to the even multiple: within half a step of `n`. */
  function RoundToMultiple(n: nat, s: nat): (f: nat)
    requires s >= 1
    ensures 2 * Distance(f, n) <= s
    ensures s == 1 ==> f == n
  {
    var q, rem := n / s, n % s;
    assert n == q * s + rem;
    assert (q + 1) * s == q * s + s;
    if 2 * rem < s then q * s
    else if 2 * rem > s then (q + 1) * s
    else if q % 2 == 0 then q * s
    else (q + 1) * s
  }

  /** The `int` to `float` conversion of a non-negative integer: round to the nearest multiple of the
      spacing. Integers below 2^24 come through unchanged, and no result is further than half a
      spacing from its input. */
  function ToSingle(n: nat): (f: nat)
    ensures n < SingleExactLimit ==> f == n
    ensures 2 * Distance(f, n) <= Spacing(n)
  {
    RoundToMultiple(n, Spacing(n))
  }

  /** `Mathf.CeilToInt(cnt / 64f)`: dividing a float by 64 is exact, so only the conversion rounds. The
      result is the exact group count of the rounded point count, and so of `cnt` itself below 2^24. */
  function FloatGroupCount(cnt: nat): (groups: nat)
    ensures groups == GroupCount(ToSingle(cnt))
    ensures groups * ThreadGroupSize >= ToSingle(cnt)
    ensures cnt < SingleExactLimit ==> groups == GroupCount(cnt)
  {
    (ToSingle(cnt) + ThreadGroupSize - 1) / ThreadGroupSize
  }

  /** At 2^24 + 1 points the conversion rounds down to 2^24, and the dispatch leaves the last point
      without a thread. */
  lemma FloatGroupCountMissesPoint()
    ensures FloatGroupCount(16777217) == 262144
    ensures FloatGroupCount(16777217) * ThreadGroupSize < 16777217
    ensures GroupCount(16777217) == 262145
  {
    assert Spacing(8388608) == 1;
    assert Spacing(16777217) == 2;
    assert ToSingle(16777217) == 16777216;
  }

  // ---------------------------------------------------------------------------------------------
  // What `LateUpdate` issues.

  /** Whether `LateUpdate` gets past its guards: a shader and a valid kernel, a camera (the
      view-projection is read from it before the depth check), and the depth texture. */
  predicate Runs(mgr: Manager, frame: FrameInput)
  {
    mgr.shaderAssigned && mgr.kernel >= 0 && mgr.cameraAssigned && frame.depthTexture
  }

  /** The frame-wide parameters, set once before the renderer loop: nothing here is a per-renderer
      call, so nothing here dispatches. */
  function FrameSetup(mgr: Manager, frame: FrameInput): (cmds: seq<Command>)
    ensures forall k :: 0 <= k < |cmds| ==> !PerRendererCall(cmds[k])
  {
    [ SetDepthTexture, SetScreenSize(frame.screenWidth, frame.screenHeight), SetDeltaTime(frame.deltaTime),
      SetLearnRate(mgr.learnRate), SetForgetRate(mgr.forgetRate), SetViewProj(frame.viewProj) ]
  }

  /** The calls for one renderer with points: its count first, its transform and buffers, and last the
      one dispatch, with enough groups for every point. */
  function PerRenderer(s: Slot): (cmds: seq<Command>)
    ensures |cmds| > 0 && cmds[0] == SetCount(PointCount(s.renderer))
    ensures cmds[|cmds| - 1].Dispatch? && cmds[|cmds| - 1].groups * ThreadGroupSize >= PointCount(s.renderer)
    ensures forall k :: 0 <= k < |cmds| - 1 ==> !cmds[k].Dispatch?
    ensures forall k :: 0 <= k < |cmds| ==> PerRendererCall(cmds[k])
  {
    var cnt := PointCount(s.renderer);
    [ SetCount(cnt), SetLocalToWorld(s.localToWorld), SetPositionBuffer(PositionBuffer(s.renderer)),
      SetMemoryBuffer(MemoryBuffer(s.renderer)), Dispatch(GroupCount(cnt)) ]
  }

  /** The `foreach` over `renderers` from entry `i` on: empty clouds are skipped, a null entry throws on
      `r.PointCount`, and a destroyed component with points has its count set and then throws on
      `r.transform`; a throw abandons the rest of the loop. The loop only makes per-renderer calls and
      never dispatches zero groups. */
  function RendererCommands(slots: seq<Option<Slot>>, i: nat): (cmds: seq<Command>)
    requires i <= |slots|
    ensures forall k :: 0 <= k < |cmds| ==> PerRendererCall(cmds[k])
    ensures forall k :: 0 <= k < |cmds| && cmds[k].Dispatch? ==> cmds[k].groups > 0
    decreases |slots| - i
  {
    if i == |slots| then []
    else match slots[i]
      case None => []
      case Some(s) =>
        var cnt := PointCount(s.renderer);
        if cnt == 0 then RendererCommands(slots, i + 1)
        else if s.renderer.destroyed then [SetCount(cnt)]
        else PerRenderer(s) + RendererCommands(slots, i + 1)
  }

  /** `LateUpdate`: nothing at all unless every guard passes; otherwise the frame setup, then the loop,
      which sets no frame-wide parameter again. */
  function LateUpdate(mgr: Manager, frame: FrameInput, slots: seq<Option<Slot>>): (cmds: seq<Command>)
    ensures !Runs(mgr, frame) ==> cmds == []
    ensures Runs(mgr, frame) ==> |cmds| >= |FrameSetup(mgr, frame)| && cmds[..|FrameSetup(mgr, frame)|] == FrameSetup(mgr, frame)
    ensures Runs(mgr, frame) ==> forall k :: |FrameSetup(mgr, frame)| <= k < |cmds| ==> PerRendererCall(cmds[k])
  {
    if !mgr.shaderAssigned || mgr.kernel < 0 then []
    else if !mgr.cameraAssigned then []
    else if !frame.depthTexture then []
    else FrameSetup(mgr, frame) + RendererCommands(slots, 0)
  }

  // ---------------------------------------------------------------------------------------------
  // What each dispatch sees: replaying the calls against the shader's bound parameters.

  /** The shader parameters bound so far (`None`: never set). */
  datatype Bindings = Bindings(depthTexture: bool, screenSize: Option<(int, int)>, deltaTime: Option<real>,
                               learnRate: Option<real>, forgetRate: Option<real>, viewProj: Option<Matrix>,
                               count: Option<nat>, localToWorld: Option<Matrix>,
                               positions: Option<GpuBuffer<Vec3>>, memory: Option<GpuBuffer<real>>)

  const Unbound: Bindings := Bindings(false, None, None, None, None, None, None, None, None, None)

  /** One kernel dispatch: the parameters it runs with and its group count. */
  datatype DispatchRecord = DispatchRecord(bindings: Bindings, groups: nat)

  function Apply(b: Bindings, c: Command): Bindings
  {
    match c
    case SetDepthTexture => b.(depthTexture := true)
    case SetScreenSize(w, h) => b.(screenSize := Some((w, h)))
    case SetDeltaTime(dt) => b.(deltaTime := Some(dt))
    case SetLearnRate(x) => b.(learnRate := Some(x))
    case SetForgetRate(x) => b.(forgetRate := Some(x))
    case SetViewProj(m) => b.(viewProj := Some(m))
    case SetCount(n) => b.(count := Some(n))
    case SetLocalToWorld(m) => b.(localToWorld := Some(m))
    case SetPositionBuffer(buf) => b.(positions := buf)
    case SetMemoryBuffer(buf) => b.(memory := buf)
    case Dispatch(_) => b
  }

  /** The dispatches a call sequence makes, each with the parameters bound when it is issued. */
  function Replay(b: Bindings, cmds: seq<Command>): seq<DispatchRecord>
    decreases |cmds|
  {
    if |cmds| == 0 then []
    else (if cmds[0].Dispatch? then [DispatchRecord(b, cmds[0].groups)] else []) + Replay(Apply(b, cmds[0]), cmds[1..])
  }

  /** The parameters bound after a call sequence. */
  function Final(b: Bindings, cmds: seq<Command>): Bindings
    decreases |cmds|
  {
    if |cmds| == 0 then b else Final(Apply(b, cmds[0]), cmds[1..])
  }

  /** Replaying two call sequences in turn is replaying their concatenation. */
  lemma {:induction false} ReplayAppend(b: Bindings, xs: seq<Command>, ys: seq<Command>)
    ensures Replay(b, xs + ys) == Replay(b, xs) + Replay(Final(b, xs), ys)
    ensures Final(b, xs + ys) == Final(Final(b, xs), ys)
    decreases |xs|
  {
    if |xs| == 0 {
      assert xs + ys == ys;
    } else {
      assert (xs + ys)[0] == xs[0];
      assert (xs + ys)[1..] == xs[1..] + ys;
      ReplayAppend(Apply(b, xs[0]), xs[1..], ys);
    }
  }

  // ---------------------------------------------------------------------------------------------
  // The plan: which renderers are dispatched, in which order, with how many groups.

  /** The first entry at or after `i` where the loop throws, or the end of the array: the loop stops
      there. */
  function Reach(slots: seq<Option<Slot>>, i: nat): (n: nat)
    requires i <= |slots|
    ensures i <= n <= |slots|
    ensures forall j :: i <= j < n ==> !StopsLoop(slots[j])
    ensures n < |slots| ==> StopsLoop(slots[n])
    decreases |slots| - i
  {
    if i == |slots| || StopsLoop(slots[i]) then i else Reach(slots, i + 1)
  }

  /** A planned dispatch: a renderer's index in the array, its point count and its group count. */
  datatype Planned = Planned(index: nat, count: nat, groups: nat)

  predicate PlannedFor(slots: seq<Option<Slot>>, p: Planned)
  {
    && p.index < |slots|
    && slots[p.index].Some?
    && !slots[p.index].value.renderer.destroyed
    && p.count == PointCount(slots[p.index].value.renderer)
    && p.count > 0
    && p.groups == GroupCount(p.count)
  }

  /** The renderers from entry `i` on that the loop reaches and that have points, in array order. */
  function PlanFrom(slots: seq<Option<Slot>>, i: nat): (plan: seq<Planned>)
    requires i <= |slots|
    ensures forall k :: 0 <= k < |plan| ==> PlannedFor(slots, plan[k]) && i <= plan[k].index < Reach(slots, i)
    ensures forall k, l :: 0 <= k < l < |plan| ==> plan[k].index < plan[l].index
    decreases |slots| - i
  {
    if i == |slots| then []
    else match slots[i]
      case None => []
      case Some(s) =>
        var cnt := PointCount(s.renderer);
        if cnt == 0 then PlanFrom(slots, i + 1)
        else if s.renderer.destroyed then []
        else [Planned(i, cnt, GroupCount(cnt))] + PlanFrom(slots, i + 1)
  }

  /** Every renderer with points that the loop reaches is in the plan. */
  lemma {:induction false} PlanFromComplete(slots: seq<Option<Slot>>, i: nat, j: nat)
    requires i <= |slots|
    requires i <= j < Reach(slots, i)
    requires PointCount(slots[j].value.renderer) > 0
    ensures exists k :: 0 <= k < |PlanFrom(slots, i)| && PlanFrom(slots, i)[k].index == j
    decreases |slots| - i
  {
    var plan := PlanFrom(slots, i);
    var s := slots[i].value;
    if j == i {
      assert plan[0].index == j;
    } else {
      PlanFromComplete(slots, i + 1, j);
      var rest := PlanFrom(slots, i + 1);
      var k :| 0 <= k < |rest| && rest[k].index == j;
      if PointCount(s.renderer) == 0 {
        assert plan[k].index == j;
      } else {
        assert plan[k + 1].index == j;
      }
    }
  }

  function Plan(mgr: Manager, frame: FrameInput, slots: seq<Option<Slot>>): seq<Planned>
  {
    if Runs(mgr, frame) then PlanFrom(slots, 0) else []
  }

  /** Bindings that carry this frame's depth texture, screen size, time step, rates and camera. */
  predicate FrameBound(b: Bindings, mgr: Manager, frame: FrameInput)
  {
    && b.depthTexture
    && b.screenSize == Some((frame.screenWidth, frame.screenHeight))
    && b.deltaTime == Some(frame.deltaTime)
    && b.learnRate == Some(mgr.learnRate)
    && b.forgetRate == Some(mgr.forgetRate)
    && b.viewProj == Some(frame.viewProj)
  }

  /** A dispatch carries out a planned one: the frame's parameters, and that renderer's count,
      transform, position and memory buffers and group count. */
  predicate Matches(rec: DispatchRecord, mgr: Manager, frame: FrameInput, slots: seq<Option<Slot>>, p: Planned)
  {
    && PlannedFor(slots, p)
    && FrameBound(rec.bindings, mgr, frame)
    && rec.bindings.count == Some(p.count)
    && rec.bindings.localToWorld == Some(slots[p.index].value.localToWorld)
    && rec.bindings.positions == PositionBuffer(slots[p.index].value.renderer)
    && rec.bindings.memory == MemoryBuffer(slots[p.index].value.renderer)
    && rec.groups == p.groups
  }

  lemma ReplaySetup(mgr: Manager, frame: FrameInput)
    ensures Replay(Unbound, FrameSetup(mgr, frame)) == []
    ensures FrameBound(Final(Unbound, FrameSetup(mgr, frame)), mgr, frame)
  {
    var cmds := FrameSetup(mgr, frame);
    var b := Unbound;
    var k := 0;
    while k < |cmds|
      invariant 0 <= k <= |cmds|
      invariant Replay(Unbound, cmds) == Replay(b, cmds[k..])
      invariant Final(Unbound, cmds) == Final(b, cmds[k..])
      invariant forall j :: k <= j < |cmds| ==> !cmds[j].Dispatch?
      invariant k == |cmds| ==> FrameBound(b, mgr, frame)
      invariant k >= 1 ==> b.depthTexture
      invariant k >= 2 ==> b.screenSize == Some((frame.screenWidth, frame.screenHeight))
      invariant k >= 3 ==> b.deltaTime == Some(frame.deltaTime)
      invariant k >= 4 ==> b.learnRate == Some(mgr.learnRate)
      invariant k >= 5 ==> b.forgetRate == Some(mgr.forgetRate)
    {
      assert cmds[k..][1..] == cmds[k + 1..];
      b := Apply(b, cmds[k]);
      k := k + 1;
    }
  }

  lemma ReplayPerRenderer(b: Bindings, s: Slot)
    ensures Replay(b, PerRenderer(s)) ==
              [DispatchRecord(b.(count := Some(PointCount(s.renderer)), localToWorld := Some(s.localToWorld),
                                 positions := PositionBuffer(s.renderer), memory := MemoryBuffer(s.renderer)),
                              GroupCount(PointCount(s.renderer)))]
    ensures Final(b, PerRenderer(s)) ==
              b.(count := Some(PointCount(s.renderer)), localToWorld := Some(s.localToWorld),
                 positions := PositionBuffer(s.renderer), memory := MemoryBuffer(s.renderer))
  {
    var cmds := PerRenderer(s);
    var b1 := Apply(b, cmds[0]);
    var b2 := Apply(b1, cmds[1]);
    var b3 := Apply(b2, cmds[2]);
    var b4 := Apply(b3, cmds[3]);
    var tail4 := cmds[4..];
    assert tail4[1..] == [];
    assert Replay(b4, tail4) == [DispatchRecord(b4, cmds[4].groups)];
    assert Final(b4, tail4) == b4;
    assert cmds[3..][1..] == tail4;
    assert cmds[2..][1..] == cmds[3..];
    assert cmds[1..][1..] == cmds[2..];
    assert Replay(b3, cmds[3..]) == Replay(b4, tail4);
    assert Replay(b2, cmds[2..]) == Replay(b3, cmds[3..]);
    assert Replay(b1, cmds[1..]) == Replay(b2, cmds[2..]);
    assert Final(b3, cmds[3..]) == b4;
    assert Final(b2, cmds[2..]) == b4;
    assert Final(b1, cmds[1..]) == b4;
  }

  /** The renderer loop from entry `i` dispatches exactly the plan from `i`, one dispatch per planned
      renderer in order, each seeing the frame's parameters and that renderer's own. */
  lemma {:induction false} ReplayRendererCommands(b: Bindings, mgr: Manager, frame: FrameInput,
                                                  slots: seq<Option<Slot>>, i: nat)
    requires i <= |slots|
    requires FrameBound(b, mgr, frame)
    ensures |Replay(b, RendererCommands(slots, i))| == |PlanFrom(slots, i)|
    ensures forall k :: 0 <= k < |PlanFrom(slots, i)| ==>
              Matches(Replay(b, RendererCommands(slots, i))[k], mgr, frame, slots, PlanFrom(slots, i)[k])
    ensures FrameBound(Final(b, RendererCommands(slots, i)), mgr, frame)
    decreases |slots| - i
  {
    if i == |slots| || slots[i].None? {
    } else {
      var s := slots[i].value;
      var rest := RendererCommands(slots, i + 1);
      if PointCount(s.renderer) == 0 {
        assert RendererCommands(slots, i) == rest;
        ReplayRendererCommands(b, mgr, frame, slots, i + 1);
      } else if s.renderer.destroyed {
        var cmds := [SetCount(PointCount(s.renderer))];
        assert RendererCommands(slots, i) == cmds;
        assert cmds[1..] == [];
        assert Final(b, cmds) == b.(count := Some(PointCount(s.renderer)));
      } else {
        var block := PerRenderer(s);
        assert RendererCommands(slots, i) == block + rest;
        ReplayAppend(b, block, rest);
        ReplayPerRenderer(b, s);
        var b' := Final(b, block);
        ReplayRendererCommands(b', mgr, frame, slots, i + 1);
        var recs := Replay(b, block + rest);
        var plan := PlanFrom(slots, i);
        assert plan == [Planned(i, PointCount(s.renderer), GroupCount(PointCount(s.renderer)))] + PlanFrom(slots, i + 1);
        assert Matches(recs[0], mgr, frame, slots, plan[0]);
        forall k | 1 <= k < |plan|
          ensures Matches(recs[k], mgr, frame, slots, plan[k])
        {
          assert recs[k] == Replay(b', rest)[k - 1];
          assert plan[k] == PlanFrom(slots, i + 1)[k - 1];
        }
      }
    }
  }

  /** The dispatches a call sequence makes, starting from nothing bound. */
  function Dispatches(cmds: seq<Command>): seq<DispatchRecord>
  {
    Replay(Unbound, cmds)
  }

  /** `LateUpdate` carries out the plan: one dispatch per planned renderer, in order, each with that
      renderer's count, transform, buffers and group count and with the one set of frame parameters
      bound before the loop. The rates reach the kernel unchanged, so they lie in [0, 1] whenever the
      manager's fields do, as the inspector's slider keeps them. */
  lemma LateUpdateFollowsPlan(mgr: Manager, frame: FrameInput, slots: seq<Option<Slot>>)
    ensures |Dispatches(LateUpdate(mgr, frame, slots))| == |Plan(mgr, frame, slots)|
    ensures forall k :: 0 <= k < |Plan(mgr, frame, slots)| ==>
              Matches(Dispatches(LateUpdate(mgr, frame, slots))[k], mgr, frame, slots, Plan(mgr, frame, slots)[k])
    ensures 0.0 <= mgr.learnRate <= 1.0 && 0.0 <= mgr.forgetRate <= 1.0 ==>
              forall k :: 0 <= k < |Dispatches(LateUpdate(mgr, frame, slots))| ==>
                var b := Dispatches(LateUpdate(mgr, frame, slots))[k].bindings;
                b.learnRate.Some? && 0.0 <= b.learnRate.value <= 1.0 &&
                b.forgetRate.Some? && 0.0 <= b.forgetRate.value <= 1.0
  {
    if Runs(mgr, frame) {
      var setup := FrameSetup(mgr, frame);
      ReplaySetup(mgr, frame);
      ReplayAppend(Unbound, setup, RendererCommands(slots, 0));
      ReplayRendererCommands(Final(Unbound, setup), mgr, frame, slots, 0);
    }
  }

  /** A missing shader or kernel, a missing camera or a missing depth texture means no call on the
      shader at all, so no dispatch and no memory buffer written this frame. */
  lemma NoDispatchUnlessRunning(mgr: Manager, frame: FrameInput, slots: seq<Option<Slot>>)
    ensures !Runs(mgr, frame) ==> LateUpdate(mgr, frame, slots) == [] && Dispatches(LateUpdate(mgr, frame, slots)) == []
    ensures Runs(mgr, frame) ==> LateUpdate(mgr, frame, slots)[..|FrameSetup(mgr, frame)|] == FrameSetup(mgr, frame)
  {
  }

  /** When no entry makes the loop throw, a renderer is dispatched exactly when it has points, at most
      once, and in array order; a null entry, or a destroyed component with points, stops every
      renderer from it on, itself included. */
  lemma EachRendererWithPointsOnce(mgr: Manager, frame: FrameInput, slots: seq<Option<Slot>>)
    requires Runs(mgr, frame)
    ensures forall k, l :: 0 <= k < l < |Plan(mgr, frame, slots)| ==>
              Plan(mgr, frame, slots)[k].index < Plan(mgr, frame, slots)[l].index
    ensures (forall j :: 0 <= j < |slots| ==> !StopsLoop(slots[j])) ==>
              forall j :: 0 <= j < |slots| ==>
                (PointCount(slots[j].value.renderer) > 0 <==>
                 exists k :: 0 <= k < |Plan(mgr, frame, slots)| && Plan(mgr, frame, slots)[k].index == j)
    ensures forall j, k :: 0 <= j < |slots| && StopsLoop(slots[j]) && 0 <= k < |Plan(mgr, frame, slots)| ==>
              Plan(mgr, frame, slots)[k].index < j
  {
    var plan := Plan(mgr, frame, slots);
    if forall j :: 0 <= j < |slots| ==> !StopsLoop(slots[j]) {
      assert Reach(slots, 0) == |slots|;
      forall j | 0 <= j < |slots| && PointCount(slots[j].value.renderer) > 0
        ensures exists k :: 0 <= k < |plan| && plan[k].index == j
      {
        PlanFromComplete(slots, 0, j);
      }
    }
  }
}
