/**
 What the OpenGL driver does with the blending calls the state applier issues,
 and whether the applier's remembered blending state keeps telling the truth
 about it.

 The driver holds one blend configuration per draw buffer. The indexed calls
 (glEnablei, glBlendFuncSeparatei, glBlendEquationSeparatei) change one draw
 buffer; the non-indexed ones (glEnable(GL_BLEND), glBlendFuncSeparate,
 glBlendEquationSeparate) change every draw buffer (section 17.3.6 of the
 OpenGL 4.6 core profile specification). Calls outside blending leave the
 blend state alone.
*/
module BlendDriver {
  import opened GLStateTypes
  import opened StateUpdate
  import opened GLState

  /** The driver's blend state: one configuration per draw buffer. */
  type Buffers = seq<Blend>

  /** Draw buffer i after the driver executes c. */
  function ExecAt(d: Buffers, i: nat, c: Call): Blend
    requires i < |d|
  {
    match c
    case Enable(BlendCap) => d[i].(enabled := true)
    case Disable(BlendCap) => d[i].(enabled := false)
    case Enablei(BlendCap, j) => if j == i then d[i].(enabled := true) else d[i]
    case Disablei(BlendCap, j) => if j == i then d[i].(enabled := false) else d[i]
    case BlendFuncSeparate(funcs) => d[i].(funcs := funcs)
    case BlendFuncSeparatei(j, funcs) => if j == i then d[i].(funcs := funcs) else d[i]
    case BlendEquationSeparate(equations) => d[i].(equations := equations)
    case BlendEquationSeparatei(j, equations) => if j == i then d[i].(equations := equations) else d[i]
    case _ => d[i]
  }

  /** The driver executes one call. */
  function Exec(d: Buffers, c: Call): (r: Buffers)
    ensures |r| == |d|
    ensures forall i :: 0 <= i < |d| ==> r[i] == ExecAt(d, i, c)
  {
    seq(|d|, i requires 0 <= i < |d| => ExecAt(d, i, c))
  }

  /** The driver executes a call sequence in order. */
  function ExecAll(d: Buffers, calls: seq<Call>): (r: Buffers)
    ensures |r| == |d|
    decreases |calls|
  {
    if |calls| == 0 then d else ExecAll(Exec(d, calls[0]), calls[1..])
  }

  lemma {:induction false} ExecAllAppend(d: Buffers, a: seq<Call>, b: seq<Call>)
    ensures ExecAll(d, a + b) == ExecAll(ExecAll(d, a), b)
    decreases |a|
  {
    if |a| == 0 {
      assert a + b == b;
    } else {
      assert (a + b)[0] == a[0];
      assert (a + b)[1..] == a[1..] + b;
      ExecAllAppend(Exec(d, a[0]), a[1..], b);
    }
  }

  lemma ExecAllSingle(d: Buffers, c: Call)
    ensures ExecAll(d, [c]) == Exec(d, c)
  {
    assert [c][1..] == [];
  }

  /** The remembered blending state tells the truth about the driver: while
      independent blending is on, every draw buffer holds its own remembered
      target; while it is off, every draw buffer holds remembered target 0,
      the one configuration the non-indexed calls set (the applier does not
      track targets 1.. then). */
  predicate Consistent(d: Buffers, cache: Blending) {
    && |d| == |cache.targets| > 0
    && (if cache.independent then d == cache.targets
        else forall i :: 0 <= i < |d| ==> d[i] == cache.targets[0])
  }

  // ---- target 0 in global mode ------------------------------------------

  /** A draw buffer after the non-indexed calls of ApplyGlobalBlending. */
  function GlobalEffect(current: Blend, next: Blend, b: Blend): Blend {
    Blend(if current.enabled != next.enabled then next.enabled else b.enabled,
          if current.funcs != next.funcs then next.funcs else b.funcs,
          if current.equations != next.equations then next.equations else b.equations)
  }

  /** A call issued or not, seen from draw buffer k. */
  lemma ExecOptional(d: Buffers, issued: bool, c: Call, k: nat)
    requires k < |d|
    ensures ExecAll(d, if issued then [c] else [])[k] == if issued then ExecAt(d, k, c) else d[k]
  {
    if issued { ExecAllSingle(d, c); }
  }

  lemma ExecEnable(d: Buffers, issued: bool, on: bool, k: nat)
    requires k < |d|
    ensures ExecAll(d, if issued then [EnableCall(BlendCap, on)] else [])[k]
            == d[k].(enabled := if issued then on else d[k].enabled)
  {
    ExecOptional(d, issued, EnableCall(BlendCap, on), k);
  }

  lemma ExecFuncs(d: Buffers, issued: bool, funcs: BlendFuncs, k: nat)
    requires k < |d|
    ensures ExecAll(d, if issued then [BlendFuncSeparate(funcs)] else [])[k]
            == d[k].(funcs := if issued then funcs else d[k].funcs)
  {
    ExecOptional(d, issued, BlendFuncSeparate(funcs), k);
  }

  lemma ExecEquations(d: Buffers, issued: bool, equations: BlendEquations, k: nat)
    requires k < |d|
    ensures ExecAll(d, if issued then [BlendEquationSeparate(equations)] else [])[k]
            == d[k].(equations := if issued then equations else d[k].equations)
  {
    ExecOptional(d, issued, BlendEquationSeparate(equations), k);
  }

  lemma ExecEnableAt(d: Buffers, issued: bool, i: nat, on: bool, k: nat)
    requires k < |d|
    ensures ExecAll(d, if issued then [EnableIndexedCall(BlendCap, i, on)] else [])[k]
            == if issued && k == i then d[k].(enabled := on) else d[k]
  {
    ExecOptional(d, issued, EnableIndexedCall(BlendCap, i, on), k);
  }

  lemma ExecFuncsAt(d: Buffers, issued: bool, i: nat, funcs: BlendFuncs, k: nat)
    requires k < |d|
    ensures ExecAll(d, if issued then [BlendFuncSeparatei(i, funcs)] else [])[k]
            == if issued && k == i then d[k].(funcs := funcs) else d[k]
  {
    ExecOptional(d, issued, BlendFuncSeparatei(i, funcs), k);
  }

  lemma ExecEquationsAt(d: Buffers, issued: bool, i: nat, equations: BlendEquations, k: nat)
    requires k < |d|
    ensures ExecAll(d, if issued then [BlendEquationSeparatei(i, equations)] else [])[k]
            == if issued && k == i then d[k].(equations := equations) else d[k]
  {
    ExecOptional(d, issued, BlendEquationSeparatei(i, equations), k);
  }

  lemma GlobalBlendingCalls(current: Blend, next: Blend)
    ensures ApplyGlobalBlending(current, next).calls
            == (if current.enabled != next.enabled then [EnableCall(BlendCap, next.enabled)] else [])
               + (if current.funcs != next.funcs then [BlendFuncSeparate(next.funcs)] else [])
               + (if current.equations != next.equations then [BlendEquationSeparate(next.equations)] else [])
  {
  }

  lemma GlobalBlendingEffectAt(d: Buffers, current: Blend, next: Blend, k: nat)
    requires k < |d|
    ensures ExecAll(d, ApplyGlobalBlending(current, next).calls)[k] == GlobalEffect(current, next, d[k])
  {
    var enabled := if current.enabled != next.enabled then [EnableCall(BlendCap, next.enabled)] else [];
    var funcs := if current.funcs != next.funcs then [BlendFuncSeparate(next.funcs)] else [];
    var equations := if current.equations != next.equations then [BlendEquationSeparate(next.equations)] else [];
    var d1 := ExecAll(d, enabled);
    var d2 := ExecAll(d1, funcs);
    var d3 := ExecAll(d2, equations);
    var want := GlobalEffect(current, next, d[k]);
    assert ExecAll(d, ApplyGlobalBlending(current, next).calls) == d3 by {
      GlobalBlendingCalls(current, next);
      ExecAllAppend(d, enabled + funcs, equations);
      ExecAllAppend(d, enabled, funcs);
    }
    assert d1[k] == d[k].(enabled := want.enabled) by {
      ExecEnable(d, current.enabled != next.enabled, next.enabled, k);
    }
    assert d2[k] == d1[k].(funcs := want.funcs) by {
      ExecFuncs(d1, current.funcs != next.funcs, next.funcs, k);
    }
    assert d3[k] == d2[k].(equations := want.equations) by {
      ExecEquations(d2, current.equations != next.equations, next.equations, k);
    }
  }

  // ---- per-target steps in independent mode -----------------------------

  /** `step` issues only indexed calls for its own target, and they turn that
      draw buffer b into eff(current, next, b). */
  ghost predicate StepEffect(step: (nat, Blend, Blend) -> Out<Blend>, eff: (Blend, Blend, Blend) -> Blend) {
    forall e: Buffers, i: nat, x: Blend, y: Blend :: i < |e| ==>
      ExecAll(e, step(i, x, y).calls) == e[i := eff(x, y, e[i])]
  }

  /** The slot loop over steps with a known per-target effect. */
  lemma {:induction false} ExecSlots(d: Buffers, base: nat, current: seq<Blend>, next: seq<Blend>,
                                     step: (nat, Blend, Blend) -> Out<Blend>,
                                     eff: (Blend, Blend, Blend) -> Blend)
    requires |current| == |next| && base + |current| == |d|
    requires StepEffect(step, eff)
    ensures var r := ExecAll(d, ForEachSlot(base, current, next, step).calls);
            && r[..base] == d[..base]
            && forall k :: 0 <= k < |current| ==> r[base + k] == eff(current[k], next[k], d[base + k])
    decreases |current|
  {
    if |current| > 0 {
      var head := step(base, current[0], next[0]);
      var rest := ForEachSlot(base + 1, current[1..], next[1..], step);
      var d1 := ExecAll(d, head.calls);
      assert d1 == d[base := eff(current[0], next[0], d[base])];
      ExecAllAppend(d, head.calls, rest.calls);
      ExecSlots(d1, base + 1, current[1..], next[1..], step, eff);
      var r := ExecAll(d1, rest.calls);
      assert r[..base + 1][..base] == r[..base];
      assert d1[..base + 1][..base] == d1[..base];
      forall k | 0 <= k < |current| ensures r[base + k] == eff(current[k], next[k], d[base + k]) {
        if k == 0 {
          assert r[..base + 1][base] == r[base];
        } else {
          assert current[1..][k - 1] == current[k] && next[1..][k - 1] == next[k];
        }
      }
    }
  }

  /** A draw buffer after ApplyTargetBlending's indexed calls for it. */
  function TargetEffect(current: Blend, next: Blend, force: bool, b: Blend): Blend {
    Blend(if current.enabled != next.enabled || force then next.enabled else b.enabled,
          if current.funcs != next.funcs then next.funcs else b.funcs,
          if current.equations != next.equations then next.equations else b.equations)
  }

  lemma TargetBlendingCalls(i: nat, current: Blend, next: Blend, force: bool)
    ensures ApplyTargetBlending(i, current, next, force).calls
            == (if current.enabled != next.enabled || force then [EnableIndexedCall(BlendCap, i, next.enabled)] else [])
               + (if current.funcs != next.funcs then [BlendFuncSeparatei(i, next.funcs)] else [])
               + (if current.equations != next.equations then [BlendEquationSeparatei(i, next.equations)] else [])
  {
  }

  lemma TargetBlendingEffectAt(e: Buffers, i: nat, current: Blend, next: Blend, force: bool, k: nat)
    requires i < |e| && k < |e|
    ensures ExecAll(e, ApplyTargetBlending(i, current, next, force).calls)[k]
            == if k == i then TargetEffect(current, next, force, e[i]) else e[k]
  {
    var enabled := if current.enabled != next.enabled || force then [EnableIndexedCall(BlendCap, i, next.enabled)] else [];
    var funcs := if current.funcs != next.funcs then [BlendFuncSeparatei(i, next.funcs)] else [];
    var equations := if current.equations != next.equations then [BlendEquationSeparatei(i, next.equations)] else [];
    var e1 := ExecAll(e, enabled);
    var e2 := ExecAll(e1, funcs);
    var e3 := ExecAll(e2, equations);
    var want := TargetEffect(current, next, force, e[i]);
    assert ExecAll(e, ApplyTargetBlending(i, current, next, force).calls) == e3 by {
      TargetBlendingCalls(i, current, next, force);
      ExecAllAppend(e, enabled + funcs, equations);
      ExecAllAppend(e, enabled, funcs);
    }
    assert e1[k] == if k == i then e[k].(enabled := want.enabled) else e[k] by {
      ExecEnableAt(e, current.enabled != next.enabled || force, i, next.enabled, k);
    }
    assert e2[k] == if k == i then e1[k].(funcs := want.funcs) else e1[k] by {
      ExecFuncsAt(e1, current.funcs != next.funcs, i, next.funcs, k);
    }
    assert e3[k] == if k == i then e2[k].(equations := want.equations) else e2[k] by {
      ExecEquationsAt(e2, current.equations != next.equations, i, next.equations, k);
    }
  }

  lemma TargetBlendingEffect(e: Buffers, i: nat, current: Blend, next: Blend, force: bool)
    requires i < |e|
    ensures ExecAll(e, ApplyTargetBlending(i, current, next, force).calls)
            == e[i := TargetEffect(current, next, force, e[i])]
  {
    forall k | 0 <= k < |e|
      ensures ExecAll(e, ApplyTargetBlending(i, current, next, force).calls)[k]
              == e[i := TargetEffect(current, next, force, e[i])][k]
    {
      TargetBlendingEffectAt(e, i, current, next, force, k);
    }
  }

  lemma TargetStepsEffect(force: bool)
    ensures StepEffect(if force then ForcedTargetBlendingStep else TargetBlendingStep,
                       (x: Blend, y: Blend, b: Blend) => TargetEffect(x, y, force, b))
  {
    forall e: Buffers, i: nat, x: Blend, y: Blend | i < |e|
      ensures ExecAll(e, (if force then ForcedTargetBlendingStep else TargetBlendingStep)(i, x, y).calls)
              == e[i := TargetEffect(x, y, force, e[i])]
    {
      TargetBlendingEffect(e, i, x, y, force);
    }
  }

  /** As written, the applier keeps the driver consistent with its remembered
      state as long as the blend mode does not change. */
  lemma AsWrittenConsistentWithoutModeSwitch(d: Buffers, cache: Blending, want: Blending)
    requires |cache.targets| == |want.targets| > 0
    requires Consistent(d, cache)
    requires cache.independent == want.independent
    ensures var r := ApplyBlending(cache, want);
            Consistent(ExecAll(d, r.calls), r.cur)
  {
    var r := ApplyBlending(cache, want);
    if want.independent {
      TargetStepsEffect(false);
      ExecSlots(d, 0, cache.targets, want.targets, TargetBlendingStep,
                (x: Blend, y: Blend, b: Blend) => TargetEffect(x, y, false, b));
      assert ExecAll(d, r.calls) == want.targets;
    } else {
      forall k | 0 <= k < |d| ensures ExecAll(d, r.calls)[k] == want.targets[0] {
        GlobalBlendingEffectAt(d, cache.targets[0], want.targets[0], k);
      }
    }
  }

  /** The two blend configurations of the scenario below. */
  const FuncsA := BlendFuncs(1, 0, 1, 0)
  const FuncsB := BlendFuncs(0, 1, 0, 1)
  const TargetA := Blend(true, FuncsA, BlendEquations(0, 0))
  const TargetB := Blend(true, FuncsB, BlendEquations(0, 0))

  /** As written, switching independent blending back on loses track of the
      driver. Starting in independent mode with both targets on FuncsB (driver
      and cache agree), a frame in global mode with target 0 on FuncsA issues
      glBlendFuncSeparate, which moves both draw buffers to FuncsA while the
      cache keeps target 1 at FuncsB. The next frame turns independent
      blending on again with target 1 wanting FuncsB: the cache says target 1
      already has it, so no glBlendFuncSeparatei(1, ...) is issued, and draw
      buffer 1 keeps blending with FuncsA. */
  lemma AsWrittenSwitchOnLeavesStaleFuncs()
    ensures var d0, cache0 := [TargetB, TargetB], Blending(true, [TargetB, TargetB]);
            var want := Blending(false, [TargetA, TargetB]);
            var first := ApplyBlending(cache0, want);
            var d1 := ExecAll(d0, first.calls);
            var second := ApplyBlending(first.cur, want.(independent := true));
            var d2 := ExecAll(d1, second.calls);
            && Consistent(d0, cache0)
            && Consistent(d1, first.cur)
            && second.cur == want.(independent := true)
            && d2[1].funcs == FuncsA != FuncsB == want.targets[1].funcs
            && !Consistent(d2, second.cur)
  {
    var d0, cache0 := [TargetB, TargetB], Blending(true, [TargetB, TargetB]);
    var want := Blending(false, [TargetA, TargetB]);
    var first := ApplyBlending(cache0, want);
    GlobalBlendingEffectAt(d0, TargetB, TargetA, 0);
    GlobalBlendingEffectAt(d0, TargetB, TargetA, 1);
    var d1 := ExecAll(d0, first.calls);
    assert d1[1] == TargetA;
    var second := ApplyBlending(first.cur, want.(independent := true));
    TargetStepsEffect(true);
    ExecSlots(d1, 0, first.cur.targets, want.targets, ForcedTargetBlendingStep,
              (x: Blend, y: Blend, b: Blend) => TargetEffect(x, y, true, b));
  }

  /** As written, switching independent blending off loses track of the
      driver too. Starting in independent mode with draw buffer 0 on FuncsA and
      draw buffer 1 on FuncsB (driver and cache agree), a frame in global mode
      with target 0 on FuncsA issues nothing at all, since only target 0 is
      compared and it is unchanged. Draw buffer 1 keeps blending with FuncsB
      although global mode wants every draw buffer on FuncsA. */
  lemma AsWrittenSwitchOffLeavesStaleBuffers()
    ensures var d0, cache0 := [TargetA, TargetB], Blending(true, [TargetA, TargetB]);
            var want := Blending(false, [TargetA, TargetA]);
            var r := ApplyBlending(cache0, want);
            var d1 := ExecAll(d0, r.calls);
            && Consistent(d0, cache0)
            && r.calls == []
            && d1[1].funcs == FuncsB != FuncsA == want.targets[0].funcs
            && !Consistent(d1, r.cur)
  {
    var cache0 := Blending(true, [TargetA, TargetB]);
    var want := Blending(false, [TargetA, TargetA]);
    GlobalBlendingCalls(TargetA, TargetA);
  }

  // ---- the corrected mode switch ------------------------------------------

  /** Re-applies every piece of target i's configuration, changed or not. */
  function ReapplyTargetStep(i: nat, current: Blend, next: Blend): (r: Out<Blend>)
    ensures r.cur == next
    ensures forall c :: c in r.calls <==>
              c in {EnableIndexedCall(BlendCap, i, next.enabled), BlendFuncSeparatei(i, next.funcs),
                    BlendEquationSeparatei(i, next.equations)}
  {
    Out(next, [EnableIndexedCall(BlendCap, i, next.enabled), BlendFuncSeparatei(i, next.funcs),
               BlendEquationSeparatei(i, next.equations)])
  }

  lemma ReapplyStepEffect()
    ensures StepEffect(ReapplyTargetStep, (x: Blend, y: Blend, b: Blend) => y)
  {
    forall e: Buffers, i: nat, x: Blend, y: Blend | i < |e|
      ensures ExecAll(e, ReapplyTargetStep(i, x, y).calls) == e[i := y]
    {
      var calls := ReapplyTargetStep(i, x, y).calls;
      var e1 := Exec(e, calls[0]);
      var e2 := Exec(e1, calls[1]);
      assert calls[1..][1..] == [calls[2]];
      ExecAllSingle(e2, calls[2]);
      assert Exec(e2, calls[2]) == e[i := y];
    }
  }

  /** The non-indexed calls that put every draw buffer on `next`, changed or
      not. */
  function ReapplyGlobalCalls(next: Blend): (r: seq<Call>)
    ensures forall c :: c in r <==>
              c in {EnableCall(BlendCap, next.enabled), BlendFuncSeparate(next.funcs),
                    BlendEquationSeparate(next.equations)}
  {
    [EnableCall(BlendCap, next.enabled), BlendFuncSeparate(next.funcs), BlendEquationSeparate(next.equations)]
  }

  lemma ReapplyGlobalEffect(d: Buffers, next: Blend)
    ensures forall k :: 0 <= k < |d| ==> ExecAll(d, ReapplyGlobalCalls(next))[k] == next
  {
    var calls := ReapplyGlobalCalls(next);
    var d1 := Exec(d, calls[0]);
    var d2 := Exec(d1, calls[1]);
    assert calls[1..][1..] == [calls[2]];
    ExecAllSingle(d2, calls[2]);
    forall k | 0 <= k < |d| ensures Exec(d2, calls[2])[k] == next {
      match next.enabled
      case true => assert calls[0] == Enable(BlendCap);
      case false => assert calls[0] == Disable(BlendCap);
    }
  }

  /** ApplyBlending with either mode switch re-applying every piece of the
      blend state, as the switch is meant to: on the switch to independent
      blending every target through the indexed calls, on the switch back
      target 0 through the non-indexed calls. Otherwise as written. */
  function ApplyBlendingReapplied(current: Blending, next: Blending): (r: Out<Blending>)
    requires |current.targets| == |next.targets| > 0
    ensures r.cur == ApplyBlending(current, next).cur
  {
    if next.independent && !current.independent then
      var targets := ForEachSlot(0, current.targets, next.targets, ReapplyTargetStep);
      Out(Blending(true, targets.cur), targets.calls)
    else if !next.independent && current.independent then
      Out(Blending(false, current.targets[0 := next.targets[0]]), ReapplyGlobalCalls(next.targets[0]))
    else
      ApplyBlending(current, next)
  }

  /** On the switch to independent blending the corrected form issues every
      target's enable, function and equation calls, changed or not. */
  lemma ReappliedSwitchReissuesAll(current: Blending, next: Blending, i: nat)
    requires |current.targets| == |next.targets| > 0
    requires !current.independent && next.independent && i < |next.targets|
    ensures var calls := ApplyBlendingReapplied(current, next).calls;
            && EnableIndexedCall(BlendCap, i, next.targets[i].enabled) in calls
            && BlendFuncSeparatei(i, next.targets[i].funcs) in calls
            && BlendEquationSeparatei(i, next.targets[i].equations) in calls
  {
    var slots := ForEachSlot(0, current.targets, next.targets, ReapplyTargetStep);
    assert ApplyBlendingReapplied(current, next).calls == slots.calls;
    var issues := (j: nat, x: Blend, y: Blend, d: Call) =>
      d == EnableIndexedCall(BlendCap, j, y.enabled) || d == BlendFuncSeparatei(j, y.funcs)
      || d == BlendEquationSeparatei(j, y.equations);
    var x, y := current.targets[i], next.targets[i];
    ForEachSlotCallsBy(current.targets, next.targets, ReapplyTargetStep, issues, EnableIndexedCall(BlendCap, i, y.enabled));
    assert issues(i, x, y, EnableIndexedCall(BlendCap, i, y.enabled));
    ForEachSlotCallsBy(current.targets, next.targets, ReapplyTargetStep, issues, BlendFuncSeparatei(i, y.funcs));
    assert issues(i, x, y, BlendFuncSeparatei(i, y.funcs));
    ForEachSlotCallsBy(current.targets, next.targets, ReapplyTargetStep, issues, BlendEquationSeparatei(i, y.equations));
    assert issues(i, x, y, BlendEquationSeparatei(i, y.equations));
  }

  /** On the switch back to global blending the corrected form issues the
      non-indexed enable, function and equation calls for target 0, changed or
      not. */
  lemma ReappliedSwitchOffReissuesAll(current: Blending, next: Blending)
    requires |current.targets| == |next.targets| > 0
    requires current.independent && !next.independent
    ensures var calls := ApplyBlendingReapplied(current, next).calls;
            && EnableCall(BlendCap, next.targets[0].enabled) in calls
            && BlendFuncSeparate(next.targets[0].funcs) in calls
            && BlendEquationSeparate(next.targets[0].equations) in calls
  {
  }

  /** With the corrected mode switches, the remembered blending state keeps
      telling the truth about the driver whatever the mode changes, and the
      driver ends up with the wanted configuration: every target's own in
      independent mode, target 0's on every draw buffer in global mode. */
  lemma ReappliedBlendingStaysConsistent(d: Buffers, cache: Blending, want: Blending)
    requires |cache.targets| == |want.targets| > 0
    requires Consistent(d, cache)
    ensures var r := ApplyBlendingReapplied(cache, want);
            Consistent(ExecAll(d, r.calls), r.cur)
    ensures var after := ExecAll(d, ApplyBlendingReapplied(cache, want).calls);
            if want.independent then after == want.targets
            else forall k :: 0 <= k < |after| ==> after[k] == want.targets[0]
  {
    var r := ApplyBlendingReapplied(cache, want);
    if want.independent && !cache.independent {
      ReapplyStepEffect();
      ExecSlots(d, 0, cache.targets, want.targets, ReapplyTargetStep, (x: Blend, y: Blend, b: Blend) => y);
      assert ExecAll(d, r.calls) == want.targets;
    } else if !want.independent && cache.independent {
      ReapplyGlobalEffect(d, want.targets[0]);
    } else {
      AsWrittenConsistentWithoutModeSwitch(d, cache, want);
    }
  }
}
