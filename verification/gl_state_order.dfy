/**
 The order of `Apply`'s calls as a sequence fact: the calls come strictly in
 apply order (group, then unit, then place within the unit), so no call is
 issued twice, and `Apply`'s call list is the only list in that order that
 holds exactly the demanded calls.
 */
module GLStateOrder {
  import opened GLStateTypes
  import opened StateUpdate
  import opened GLState
  import opened GLStateSpec
  import opened GLStateProofs

  /** Every call of s is of group `rank` and addresses unit `unit`. */
  predicate AllAt(s: seq<Call>, rank: nat, unit: nat) {
    forall c :: c in s ==> Rank(c) == rank && Unit(c) == unit
  }

  /** Every call of s is of group `rank`. */
  predicate AllOfRank(s: seq<Call>, rank: nat) {
    forall c :: c in s ==> Rank(c) == rank
  }

  /** Every call of s is of a group before k. */
  predicate RanksBelow(s: seq<Call>, k: nat) {
    forall c :: c in s ==> Rank(c) < k
  }

  /** Two lists in apply order, every call of the first before every call of
      the second, make one list in apply order. */
  lemma AppendInOrder(s: seq<Call>, t: seq<Call>)
    requires InApplyOrder(s) && InApplyOrder(t)
    requires forall a, b :: a in s && b in t ==> Precedes(a, b)
    ensures InApplyOrder(s + t)
  {
    forall i, j | 0 <= i < j < |s + t| ensures Precedes((s + t)[i], (s + t)[j]) {
      if j < |s| {
        assert (s + t)[i] == s[i] && (s + t)[j] == s[j];
      } else if i < |s| {
        assert (s + t)[i] == s[i] && s[i] in s;
        assert (s + t)[j] == t[j - |s|] && t[j - |s|] in t;
      } else {
        assert (s + t)[i] == t[i - |s|] && (s + t)[j] == t[j - |s|];
      }
    }
  }

  /** A list of at most one call is in apply order. */
  lemma ShortInOrder(s: seq<Call>)
    requires |s| <= 1
    ensures InApplyOrder(s)
  {
  }

  /** A call issued or not. */
  function Opt(issued: bool, c: Call): (r: seq<Call>)
    ensures |r| <= 1
    ensures forall p :: p in r <==> issued && p == c
  {
    if issued then [c] else []
  }

  /** Appending an optional call that comes after every call of a list in
      apply order keeps it in apply order. */
  lemma AppendOpt(s: seq<Call>, issued: bool, c: Call)
    requires InApplyOrder(s)
    requires forall p :: p in s ==> Precedes(p, c)
    ensures InApplyOrder(s + Opt(issued, c))
    ensures forall p :: p in s + Opt(issued, c) <==> p in s || (issued && p == c)
  {
    ShortInOrder(Opt(issued, c));
    AppendInOrder(s, Opt(issued, c));
  }

  /** Three optional calls, each before the later ones, in apply order. */
  lemma ThreeOptInOrder(b1: bool, c1: Call, b2: bool, c2: Call, b3: bool, c3: Call)
    requires Precedes(c1, c2) && Precedes(c1, c3) && Precedes(c2, c3)
    ensures InApplyOrder(Opt(b1, c1) + Opt(b2, c2) + Opt(b3, c3))
    ensures forall p :: p in Opt(b1, c1) + Opt(b2, c2) + Opt(b3, c3) <==>
                        (b1 && p == c1) || (b2 && p == c2) || (b3 && p == c3)
  {
    ShortInOrder(Opt(b1, c1));
    AppendOpt(Opt(b1, c1), b2, c2);
    AppendOpt(Opt(b1, c1) + Opt(b2, c2), b3, c3);
  }

  // ---- per-unit steps and the slot loop -------------------------------------

  /** Each unit's step issues its calls in apply order, all of group `rank`
      and addressed to that unit. */
  ghost predicate StepInOrder<T(!new)>(step: (nat, T, T) -> Out<T>, rank: nat) {
    forall i: nat, x: T, y: T :: InApplyOrder(step(i, x, y).calls) && AllAt(step(i, x, y).calls, rank, i)
  }

  /** The slot loop over such steps issues its calls in apply order: unit by
      unit, upwards from `base`. */
  lemma {:induction false} ForEachSlotInOrder<T(!new)>(base: nat, current: seq<T>, next: seq<T>,
                                                 step: (nat, T, T) -> Out<T>, rank: nat)
    requires |current| == |next|
    requires StepInOrder(step, rank)
    ensures var calls := ForEachSlot(base, current, next, step).calls;
            && InApplyOrder(calls)
            && forall c :: c in calls ==> Rank(c) == rank && base <= Unit(c)
    decreases |current|
  {
    if |current| > 0 {
      var head := step(base, current[0], next[0]).calls;
      var rest := ForEachSlot(base + 1, current[1..], next[1..], step).calls;
      assert ForEachSlot(base, current, next, step).calls == head + rest;
      ForEachSlotInOrder(base + 1, current[1..], next[1..], step, rank);
      assert InApplyOrder(head) && AllAt(head, rank, base);
      AppendInOrder(head, rest);
    }
  }

  lemma ClipDistanceStepInOrder()
    ensures StepInOrder(ClipDistanceStep, 3)
  {
    forall i: nat, x: bool, y: bool
      ensures InApplyOrder(ClipDistanceStep(i, x, y).calls) && AllAt(ClipDistanceStep(i, x, y).calls, 3, i)
    {
      ShortInOrder(ClipDistanceStep(i, x, y).calls);
    }
  }

  lemma ColorMaskStepInOrder()
    ensures StepInOrder(ColorMaskStep, 7)
  {
    forall i: nat, x: ColorMask, y: ColorMask
      ensures InApplyOrder(ColorMaskStep(i, x, y).calls) && AllAt(ColorMaskStep(i, x, y).calls, 7, i)
    {
      ShortInOrder(ColorMaskStep(i, x, y).calls);
    }
  }

  /** A viewport unit's calls as four optional calls. */
  lemma ViewportStepParts(i: nat, x: Viewport, y: Viewport)
    ensures ViewportStep(i, x, y).calls
            == Opt(x.rect != y.rect, ViewportIndexed(i, y.rect))
               + Opt((x.depthNear, x.depthFar) != (y.depthNear, y.depthFar), DepthRangeIndexed(i, y.depthNear, y.depthFar))
               + Opt(x.scissor.enabled != y.scissor.enabled, EnableIndexedCall(ScissorTest, i, y.scissor.enabled))
               + Opt(x.scissor.rect != y.scissor.rect, ScissorIndexed(i, y.scissor.rect))
  {
  }

  /** Rectangle, depth range, scissor switch, scissor box: the four parts of a
      viewport unit, in that order. */
  lemma ViewportStepInOrder()
    ensures StepInOrder(ViewportStep, 8)
  {
    forall i: nat, x: Viewport, y: Viewport
      ensures InApplyOrder(ViewportStep(i, x, y).calls) && AllAt(ViewportStep(i, x, y).calls, 8, i)
    {
      var rect, cRect := x.rect != y.rect, ViewportIndexed(i, y.rect);
      var depth := (x.depthNear, x.depthFar) != (y.depthNear, y.depthFar);
      var cDepth := DepthRangeIndexed(i, y.depthNear, y.depthFar);
      var on, cOn := x.scissor.enabled != y.scissor.enabled, EnableIndexedCall(ScissorTest, i, y.scissor.enabled);
      var box, cBox := x.scissor.rect != y.scissor.rect, ScissorIndexed(i, y.scissor.rect);
      ViewportStepParts(i, x, y);
      ThreeOptInOrder(rect, cRect, depth, cDepth, on, cOn);
      AppendOpt(Opt(rect, cRect) + Opt(depth, cDepth) + Opt(on, cOn), box, cBox);
    }
  }

  /** Enable, function, equation: the three parts of one render target. */
  lemma TargetBlendingInOrder(i: nat, x: Blend, y: Blend, force: bool)
    ensures InApplyOrder(ApplyTargetBlending(i, x, y, force).calls)
    ensures AllAt(ApplyTargetBlending(i, x, y, force).calls, 10, i)
  {
    var on, cOn := x.enabled != y.enabled || force, EnableIndexedCall(BlendCap, i, y.enabled);
    var funcs, cFuncs := x.funcs != y.funcs, BlendFuncSeparatei(i, y.funcs);
    var equations, cEquations := x.equations != y.equations, BlendEquationSeparatei(i, y.equations);
    assert ApplyTargetBlending(i, x, y, force).calls == Opt(on, cOn) + Opt(funcs, cFuncs) + Opt(equations, cEquations);
    ThreeOptInOrder(on, cOn, funcs, cFuncs, equations, cEquations);
  }

  lemma TargetStepsInOrder()
    ensures StepInOrder(TargetBlendingStep, 10)
    ensures StepInOrder(ForcedTargetBlendingStep, 10)
  {
    forall i: nat, x: Blend, y: Blend
      ensures InApplyOrder(TargetBlendingStep(i, x, y).calls) && AllAt(TargetBlendingStep(i, x, y).calls, 10, i)
    {
      TargetBlendingInOrder(i, x, y, false);
    }
    forall i: nat, x: Blend, y: Blend
      ensures InApplyOrder(ForcedTargetBlendingStep(i, x, y).calls)
              && AllAt(ForcedTargetBlendingStep(i, x, y).calls, 10, i)
    {
      TargetBlendingInOrder(i, x, y, true);
    }
  }

  lemma TextureStepInOrder()
    ensures StepInOrder(TextureStep, 11)
  {
    forall i: nat, x: Handle, y: Handle
      ensures InApplyOrder(TextureStep(i, x, y).calls) && AllAt(TextureStep(i, x, y).calls, 11, i)
    {
      ShortInOrder(TextureStep(i, x, y).calls);
    }
  }

  lemma SamplerStepInOrder()
    ensures StepInOrder(SamplerStep, 12)
  {
    forall i: nat, x: Handle, y: Handle
      ensures InApplyOrder(SamplerStep(i, x, y).calls) && AllAt(SamplerStep(i, x, y).calls, 12, i)
    {
      ShortInOrder(SamplerStep(i, x, y).calls);
    }
  }

  // ---- the groups -------------------------------------------------------------

  /** Each group issues its calls in apply order, all of its own group. */
  lemma FramebufferInOrder(cur: Draw, want: Draw)
    ensures InApplyOrder(ApplyFramebufferState(cur, want).calls)
    ensures AllOfRank(ApplyFramebufferState(cur, want).calls, 0)
  {
    var read := if cur.readFramebuffer != want.readFramebuffer then [BindFramebuffer(ReadTarget, want.readFramebuffer)] else [];
    var draw := if cur.drawFramebuffer != want.drawFramebuffer then [BindFramebuffer(DrawTarget, want.drawFramebuffer)] else [];
    assert ApplyFramebufferState(cur, want).calls == read + draw;
    ShortInOrder(read);
    ShortInOrder(draw);
    AppendInOrder(read, draw);
  }

  /** The groups that issue at most one call. */
  lemma ProgramInOrder(cur: Handle, want: Handle)
    ensures InApplyOrder(ApplyShaderProgram(cur, want).calls) && AllOfRank(ApplyShaderProgram(cur, want).calls, 1)
  {
    ShortInOrder(ApplyShaderProgram(cur, want).calls);
  }

  lemma PipelineInOrder(cur: Handle, want: Handle)
    ensures InApplyOrder(ApplyProgramPipeline(cur, want).calls) && AllOfRank(ApplyProgramPipeline(cur, want).calls, 2)
  {
    ShortInOrder(ApplyProgramPipeline(cur, want).calls);
  }

  lemma ColorClampInOrder(cur: bool, want: bool)
    ensures InApplyOrder(ApplyFragmentColorClamp(cur, want).calls)
    ensures AllOfRank(ApplyFragmentColorClamp(cur, want).calls, 4)
  {
    ShortInOrder(ApplyFragmentColorClamp(cur, want).calls);
  }

  lemma DiscardInOrder(cur: bool, want: bool)
    ensures InApplyOrder(ApplyRasterizerDiscard(cur, want).calls)
    ensures AllOfRank(ApplyRasterizerDiscard(cur, want).calls, 6)
  {
    ShortInOrder(ApplyRasterizerDiscard(cur, want).calls);
  }

  lemma ImagesInOrder(cur: seq<Handle>, want: seq<Handle>)
    requires |cur| == |want|
    ensures InApplyOrder(ApplyImages(cur, want).calls) && AllOfRank(ApplyImages(cur, want).calls, 13)
  {
    var calls := ApplyImages(cur, want).calls;
    ShortInOrder(calls);
    if calls != [] {
      assert calls == [calls[0]] && calls[0].BindImageTextures?;
    }
  }

  lemma ClipControlInOrder(cur: ClipControl, want: ClipControl)
    ensures InApplyOrder(ApplyClipControl(cur, want).calls) && AllOfRank(ApplyClipControl(cur, want).calls, 14)
  {
    ShortInOrder(ApplyClipControl(cur, want).calls);
  }

  lemma RenderbufferInOrder(cur: Handle, want: Handle)
    ensures InApplyOrder(ApplyRenderBuffer(cur, want).calls) && AllOfRank(ApplyRenderBuffer(cur, want).calls, 15)
  {
    ShortInOrder(ApplyRenderBuffer(cur, want).calls);
  }

  lemma MultisampleInOrder(cur: Multisample, want: Multisample)
    ensures InApplyOrder(ApplyMultisample(cur, want).calls)
    ensures AllOfRank(ApplyMultisample(cur, want).calls, 5)
  {
    var coverage := EnableTracked(SampleAlphaToCoverage, cur.alphaToCoverage, want.alphaToCoverage).calls;
    var one := EnableTracked(SampleAlphaToOne, cur.alphaToOne, want.alphaToOne).calls;
    ShortInOrder(coverage);
    ShortInOrder(one);
    AppendInOrder(coverage, one);
  }

  /** The calls for one stencil face: function, operation, write mask, at the
      places of that face. */
  lemma StencilFaceInOrder(face: Face, x: StencilFace, y: StencilFace)
    ensures var calls := ConfigStencil(face, x, y).calls;
            && InApplyOrder(calls)
            && AllAt(calls, 9, 0)
            && forall c :: c in calls ==> if face == Front then 1 <= Part(c) <= 3 else 4 <= Part(c) <= 6
  {
    var test, cTest := x.test != y.test, StencilFuncSeparate(face, y.test);
    var action, cAction := x.action != y.action, StencilOpSeparate(face, y.action);
    var mask, cMask := x.writeMask != y.writeMask, StencilMaskSeparate(face, y.writeMask);
    assert ConfigStencil(face, x, y).calls == Opt(test, cTest) + Opt(action, cAction) + Opt(mask, cMask);
    ThreeOptInOrder(test, cTest, action, cAction, mask, cMask);
  }

  lemma StencilInOrder(cur: Stencil, want: Stencil)
    ensures InApplyOrder(ApplyStencilTest(cur, want).calls)
    ensures AllOfRank(ApplyStencilTest(cur, want).calls, 9)
  {
    var enabled := EnableTracked(StencilTest, cur.testEnabled, want.testEnabled).calls;
    var front := ConfigStencil(Front, cur.front, want.front).calls;
    var back := ConfigStencil(Back, cur.back, want.back).calls;
    ShortInOrder(enabled);
    StencilFaceInOrder(Front, cur.front, want.front);
    StencilFaceInOrder(Back, cur.back, want.back);
    AppendInOrder(enabled, front);
    AppendInOrder(enabled + front, back);
  }

  lemma GlobalBlendingInOrder(x: Blend, y: Blend)
    ensures InApplyOrder(ApplyGlobalBlending(x, y).calls)
    ensures AllOfRank(ApplyGlobalBlending(x, y).calls, 10)
  {
    var on, cOn := x.enabled != y.enabled, EnableCall(BlendCap, y.enabled);
    var funcs, cFuncs := x.funcs != y.funcs, BlendFuncSeparate(y.funcs);
    var equations, cEquations := x.equations != y.equations, BlendEquationSeparate(y.equations);
    assert ApplyGlobalBlending(x, y).calls == Opt(on, cOn) + Opt(funcs, cFuncs) + Opt(equations, cEquations);
    ThreeOptInOrder(on, cOn, funcs, cFuncs, equations, cEquations);
  }

  lemma BlendingInOrder(cur: Blending, want: Blending)
    requires |cur.targets| == |want.targets| > 0
    ensures InApplyOrder(ApplyBlending(cur, want).calls)
    ensures AllOfRank(ApplyBlending(cur, want).calls, 10)
  {
    if want.independent {
      TargetStepsInOrder();
      if want.independent != cur.independent {
        ForEachSlotInOrder(0, cur.targets, want.targets, ForcedTargetBlendingStep, 10);
      } else {
        ForEachSlotInOrder(0, cur.targets, want.targets, TargetBlendingStep, 10);
      }
    } else {
      GlobalBlendingInOrder(cur.targets[0], want.targets[0]);
    }
  }

  lemma SlotGroupsInOrder(cur: State, want: State)
    requires Compatible(cur, want)
    ensures var g := ApplyClipDistances(cur.clipDistance, want.clipDistance).calls;
            InApplyOrder(g) && AllOfRank(g, 3)
    ensures var g := ApplyColorMask(cur.colorMask, want.colorMask).calls;
            InApplyOrder(g) && AllOfRank(g, 7)
    ensures var g := ApplyViewport(cur.viewports, want.viewports).calls;
            InApplyOrder(g) && AllOfRank(g, 8)
    ensures var g := ApplyTextures(cur.textures, want.textures).calls;
            InApplyOrder(g) && AllOfRank(g, 11)
    ensures var g := ApplySamplers(cur.samplers, want.samplers).calls;
            InApplyOrder(g) && AllOfRank(g, 12)
  {
    ClipDistanceStepInOrder();
    ForEachSlotInOrder(0, cur.clipDistance, want.clipDistance, ClipDistanceStep, 3);
    ColorMaskStepInOrder();
    ForEachSlotInOrder(0, cur.colorMask, want.colorMask, ColorMaskStep, 7);
    ViewportStepInOrder();
    ForEachSlotInOrder(0, cur.viewports, want.viewports, ViewportStep, 8);
    TextureStepInOrder();
    ForEachSlotInOrder(0, cur.textures, want.textures, TextureStep, 11);
    SamplerStepInOrder();
    ForEachSlotInOrder(0, cur.samplers, want.samplers, SamplerStep, 12);
  }

  // ---- Apply ------------------------------------------------------------------

  /** Appending a group-k block in apply order to calls of earlier groups. */
  lemma AppendGroupInOrder(s: seq<Call>, t: seq<Call>, k: nat)
    requires InApplyOrder(s) && RanksBelow(s, k)
    requires InApplyOrder(t) && AllOfRank(t, k)
    ensures InApplyOrder(s + t) && RanksBelow(s + t, k + 1)
  {
    AppendInOrder(s, t);
  }

  /** Apply issues its calls strictly in apply order: group by group, unit by
      unit, and in the fixed place within each unit. */
  lemma ApplyInApplyOrder(cur: State, want: State)
    requires Compatible(cur, want)
    ensures InApplyOrder(Apply(cur, want).calls)
  {
    var g0 := ApplyFramebufferState(cur.draw, want.draw).calls;
    var g1 := ApplyShaderProgram(cur.draw.shaderProgram, want.draw.shaderProgram).calls;
    var g2 := ApplyProgramPipeline(cur.draw.programPipeline, want.draw.programPipeline).calls;
    var g3 := ApplyClipDistances(cur.clipDistance, want.clipDistance).calls;
    var g4 := ApplyFragmentColorClamp(cur.fragmentColorClamp, want.fragmentColorClamp).calls;
    var g5 := ApplyMultisample(cur.multisample, want.multisample).calls;
    var g6 := ApplyRasterizerDiscard(cur.rasterizerDiscard, want.rasterizerDiscard).calls;
    var g7 := ApplyColorMask(cur.colorMask, want.colorMask).calls;
    var g8 := ApplyViewport(cur.viewports, want.viewports).calls;
    var g9 := ApplyStencilTest(cur.stencil, want.stencil).calls;
    var g10 := ApplyBlending(cur.blending, want.blending).calls;
    var g11 := ApplyTextures(cur.textures, want.textures).calls;
    var g12 := ApplySamplers(cur.samplers, want.samplers).calls;
    var g13 := ApplyImages(cur.images, want.images).calls;
    var g14 := ApplyClipControl(cur.clipControl, want.clipControl).calls;
    var g15 := ApplyRenderBuffer(cur.renderbuffer, want.renderbuffer).calls;
    assert Apply(cur, want).calls
        == g0 + g1 + g2 + g3 + g4 + g5 + g6 + g7 + g8 + g9 + g10 + g11 + g12 + g13 + g14 + g15;
    FramebufferInOrder(cur.draw, want.draw);
    ProgramInOrder(cur.draw.shaderProgram, want.draw.shaderProgram);
    PipelineInOrder(cur.draw.programPipeline, want.draw.programPipeline);
    ColorClampInOrder(cur.fragmentColorClamp, want.fragmentColorClamp);
    DiscardInOrder(cur.rasterizerDiscard, want.rasterizerDiscard);
    ImagesInOrder(cur.images, want.images);
    ClipControlInOrder(cur.clipControl, want.clipControl);
    RenderbufferInOrder(cur.renderbuffer, want.renderbuffer);
    SlotGroupsInOrder(cur, want);
    MultisampleInOrder(cur.multisample, want.multisample);
    StencilInOrder(cur.stencil, want.stencil);
    BlendingInOrder(cur.blending, want.blending);
    assert [] + g0 == g0;
    AppendGroupInOrder([], g0, 0);
    AppendGroupInOrder(g0, g1, 1);
    AppendGroupInOrder(g0 + g1, g2, 2);
    AppendGroupInOrder(g0 + g1 + g2, g3, 3);
    AppendGroupInOrder(g0 + g1 + g2 + g3, g4, 4);
    AppendGroupInOrder(g0 + g1 + g2 + g3 + g4, g5, 5);
    AppendGroupInOrder(g0 + g1 + g2 + g3 + g4 + g5, g6, 6);
    AppendGroupInOrder(g0 + g1 + g2 + g3 + g4 + g5 + g6, g7, 7);
    AppendGroupInOrder(g0 + g1 + g2 + g3 + g4 + g5 + g6 + g7, g8, 8);
    AppendGroupInOrder(g0 + g1 + g2 + g3 + g4 + g5 + g6 + g7 + g8, g9, 9);
    AppendGroupInOrder(g0 + g1 + g2 + g3 + g4 + g5 + g6 + g7 + g8 + g9, g10, 10);
    AppendGroupInOrder(g0 + g1 + g2 + g3 + g4 + g5 + g6 + g7 + g8 + g9 + g10, g11, 11);
    AppendGroupInOrder(g0 + g1 + g2 + g3 + g4 + g5 + g6 + g7 + g8 + g9 + g10 + g11, g12, 12);
    AppendGroupInOrder(g0 + g1 + g2 + g3 + g4 + g5 + g6 + g7 + g8 + g9 + g10 + g11 + g12, g13, 13);
    AppendGroupInOrder(g0 + g1 + g2 + g3 + g4 + g5 + g6 + g7 + g8 + g9 + g10 + g11 + g12 + g13, g14, 14);
    AppendGroupInOrder(g0 + g1 + g2 + g3 + g4 + g5 + g6 + g7 + g8 + g9 + g10 + g11 + g12 + g13 + g14, g15, 15);
  }

  /** No call is issued twice by Apply. */
  lemma ApplyIssuesEachCallOnce(cur: State, want: State)
    requires Compatible(cur, want)
    ensures var calls := Apply(cur, want).calls;
            forall i, j :: 0 <= i < j < |calls| ==> calls[i] != calls[j]
  {
    ApplyInApplyOrder(cur, want);
  }

  // ---- uniqueness -------------------------------------------------------------

  /** Two lists in apply order holding the same calls are the same list. */
  lemma {:induction false} InApplyOrderUnique(s: seq<Call>, t: seq<Call>)
    requires InApplyOrder(s) && InApplyOrder(t)
    requires forall c :: c in s <==> c in t
    ensures s == t
    decreases |s|
  {
    if |s| == 0 {
      if |t| > 0 {
        assert false;
      }
    } else {
      assert s[0] in s;
      var j :| 0 <= j < |t| && t[j] == s[0];
      assert t[0] in t;
      var k :| 0 <= k < |s| && s[k] == t[0];
      assert s[0] == t[0] by {
        if j > 0 && k > 0 {
          assert false;
        }
      }
      forall c ensures c in s[1..] <==> c in t[1..] {
        if c in s[1..] {
          var m :| 1 <= m < |s| && s[m] == c;
          assert Precedes(s[0], s[m]);
          assert c in t && c != t[0];
        }
        if c in t[1..] {
          var m :| 1 <= m < |t| && t[m] == c;
          assert Precedes(t[0], t[m]);
          assert c in s && c != s[0];
        }
      }
      InApplyOrderUnique(s[1..], t[1..]);
      assert s == [s[0]] + s[1..] && t == [t[0]] + t[1..];
    }
  }

  /** Apply's call list is determined by the declarative description: any list
      in apply order that holds exactly the demanded calls is Apply's list. */
  lemma ApplyCallsDetermined(cur: State, want: State, calls: seq<Call>)
    requires Compatible(cur, want)
    requires InApplyOrder(calls) && ExactlyDemanded(calls, cur, want)
    ensures calls == Apply(cur, want).calls
  {
    ApplyInApplyOrder(cur, want);
    ApplyIssuesExactlyExpected(cur, want);
    InApplyOrderUnique(calls, Apply(cur, want).calls);
  }
}
