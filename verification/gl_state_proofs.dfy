/**
 Properties of `Apply` against the declarative description: it issues
 exactly the demanded calls, in group order; it converges the remembered
 state to the wanted one on every tracked field; applying an already applied
 state issues nothing; and the documented special cases (blend mode switch,
 null textures, bulk image binds, purged handles).
 */
module GLStateProofs {
  import opened GLStateTypes
  import opened StateUpdate
  import opened GLState
  import opened GLStateSpec

  lemma FramebufferGroup(cur: State, want: State, c: Call)
    requires Compatible(cur, want)
    ensures c in ApplyFramebufferState(cur.draw, want.draw).calls <==> Rank(c) == 0 && Expected(c, cur, want)
  {
  }

  lemma ProgramGroup(cur: State, want: State, c: Call)
    requires Compatible(cur, want)
    ensures c in ApplyShaderProgram(cur.draw.shaderProgram, want.draw.shaderProgram).calls <==>
            Rank(c) == 1 && Expected(c, cur, want)
  {
  }

  lemma PipelineGroup(cur: State, want: State, c: Call)
    requires Compatible(cur, want)
    ensures c in ApplyProgramPipeline(cur.draw.programPipeline, want.draw.programPipeline).calls <==>
            Rank(c) == 2 && Expected(c, cur, want)
  {
  }

  /** The per-slot clip plane description matches the demanded calls of group 3. */
  lemma ClipDistanceDemand(cur: State, want: State, c: Call)
    requires Compatible(cur, want)
    ensures (exists i :: 0 <= i < |cur.clipDistance| && ClipDistanceCall(i, cur.clipDistance[i], want.clipDistance[i], c)) <==>
            Rank(c) == 3 && Expected(c, cur, want)
  {
    if (c.Enable? || c.Disable?) && c.cap.ClipDistance? && c.cap.plane < |cur.clipDistance| {
      var i := c.cap.plane;
      assert ClipDistanceCall(i, cur.clipDistance[i], want.clipDistance[i], c) <==> Expected(c, cur, want);
    }
  }

  lemma ClipDistanceGroup(cur: State, want: State, c: Call)
    requires Compatible(cur, want)
    ensures c in ApplyClipDistances(cur.clipDistance, want.clipDistance).calls <==>
            Rank(c) == 3 && Expected(c, cur, want)
  {
    ForEachSlotCallsBy(cur.clipDistance, want.clipDistance, ClipDistanceStep, ClipDistanceCall, c);
    ClipDistanceDemand(cur, want, c);
  }


  lemma ColorClampGroup(cur: State, want: State, c: Call)
    requires Compatible(cur, want)
    ensures c in ApplyFragmentColorClamp(cur.fragmentColorClamp, want.fragmentColorClamp).calls <==>
            Rank(c) == 4 && Expected(c, cur, want)
  {
  }

  lemma MultisampleGroup(cur: State, want: State, c: Call)
    requires Compatible(cur, want)
    ensures c in ApplyMultisample(cur.multisample, want.multisample).calls <==>
            Rank(c) == 5 && Expected(c, cur, want)
  {
  }

  lemma DiscardGroup(cur: State, want: State, c: Call)
    requires Compatible(cur, want)
    ensures c in ApplyRasterizerDiscard(cur.rasterizerDiscard, want.rasterizerDiscard).calls <==>
            Rank(c) == 6 && Expected(c, cur, want)
  {
  }

  /** The per-slot colour mask description matches the demanded calls of group 7. */
  lemma ColorMaskDemand(cur: State, want: State, c: Call)
    requires Compatible(cur, want)
    ensures (exists i :: 0 <= i < |cur.colorMask| && ColorMaskCall(i, cur.colorMask[i], want.colorMask[i], c)) <==>
            Rank(c) == 7 && Expected(c, cur, want)
  {
    if c.ColorMaski? && c.index < |cur.colorMask| {
      var i := c.index;
      assert ColorMaskCall(i, cur.colorMask[i], want.colorMask[i], c) <==> Expected(c, cur, want);
    }
  }

  lemma ColorMaskGroup(cur: State, want: State, c: Call)
    requires Compatible(cur, want)
    ensures c in ApplyColorMask(cur.colorMask, want.colorMask).calls <==>
            Rank(c) == 7 && Expected(c, cur, want)
  {
    ForEachSlotCallsBy(cur.colorMask, want.colorMask, ColorMaskStep, ColorMaskCall, c);
    ColorMaskDemand(cur, want, c);
  }


  /** Every call a viewport slot issues is demanded, in group 8. */
  lemma ViewportCallDemanded(cur: State, want: State, i: nat, c: Call)
    requires Compatible(cur, want) && i < |cur.viewports|
    requires ViewportCall(i, cur.viewports[i], want.viewports[i], c)
    ensures Rank(c) == 8 && Expected(c, cur, want)
  {
  }

  /** Every demanded call of group 8 is issued by the viewport slot it names. */
  lemma ViewportDemandIssued(cur: State, want: State, c: Call) returns (i: nat)
    requires Compatible(cur, want) && Rank(c) == 8 && Expected(c, cur, want)
    ensures i < |cur.viewports| && ViewportCall(i, cur.viewports[i], want.viewports[i], c)
  {
    match c {
      case ViewportIndexed(j, _) => i := j;
      case DepthRangeIndexed(j, _, _) => i := j;
      case ScissorIndexed(j, _) => i := j;
      case Enablei(_, j) => i := j;
      case Disablei(_, j) => i := j;
    }
  }

  /** The per-viewport call description matches the demanded calls of group 8. */
  lemma ViewportDemand(cur: State, want: State, c: Call)
    requires Compatible(cur, want)
    ensures (exists i :: 0 <= i < |cur.viewports| && ViewportCall(i, cur.viewports[i], want.viewports[i], c)) <==>
            Rank(c) == 8 && Expected(c, cur, want)
  {
    if exists i :: 0 <= i < |cur.viewports| && ViewportCall(i, cur.viewports[i], want.viewports[i], c) {
      var i :| 0 <= i < |cur.viewports| && ViewportCall(i, cur.viewports[i], want.viewports[i], c);
      ViewportCallDemanded(cur, want, i, c);
    }
    if Rank(c) == 8 && Expected(c, cur, want) {
      var i := ViewportDemandIssued(cur, want, c);
    }
  }

  lemma ViewportGroup(cur: State, want: State, c: Call)
    requires Compatible(cur, want)
    ensures c in ApplyViewport(cur.viewports, want.viewports).calls <==>
            Rank(c) == 8 && Expected(c, cur, want)
  {
    ForEachSlotCallsBy(cur.viewports, want.viewports, ViewportStep, ViewportCall, c);
    ViewportDemand(cur, want, c);
  }

  /** The calls the stencil group issues: the test switch and each face's
      changed settings. */
  predicate StencilCall(cur: State, want: State, c: Call) {
    || (cur.stencil.testEnabled != want.stencil.testEnabled
        && c == EnableCall(StencilTest, want.stencil.testEnabled))
    || StencilFaceCall(Front, cur.stencil.front, want.stencil.front, c)
    || StencilFaceCall(Back, cur.stencil.back, want.stencil.back, c)
  }

  /** Every call the stencil group issues is demanded, in group 9. */
  lemma StencilCallDemanded(cur: State, want: State, c: Call)
    requires Compatible(cur, want) && StencilCall(cur, want, c)
    ensures Rank(c) == 9 && Expected(c, cur, want)
  {
    if StencilFaceCall(Front, cur.stencil.front, want.stencil.front, c) {
      assert c.face == Front;
    } else if StencilFaceCall(Back, cur.stencil.back, want.stencil.back, c) {
      assert c.face == Back;
    }
  }

  /** Every demanded call of group 9 is issued by the stencil group. */
  lemma StencilDemandIssued(cur: State, want: State, c: Call)
    requires Compatible(cur, want) && Rank(c) == 9 && Expected(c, cur, want)
    ensures StencilCall(cur, want, c)
  {
    match c {
      case Enable(cap) =>
      case Disable(cap) =>
      case StencilFuncSeparate(face, _) =>
      case StencilOpSeparate(face, _) =>
      case StencilMaskSeparate(face, _) =>
      case _ =>
    }
  }

  /** The stencil group's call description matches the demanded calls of group 9. */
  lemma StencilDemand(cur: State, want: State, c: Call)
    requires Compatible(cur, want)
    ensures StencilCall(cur, want, c) <==> Rank(c) == 9 && Expected(c, cur, want)
  {
    if StencilCall(cur, want, c) { StencilCallDemanded(cur, want, c); }
    if Rank(c) == 9 && Expected(c, cur, want) { StencilDemandIssued(cur, want, c); }
  }

  lemma StencilGroup(cur: State, want: State, c: Call)
    requires Compatible(cur, want)
    ensures c in ApplyStencilTest(cur.stencil, want.stencil).calls <==>
            Rank(c) == 9 && Expected(c, cur, want)
  {
    var now, next := cur.stencil, want.stencil;
    var enabled := EnableTracked(StencilTest, now.testEnabled, next.testEnabled);
    var front := ConfigStencil(Front, now.front, next.front);
    var back := ConfigStencil(Back, now.back, next.back);
    assert ApplyStencilTest(now, next).calls == enabled.calls + front.calls + back.calls;
    StencilDemand(cur, want, c);
  }

  /** In independent mode every call a target slot issues is demanded, in
      group 10. */
  lemma TargetCallDemanded(cur: State, want: State, i: nat, c: Call)
    requires Compatible(cur, want) && want.blending.independent && i < |cur.blending.targets|
    requires TargetBlendCall(i, cur.blending.targets[i], want.blending.targets[i], !cur.blending.independent, c)
    ensures Rank(c) == 10 && Expected(c, cur, want)
  {
  }

  /** In independent mode every demanded call of group 10 is issued by the
      target slot it names. */
  lemma TargetDemandIssued(cur: State, want: State, c: Call) returns (i: nat)
    requires Compatible(cur, want) && want.blending.independent
    requires Rank(c) == 10 && Expected(c, cur, want)
    ensures i < |cur.blending.targets|
    ensures TargetBlendCall(i, cur.blending.targets[i], want.blending.targets[i], !cur.blending.independent, c)
  {
    match c {
      case BlendFuncSeparatei(j, _) => i := j;
      case BlendEquationSeparatei(j, _) => i := j;
      case Enablei(_, j) => i := j;
      case Disablei(_, j) => i := j;
    }
  }

  /** In independent mode the per-target call description matches the
      demanded calls of group 10. */
  lemma IndependentBlendDemand(cur: State, want: State, c: Call)
    requires Compatible(cur, want)
    requires want.blending.independent
    ensures (exists i :: 0 <= i < |cur.blending.targets|
                         && TargetBlendCall(i, cur.blending.targets[i], want.blending.targets[i],
                                            !cur.blending.independent, c)) <==>
            Rank(c) == 10 && Expected(c, cur, want)
  {
    var now, next, force := cur.blending.targets, want.blending.targets, !cur.blending.independent;
    if exists i :: 0 <= i < |now| && TargetBlendCall(i, now[i], next[i], force, c) {
      var i :| 0 <= i < |now| && TargetBlendCall(i, now[i], next[i], force, c);
      TargetCallDemanded(cur, want, i, c);
    }
    if Rank(c) == 10 && Expected(c, cur, want) {
      var i := TargetDemandIssued(cur, want, c);
    }
  }

  /** In global mode every call target 0 issues is demanded, in group 10. */
  lemma GlobalCallDemanded(cur: State, want: State, c: Call)
    requires Compatible(cur, want) && !want.blending.independent
    requires GlobalBlendCall(cur.blending.targets[0], want.blending.targets[0], c)
    ensures Rank(c) == 10 && Expected(c, cur, want)
  {
  }

  /** In global mode every demanded call of group 10 is issued for target 0. */
  lemma GlobalDemandIssued(cur: State, want: State, c: Call)
    requires Compatible(cur, want) && !want.blending.independent
    requires Rank(c) == 10 && Expected(c, cur, want)
    ensures GlobalBlendCall(cur.blending.targets[0], want.blending.targets[0], c)
  {
    match c {
      case BlendFuncSeparate(_) =>
      case BlendEquationSeparate(_) =>
      case Enable(_) =>
      case Disable(_) =>
    }
  }

  /** In global mode target 0's call description matches the demanded calls
      of group 10. */
  lemma GlobalBlendDemand(cur: State, want: State, c: Call)
    requires Compatible(cur, want)
    requires !want.blending.independent
    ensures GlobalBlendCall(cur.blending.targets[0], want.blending.targets[0], c) <==>
            Rank(c) == 10 && Expected(c, cur, want)
  {
    if GlobalBlendCall(cur.blending.targets[0], want.blending.targets[0], c) {
      GlobalCallDemanded(cur, want, c);
    }
    if Rank(c) == 10 && Expected(c, cur, want) {
      GlobalDemandIssued(cur, want, c);
    }
  }

  predicate UnforcedTargetCall(i: nat, current: Blend, next: Blend, c: Call) {
    TargetBlendCall(i, current, next, false, c)
  }

  predicate ForcedTargetCall(i: nat, current: Blend, next: Blend, c: Call) {
    TargetBlendCall(i, current, next, true, c)
  }

  /** The target slots' calls, forced or not, are the union of each target's
      call description. */
  lemma TargetSlotsCalls(now: Blending, next: Blending, c: Call)
    requires |now.targets| == |next.targets| > 0 && next.independent
    ensures c in ApplyBlending(now, next).calls <==>
            exists i :: 0 <= i < |now.targets|
                        && TargetBlendCall(i, now.targets[i], next.targets[i], !now.independent, c)
  {
    if now.independent {
      ForEachSlotCallsBy(now.targets, next.targets, TargetBlendingStep, UnforcedTargetCall, c);
    } else {
      ForEachSlotCallsBy(now.targets, next.targets, ForcedTargetBlendingStep, ForcedTargetCall, c);
    }
  }

  lemma BlendingGroup(cur: State, want: State, c: Call)
    requires Compatible(cur, want)
    ensures c in ApplyBlending(cur.blending, want.blending).calls <==>
            Rank(c) == 10 && Expected(c, cur, want)
  {
    if want.blending.independent {
      TargetSlotsCalls(cur.blending, want.blending, c);
      IndependentBlendDemand(cur, want, c);
    } else {
      GlobalBlendDemand(cur, want, c);
    }
  }

  /** The per-slot texture unit description matches the demanded calls of group 11. */
  lemma TextureDemand(cur: State, want: State, c: Call)
    requires Compatible(cur, want)
    ensures (exists i :: 0 <= i < |cur.textures| && TextureCall(i, cur.textures[i], want.textures[i], c)) <==>
            Rank(c) == 11 && Expected(c, cur, want)
  {
    if c.BindTextureUnit? && c.unit < |cur.textures| {
      var i := c.unit;
      assert TextureCall(i, cur.textures[i], want.textures[i], c) <==> Expected(c, cur, want);
    }
  }

  lemma TextureGroup(cur: State, want: State, c: Call)
    requires Compatible(cur, want)
    ensures c in ApplyTextures(cur.textures, want.textures).calls <==>
            Rank(c) == 11 && Expected(c, cur, want)
  {
    ForEachSlotCallsBy(cur.textures, want.textures, TextureStep, TextureCall, c);
    TextureDemand(cur, want, c);
  }


  /** The per-slot sampler unit description matches the demanded calls of group 12. */
  lemma SamplerDemand(cur: State, want: State, c: Call)
    requires Compatible(cur, want)
    ensures (exists i :: 0 <= i < |cur.samplers| && SamplerCall(i, cur.samplers[i], want.samplers[i], c)) <==>
            Rank(c) == 12 && Expected(c, cur, want)
  {
    if c.BindSampler? && c.unit < |cur.samplers| {
      var i := c.unit;
      assert SamplerCall(i, cur.samplers[i], want.samplers[i], c) <==> Expected(c, cur, want);
    }
  }

  lemma SamplerGroup(cur: State, want: State, c: Call)
    requires Compatible(cur, want)
    ensures c in ApplySamplers(cur.samplers, want.samplers).calls <==>
            Rank(c) == 12 && Expected(c, cur, want)
  {
    ForEachSlotCallsBy(cur.samplers, want.samplers, SamplerStep, SamplerCall, c);
    SamplerDemand(cur, want, c);
  }


  /** The bulk image bind the image group issues is demanded, in group 13. */
  lemma ImageCallDemanded(cur: State, want: State, c: Call)
    requires Compatible(cur, want) && c in ApplyImages(cur.images, want.images).calls
    ensures Rank(c) == 13 && Expected(c, cur, want)
  {
    assert cur.images != want.images && c == ApplyImages(cur.images, want.images).calls[0];
  }

  /** The demanded bulk image bind is the one the image group issues: its
      range is fixed by the first and the last differing unit. */
  lemma ImageDemandIssued(cur: State, want: State, c: Call)
    requires Compatible(cur, want) && Rank(c) == 13 && Expected(c, cur, want)
    ensures c in ApplyImages(cur.images, want.images).calls
  {
    var now, next := cur.images, want.images;
    match c {
      case BindImageTextures(first, count, _) =>
        assert now != next by { assert now[first] != next[first]; }
        var bind := ApplyImages(now, next).calls[0];
        FirstDiffUnique(now, next, first, bind.first);
        LastDiffUnique(now, next, first + count - 1, bind.first + bind.count - 1, |next|);
        assert c == bind;
    }
  }

  lemma ImageGroup(cur: State, want: State, c: Call)
    requires Compatible(cur, want)
    ensures c in ApplyImages(cur.images, want.images).calls <==>
            Rank(c) == 13 && Expected(c, cur, want)
  {
    if c in ApplyImages(cur.images, want.images).calls { ImageCallDemanded(cur, want, c); }
    if Rank(c) == 13 && Expected(c, cur, want) { ImageDemandIssued(cur, want, c); }
  }

  lemma ClipControlGroup(cur: State, want: State, c: Call)
    requires Compatible(cur, want)
    ensures c in ApplyClipControl(cur.clipControl, want.clipControl).calls <==>
            Rank(c) == 14 && Expected(c, cur, want)
  {
  }

  lemma RenderbufferGroup(cur: State, want: State, c: Call)
    requires Compatible(cur, want)
    ensures c in ApplyRenderBuffer(cur.renderbuffer, want.renderbuffer).calls <==>
            Rank(c) == 15 && Expected(c, cur, want)
  {
  }

  /** Apply issues exactly the demanded calls: each call it issues sets a
      tracked value that differs, and every demanded call is issued. */
  lemma ApplyIssuesExactlyExpected(cur: State, want: State)
    requires Compatible(cur, want)
    ensures forall c :: c in Apply(cur, want).calls <==> Expected(c, cur, want)
  {
    forall c ensures c in Apply(cur, want).calls <==> Expected(c, cur, want) {
      FramebufferGroup(cur, want, c);
      ProgramGroup(cur, want, c);
      PipelineGroup(cur, want, c);
      ClipDistanceGroup(cur, want, c);
      ColorClampGroup(cur, want, c);
      MultisampleGroup(cur, want, c);
      DiscardGroup(cur, want, c);
      ColorMaskGroup(cur, want, c);
      ViewportGroup(cur, want, c);
      StencilGroup(cur, want, c);
      BlendingGroup(cur, want, c);
      TextureGroup(cur, want, c);
      SamplerGroup(cur, want, c);
      ImageGroup(cur, want, c);
      ClipControlGroup(cur, want, c);
      RenderbufferGroup(cur, want, c);
    }
  }

  /** The single-call form of ApplyIssuesExactlyExpected. */
  lemma ApplyIssues(cur: State, want: State, c: Call)
    requires Compatible(cur, want)
    ensures c in Apply(cur, want).calls <==> Expected(c, cur, want)
  {
    ApplyIssuesExactlyExpected(cur, want);
  }

  /** Every call in s is of a group no later than k. */
  predicate AtMost(s: seq<Call>, k: nat) {
    forall c :: c in s ==> Rank(c) <= k
  }

  /** Appending a block of group-k calls to ordered calls of groups up to k
      keeps them ordered. */
  lemma AppendGroup(s: seq<Call>, t: seq<Call>, k: nat)
    requires Ordered(s) && AtMost(s, k)
    requires forall c :: c in t ==> Rank(c) == k
    ensures Ordered(s + t) && AtMost(s + t, k)
  {
    forall i, j | 0 <= i < j < |s + t|
      ensures Rank((s + t)[i]) <= Rank((s + t)[j])
    {
      if j < |s| {
        assert (s + t)[i] == s[i] && (s + t)[j] == s[j];
      } else if i < |s| {
        assert (s + t)[i] == s[i] && s[i] in s;
        assert (s + t)[j] == t[j - |s|] && t[j - |s|] in t;
      } else {
        assert (s + t)[i] == t[i - |s|] && t[i - |s|] in t;
        assert (s + t)[j] == t[j - |s|] && t[j - |s|] in t;
      }
    }
  }

  /** Apply issues its calls group by group in the fixed order. */
  lemma ApplyOrdered(cur: State, want: State)
    requires Compatible(cur, want)
    ensures Ordered(Apply(cur, want).calls)
  {
    var g0 := ApplyFramebufferState(cur.draw, want.draw).calls;
    var g1 := ApplyShaderProgram(cur.draw.shaderProgram, want.draw.shaderProgram).calls;
    var g2 := ApplyProgramPipeline(cur.draw.programPipeline, want.draw.programPipeline).calls;
    var g3 := ApplyClipDistances(cur.clipDistance, want.clipDistance).calls;
    var g4 := ApplyFragmentColorClamp(cur.fragmentColorClamp, want.fragmentColorClamp).calls;
    var g5 := ApplyMultisample(cur.multisample, want.multisample).calls;
    var g6 := ApplyRasterizerDiscard(cur.rasterizerDiscard, want.rasterizerDiscard).calls;
    var g7 := ApplyColorMask(cur.colorMask, want.colorMask).calls;
    var g8 := ApplyViewport(cur.viewports, want.viewports).calls;
    var g9 := ApplyStencilTest(cur.stencil, want.stencil).calls;
    var g10 := ApplyBlending(cur.blending, want.blending).calls;
    var g11 := ApplyTextures(cur.textures, want.textures).calls;
    var g12 := ApplySamplers(cur.samplers, want.samplers).calls;
    var g13 := ApplyImages(cur.images, want.images).calls;
    var g14 := ApplyClipControl(cur.clipControl, want.clipControl).calls;
    var g15 := ApplyRenderBuffer(cur.renderbuffer, want.renderbuffer).calls;
    assert Apply(cur, want).calls
        == g0 + g1 + g2 + g3 + g4 + g5 + g6 + g7 + g8 + g9 + g10 + g11 + g12 + g13 + g14 + g15;
    forall c ensures (c in g0 ==> Rank(c) == 0) && (c in g1 ==> Rank(c) == 1)
                  && (c in g2 ==> Rank(c) == 2) && (c in g3 ==> Rank(c) == 3)
    {
      FramebufferGroup(cur, want, c);
      ProgramGroup(cur, want, c);
      PipelineGroup(cur, want, c);
      ClipDistanceGroup(cur, want, c);
    }
    forall c ensures (c in g4 ==> Rank(c) == 4) && (c in g5 ==> Rank(c) == 5)
                  && (c in g6 ==> Rank(c) == 6) && (c in g7 ==> Rank(c) == 7)
    {
      ColorClampGroup(cur, want, c);
      MultisampleGroup(cur, want, c);
      DiscardGroup(cur, want, c);
      ColorMaskGroup(cur, want, c);
    }
    forall c ensures (c in g8 ==> Rank(c) == 8) && (c in g9 ==> Rank(c) == 9)
                  && (c in g10 ==> Rank(c) == 10) && (c in g11 ==> Rank(c) == 11)
    {
      ViewportGroup(cur, want, c);
      StencilGroup(cur, want, c);
      BlendingGroup(cur, want, c);
      TextureGroup(cur, want, c);
    }
    forall c ensures (c in g12 ==> Rank(c) == 12) && (c in g13 ==> Rank(c) == 13)
                  && (c in g14 ==> Rank(c) == 14) && (c in g15 ==> Rank(c) == 15)
    {
      SamplerGroup(cur, want, c);
      ImageGroup(cur, want, c);
      ClipControlGroup(cur, want, c);
      RenderbufferGroup(cur, want, c);
    }
    assert [] + g0 == g0;
    AppendGroup([], g0, 0);
    AppendGroup(g0, g1, 1);
    AppendGroup(g0 + g1, g2, 2);
    AppendGroup(g0 + g1 + g2, g3, 3);
    AppendGroup(g0 + g1 + g2 + g3, g4, 4);
    AppendGroup(g0 + g1 + g2 + g3 + g4, g5, 5);
    AppendGroup(g0 + g1 + g2 + g3 + g4 + g5, g6, 6);
    AppendGroup(g0 + g1 + g2 + g3 + g4 + g5 + g6, g7, 7);
    AppendGroup(g0 + g1 + g2 + g3 + g4 + g5 + g6 + g7, g8, 8);
    AppendGroup(g0 + g1 + g2 + g3 + g4 + g5 + g6 + g7 + g8, g9, 9);
    AppendGroup(g0 + g1 + g2 + g3 + g4 + g5 + g6 + g7 + g8 + g9, g10, 10);
    AppendGroup(g0 + g1 + g2 + g3 + g4 + g5 + g6 + g7 + g8 + g9 + g10, g11, 11);
    AppendGroup(g0 + g1 + g2 + g3 + g4 + g5 + g6 + g7 + g8 + g9 + g10 + g11, g12, 12);
    AppendGroup(g0 + g1 + g2 + g3 + g4 + g5 + g6 + g7 + g8 + g9 + g10 + g11 + g12, g13, 13);
    AppendGroup(g0 + g1 + g2 + g3 + g4 + g5 + g6 + g7 + g8 + g9 + g10 + g11 + g12 + g13, g14, 14);
    AppendGroup(g0 + g1 + g2 + g3 + g4 + g5 + g6 + g7 + g8 + g9 + g10 + g11 + g12 + g13 + g14, g15, 15);
  }

  /** When every tracked field already agrees, no call is demanded. */
  lemma NothingExpectedWhenTracked(cur: State, want: State, c: Call)
    requires Compatible(cur, want) && Tracked(cur, want)
    ensures !Expected(c, cur, want)
  {
  }

  /** After Apply the remembered state agrees with the wanted one on every
      tracked field; blend targets 1.. keep their old remembered values when
      independent blending is off. */
  lemma ApplyConverges(cur: State, want: State)
    requires Compatible(cur, want)
    ensures Tracked(Apply(cur, want).cur, want)
    ensures !want.blending.independent ==>
              Apply(cur, want).cur.blending.targets[1..] == cur.blending.targets[1..]
  {
  }

  lemma NoCallsWhenTracked(cur: State, want: State, calls: seq<Call>)
    requires Compatible(cur, want) && Tracked(cur, want) && ExactlyDemanded(calls, cur, want)
    ensures calls == []
  {
    if calls != [] {
      assert calls[0] in calls;
      NothingExpectedWhenTracked(cur, want, calls[0]);
    }
  }

  /** Idempotence: when the remembered state already agrees with the wanted one
      on every tracked field, Apply issues nothing and changes nothing. */
  lemma ApplyIdempotent(cur: State, want: State)
    requires Compatible(cur, want) && Tracked(cur, want)
    ensures Apply(cur, want) == Out(cur, [])
  {
    ApplyIssuesExactlyExpected(cur, want);
    NoCallsWhenTracked(cur, want, Apply(cur, want).calls);
    var targets := cur.blending.targets;
    assert targets[0 := want.blending.targets[0]] == targets;
    assert cur.blending == Blending(want.blending.independent, targets);
  }

  /** Applying the same wanted state twice issues nothing the second time. */
  lemma ApplyTwiceIssuesNothing(cur: State, want: State)
    requires Compatible(cur, want)
    ensures Apply(Apply(cur, want).cur, want) == Out(Apply(cur, want).cur, [])
  {
    ApplyConverges(cur, want);
    ApplyIdempotent(Apply(cur, want).cur, want);
  }

  /** `calls` holds exactly the demanded calls: Apply's calls are one such
      list (ApplyIssuesExactlyExpected). The consequences below are proved
      for any such list and then instantiated for Apply. */
  ghost predicate ExactlyDemanded(calls: seq<Call>, cur: State, want: State)
    requires Compatible(cur, want)
  {
    forall c :: c in calls <==> Expected(c, cur, want)
  }

  lemma StencilSubgroupsOf(cur: State, want: State, face: Face, calls: seq<Call>)
    requires Compatible(cur, want) && ExactlyDemanded(calls, cur, want)
    ensures var now, next := FaceOf(cur.stencil, face), FaceOf(want.stencil, face);
            && (StencilFuncSeparate(face, next.test) in calls <==> now.test != next.test)
            && (StencilOpSeparate(face, next.action) in calls <==> now.action != next.action)
            && (StencilMaskSeparate(face, next.writeMask) in calls <==> now.writeMask != next.writeMask)
  {
  }

  /** Stencil: per face, the func/ref/mask call, the action call and the
      write-mask call are each issued exactly when their own values differ,
      whatever the other two do. */
  lemma StencilSubgroupsIndependent(cur: State, want: State, face: Face)
    requires Compatible(cur, want)
    ensures var calls := Apply(cur, want).calls;
            var now, next := FaceOf(cur.stencil, face), FaceOf(want.stencil, face);
            && (StencilFuncSeparate(face, next.test) in calls <==> now.test != next.test)
            && (StencilOpSeparate(face, next.action) in calls <==> now.action != next.action)
            && (StencilMaskSeparate(face, next.writeMask) in calls <==> now.writeMask != next.writeMask)
  {
    ApplyIssuesExactlyExpected(cur, want);
    StencilSubgroupsOf(cur, want, face, Apply(cur, want).calls);
  }

  lemma ViewportSubgroupsOf(cur: State, want: State, i: nat, calls: seq<Call>)
    requires Compatible(cur, want) && i < |want.viewports| && ExactlyDemanded(calls, cur, want)
    ensures var now, next := cur.viewports[i], want.viewports[i];
            && (ViewportIndexed(i, next.rect) in calls <==> now.rect != next.rect)
            && (DepthRangeIndexed(i, next.depthNear, next.depthFar) in calls <==>
                  (now.depthNear, now.depthFar) != (next.depthNear, next.depthFar))
            && (EnableIndexedCall(ScissorTest, i, next.scissor.enabled) in calls <==>
                  now.scissor.enabled != next.scissor.enabled)
            && (ScissorIndexed(i, next.scissor.rect) in calls <==> now.scissor.rect != next.scissor.rect)
  {
    var next := want.viewports[i];
    assert Expected(EnableIndexedCall(ScissorTest, i, next.scissor.enabled), cur, want) <==>
           cur.viewports[i].scissor.enabled != next.scissor.enabled;
  }

  /** Viewports: per unit, the rectangle, depth range, scissor switch and
      scissor box calls are each issued exactly when their own values differ. */
  lemma ViewportSubgroupsIndependent(cur: State, want: State, i: nat)
    requires Compatible(cur, want) && i < |want.viewports|
    ensures var calls := Apply(cur, want).calls;
            var now, next := cur.viewports[i], want.viewports[i];
            && (ViewportIndexed(i, next.rect) in calls <==> now.rect != next.rect)
            && (DepthRangeIndexed(i, next.depthNear, next.depthFar) in calls <==>
                  (now.depthNear, now.depthFar) != (next.depthNear, next.depthFar))
            && (EnableIndexedCall(ScissorTest, i, next.scissor.enabled) in calls <==>
                  now.scissor.enabled != next.scissor.enabled)
            && (ScissorIndexed(i, next.scissor.rect) in calls <==> now.scissor.rect != next.scissor.rect)
  {
    ApplyIssuesExactlyExpected(cur, want);
    ViewportSubgroupsOf(cur, want, i, Apply(cur, want).calls);
  }

  lemma BlendModeSwitchOf(cur: State, want: State, i: nat, calls: seq<Call>)
    requires Compatible(cur, want) && ExactlyDemanded(calls, cur, want)
    requires !cur.blending.independent && want.blending.independent
    requires i < |want.blending.targets|
    ensures EnableIndexedCall(BlendCap, i, want.blending.targets[i].enabled) in calls
  {
    assert Expected(EnableIndexedCall(BlendCap, i, want.blending.targets[i].enabled), cur, want);
  }

  /** Switching independent blending on re-issues every target's enable
      switch, even where the enabled flag did not change. */
  lemma BlendModeSwitchForcesEnables(cur: State, want: State, i: nat)
    requires Compatible(cur, want)
    requires !cur.blending.independent && want.blending.independent
    requires i < |want.blending.targets|
    ensures EnableIndexedCall(BlendCap, i, want.blending.targets[i].enabled) in Apply(cur, want).calls
  {
    ApplyIssuesExactlyExpected(cur, want);
    BlendModeSwitchOf(cur, want, i, Apply(cur, want).calls);
  }

  lemma BlendForceSkipsOf(cur: State, want: State, i: nat, calls: seq<Call>)
    requires Compatible(cur, want) && ExactlyDemanded(calls, cur, want)
    requires want.blending.independent && i < |want.blending.targets|
    ensures cur.blending.targets[i].funcs == want.blending.targets[i].funcs ==>
              forall c :: c in calls ==> !(c.BlendFuncSeparatei? && c.index == i)
    ensures cur.blending.targets[i].equations == want.blending.targets[i].equations ==>
              forall c :: c in calls ==> !(c.BlendEquationSeparatei? && c.index == i)
  {
  }

  /** The forced switch does not reach the blend functions or equations: an
      unchanged target issues no function or equation call, mode switch or
      not. */
  lemma BlendForceSkipsFuncsAndEquations(cur: State, want: State, i: nat)
    requires Compatible(cur, want)
    requires want.blending.independent && i < |want.blending.targets|
    ensures cur.blending.targets[i].funcs == want.blending.targets[i].funcs ==>
              forall c :: c in Apply(cur, want).calls ==> !(c.BlendFuncSeparatei? && c.index == i)
    ensures cur.blending.targets[i].equations == want.blending.targets[i].equations ==>
              forall c :: c in Apply(cur, want).calls ==> !(c.BlendEquationSeparatei? && c.index == i)
  {
    ApplyIssuesExactlyExpected(cur, want);
    BlendForceSkipsOf(cur, want, i, Apply(cur, want).calls);
  }

  lemma GlobalBlendOf(cur: State, want: State, calls: seq<Call>)
    requires Compatible(cur, want) && ExactlyDemanded(calls, cur, want)
    requires !want.blending.independent
    ensures forall c :: c in calls ==>
              !(c.BlendFuncSeparatei? || c.BlendEquationSeparatei?
                || ((c.Enablei? || c.Disablei?) && c.cap == BlendCap))
  {
  }

  /** While independent blending is off, only target 0 is compared: targets
      1.. issue no call and keep their remembered values. */
  lemma GlobalBlendIgnoresOtherTargets(cur: State, want: State)
    requires Compatible(cur, want) && !want.blending.independent
    ensures forall c :: c in Apply(cur, want).calls ==>
              !(c.BlendFuncSeparatei? || c.BlendEquationSeparatei?
                || ((c.Enablei? || c.Disablei?) && c.cap == BlendCap))
    ensures Apply(cur, want).cur.blending.targets[1..] == cur.blending.targets[1..]
  {
    ApplyIssuesExactlyExpected(cur, want);
    GlobalBlendOf(cur, want, Apply(cur, want).calls);
  }

  lemma TextureToZeroOf(cur: State, want: State, i: nat, calls: seq<Call>)
    requires Compatible(cur, want) && ExactlyDemanded(calls, cur, want)
    requires i < |want.textures| && want.textures[i] == 0
    ensures forall c :: c in calls ==> !(c.BindTextureUnit? && c.unit == i)
  {
  }

  /** A texture unit that changes to 0 is remembered as 0 but no bind call is
      issued for it. */
  lemma TextureToZeroIsSilent(cur: State, want: State, i: nat)
    requires Compatible(cur, want) && i < |want.textures|
    requires cur.textures[i] != 0 && want.textures[i] == 0
    ensures Apply(cur, want).cur.textures[i] == 0
    ensures forall c :: c in Apply(cur, want).calls ==> !(c.BindTextureUnit? && c.unit == i)
  {
    ApplyIssuesExactlyExpected(cur, want);
    TextureToZeroOf(cur, want, i, Apply(cur, want).calls);
  }

  lemma SamplerToZeroOf(cur: State, want: State, i: nat, calls: seq<Call>)
    requires Compatible(cur, want) && ExactlyDemanded(calls, cur, want)
    requires i < |want.samplers| && cur.samplers[i] != want.samplers[i]
    ensures BindSampler(i, want.samplers[i]) in calls
  {
    assert Expected(BindSampler(i, want.samplers[i]), cur, want);
  }

  /** A sampler unit that changes is bound, also when the new sampler is 0. */
  lemma SamplerToZeroIsBound(cur: State, want: State, i: nat)
    requires Compatible(cur, want) && i < |want.samplers|
    requires cur.samplers[i] != want.samplers[i]
    ensures BindSampler(i, want.samplers[i]) in Apply(cur, want).calls
    ensures Apply(cur, want).cur.samplers[i] == want.samplers[i]
  {
    ApplyIssuesExactlyExpected(cur, want);
    SamplerToZeroOf(cur, want, i, Apply(cur, want).calls);
  }

  lemma ImageRangeOf(cur: State, want: State, lo: nat, hi: nat, calls: seq<Call>)
    requires Compatible(cur, want) && ExactlyDemanded(calls, cur, want)
    requires lo < hi < |want.images|
    requires cur.images[lo] != want.images[lo] && cur.images[hi] != want.images[hi]
    requires forall k :: 0 <= k < |want.images| && k != lo && k != hi ==> cur.images[k] == want.images[k]
    ensures BindImageTextures(lo, hi - lo + 1, want.images[lo..hi + 1]) in calls
    ensures forall c :: c in calls && c.BindImageTextures? ==>
              c == BindImageTextures(lo, hi - lo + 1, want.images[lo..hi + 1])
  {
    assert IsFirstDiff(cur.images, want.images, lo);
    assert IsLastDiffBelow(cur.images, want.images, hi, |want.images|);
    assert Expected(BindImageTextures(lo, hi - lo + 1, want.images[lo..hi + 1]), cur, want);
    forall c | c in calls && c.BindImageTextures?
      ensures c == BindImageTextures(lo, hi - lo + 1, want.images[lo..hi + 1])
    {
      FirstDiffUnique(cur.images, want.images, c.first, lo);
      LastDiffUnique(cur.images, want.images, c.first + c.count - 1, hi, |want.images|);
    }
  }

  /** Image units differing exactly at two units lo < hi are bound by one bulk
      call over lo..hi inclusive, rebinding the unchanged units between them. */
  lemma ImageRangeSpansGap(cur: State, want: State, lo: nat, hi: nat)
    requires Compatible(cur, want)
    requires lo < hi < |want.images|
    requires cur.images[lo] != want.images[lo] && cur.images[hi] != want.images[hi]
    requires forall k :: 0 <= k < |want.images| && k != lo && k != hi ==> cur.images[k] == want.images[k]
    ensures BindImageTextures(lo, hi - lo + 1, want.images[lo..hi + 1]) in Apply(cur, want).calls
    ensures forall c :: c in Apply(cur, want).calls && c.BindImageTextures? ==>
              c == BindImageTextures(lo, hi - lo + 1, want.images[lo..hi + 1])
  {
    ApplyIssuesExactlyExpected(cur, want);
    ImageRangeOf(cur, want, lo, hi, Apply(cur, want).calls);
  }

  /** A call that binds handle h to a slot the resets purge. Image units are
      not among them: no reset clears them. */
  predicate BindsHandle(c: Call, h: Handle) {
    match c
    case BindFramebuffer(_, f) => f == h
    case UseProgram(p) => p == h
    case BindProgramPipeline(p) => p == h
    case BindTextureUnit(_, t) => t == h
    case BindSampler(_, s) => s == h
    case BindRenderbuffer(r) => r == h
    case _ => false
  }

  /** Every reset applied with handle h to the wanted state. */
  function PurgeAll(want: State, h: Handle): State {
    ResetRenderbuffer(ResetFramebuffer(ResetPipeline(ResetProgram(ResetSampler(UnbindTexture(want, h), h), h), h), h), h)
  }

  lemma PurgedOf(cur: State, want: State, h: Handle, calls: seq<Call>)
    requires Compatible(cur, want) && h != 0 && ExactlyDemanded(calls, cur, want)
    requires want.draw.readFramebuffer != h && want.draw.drawFramebuffer != h
    requires want.draw.shaderProgram != h && want.draw.programPipeline != h
    requires h !in want.textures && h !in want.samplers && want.renderbuffer != h
    ensures forall c :: c in calls ==> !BindsHandle(c, h)
  {
    forall c | c in calls ensures !BindsHandle(c, h) {
      assert Expected(c, cur, want);
      match c {
        case BindTextureUnit(i, _) => assert want.textures[i] in want.textures;
        case BindSampler(i, _) => assert want.samplers[i] in want.samplers;
        case _ =>
      }
    }
  }

  /** Purging a destroyed handle from the wanted state before applying it
      means Apply never binds that handle again. */
  lemma PurgedHandleNeverRebound(cur: State, want: State, h: Handle)
    requires Compatible(cur, want) && h != 0
    ensures Compatible(cur, PurgeAll(want, h))
    ensures forall c :: c in Apply(cur, PurgeAll(want, h)).calls ==> !BindsHandle(c, h)
  {
    var purged := PurgeAll(want, h);
    ApplyIssuesExactlyExpected(cur, purged);
    PurgedOf(cur, purged, h, Apply(cur, purged).calls);
  }

  /** Each purge is idempotent. */
  lemma {:induction false} ResetsIdempotent(s: State, h: Handle)
    ensures UnbindTexture(UnbindTexture(s, h), h) == UnbindTexture(s, h)
    ensures ResetSampler(ResetSampler(s, h), h) == ResetSampler(s, h)
    ensures ResetProgram(ResetProgram(s, h), h) == ResetProgram(s, h)
    ensures ResetPipeline(ResetPipeline(s, h), h) == ResetPipeline(s, h)
    ensures ResetFramebuffer(ResetFramebuffer(s, h), h) == ResetFramebuffer(s, h)
    ensures ResetRenderbuffer(ResetRenderbuffer(s, h), h) == ResetRenderbuffer(s, h)
  {
  }

  /** As written, the enabled case of EmulateViewportWithScissor keeps pixels
      outside the viewport: viewport (0,0,50,50) with scissor (10,10,50,50)
      yields scissor (10,10,50,50), which covers pixel (55,20). */
  lemma EmulatedScissorEscapesViewport()
    ensures var v := Viewport(Rect(0, 0, 50, 50), 0, 1, Scissor(true, Rect(10, 10, 50, 50)));
            var s := EmulateViewportWithScissor(State(
                       Draw(0, 0, 0, 0), [], false, Multisample(false, false), false, [], [v],
                       Stencil(false, StencilFace(StencilFunc(0, 0, 0), StencilOp(0, 0, 0), 0),
                               StencilFace(StencilFunc(0, 0, 0), StencilOp(0, 0, 0), 0)),
                       Blending(false, []), [], [], [], ClipControl(0, 0), 0));
            && s.viewports[0].scissor.rect == Rect(10, 10, 50, 50)
            && Covers(s.viewports[0].scissor.rect, 55, 20)
            && !Covers(v.rect, 55, 20)
  {
  }

  /** The intersecting form keeps exactly the pixels the viewport and the old
      scissor both keep: for the same input it yields (10,10,40,40). */
  lemma IntersectedScissorStaysInViewport()
    ensures var v := Viewport(Rect(0, 0, 50, 50), 0, 1, Scissor(true, Rect(10, 10, 50, 50)));
            var s := EmulateViewportWithScissorIntersected(State(
                       Draw(0, 0, 0, 0), [], false, Multisample(false, false), false, [], [v],
                       Stencil(false, StencilFace(StencilFunc(0, 0, 0), StencilOp(0, 0, 0), 0),
                               StencilFace(StencilFunc(0, 0, 0), StencilOp(0, 0, 0), 0)),
                       Blending(false, []), [], [], [], ClipControl(0, 0), 0));
            && s.viewports[0].scissor.rect == Rect(10, 10, 40, 40)
            && forall px, py :: Covers(s.viewports[0].scissor.rect, px, py) ==> Covers(v.rect, px, py)
  {
  }
}
