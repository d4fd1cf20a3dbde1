/**
 The differential state applier of the OpenGL backend. `Apply` compares the
 wanted state with the remembered current state, issues a driver call only for
 the field groups that differ, and returns the new remembered state together
 with the calls, in the fixed group order of the source. The process-wide
 remembered state of the source is an explicit argument here.
 */
module GLState {
  import opened Options
  import opened GLStateTypes
  import opened StateUpdate

  /** The arrays of both states have the same (fixed) sizes, and render target 0
      exists. */
  predicate Compatible(current: State, next: State) {
    && |current.clipDistance| == |next.clipDistance|
    && |current.colorMask| == |next.colorMask|
    && |current.viewports| == |next.viewports|
    && |current.blending.targets| == |next.blending.targets|
    && |next.blending.targets| > 0
    && |current.textures| == |next.textures|
    && |current.samplers| == |next.samplers|
    && |current.images| == |next.images|
  }

  function ApplyFramebufferState(current: Draw, next: Draw): (r: Out<Draw>)
    ensures r.cur == current.(readFramebuffer := next.readFramebuffer, drawFramebuffer := next.drawFramebuffer)
  {
    var read := UpdateValue(current.readFramebuffer, next.readFramebuffer);
    var draw := UpdateValue(current.drawFramebuffer, next.drawFramebuffer);
    Out(current.(readFramebuffer := read.value, drawFramebuffer := draw.value),
        (if read.changed then [BindFramebuffer(ReadTarget, next.readFramebuffer)] else [])
        + (if draw.changed then [BindFramebuffer(DrawTarget, next.drawFramebuffer)] else []))
  }

  function ApplyShaderProgram(current: Handle, next: Handle): (r: Out<Handle>)
    ensures r.cur == next
  {
    var u := UpdateValue(current, next);
    Out(u.value, if u.changed then [UseProgram(next)] else [])
  }

  function ApplyProgramPipeline(current: Handle, next: Handle): (r: Out<Handle>)
    ensures r.cur == next
  {
    var u := UpdateValue(current, next);
    Out(u.value, if u.changed then [BindProgramPipeline(next)] else [])
  }

  /** Clip plane i: glEnable/glDisable(GL_CLIP_DISTANCE0 + i) when its flag changed. */
  predicate ClipDistanceCall(i: nat, current: bool, next: bool, c: Call) {
    current != next && c == EnableCall(ClipDistance(i), next)
  }

  function ClipDistanceStep(i: nat, current: bool, next: bool): (r: Out<bool>)
    ensures r.cur == next
    ensures forall c :: c in r.calls <==> ClipDistanceCall(i, current, next, c)
  {
    EnableTracked(ClipDistance(i), current, next)
  }

  function ApplyClipDistances(current: seq<bool>, next: seq<bool>): (r: Out<seq<bool>>)
    requires |current| == |next|
    ensures r.cur == next
  {
    ForEachSlot(0, current, next, ClipDistanceStep)
  }

  function ApplyFragmentColorClamp(current: bool, next: bool): (r: Out<bool>)
    ensures r.cur == next
  {
    var u := UpdateValue(current, next);
    Out(u.value, if u.changed then [ClampColor(next)] else [])
  }

  function ApplyMultisample(current: Multisample, next: Multisample): (r: Out<Multisample>)
    ensures r.cur == next
  {
    var coverage := EnableTracked(SampleAlphaToCoverage, current.alphaToCoverage, next.alphaToCoverage);
    var one := EnableTracked(SampleAlphaToOne, current.alphaToOne, next.alphaToOne);
    Out(Multisample(coverage.cur, one.cur), coverage.calls + one.calls)
  }

  function ApplyRasterizerDiscard(current: bool, next: bool): (r: Out<bool>)
    ensures r.cur == next
  {
    EnableTracked(RasterizerDiscard, current, next)
  }

  /** Render target i: one glColorMaski when any of the four channel flags differs. */
  predicate ColorMaskCall(i: nat, current: ColorMask, next: ColorMask, c: Call) {
    current != next && c == ColorMaski(i, next)
  }

  function ColorMaskStep(i: nat, current: ColorMask, next: ColorMask): (r: Out<ColorMask>)
    ensures r.cur == next
    ensures forall c :: c in r.calls <==> ColorMaskCall(i, current, next, c)
  {
    if current.red != next.red || current.green != next.green
       || current.blue != next.blue || current.alpha != next.alpha
    then Out(next, [ColorMaski(i, next)])
    else Out(current, [])
  }

  function ApplyColorMask(current: seq<ColorMask>, next: seq<ColorMask>): (r: Out<seq<ColorMask>>)
    requires |current| == |next|
    ensures r.cur == next
  {
    ForEachSlot(0, current, next, ColorMaskStep)
  }

  /** The calls viewport unit i needs: rectangle, depth range, scissor switch and
      scissor box, each only when it differs. */
  predicate ViewportCall(i: nat, current: Viewport, next: Viewport, c: Call) {
    || (current.rect != next.rect && c == ViewportIndexed(i, next.rect))
    || ((current.depthNear, current.depthFar) != (next.depthNear, next.depthFar)
        && c == DepthRangeIndexed(i, next.depthNear, next.depthFar))
    || (current.scissor.enabled != next.scissor.enabled
        && c == EnableIndexedCall(ScissorTest, i, next.scissor.enabled))
    || (current.scissor.rect != next.scissor.rect && c == ScissorIndexed(i, next.scissor.rect))
  }

  function ViewportStep(i: nat, current: Viewport, next: Viewport): (r: Out<Viewport>)
    ensures r.cur == next
    ensures forall c :: c in r.calls <==> ViewportCall(i, current, next, c)
  {
    var rect := UpdateValue(current.rect, next.rect);
    var depth := UpdateValue((current.depthNear, current.depthFar), (next.depthNear, next.depthFar));
    var scissorOn := EnableTrackedIndexed(ScissorTest, i, current.scissor.enabled, next.scissor.enabled);
    var scissorRect := UpdateValue(current.scissor.rect, next.scissor.rect);
    Out(Viewport(rect.value, depth.value.0, depth.value.1, Scissor(scissorOn.cur, scissorRect.value)),
        (if rect.changed then [ViewportIndexed(i, next.rect)] else [])
        + (if depth.changed then [DepthRangeIndexed(i, next.depthNear, next.depthFar)] else [])
        + scissorOn.calls
        + (if scissorRect.changed then [ScissorIndexed(i, next.scissor.rect)] else []))
  }

  function ApplyViewport(current: seq<Viewport>, next: seq<Viewport>): (r: Out<seq<Viewport>>)
    requires |current| == |next|
    ensures r.cur == next
  {
    ForEachSlot(0, current, next, ViewportStep)
  }

  /** The calls one stencil face needs: func/ref/mask, the three actions and
      the write mask, each only when it differs. */
  predicate StencilFaceCall(face: Face, current: StencilFace, next: StencilFace, c: Call) {
    || (current.test != next.test && c == StencilFuncSeparate(face, next.test))
    || (current.action != next.action && c == StencilOpSeparate(face, next.action))
    || (current.writeMask != next.writeMask && c == StencilMaskSeparate(face, next.writeMask))
  }

  function ConfigStencil(face: Face, current: StencilFace, next: StencilFace): (r: Out<StencilFace>)
    ensures r.cur == next
    ensures forall c :: c in r.calls <==> StencilFaceCall(face, current, next, c)
  {
    var test := UpdateValue(current.test, next.test);
    var action := UpdateValue(current.action, next.action);
    var mask := UpdateValue(current.writeMask, next.writeMask);
    Out(StencilFace(test.value, action.value, mask.value),
        (if test.changed then [StencilFuncSeparate(face, next.test)] else [])
        + (if action.changed then [StencilOpSeparate(face, next.action)] else [])
        + (if mask.changed then [StencilMaskSeparate(face, next.writeMask)] else []))
  }

  function ApplyStencilTest(current: Stencil, next: Stencil): (r: Out<Stencil>)
    ensures r.cur == next
  {
    var enabled := EnableTracked(StencilTest, current.testEnabled, next.testEnabled);
    var front := ConfigStencil(Front, current.front, next.front);
    var back := ConfigStencil(Back, current.back, next.back);
    Out(Stencil(enabled.cur, front.cur, back.cur), enabled.calls + front.calls + back.calls)
  }

  /** The calls target 0 needs in non-independent mode. */
  predicate GlobalBlendCall(current: Blend, next: Blend, c: Call) {
    || (current.enabled != next.enabled && c == EnableCall(BlendCap, next.enabled))
    || (current.funcs != next.funcs && c == BlendFuncSeparate(next.funcs))
    || (current.equations != next.equations && c == BlendEquationSeparate(next.equations))
  }

  /** Non-independent blending: only target 0 is compared, through the
      non-indexed calls. */
  function ApplyGlobalBlending(current: Blend, next: Blend): (r: Out<Blend>)
    ensures r.cur == next
    ensures forall c :: c in r.calls <==> GlobalBlendCall(current, next, c)
  {
    var enabled := EnableTracked(BlendCap, current.enabled, next.enabled);
    var funcs := UpdateValue(current.funcs, next.funcs);
    var equations := UpdateValue(current.equations, next.equations);
    Out(Blend(enabled.cur, funcs.value, equations.value),
        enabled.calls
        + (if funcs.changed then [BlendFuncSeparate(next.funcs)] else [])
        + (if equations.changed then [BlendEquationSeparate(next.equations)] else []))
  }

  /** The calls render target i needs in independent mode. `force` reaches the
      enable switch only. */
  predicate TargetBlendCall(i: nat, current: Blend, next: Blend, force: bool, c: Call) {
    || ((current.enabled != next.enabled || force) && c == EnableIndexedCall(BlendCap, i, next.enabled))
    || (current.funcs != next.funcs && c == BlendFuncSeparatei(i, next.funcs))
    || (current.equations != next.equations && c == BlendEquationSeparatei(i, next.equations))
  }

  function ApplyTargetBlending(target: nat, current: Blend, next: Blend, force: bool): (r: Out<Blend>)
    ensures r.cur == next
    ensures forall c :: c in r.calls <==> TargetBlendCall(target, current, next, force, c)
  {
    var funcs := UpdateValue(current.funcs, next.funcs);
    var equations := UpdateValue(current.equations, next.equations);
    Out(Blend(next.enabled, funcs.value, equations.value),
        (if current.enabled != next.enabled || force then [EnableIndexedCall(BlendCap, target, next.enabled)] else [])
        + (if funcs.changed then [BlendFuncSeparatei(target, next.funcs)] else [])
        + (if equations.changed then [BlendEquationSeparatei(target, next.equations)] else []))
  }

  /** ApplyTargetBlending for a target whose mode has not just been switched on. */
  function TargetBlendingStep(target: nat, current: Blend, next: Blend): (r: Out<Blend>)
    ensures r.cur == next
    ensures forall c :: c in r.calls <==> TargetBlendCall(target, current, next, false, c)
  {
    ApplyTargetBlending(target, current, next, false)
  }

  /** ApplyTargetBlending right after independent blending was switched on. */
  function ForcedTargetBlendingStep(target: nat, current: Blend, next: Blend): (r: Out<Blend>)
    ensures r.cur == next
    ensures forall c :: c in r.calls <==> TargetBlendCall(target, current, next, true, c)
  {
    ApplyTargetBlending(target, current, next, true)
  }

  /** Independent mode diffs every target (forcing the enable switch when the
      mode has just been turned on); otherwise only target 0 is diffed. The
      mode flag itself is always remembered. */
  function ApplyBlending(current: Blending, next: Blending): (r: Out<Blending>)
    requires |current.targets| == |next.targets| > 0
    ensures r.cur.independent == next.independent
    ensures next.independent ==> r.cur == next
    ensures !next.independent ==> r.cur.targets == current.targets[0 := next.targets[0]]
  {
    if next.independent then
      var force := next.independent != current.independent;
      var step := if force then ForcedTargetBlendingStep else TargetBlendingStep;
      var targets := ForEachSlot(0, current.targets, next.targets, step);
      Out(Blending(next.independent, targets.cur), targets.calls)
    else
      var global := ApplyGlobalBlending(current.targets[0], next.targets[0]);
      Out(Blending(next.independent, current.targets[0 := global.cur]), global.calls)
  }

  /** Texture unit i: remembered whenever it changes, but bound only when the
      new texture is not 0 (the driver cannot bind texture 0 this way). */
  predicate TextureCall(i: nat, current: Handle, next: Handle, c: Call) {
    current != next && next != 0 && c == BindTextureUnit(i, next)
  }

  function TextureStep(i: nat, current: Handle, next: Handle): (r: Out<Handle>)
    ensures r.cur == next
    ensures forall c :: c in r.calls <==> TextureCall(i, current, next, c)
  {
    var u := UpdateValue(current, next);
    Out(u.value, if u.changed && next != 0 then [BindTextureUnit(i, next)] else [])
  }

  function ApplyTextures(current: seq<Handle>, next: seq<Handle>): (r: Out<seq<Handle>>)
    requires |current| == |next|
    ensures r.cur == next
  {
    ForEachSlot(0, current, next, TextureStep)
  }

  /** Sampler unit i: bound whenever it changes, 0 included. */
  predicate SamplerCall(i: nat, current: Handle, next: Handle, c: Call) {
    current != next && c == BindSampler(i, next)
  }

  function SamplerStep(i: nat, current: Handle, next: Handle): (r: Out<Handle>)
    ensures r.cur == next
    ensures forall c :: c in r.calls <==> SamplerCall(i, current, next, c)
  {
    var u := UpdateValue(current, next);
    Out(u.value, if u.changed then [BindSampler(i, next)] else [])
  }

  function ApplySamplers(current: seq<Handle>, next: seq<Handle>): (r: Out<seq<Handle>>)
    requires |current| == |next|
    ensures r.cur == next
  {
    ForEachSlot(0, current, next, SamplerStep)
  }

  /** All image units in one bulk bind covering the range UpdateArray reports,
      unchanged slots inside the range included. */
  function ApplyImages(current: seq<Handle>, next: seq<Handle>): (r: Out<seq<Handle>>)
    requires |current| == |next|
    ensures r.cur == next
    ensures current == next ==> r.calls == []
    ensures current != next ==>
              && |r.calls| == 1 && r.calls[0].BindImageTextures?
              && var bind := r.calls[0];
                 && bind.count >= 1 && bind.first + bind.count <= |next|
                 && IsFirstDiff(current, next, bind.first)
                 && IsLastDiffBelow(current, next, bind.first + bind.count - 1, |next|)
                 && bind.textures == next[bind.first..bind.first + bind.count]
  {
    var update := UpdateArray(current, next);
    match update.range
    case None => Out(update.values, [])
    case Some((first, count)) =>
      Out(update.values, [BindImageTextures(first, count, next[first..first + count])])
  }

  function ApplyClipControl(current: ClipControl, next: ClipControl): (r: Out<ClipControl>)
    ensures r.cur == next
  {
    var u := UpdateValue(current, next);
    Out(u.value, if u.changed then [SetClipControl(next)] else [])
  }

  function ApplyRenderBuffer(current: Handle, next: Handle): (r: Out<Handle>)
    ensures r.cur == next
  {
    if current != next then Out(next, [BindRenderbuffer(next)]) else Out(current, [])
  }

  /** Applies every group in the fixed order of the source: framebuffers,
      program, pipeline, clip distances, color clamp, multisample, rasterizer
      discard, color masks, viewports, stencil, blending, textures, samplers,
      images, clip control, renderbuffer. */
  function Apply(current: State, next: State): (r: Out<State>)
    requires Compatible(current, next)
    ensures next.blending.independent ==> r.cur == next
    ensures !next.blending.independent ==>
              r.cur == next.(blending := Blending(false, current.blending.targets[0 := next.blending.targets[0]]))
  {
    var framebuffers := ApplyFramebufferState(current.draw, next.draw);
    var program := ApplyShaderProgram(current.draw.shaderProgram, next.draw.shaderProgram);
    var pipeline := ApplyProgramPipeline(current.draw.programPipeline, next.draw.programPipeline);
    var clipDistances := ApplyClipDistances(current.clipDistance, next.clipDistance);
    var colorClamp := ApplyFragmentColorClamp(current.fragmentColorClamp, next.fragmentColorClamp);
    var multisample := ApplyMultisample(current.multisample, next.multisample);
    var discard := ApplyRasterizerDiscard(current.rasterizerDiscard, next.rasterizerDiscard);
    var colorMask := ApplyColorMask(current.colorMask, next.colorMask);
    var viewports := ApplyViewport(current.viewports, next.viewports);
    var stencil := ApplyStencilTest(current.stencil, next.stencil);
    var blending := ApplyBlending(current.blending, next.blending);
    var textures := ApplyTextures(current.textures, next.textures);
    var samplers := ApplySamplers(current.samplers, next.samplers);
    var images := ApplyImages(current.images, next.images);
    var clipControl := ApplyClipControl(current.clipControl, next.clipControl);
    var renderbuffer := ApplyRenderBuffer(current.renderbuffer, next.renderbuffer);
    Out(State(
          framebuffers.cur.(shaderProgram := program.cur, programPipeline := pipeline.cur),
          clipDistances.cur, colorClamp.cur, multisample.cur, discard.cur, colorMask.cur,
          viewports.cur, stencil.cur, blending.cur, textures.cur, samplers.cur, images.cur,
          clipControl.cur, renderbuffer.cur),
        framebuffers.calls + program.calls + pipeline.calls + clipDistances.calls
        + colorClamp.calls + multisample.calls + discard.calls + colorMask.calls
        + viewports.calls + stencil.calls + blending.calls + textures.calls
        + samplers.calls + images.calls + clipControl.calls + renderbuffer.calls)
  }

  /** Resets every viewport to `initial`, the member-initialised Viewport of the
      class declaration. */
  function SetDefaultViewports(s: State, initial: Viewport): (r: State)
    ensures |r.viewports| == |s.viewports|
    ensures forall i :: 0 <= i < |r.viewports| ==> r.viewports[i] == initial
    ensures r.(viewports := s.viewports) == s
  {
    s.(viewports := seq(|s.viewports|, _ => initial))
  }

  /** Whether pixel (px, py) lies inside rectangle r. */
  predicate Covers(r: Rect, px: int, py: int) {
    r.x <= px < r.x + r.width && r.y <= py < r.y + r.height
  }

  function Max(a: int, b: int): int {
    if a < b then b else a
  }

  function Min(a: int, b: int): int {
    if a < b then a else b
  }

  /** The scissor box EmulateViewportWithScissor computes from viewport 0's
      rectangle and its enabled scissor, as written: the lower edges take the
      larger coordinate and the upper edges take the larger coordinate too.
      With non-negative origins and sizes the box runs from the larger lower
      edge to the larger upper edge and the size clamp never fires; with both
      sizes negative the clamp fires and the box is empty in that direction. */
  function MergedScissor(view: Rect, scissor: Rect): (r: Rect)
    ensures r.x >= 0 && r.y >= 0 && r.width >= 0 && r.height >= 0
    ensures view.x >= 0 && scissor.x >= 0 && view.width >= 0 && scissor.width >= 0 ==>
              && r.x == Max(view.x, scissor.x)
              && r.x + r.width == Max(view.x + view.width, scissor.x + scissor.width)
    ensures view.y >= 0 && scissor.y >= 0 && view.height >= 0 && scissor.height >= 0 ==>
              && r.y == Max(view.y, scissor.y)
              && r.y + r.height == Max(view.y + view.height, scissor.y + scissor.height)
    ensures view.width < 0 && scissor.width < 0 ==> r.width == 0
    ensures view.height < 0 && scissor.height < 0 ==> r.height == 0
  {
    var left := Max(view.x, scissor.x);
    var right := Max(view.x + view.width, scissor.x + scissor.width);
    var bottom := Max(view.y, scissor.y);
    var top := Max(view.y + view.height, scissor.y + scissor.height);
    Rect(Max(left, 0), Max(bottom, 0), Max(right - left, 0), Max(top - bottom, 0))
  }

  /** Makes viewport 0's scissor stand in for viewport clipping: a disabled
      scissor is enabled with exactly the viewport rectangle; an enabled one is
      replaced by MergedScissor. Nothing but viewport 0's scissor changes. */
  function EmulateViewportWithScissor(s: State): (r: State)
    requires |s.viewports| > 0
    ensures |r.viewports| == |s.viewports|
    ensures r == s.(viewports := s.viewports[0 := r.viewports[0]])
    ensures r.viewports[0] == s.viewports[0].(scissor := r.viewports[0].scissor)
    ensures r.viewports[0].scissor.enabled
    ensures !s.viewports[0].scissor.enabled ==> r.viewports[0].scissor.rect == s.viewports[0].rect
    ensures s.viewports[0].scissor.enabled ==>
              r.viewports[0].scissor.rect == MergedScissor(s.viewports[0].rect, s.viewports[0].scissor.rect)
    ensures s.viewports[0].scissor.enabled ==>
              forall px, py :: Covers(s.viewports[0].rect, px, py) && Covers(s.viewports[0].scissor.rect, px, py)
                               && px >= 0 && py >= 0
                               ==> Covers(r.viewports[0].scissor.rect, px, py)
  {
    var current := s.viewports[0];
    var scissor :=
      if current.scissor.enabled then Scissor(true, MergedScissor(current.rect, current.scissor.rect))
      else Scissor(true, current.rect);
    s.(viewports := s.viewports[0 := current.(scissor := scissor)])
  }

  /** The box the emulation evidently means: the intersection of the viewport
      rectangle and the enabled scissor, clamped as the source clamps. */
  function IntersectedScissor(view: Rect, scissor: Rect): (r: Rect)
    ensures view.x >= 0 && view.y >= 0 && scissor.x >= 0 && scissor.y >= 0 ==>
              forall px, py :: Covers(r, px, py) <==> Covers(view, px, py) && Covers(scissor, px, py)
  {
    var left := Max(view.x, scissor.x);
    var right := Min(view.x + view.width, scissor.x + scissor.width);
    var bottom := Max(view.y, scissor.y);
    var top := Min(view.y + view.height, scissor.y + scissor.height);
    Rect(Max(left, 0), Max(bottom, 0), Max(right - left, 0), Max(top - bottom, 0))
  }

  /** EmulateViewportWithScissor with the enabled case computing the
      intersection: the new scissor keeps exactly the pixels both the viewport
      and the old scissor keep. */
  function EmulateViewportWithScissorIntersected(s: State): (r: State)
    requires |s.viewports| > 0
    ensures |r.viewports| == |s.viewports|
    ensures r == s.(viewports := s.viewports[0 := r.viewports[0]])
    ensures r.viewports[0] == s.viewports[0].(scissor := r.viewports[0].scissor)
    ensures r.viewports[0].scissor.enabled
    ensures !s.viewports[0].scissor.enabled ==> r.viewports[0].scissor.rect == s.viewports[0].rect
    ensures var v := s.viewports[0];
            v.scissor.enabled && v.rect.x >= 0 && v.rect.y >= 0 && v.scissor.rect.x >= 0 && v.scissor.rect.y >= 0 ==>
              forall px, py :: Covers(r.viewports[0].scissor.rect, px, py) <==>
                                 Covers(v.rect, px, py) && Covers(v.scissor.rect, px, py)
  {
    var current := s.viewports[0];
    var scissor :=
      if current.scissor.enabled then Scissor(true, IntersectedScissor(current.rect, current.scissor.rect))
      else Scissor(true, current.rect);
    s.(viewports := s.viewports[0 := current.(scissor := scissor)])
  }

  /** A slot or field after purging handle h: h is no longer referenced, every
      other value is kept, and nothing but h was replaced (by 0). */
  predicate Purged(before: Handle, after: Handle, h: Handle) {
    && (h != 0 ==> after != h)
    && (before != h ==> after == before)
    && (after != before ==> before == h && after == 0)
  }

  /** Replaces every slot holding h with 0. */
  function ClearHandle(slots: seq<Handle>, h: Handle): (r: seq<Handle>)
    ensures |r| == |slots|
    ensures forall i :: 0 <= i < |slots| ==> Purged(slots[i], r[i], h)
  {
    seq(|slots|, i requires 0 <= i < |slots| => if slots[i] == h then 0 else slots[i])
  }

  /** Purges a texture handle from the texture units of a wanted state. */
  function UnbindTexture(s: State, h: Handle): (r: State)
    ensures r == s.(textures := r.textures)
    ensures |r.textures| == |s.textures|
    ensures forall i :: 0 <= i < |s.textures| ==> Purged(s.textures[i], r.textures[i], h)
  {
    s.(textures := ClearHandle(s.textures, h))
  }

  /** Purges a sampler handle from the sampler units of a wanted state. */
  function ResetSampler(s: State, h: Handle): (r: State)
    ensures r == s.(samplers := r.samplers)
    ensures |r.samplers| == |s.samplers|
    ensures forall i :: 0 <= i < |s.samplers| ==> Purged(s.samplers[i], r.samplers[i], h)
  {
    s.(samplers := ClearHandle(s.samplers, h))
  }

  function ResetProgram(s: State, h: Handle): (r: State)
    ensures r == s.(draw := s.draw.(shaderProgram := r.draw.shaderProgram))
    ensures Purged(s.draw.shaderProgram, r.draw.shaderProgram, h)
  {
    if s.draw.shaderProgram == h then s.(draw := s.draw.(shaderProgram := 0)) else s
  }

  function ResetPipeline(s: State, h: Handle): (r: State)
    ensures r == s.(draw := s.draw.(programPipeline := r.draw.programPipeline))
    ensures Purged(s.draw.programPipeline, r.draw.programPipeline, h)
  {
    if s.draw.programPipeline == h then s.(draw := s.draw.(programPipeline := 0)) else s
  }

  /** Purges a framebuffer handle from both the read and the draw binding. */
  function ResetFramebuffer(s: State, h: Handle): (r: State)
    ensures r == s.(draw := s.draw.(readFramebuffer := r.draw.readFramebuffer,
                                    drawFramebuffer := r.draw.drawFramebuffer))
    ensures Purged(s.draw.readFramebuffer, r.draw.readFramebuffer, h)
    ensures Purged(s.draw.drawFramebuffer, r.draw.drawFramebuffer, h)
  {
    var read := if s.draw.readFramebuffer == h then 0 else s.draw.readFramebuffer;
    var draw := if s.draw.drawFramebuffer == h then 0 else s.draw.drawFramebuffer;
    s.(draw := s.draw.(readFramebuffer := read, drawFramebuffer := draw))
  }

  function ResetRenderbuffer(s: State, h: Handle): (r: State)
    ensures r == s.(renderbuffer := r.renderbuffer)
    ensures Purged(s.renderbuffer, r.renderbuffer, h)
  {
    if s.renderbuffer == h then s.(renderbuffer := 0) else s
  }
}
