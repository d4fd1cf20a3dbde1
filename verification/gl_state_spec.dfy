/**
 A declarative description of what the state applier must do, written
 independently of the applier's step functions: the group each call belongs
 to (and so its place in the order), the exact set of calls a pair of states
 demands, and which fields the remembered state tracks.
 */
module GLStateSpec {
  import opened GLStateTypes
  import opened StateUpdate
  import opened GLState

  /** The position of a capability's group in the apply order. */
  function CapabilityRank(cap: Capability): nat {
    match cap
    case ClipDistance(_) => 3
    case SampleAlphaToCoverage => 5
    case SampleAlphaToOne => 5
    case RasterizerDiscard => 6
    case ScissorTest => 8
    case StencilTest => 9
    case BlendCap => 10
  }

  /** The position of a call's group in the apply order (0 = framebuffers,
      15 = renderbuffer). */
  function Rank(c: Call): (k: nat)
    ensures k <= 15
  {
    match c
    case BindFramebuffer(_, _) => 0
    case UseProgram(_) => 1
    case BindProgramPipeline(_) => 2
    case Enable(cap) => CapabilityRank(cap)
    case Disable(cap) => CapabilityRank(cap)
    case Enablei(cap, _) => CapabilityRank(cap)
    case Disablei(cap, _) => CapabilityRank(cap)
    case ClampColor(_) => 4
    case ColorMaski(_, _) => 7
    case ViewportIndexed(_, _) => 8
    case DepthRangeIndexed(_, _, _) => 8
    case ScissorIndexed(_, _) => 8
    case StencilFuncSeparate(_, _) => 9
    case StencilOpSeparate(_, _) => 9
    case StencilMaskSeparate(_, _) => 9
    case BlendFuncSeparate(_) => 10
    case BlendEquationSeparate(_) => 10
    case BlendFuncSeparatei(_, _) => 10
    case BlendEquationSeparatei(_, _) => 10
    case BindTextureUnit(_, _) => 11
    case BindSampler(_, _) => 12
    case BindImageTextures(_, _, _) => 13
    case SetClipControl(_) => 14
    case BindRenderbuffer(_) => 15
  }

  /** The calls are in apply order. */
  predicate Ordered(calls: seq<Call>) {
    forall i, j :: 0 <= i < j < |calls| ==> Rank(calls[i]) <= Rank(calls[j])
  }

  /** The unit or render target a call addresses inside its group (0 for the
      calls of groups without units). */
  function Unit(c: Call): nat {
    match c
    case Enable(ClipDistance(i)) => i
    case Disable(ClipDistance(i)) => i
    case Enablei(_, i) => i
    case Disablei(_, i) => i
    case ColorMaski(i, _) => i
    case ViewportIndexed(i, _) => i
    case DepthRangeIndexed(i, _, _) => i
    case ScissorIndexed(i, _) => i
    case BlendFuncSeparatei(i, _) => i
    case BlendEquationSeparatei(i, _) => i
    case BindTextureUnit(i, _) => i
    case BindSampler(i, _) => i
    case _ => 0
  }

  /** The place of a call among the calls for the same unit of the same group:
      read before draw framebuffer; alpha-to-coverage before alpha-to-one;
      rectangle, depth range, scissor switch, scissor box for a viewport; the
      stencil switch, then function, operation and write mask of the front
      face, then those of the back face; enable, function, equation for
      blending. */
  function Part(c: Call): nat {
    match c
    case BindFramebuffer(DrawTarget, _) => 1
    case Enable(SampleAlphaToOne) => 1
    case Disable(SampleAlphaToOne) => 1
    case Enablei(ScissorTest, _) => 2
    case Disablei(ScissorTest, _) => 2
    case DepthRangeIndexed(_, _, _) => 1
    case ScissorIndexed(_, _) => 3
    case StencilFuncSeparate(face, _) => if face == Front then 1 else 4
    case StencilOpSeparate(face, _) => if face == Front then 2 else 5
    case StencilMaskSeparate(face, _) => if face == Front then 3 else 6
    case BlendFuncSeparate(_) => 1
    case BlendFuncSeparatei(_, _) => 1
    case BlendEquationSeparate(_) => 2
    case BlendEquationSeparatei(_, _) => 2
    case _ => 0
  }

  /** Call a comes strictly before call b in apply order: by group, then by
      unit, then by place within the unit. */
  predicate Precedes(a: Call, b: Call) {
    || Rank(a) < Rank(b)
    || (Rank(a) == Rank(b) && Unit(a) < Unit(b))
    || (Rank(a) == Rank(b) && Unit(a) == Unit(b) && Part(a) < Part(b))
  }

  /** The calls are in strictly increasing apply order; in particular no call
      appears twice. */
  predicate InApplyOrder(calls: seq<Call>) {
    forall i, j :: 0 <= i < j < |calls| ==> Precedes(calls[i], calls[j])
  }

  function FaceOf(s: Stencil, face: Face): StencilFace {
    match face
    case Front => s.front
    case Back => s.back
  }

  /** A plain switch of `cap` to `on` is demanded. */
  predicate SwitchDemanded(cap: Capability, on: bool, cur: State, want: State)
    requires Compatible(cur, want)
  {
    match cap
    case ClipDistance(i) =>
      i < |want.clipDistance| && cur.clipDistance[i] != want.clipDistance[i] && on == want.clipDistance[i]
    case SampleAlphaToCoverage =>
      cur.multisample.alphaToCoverage != want.multisample.alphaToCoverage && on == want.multisample.alphaToCoverage
    case SampleAlphaToOne =>
      cur.multisample.alphaToOne != want.multisample.alphaToOne && on == want.multisample.alphaToOne
    case RasterizerDiscard =>
      cur.rasterizerDiscard != want.rasterizerDiscard && on == want.rasterizerDiscard
    case StencilTest =>
      cur.stencil.testEnabled != want.stencil.testEnabled && on == want.stencil.testEnabled
    case ScissorTest => false
    case BlendCap =>
      && !want.blending.independent
      && cur.blending.targets[0].enabled != want.blending.targets[0].enabled
      && on == want.blending.targets[0].enabled
  }

  /** An indexed switch of `cap` at index i to `on` is demanded. Turning
      independent blending on demands every target's switch. */
  predicate IndexedSwitchDemanded(cap: Capability, i: nat, on: bool, cur: State, want: State)
    requires Compatible(cur, want)
  {
    match cap
    case ScissorTest =>
      && i < |want.viewports|
      && cur.viewports[i].scissor.enabled != want.viewports[i].scissor.enabled
      && on == want.viewports[i].scissor.enabled
    case BlendCap =>
      && want.blending.independent
      && i < |want.blending.targets|
      && (cur.blending.targets[i].enabled != want.blending.targets[i].enabled || !cur.blending.independent)
      && on == want.blending.targets[i].enabled
    case _ => false
  }

  /** The call c is demanded by the pair (remembered state, wanted state): it
      sets a tracked value that differs to the wanted value. Texture unit
      changes to 0 are never demanded; image units demand one bulk bind from
      the first to the last differing unit. */
  predicate Expected(c: Call, cur: State, want: State)
    requires Compatible(cur, want)
  {
    match c
    case BindFramebuffer(ReadTarget, h) =>
      cur.draw.readFramebuffer != want.draw.readFramebuffer && h == want.draw.readFramebuffer
    case BindFramebuffer(DrawTarget, h) =>
      cur.draw.drawFramebuffer != want.draw.drawFramebuffer && h == want.draw.drawFramebuffer
    case UseProgram(h) =>
      cur.draw.shaderProgram != want.draw.shaderProgram && h == want.draw.shaderProgram
    case BindProgramPipeline(h) =>
      cur.draw.programPipeline != want.draw.programPipeline && h == want.draw.programPipeline
    case Enable(cap) => SwitchDemanded(cap, true, cur, want)
    case Disable(cap) => SwitchDemanded(cap, false, cur, want)
    case Enablei(cap, i) => IndexedSwitchDemanded(cap, i, true, cur, want)
    case Disablei(cap, i) => IndexedSwitchDemanded(cap, i, false, cur, want)
    case ClampColor(on) =>
      cur.fragmentColorClamp != want.fragmentColorClamp && on == want.fragmentColorClamp
    case ColorMaski(i, m) =>
      i < |want.colorMask| && cur.colorMask[i] != want.colorMask[i] && m == want.colorMask[i]
    case ViewportIndexed(i, rect) =>
      i < |want.viewports| && cur.viewports[i].rect != want.viewports[i].rect && rect == want.viewports[i].rect
    case DepthRangeIndexed(i, near, far) =>
      && i < |want.viewports|
      && (cur.viewports[i].depthNear != want.viewports[i].depthNear
          || cur.viewports[i].depthFar != want.viewports[i].depthFar)
      && near == want.viewports[i].depthNear && far == want.viewports[i].depthFar
    case ScissorIndexed(i, rect) =>
      && i < |want.viewports|
      && cur.viewports[i].scissor.rect != want.viewports[i].scissor.rect
      && rect == want.viewports[i].scissor.rect
    case StencilFuncSeparate(face, test) =>
      FaceOf(cur.stencil, face).test != FaceOf(want.stencil, face).test && test == FaceOf(want.stencil, face).test
    case StencilOpSeparate(face, action) =>
      FaceOf(cur.stencil, face).action != FaceOf(want.stencil, face).action && action == FaceOf(want.stencil, face).action
    case StencilMaskSeparate(face, mask) =>
      FaceOf(cur.stencil, face).writeMask != FaceOf(want.stencil, face).writeMask
      && mask == FaceOf(want.stencil, face).writeMask
    case BlendFuncSeparate(funcs) =>
      && !want.blending.independent
      && cur.blending.targets[0].funcs != want.blending.targets[0].funcs
      && funcs == want.blending.targets[0].funcs
    case BlendEquationSeparate(equations) =>
      && !want.blending.independent
      && cur.blending.targets[0].equations != want.blending.targets[0].equations
      && equations == want.blending.targets[0].equations
    case BlendFuncSeparatei(i, funcs) =>
      && want.blending.independent
      && i < |want.blending.targets|
      && cur.blending.targets[i].funcs != want.blending.targets[i].funcs
      && funcs == want.blending.targets[i].funcs
    case BlendEquationSeparatei(i, equations) =>
      && want.blending.independent
      && i < |want.blending.targets|
      && cur.blending.targets[i].equations != want.blending.targets[i].equations
      && equations == want.blending.targets[i].equations
    case BindTextureUnit(i, h) =>
      i < |want.textures| && cur.textures[i] != want.textures[i] && want.textures[i] != 0 && h == want.textures[i]
    case BindSampler(i, h) =>
      i < |want.samplers| && cur.samplers[i] != want.samplers[i] && h == want.samplers[i]
    case BindImageTextures(first, count, handles) =>
      && count >= 1 && first + count <= |want.images|
      && IsFirstDiff(cur.images, want.images, first)
      && IsLastDiffBelow(cur.images, want.images, first + count - 1, |want.images|)
      && handles == want.images[first..first + count]
    case SetClipControl(control) =>
      cur.clipControl != want.clipControl && control == want.clipControl
    case BindRenderbuffer(h) =>
      cur.renderbuffer != want.renderbuffer && h == want.renderbuffer
  }

  /** The remembered state agrees with the wanted one on every tracked field:
      everything, except that blend targets other than 0 are not tracked while
      independent blending is off. */
  predicate Tracked(cur: State, want: State) {
    && cur.(blending := want.blending) == want
    && cur.blending.independent == want.blending.independent
    && |cur.blending.targets| == |want.blending.targets| > 0
    && (if want.blending.independent then cur.blending.targets == want.blending.targets
        else cur.blending.targets[0] == want.blending.targets[0])
  }
}
