/**
 The value types of the OpenGL state cache: the tracked driver state, the
 driver calls the cache issues, and the pair "new cache, calls issued" that
 every apply step returns.
 */
module GLStateTypes {

  /** An OpenGL object name (GLuint); 0 is the "nothing bound" sentinel. */
  type Handle = nat

  /** An OpenGL enumerant (GLenum); the cache only compares these for equality. */
  type GLenum = nat

  /** A depth-range bound. The driver takes a float; the cache only compares it
      for equality, so the model keeps it as an opaque value. */
  type Depth = int

  /** Framebuffer and program bindings. */
  datatype Draw = Draw(
    readFramebuffer: Handle,
    drawFramebuffer: Handle,
    shaderProgram: Handle,
    programPipeline: Handle)

  datatype Multisample = Multisample(alphaToCoverage: bool, alphaToOne: bool)

  datatype ColorMask = ColorMask(red: bool, green: bool, blue: bool, alpha: bool)

  /** A window rectangle: viewport rectangle or scissor box (GLint components). */
  datatype Rect = Rect(x: int, y: int, width: int, height: int)

  datatype Scissor = Scissor(enabled: bool, rect: Rect)

  datatype Viewport = Viewport(rect: Rect, depthNear: Depth, depthFar: Depth, scissor: Scissor)

  /** The three values glStencilFuncSeparate sets. */
  datatype StencilFunc = StencilFunc(func: GLenum, ref: int, mask: nat)

  /** The three values glStencilOpSeparate sets. */
  datatype StencilOp = StencilOp(stencilFail: GLenum, depthFail: GLenum, depthPass: GLenum)

  datatype StencilFace = StencilFace(test: StencilFunc, action: StencilOp, writeMask: nat)

  datatype Stencil = Stencil(testEnabled: bool, front: StencilFace, back: StencilFace)

  /** The four blend factors glBlendFuncSeparate[i] sets. */
  datatype BlendFuncs = BlendFuncs(srcRgb: GLenum, dstRgb: GLenum, srcAlpha: GLenum, dstAlpha: GLenum)

  /** The two equations glBlendEquationSeparate[i] sets. */
  datatype BlendEquations = BlendEquations(rgb: GLenum, alpha: GLenum)

  datatype Blend = Blend(enabled: bool, funcs: BlendFuncs, equations: BlendEquations)

  /** The independent-blend flag and the per-render-target blend state. When the
      flag is off only target 0 is meaningful. */
  datatype Blending = Blending(independent: bool, targets: seq<Blend>)

  datatype ClipControl = ClipControl(origin: GLenum, depthMode: GLenum)

  /** Every field the state cache tracks. The sequences stand for the
      fixed-size arrays of the source, indexed by unit or slot. */
  datatype State = State(
    draw: Draw,
    clipDistance: seq<bool>,
    fragmentColorClamp: bool,
    multisample: Multisample,
    rasterizerDiscard: bool,
    colorMask: seq<ColorMask>,
    viewports: seq<Viewport>,
    stencil: Stencil,
    blending: Blending,
    textures: seq<Handle>,
    samplers: seq<Handle>,
    images: seq<Handle>,
    clipControl: ClipControl,
    renderbuffer: Handle)

  /** A capability switched by glEnable/glDisable (and their indexed forms). */
  datatype Capability =
    | ClipDistance(plane: nat)
    | SampleAlphaToCoverage
    | SampleAlphaToOne
    | RasterizerDiscard
    | StencilTest
    | ScissorTest
    | BlendCap

  datatype FramebufferTarget = ReadTarget | DrawTarget

  datatype Face = Front | Back

  /** One driver entry point invocation, with the arguments the cache passes. */
  datatype Call =
    | BindFramebuffer(target: FramebufferTarget, framebuffer: Handle)
    | UseProgram(program: Handle)
    | BindProgramPipeline(pipeline: Handle)
    | Enable(cap: Capability)
    | Disable(cap: Capability)
    | Enablei(cap: Capability, index: nat)
    | Disablei(cap: Capability, index: nat)
    | ClampColor(clamp: bool)
    | ColorMaski(index: nat, mask: ColorMask)
    | ViewportIndexed(index: nat, rect: Rect)
    | DepthRangeIndexed(index: nat, near: Depth, far: Depth)
    | ScissorIndexed(index: nat, rect: Rect)
    | StencilFuncSeparate(face: Face, test: StencilFunc)
    | StencilOpSeparate(face: Face, action: StencilOp)
    | StencilMaskSeparate(face: Face, writeMask: nat)
    | BlendFuncSeparate(funcs: BlendFuncs)
    | BlendEquationSeparate(equations: BlendEquations)
    | BlendFuncSeparatei(index: nat, funcs: BlendFuncs)
    | BlendEquationSeparatei(index: nat, equations: BlendEquations)
    | BindTextureUnit(unit: nat, texture: Handle)
    | BindSampler(unit: nat, sampler: Handle)
    | BindImageTextures(first: nat, count: nat, textures: seq<Handle>)
    | SetClipControl(control: ClipControl)
    | BindRenderbuffer(renderbuffer: Handle)

  /** The remembered value after an apply step, and the calls it issued in order. */
  datatype Out<T> = Out(cur: T, calls: seq<Call>)
}
