# OpenGL state cache and device probe — a Dafny model

This project models two parts of yuzu's OpenGL renderer.

**The state applier (`OpenGLState`).** The renderer keeps one remembered copy
of the OpenGL pipeline state (`cur_state`). Before a draw it fills in a wanted
state and calls `Apply`. `Apply` compares the two group by group, issues an
OpenGL call only for what differs, and overwrites the remembered value. The
groups run in a fixed order: framebuffers, program, pipeline, clip distances,
colour clamp, multisample, rasterizer discard, colour masks, viewports,
stencil, blending, textures, samplers, images, clip control, renderbuffer.

Around `Apply` sit four kinds of helper:

- the change-tracking helpers `UpdateValue`, `UpdateTie` and `UpdateArray`;
- the `Enable` overloads;
- the viewport helpers `SetDefaultViewports` and `EmulateViewportWithScissor`;
- the resets (`UnbindTexture`, `ResetSampler`, ...), which purge a destroyed
  handle from a wanted state.

**The device probe (`Device`).** At start-up the renderer asks the driver for
limits and features. Two things are modelled:

- **Base bindings.** These are per-stage base binding indices. Each stage
  starts where the previous stage's budget ends, in u32 arithmetic, with one
  uniform block reserved.
- **Feature and bug flags.** These come from:
  - the extension list;
  - the vendor string;
  - the link status of probe programs;
  - a component-indexing probe that reads back four values.

## Modules

- `Options`: the `Option` datatype.
- `GLStateTypes`: the data model.
  - State records: `State`, `Draw`, `Viewport`, `Stencil`, `Blend`, `Blending`, ...
  - `Call`: one constructor per OpenGL entry point the applier issues.
  - `Out<T>`: the remembered value after a step, plus the calls issued, in
    order.
- `StateUpdate`: `UpdateValue`, `UpdateArray`, the `Enable` overloads, and
  `ForEachSlot`, the per-unit loop of every array group except images (which
  use `UpdateArray`), with its characterisation lemmas.
- `GLState`: every `Apply*` group, `Apply`, `SetDefaultViewports`,
  `EmulateViewportWithScissor` and the resets. Each group function returns the
  new remembered value and the calls issued. The global `cur_state` is the
  `current` parameter.
- `GLStateSpec`: an independent, declarative description of what `Apply` must
  do:
  - `Rank` gives the group of each call, and so its place in the order;
  - `Expected(c, cur, want)` is the exact set of calls a pair of states
    demands;
  - `Tracked` lists the fields the remembered state follows.
- `GLStateProofs`: the theorems connecting `Apply` with `GLStateSpec`:
  - `Apply` issues exactly the demanded calls, in group order;
  - it converges to the wanted state and is idempotent;
  - per-feature consequences, e.g. texture units changed to 0 issue no call,
    and a bulk image bind spans the gap between the first and the last
    changed unit.
- `GLStateOrder`: the call order as a sequence fact. `Apply`'s calls come
  strictly in apply order: by group, then by unit, then by a fixed place
  within the unit. So no call is issued twice, and `Apply`'s list is the only
  list in that order holding exactly the demanded calls.
- `BlendDriver`: what the driver does with the blending calls. Non-indexed
  blend calls change every draw buffer (section 17.3.6 of the OpenGL 4.6 core
  profile specification). The module also holds the corrected blend-mode
  switches (see Findings).
- `GLDevice`:
  - u32 and size_t conversions;
  - `BaseBindings` addition;
  - `BuildBaseBindings` and the base-binding table;
  - `HasExtension`;
  - the probe tests;
  - the device constructor and the null device.
  The driver's answers are a `DriverInfo` parameter.

## Model

| member | source | states |
|---|---|---|
| `StateUpdate.UpdateValue` | src/video_core/renderer_opengl/gl_state.cpp:23-35 | the remembered value becomes the wanted one, and a change is reported exactly when the two differed (a tie of references is one record value) |
| `StateUpdate.UpdateArray` | src/video_core/renderer_opengl/gl_state.cpp:37-54 | no range exactly when the arrays are equal; otherwise the range starts at the lowest differing index, ends at the highest, and covers at least one slot; the array becomes the wanted one |
| `StateUpdate.EnableCall` | src/video_core/renderer_opengl/gl_state.cpp:56-62 | glEnable of the capability when asked to enable, glDisable otherwise |
| `StateUpdate.EnableIndexedCall` | src/video_core/renderer_opengl/gl_state.cpp:64-70 | glEnablei/glDisablei of the capability at the given index, by the flag |
| `StateUpdate.EnableTracked` | src/video_core/renderer_opengl/gl_state.cpp:72-76 | the remembered flag becomes the wanted one; the switch to the wanted value is issued exactly when the flags differed, and nothing else is issued |
| `StateUpdate.EnableTrackedIndexed` | src/video_core/renderer_opengl/gl_state.cpp:78-82 | the indexed form: one indexed switch exactly when the flags differed |
| `StateUpdate.ForEachSlotCallsBy` | src/video_core/renderer_opengl/gl_state.cpp:113-118 | a per-unit loop issues a call exactly when the step of some unit, given that unit's index, issues it |
| `StateUpdate.ForEachSlotQuiet` | src/video_core/renderer_opengl/gl_state.cpp:293-313 | a per-unit loop issues nothing exactly when no unit's step issues anything |
| `GLState.ApplyFramebufferState` | src/video_core/renderer_opengl/gl_state.cpp:92-99 | the remembered read and draw framebuffers become the wanted ones and the shader program and pipeline are left to their own groups; the binds issued are stated by `GLStateProofs.FramebufferGroup` |
| `GLState.ApplyShaderProgram` | src/video_core/renderer_opengl/gl_state.cpp:101-105 | the remembered program becomes the wanted one; the glUseProgram issued is stated by `GLStateProofs.ProgramGroup` |
| `GLState.ApplyProgramPipeline` | src/video_core/renderer_opengl/gl_state.cpp:107-111 | the remembered pipeline becomes the wanted one; the bind issued is stated by `GLStateProofs.PipelineGroup` |
| `GLState.ApplyClipDistances` | src/video_core/renderer_opengl/gl_state.cpp:113-118 | every remembered clip-plane flag becomes the wanted one; the switches issued are stated by `GLStateProofs.ClipDistanceGroup` |
| `GLState.ApplyFragmentColorClamp` | src/video_core/renderer_opengl/gl_state.cpp:120-125 | the remembered clamp flag becomes the wanted one; the glClampColor issued is stated by `GLStateProofs.ColorClampGroup` |
| `GLState.ApplyMultisample` | src/video_core/renderer_opengl/gl_state.cpp:127-132 | both remembered multisample flags become the wanted ones; the switches issued are stated by `GLStateProofs.MultisampleGroup` |
| `GLState.ApplyRasterizerDiscard` | src/video_core/renderer_opengl/gl_state.cpp:134-136 | the remembered discard flag becomes the wanted one; the switch issued is stated by `GLStateProofs.DiscardGroup` |
| `GLState.ApplyColorMask` | src/video_core/renderer_opengl/gl_state.cpp:138-151 | every remembered colour mask becomes the wanted one; the glColorMaski calls issued are stated by `GLStateProofs.ColorMaskGroup` |
| `GLState.ApplyStencilTest` | src/video_core/renderer_opengl/gl_state.cpp:153-180 | the remembered stencil switch and both faces become the wanted ones; the calls issued are stated by `GLStateProofs.StencilGroup` |
| `GLState.ApplyViewport` | src/video_core/renderer_opengl/gl_state.cpp:182-217 | every remembered viewport becomes the wanted one; the calls issued are stated by `GLStateProofs.ViewportGroup` |
| `GLState.ApplyClipControl` | src/video_core/renderer_opengl/gl_state.cpp:279-284 | the remembered clip control becomes the wanted one; the glClipControl issued is stated by `GLStateProofs.ClipControlGroup` |
| `GLState.ApplyRenderBuffer` | src/video_core/renderer_opengl/gl_state.cpp:286-291 | the remembered renderbuffer becomes the wanted one; the bind issued is stated by `GLStateProofs.RenderbufferGroup` |
| `GLState.ApplyTextures` | src/video_core/renderer_opengl/gl_state.cpp:293-304 | every remembered texture unit becomes the wanted one, 0 included; the binds issued are stated by `GLStateProofs.TextureGroup` |
| `GLState.ApplySamplers` | src/video_core/renderer_opengl/gl_state.cpp:306-313 | every remembered sampler unit becomes the wanted one; the binds issued are stated by `GLStateProofs.SamplerGroup` |
| `GLState.ConfigStencil` | src/video_core/renderer_opengl/gl_state.cpp:156-177 | per face: the remembered face becomes the wanted one; the func/ref/mask call, the op call and the write-mask call are each issued exactly when their own values differ |
| `GLState.ApplyGlobalBlending` | src/video_core/renderer_opengl/gl_state.cpp:219-241 | target 0 only: the non-indexed enable, function and equation calls, each issued exactly when its own value differs |
| `GLState.ApplyTargetBlending` | src/video_core/renderer_opengl/gl_state.cpp:243-265 | the indexed enable is issued when the flag differs or the switch is forced; the function and equation calls only when their values differ |
| `GLState.ApplyBlending` | src/video_core/renderer_opengl/gl_state.cpp:267-277 | the remembered mode becomes the wanted one; in independent mode every target is remembered as wanted; in global mode only target 0 is replaced, and targets 1.. keep their remembered values |
| `GLState.ApplyImages` | src/video_core/renderer_opengl/gl_state.cpp:315-319 | no call when the image units agree; otherwise exactly one bulk bind from the first to the last differing unit, carrying the wanted handles of that range |
| `GLState.Apply` | src/video_core/renderer_opengl/gl_state.cpp:321-339 | the remembered state after applying is the wanted one, except that in global blend mode blend targets 1.. keep their old remembered values |
| `GLState.SetDefaultViewports` | src/video_core/renderer_opengl/gl_state.cpp:88-90 | every viewport becomes the default viewport; the number of viewports and every other field are unchanged |
| `GLState.EmulateViewportWithScissor` | src/video_core/renderer_opengl/gl_state.cpp:341-361 | only viewport 0's scissor changes, and it ends up enabled; a disabled scissor takes exactly the viewport rectangle; an enabled one becomes the box whose edges are the larger lower edges and the larger upper edges of the two rectangles, origin and size clamped at 0, and that box keeps every non-negative pixel inside both rectangles |
| `GLState.MergedScissor` | src/video_core/renderer_opengl/gl_state.cpp:344-349 | the as-written box has non-negative origin and size; for non-negative origins and sizes it runs from the larger lower edge to the larger upper edge, so the size clamp does not fire; when both sizes are negative the clamp fires and the box is empty in that direction |
| `GLState.EmulateViewportWithScissorIntersected` | src/video_core/renderer_opengl/gl_state.cpp:341-361 | corrected form: as above, but for non-negative origins the new scissor covers exactly the pixels inside both the viewport and the old scissor |
| `GLState.UnbindTexture` | src/video_core/renderer_opengl/gl_state.cpp:363-370 | every texture unit holding the handle becomes 0; every other unit and every other field are unchanged |
| `GLState.ResetSampler` | src/video_core/renderer_opengl/gl_state.cpp:372-379 | every sampler unit holding the handle becomes 0; nothing else changes |
| `GLState.ResetProgram` | src/video_core/renderer_opengl/gl_state.cpp:381-386 | the shader program becomes 0 iff it was the handle; nothing else changes |
| `GLState.ResetPipeline` | src/video_core/renderer_opengl/gl_state.cpp:388-393 | the program pipeline becomes 0 iff it was the handle; nothing else changes |
| `GLState.ResetFramebuffer` | src/video_core/renderer_opengl/gl_state.cpp:395-403 | the read and the draw framebuffer each become 0 iff it was the handle; nothing else changes |
| `GLState.ResetRenderbuffer` | src/video_core/renderer_opengl/gl_state.cpp:405-410 | the renderbuffer becomes 0 iff it was the handle; nothing else changes |
| `GLStateProofs.FramebufferGroup` | src/video_core/renderer_opengl/gl_state.cpp:92-99 | the framebuffer group issues exactly the demanded read/draw framebuffer binds |
| `GLStateProofs.ProgramGroup` | src/video_core/renderer_opengl/gl_state.cpp:101-105 | the program group issues exactly the demanded glUseProgram |
| `GLStateProofs.PipelineGroup` | src/video_core/renderer_opengl/gl_state.cpp:107-111 | the pipeline group issues exactly the demanded pipeline bind |
| `GLStateProofs.ClipDistanceGroup` | src/video_core/renderer_opengl/gl_state.cpp:113-118 | clip plane i is switched exactly when its flag differs, to the wanted value |
| `GLStateProofs.ColorClampGroup` | src/video_core/renderer_opengl/gl_state.cpp:120-125 | glClampColor is issued exactly when the clamp flag differs |
| `GLStateProofs.MultisampleGroup` | src/video_core/renderer_opengl/gl_state.cpp:127-132 | alpha-to-coverage and alpha-to-one are each switched exactly when their own flag differs |
| `GLStateProofs.DiscardGroup` | src/video_core/renderer_opengl/gl_state.cpp:134-136 | rasterizer discard is switched exactly when its flag differs |
| `GLStateProofs.ColorMaskGroup` | src/video_core/renderer_opengl/gl_state.cpp:138-151 | glColorMaski for target i is issued exactly when any of its four channels differs |
| `GLStateProofs.ViewportGroup` | src/video_core/renderer_opengl/gl_state.cpp:182-217 | the viewport group issues exactly the demanded viewport, depth range, scissor-switch and scissor-box calls of every unit |
| `GLStateProofs.StencilGroup` | src/video_core/renderer_opengl/gl_state.cpp:153-180 | the stencil group issues exactly the demanded test switch and per-face calls |
| `GLStateProofs.BlendingGroup` | src/video_core/renderer_opengl/gl_state.cpp:219-277 | the blending group issues exactly the demanded calls: indexed ones (enables forced on a mode switch) in independent mode, non-indexed ones for target 0 otherwise |
| `GLStateProofs.TextureGroup` | src/video_core/renderer_opengl/gl_state.cpp:293-304 | glBindTextureUnit is issued exactly for units that differ and whose wanted texture is not 0 |
| `GLStateProofs.SamplerGroup` | src/video_core/renderer_opengl/gl_state.cpp:306-313 | glBindSampler is issued exactly for units that differ, 0 included |
| `GLStateProofs.ImageGroup` | src/video_core/renderer_opengl/gl_state.cpp:315-319 | the one demanded bulk image bind, and nothing else, is issued |
| `GLStateProofs.ClipControlGroup` | src/video_core/renderer_opengl/gl_state.cpp:279-284 | glClipControl is issued exactly when origin or depth mode differs |
| `GLStateProofs.RenderbufferGroup` | src/video_core/renderer_opengl/gl_state.cpp:286-291 | the renderbuffer bind is issued exactly when the handle differs |
| `GLStateProofs.ApplyIssuesExactlyExpected` | src/video_core/renderer_opengl/gl_state.cpp:321-339 | a call is issued by Apply if and only if the pair of states demands it |
| `GLStateProofs.ApplyOrdered` | src/video_core/renderer_opengl/gl_state.cpp:321-339 | Apply's calls come group by group in the fixed order |
| `GLStateProofs.ApplyConverges` | src/video_core/renderer_opengl/gl_state.cpp:321-339 | after Apply the remembered state agrees with the wanted one on every tracked field; in global blend mode targets 1.. are untouched |
| `GLStateProofs.ApplyIdempotent` | src/video_core/renderer_opengl/gl_state.cpp:321-339 | when the remembered state already agrees on every tracked field, Apply issues nothing and changes nothing |
| `GLStateProofs.ApplyTwiceIssuesNothing` | src/video_core/renderer_opengl/gl_state.cpp:321-339 | applying the same wanted state a second time issues no call and keeps the remembered state |
| `GLStateOrder.ApplyInApplyOrder` | src/video_core/renderer_opengl/gl_state.cpp:321-339 | Apply's calls come strictly in apply order: by group in the order of `Apply`, then by unit upwards as the per-unit loops run, then in the fixed place of each call within its unit (read before draw framebuffer, stencil front before back, and so on) |
| `GLStateOrder.ApplyIssuesEachCallOnce` | src/video_core/renderer_opengl/gl_state.cpp:321-339 | no call appears twice in Apply's call list |
| `GLStateOrder.InApplyOrderUnique` | src/video_core/renderer_opengl/gl_state.cpp:321-339 | two call lists in apply order that hold the same calls are the same list |
| `GLStateOrder.ApplyCallsDetermined` | src/video_core/renderer_opengl/gl_state.cpp:321-339 | any list in apply order that holds exactly the demanded calls is Apply's call list, so the declarative description fixes the whole sequence |
| `GLStateOrder.ForEachSlotInOrder` | src/video_core/renderer_opengl/gl_state.cpp:113-118 | a per-unit loop whose steps each issue their calls in order for their own unit issues all its calls in order, unit by unit upwards |
| `GLStateProofs.StencilSubgroupsIndependent` | src/video_core/renderer_opengl/gl_state.cpp:156-179 | per face, each of the three stencil calls is issued exactly when its own values differ, whatever the other two do |
| `GLStateProofs.ViewportSubgroupsIndependent` | src/video_core/renderer_opengl/gl_state.cpp:183-216 | per unit, each of the four viewport calls is issued exactly when its own values differ |
| `GLStateProofs.BlendModeSwitchForcesEnables` | src/video_core/renderer_opengl/gl_state.cpp:243-272 | switching independent blending on issues every target's indexed enable switch, changed or not |
| `GLStateProofs.BlendForceSkipsFuncsAndEquations` | src/video_core/renderer_opengl/gl_state.cpp:243-265 | in independent mode a target whose functions (equations) are unchanged gets no function (equation) call, even on the mode switch |
| `GLStateProofs.GlobalBlendIgnoresOtherTargets` | src/video_core/renderer_opengl/gl_state.cpp:219-241 | in global mode no indexed blend call is issued and targets 1.. keep their remembered values |
| `GLStateProofs.TextureToZeroIsSilent` | src/video_core/renderer_opengl/gl_state.cpp:293-304 | a texture unit changed to 0 is remembered as 0, but no bind is issued for it |
| `GLStateProofs.SamplerToZeroIsBound` | src/video_core/renderer_opengl/gl_state.cpp:306-313 | a changed sampler unit is bound, also when the new sampler is 0 |
| `GLStateProofs.ImageRangeSpansGap` | src/video_core/renderer_opengl/gl_state.cpp:315-319 | when image units differ exactly at lo < hi, the only image call is one bulk bind over lo..hi, which rebinds the unchanged units between them |
| `GLStateProofs.PurgedHandleNeverRebound` | src/video_core/renderer_opengl/gl_state.cpp:363-410 | after every reset purges a non-zero handle from the wanted state, Apply never binds that handle as a framebuffer, program, pipeline, texture, sampler or renderbuffer |
| `GLStateProofs.ResetsIdempotent` | src/video_core/renderer_opengl/gl_state.cpp:363-410 | applying any reset twice with the same handle equals applying it once |
| `GLStateProofs.EmulatedScissorEscapesViewport` | src/video_core/renderer_opengl/gl_state.cpp:341-353 | as written, viewport (0,0,50,50) with enabled scissor (10,10,50,50) gives scissor (10,10,50,50), which covers pixel (55,20) outside the viewport |
| `GLStateProofs.IntersectedScissorStaysInViewport` | src/video_core/renderer_opengl/gl_state.cpp:341-353 | on the same input the corrected form gives (10,10,40,40), which stays inside the viewport |
| `BlendDriver.AsWrittenConsistentWithoutModeSwitch` | src/video_core/renderer_opengl/gl_state.cpp:267-277 | as written, as long as the blend mode does not change, the driver's draw buffers keep agreeing with the remembered blend state: each with its own target in independent mode, all with target 0 in global mode |
| `BlendDriver.AsWrittenSwitchOnLeavesStaleFuncs` | src/video_core/renderer_opengl/gl_state.cpp:267-277 | as written, a global frame followed by a switch to independent blending leaves draw buffer 1 with functions the remembered state says it does not have |
| `BlendDriver.AsWrittenSwitchOffLeavesStaleBuffers` | src/video_core/renderer_opengl/gl_state.cpp:267-277 | as written, switching independent blending off with target 0 unchanged issues no call, so draw buffer 1 keeps its own functions while global mode wants target 0's on every buffer |
| `BlendDriver.ApplyBlendingReapplied` | src/video_core/renderer_opengl/gl_state.cpp:267-277 | corrected blend-mode switches: remembers the same blending state as ApplyBlending |
| `BlendDriver.ReappliedSwitchReissuesAll` | src/video_core/renderer_opengl/gl_state.cpp:267-277 | on the switch to independent blending the corrected form issues every target's enable, function and equation calls |
| `BlendDriver.ReappliedSwitchOffReissuesAll` | src/video_core/renderer_opengl/gl_state.cpp:267-277 | on the switch back to global blending the corrected form issues the non-indexed enable, function and equation calls for target 0 |
| `BlendDriver.ReappliedBlendingStaysConsistent` | src/video_core/renderer_opengl/gl_state.cpp:267-277 | with the corrected switches the draw buffers always agree with the remembered state whatever the mode changes: every draw buffer ends with its wanted target in independent mode, and with wanted target 0 in global mode |
| `GLDevice.ToU32` | src/video_core/renderer_opengl/gl_device.cpp:23-28 | a GLint read as u32: non-negative values unchanged, negative ones wrap by 2^32 |
| `GLDevice.ToSize` | src/video_core/renderer_opengl/gl_device.cpp:23-28 | a GLint read as a 64-bit size_t: non-negative values unchanged, negative ones wrap by 2^64 |
| `GLDevice.Add` | src/video_core/renderer_opengl/gl_device.cpp:54-58 | component-wise u32 sum of base bindings: each component is the integer sum, less 2^32 when that sum reaches 2^32 |
| `GLDevice.AddIsModular` | src/video_core/renderer_opengl/gl_device.cpp:54-58 | each component of the sum is the integer sum modulo 2^32 |
| `GLDevice.AddIsCommutativeMonoid` | src/video_core/renderer_opengl/gl_device.cpp:54-58 | the addition is commutative and associative, with all-zero bindings as identity |
| `GLDevice.BuildBaseBindings` | src/video_core/renderer_opengl/gl_device.cpp:60-68 | one stage's budget: uniform blocks less the one reserved (a zero limit wraps to 2^32-1); the other three limits as read |
| `GLDevice.BaseBindingTable` | src/video_core/renderer_opengl/gl_device.cpp:79-100 | six entries: entry 0 reserves uniform block 0, entries 1..4 each add the previous stage's budget, and compute's entry 5 is all zero |
| `GLDevice.ChainIsPrefixSum` | src/video_core/renderer_opengl/gl_device.cpp:80-98 | with plausible limits, entry k of each kind is the reserved start plus the sum of the budgets of stages 0..k-1, with no wrap-around |
| `GLDevice.ChainIsMonotone` | src/video_core/renderer_opengl/gl_device.cpp:80-98 | with plausible limits the stages' bindings never go backwards, and stage k's uniform, storage, sampler and image ranges are each exactly as wide as its budget |
| `GLDevice.ZeroUniformLimitStepsBack` | src/video_core/renderer_opengl/gl_device.cpp:60-68 | a stage reporting zero uniform blocks makes the next stage's uniform base one lower: the u32 subtraction wraps and the sum wraps back |
| `GLDevice.Find` | src/video_core/renderer_opengl/gl_device.cpp:50-52 | the index of the first occurrence in the list, or the list's length when there is none |
| `GLDevice.HasExtension` | src/video_core/renderer_opengl/gl_device.cpp:50-52 | true exactly when the extension name is in the list |
| `GLDevice.TestProgram` | src/video_core/renderer_opengl/gl_device.cpp:30-36 | a probe succeeds exactly when its link status is GL_TRUE |
| `GLDevice.TestVariableAoffi` | src/video_core/renderer_opengl/gl_device.cpp:136-145 | variable texture offsets are supported exactly when their probe program links |
| `GLDevice.TestPreciseBug` | src/video_core/renderer_opengl/gl_device.cpp:193-202 | the precise bug is present exactly when its probe program fails to link |
| `GLDevice.FirstMismatch` | src/video_core/renderer_opengl/gl_device.cpp:177-190 | the probe loop stops at the first index from 4 to 7 whose read-back differs from the uploaded value, or finds none |
| `GLDevice.TestComponentIndexingBug` | src/video_core/renderer_opengl/gl_device.cpp:147-191 | the bug is reported exactly when some index 4..7 reads back a value other than 0x1236327, 0x985482, 0x872753, 0x2378432 respectively |
| `GLDevice.ComponentIndexingBugIsOneMismatch` | src/video_core/renderer_opengl/gl_device.cpp:177-190 | one wrong read-back anywhere in 4..7 is enough for the bug, and all four right means no bug |
| `GLDevice.MakeDevice` | src/video_core/renderer_opengl/gl_device.cpp:72-120 | every field of the constructed device in terms of the driver's answers: base-binding table, alignments, counts, extension and probe flags, and the exact vendor-string flags |
| `GLDevice.VendorMatchIsExact` | src/video_core/renderer_opengl/gl_device.cpp:76-115 | the vendor flags need the exact strings: Mesa's Intel vendor string and a lower-case NVIDIA name set neither, and no vendor sets both |
| `GLDevice.NullDevice` | src/video_core/renderer_opengl/gl_device.cpp:122-134 | the null device's fixed alignment, counts and flags; the fields the constructor leaves unset come from outside |
| `GLDevice.NullDeviceIsIdealDriver` | src/video_core/renderer_opengl/gl_device.cpp:122-134 | the null device's feature and bug flags are those a fully capable, bug-free, non-Intel driver would produce |

## Left out

- OpenGL itself. Calls are values of the `Call` datatype, in issue order.
  The driver's reaction is modelled only for blending, in `BlendDriver`,
  where it matters for a finding.
- The array sizes, the default `Viewport{}` and the field layout come from
  gl_state.h and gl_device.h, which are not part of this model.
  - The model is generic in the number of clip planes, render targets,
    viewports and texture, sampler and image units. `Compatible` asks only
    that the remembered and the wanted arrays have equal lengths, with at
    least one blend target.
  - `SetDefaultViewports` takes the default viewport as a parameter.
- Depth-range values are compared by equality on an abstract type: floating
  point and NaN are not modelled.
  - The `GLfloat` casts of viewport coordinates in `glViewportIndexedf` are
    not modelled: the call carries the integer rectangle.
- Grouped fields compare as one record value. Examples: the stencil
  func/ref/mask triple, the four colour-mask channels, the four blend
  functions. This equals the source's field-by-field `!=` chains.
- Profiling scopes and log lines have no effect on state and are left out:
  `MICROPROFILE_SCOPE` (gl_state.cpp:322) and `LOG_INFO`
  (gl_device.cpp:117-119).
- The driver queries are replaced by the `DriverInfo` parameter: `GetInteger`
  and `glGetIntegerv`, `glGetString(GL_VENDOR)`, `GetExtensions`, and the
  GLAD extension flags.
- The probe programs' GLSL text, compilation and linking become link-status
  parameters.
- The component-indexing probe's buffers, vertex array and draws become a
  read-back oracle `componentReadBack`. Resource cleanup (`SCOPE_EXIT`,
  `OGLBuffer`, `OGLVertexArray`) is not modelled.
- `Device(nullptr)` leaves `base_bindings`, `shader_storage_alignment` and
  `has_fast_buffer_sub_data` uninitialised. `NullDevice` takes them from its
  `unset` argument.
- The `OpenGLState` constructor and the static `cur_state` singleton are not
  modelled: the remembered state is an explicit parameter. The resets'
  `return *this` chaining becomes a function returning the new state.
- No reset purges image units, because the source has none.
  `GLStateProofs.PurgedHandleNeverRebound` therefore says nothing about image
  binds.
- The `Apply*` group functions' own contracts state only the remembered value.
  The calls each group issues are stated by the `GLStateProofs.*Group` lemmas
  against the independent `Expected` description.
- `GLState.EmulateViewportWithScissor`: the `GLint` overflow of `x + width` is
  not modelled, because integers are unbounded here.
- `GLDevice.BuildBaseBindings`: the contract states the u32 wrap only for a
  zero uniform-block limit. Negative limits, which a driver does not report,
  are converted by `ToU32` but not stated.
- `GLDevice.ChainIsPrefixSum`: requires plausible limits: at least one
  uniform block, and every kind below 2^28 per stage. Outside that the u32
  sums may wrap; `GLDevice.ZeroUniformLimitStepsBack` states the one wrap a
  real driver can cause.
- `GLDevice.ChainIsMonotone`: requires the same plausible limits as
  `ChainIsPrefixSum`, for the same reason.
- `GLDevice.MakeDevice`: the alignments and counts are stated only for
  non-negative driver answers. Negative ones go through `ToU32` and `ToSize`.

## Findings

| source | as written | input that shows it | evidently intended | confidence | as-written member | corrected member |
|---|---|---|---|---|---|---|
| src/video_core/renderer_opengl/gl_state.cpp:344-349 | With the scissor enabled, the new box takes `std::max` of the lower edges and also of the upper edges. The box then reaches past whichever rectangle ends first. For non-negative origins and sizes the `std::max(right - left, 0)` clamp cannot fire (`GLState.MergedScissor`). The function stands in for viewport clipping, which keeps only pixels inside the viewport. | viewport (0,0,50,50), enabled scissor (10,10,50,50): the new scissor is (10,10,50,50), which covers pixel (55,20) outside the viewport | the intersection of viewport and scissor: the upper edges take `std::min` | medium, not executed | `GLStateProofs.EmulatedScissorEscapesViewport` | `GLState.EmulateViewportWithScissorIntersected` |
| src/video_core/renderer_opengl/gl_state.cpp:247-272 | Switching independent blending on forces only each target's `glEnablei`. Functions and equations are still compared against the remembered per-target values. In global mode the non-indexed `glBlendFuncSeparate`/`glBlendEquationSeparate` changed every draw buffer, but only target 0 was remembered. | Two targets, both with functions B; the driver agrees, in independent mode. Frame 1 wants global mode with target 0 = functions A: `glBlendFuncSeparate(A)` sets both draw buffers to A, while target 1 is remembered as B. Frame 2 wants independent mode with targets (A, B): only the enables are issued, so draw buffer 1 keeps A and the cache says B. | on the switch, re-issue every target's enable, function and equation | medium, not executed | `BlendDriver.AsWrittenSwitchOnLeavesStaleFuncs` | `BlendDriver.ReappliedBlendingStaysConsistent` |
| src/video_core/renderer_opengl/gl_state.cpp:267-275 | Switching independent blending off runs `ApplyGlobalBlending`, which compares target 0 only, and nothing is forced. Draw buffers 1.. keep the per-target functions, equations and enables the indexed calls gave them. | Two targets in independent mode, target 0 with functions A and target 1 with functions B; the driver agrees. The next frame wants global mode with target 0 = functions A: no call is issued, and draw buffer 1 keeps blending with B instead of A. | on the switch back, re-issue target 0's non-indexed enable, function and equation, which set every draw buffer | medium, not executed | `BlendDriver.AsWrittenSwitchOffLeavesStaleBuffers` | `BlendDriver.ReappliedBlendingStaysConsistent` |

`GLState.Apply` keeps the as-written `ApplyBlending`, so that the applier
model and its theorems describe the code as it is. The corrected switches are
in `BlendDriver.ApplyBlendingReapplied`. It remembers the same state and
differs only in the calls it issues on either mode switch.
`GLState.EmulateViewportWithScissor` is likewise kept as written; the
corrected definition stands beside it.
