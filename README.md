# particle_shader: the GPU fluid-solver pass scheduler

particle_shader is a small OpenGL program that runs a grid-based fluid
solver on 3D textures. It keeps the velocity and the pressure each in a
pair of textures, plus one divergence texture. Every frame it issues a
fixed sequence of full-screen passes into a framebuffer:

- advection;
- divergence;
- three Jacobi relaxations of the pressure, swapping the pressure pair's
  roles after each one;
- projection.

It then ray-marches the result onto the window. A left-button press
whose unprojected point w lies strictly inside the cube (-1,1)^3 stores
the force point (w+1)/2; a press outside the cube, another button or a
release changes nothing. The next program that declares the uniform
`forcepoint` receives that point, and the point is then reset to zero.

This project models the scheduling core of `glShader.cpp`:

- the pass descriptor `simTexData`;
- the per-pass binding routines: input texture units, colour attachments
  and the draw-buffer list, and the best-effort uniform setup;
- the two draw routines;
- the seed pass;
- one frame of `simulate`, including the double-buffer role swaps and the
  time counter;
- the click handler.

Modules:

- `Descriptors` (descriptors.dfy): texture names, uniform values, the pass
  descriptor, and the shader compiler reduced to an `Interface`. The
  `Interface` is a function from shader sources to the uniform names the
  linked program declares.
- `Binding` (binding.dfy): the GL context as a class (`GlContext`), and the
  input-binding and attachment loops as methods proved against the
  functions `InputUnits`, `AttachAll` and `AttachmentList`.
- `Uniforms` (uniforms.dfy): what the uniform setup leaves on a program,
  as functions (`BoundUniforms`, `ForcePointAfter`), with lemmas name by
  name.
- `Passes` (passes.dfy): a pass and a sequence of passes as values (`Exec`,
  `Run`). It also holds a log of input events (`Replay`) that the
  stateful code is proved to follow.
- `Frame` (frame.dfy):
  - the constants;
  - the relaxation coefficients;
  - the seven passes of a frame as a value (`FrameSteps`) and what they
    guarantee: order, read-after-write, no self-aliasing and the end state;
  - the acceptance of a clicked point.
- `Scheduler` (scheduler.dfy): the application globals as a class
  (`Solver`), whose methods mirror the C++ routines.

`Solver` carries a ghost log of every pass issued and every accepted click.
Its invariant `Valid()` requires two things:

- the role indices stay complementary within {0,1};
- the GL state, the issued draws and the pending force point equal the
  replay of that log from start-up.

Each routine states exactly which log entries it appends. `Simulate`
appends the seven entries of `FrameSteps`, and its contract also states
that the GL state, the draws and the force point end as `Run` of those
passes from the state at entry. So `FrameOrder` and `FrameEndState`
describe what a frame does to the GL state and which draws it issues.

The seed pass attaches pressure slot 0 to colour attachment 1 of the
simulation framebuffer and nothing ever detaches it. The frame passes only
draw to attachment 0 (draw-buffer list [ATTACHMENT0]), but one of the first
two relaxations of every frame samples pressure slot 0 while it is still
attached to the bound framebuffer (`Frame.StaleAttachmentRead`).

## Model

| member | source | states |
|---|---|---|
| Binding.BindInputTexture | glShader.cpp:203-217 | the units become `InputUnits(old units, ids)`: input `i` on unit `i` in list order, unit 0 cleared to texture 0 when there are no inputs; the active unit ends on the last input (unit 0 when there are none) |
| Binding.BindAllAt | glShader.cpp:206-210 | after the loop, unit `u` holds input `u` when `u` is an input index; any other unit is present and bound exactly as before |
| Binding.InputUnitsAt | glShader.cpp:203-217 | with no inputs unit 0 holds texture 0; otherwise input `i` sits on unit `i`; every other unit is untouched |
| Binding.AttachOutputs | glShader.cpp:299-308 | output `k` is attached to colour attachment `k` of the bound framebuffer, and that framebuffer's draw-buffer list becomes the `n` enums pushed by the loop |
| Binding.AttachAllAt | glShader.cpp:303-307 | output `k` is on attachment `k` of the framebuffer; every other attachment, of this or another framebuffer, keeps its value (stale attachments beyond the outputs are not cleared) |
| Binding.AttachmentListAt | glShader.cpp:299-308 | the draw-buffer list has one entry per output, and entry `k` is `GL_COLOR_ATTACHMENT0 + k` |
| Uniforms.BoundUniformsAt | glShader.cpp:219-244 | best-effort binding, name by name: an undeclared name is never touched; "forcepoint" receives the pending point; a declared float uniform that is not a sampler name receives the descriptor's value; any other name keeps its value |
| Uniforms.BoundSamplerAt | glShader.cpp:230-236 | with distinct sampler names, declared sampler `i` is set to texture unit `i` |
| Uniforms.SamplerAt | glShader.cpp:230-236 | in the sampler loop alone, declared name `i` ends holding `Int(i)` |
| Uniforms.SamplerUntouched | glShader.cpp:230-236 | the sampler loop leaves alone a name that is undeclared or not among the sampler names |
| Uniforms.FloatUniformsStep | glShader.cpp:223-228 | one more float uniform, taken in any order, extends the float setup by that name exactly when the program declares it |
| Passes.RunAt | glShader.cpp:246-341 | a run of passes appends one draw per pass to the earlier draws; draw `i` is pass `i` with the force point the earlier passes left |
| Passes.RunForcePoint | glShader.cpp:238-243 | the pending force point survives a sequence of passes exactly when none of their programs declares "forcepoint"; otherwise it ends at zero |
| Passes.ForcePointDelivered | glShader.cpp:238-243 | a pass whose program declares "forcepoint" receives the pending point if no earlier pass declared it, and zero otherwise |
| Passes.SingleOutputRun | glShader.cpp:296-334 | after texture passes with one output each on one framebuffer: the window is bound, no program is in use, attachment 0 holds the last output, the draw-buffer list is [ATTACHMENT0] and every other attachment is unchanged |
| Passes.HighUnitsUntouched | glShader.cpp:203-217 | passes with one or two inputs never change texture units from 2 on |
| Passes.ReplayRun | glShader.cpp:570-650 | replaying a log extended by the entries of some passes equals running those passes on the state the log left |
| Frame.RAlpha | glShader.cpp:612 | `rAlpha` is finite exactly when the counter is positive, and then it is the positive reciprocal of the counter; at 0 it is +infinity |
| Frame.RBeta | glShader.cpp:613 | `rBeta * (4 + rAlpha) == 1` for a finite `rAlpha` other than -4 (a value `RAlpha` never yields); it lies strictly in (0, 1/4) for a positive `rAlpha`, and is 0 for an infinite one |
| Frame.CoefficientExamples | glShader.cpp:612-613 | a counter of 2 gives rAlpha 0.5 and rBeta 1/4.5; a counter of 0 gives +infinity and 0 |
| Frame.RoleAlternation | glShader.cpp:617-618 | after an even number of swaps the original slot is current, after an odd number the other one |
| Frame.FrameWellFormed | glShader.cpp:581-637 | a frame has seven passes, each with a sampler name for every input |
| Frame.FrameOrder | glShader.cpp:581-637 | a frame issues, after the earlier draws, exactly advect, divergence, three diffuse passes and projection into textures, then one screen draw |
| Frame.TexturePassesState | glShader.cpp:581-629 | the six texture passes leave the window bound, no program, the projected velocity on attachment 0, the draw-buffer list [ATTACHMENT0], and units from 2 on unchanged |
| Frame.FrameEndState | glShader.cpp:570-650 | the complete GL state after a frame: window bound, no program, active unit 1, units 0 and 1 holding the screen inputs, attachments and draw buffers as above, and uniform values those of the screen draw |
| Frame.SeedState | glShader.cpp:557-567 | the seed pass attaches velocity slot 0 and pressure slot 0 to attachments 0 and 1, sets two draw buffers, clears unit 0 and leaves the window bound and no program |
| Frame.FrameLog | glShader.cpp:581-637 | the seven log entries appended pass by pass form the log of the frame's passes |
| Frame.RelaxUniformsStable | glShader.cpp:612-613 | setting the coefficients again in a later relaxation of the same frame leaves the descriptor's uniforms unchanged |
| Frame.NoSelfAliasing | glShader.cpp:581-637 | with distinct texture names, no pass of a frame, nor the seed pass, reads a texture it writes |
| Frame.PressureFollowsLastWrite | glShader.cpp:603-637 | every read in a frame follows the last write of the same data: divergence reads the advected velocity; each relaxation reads the previous relaxation's pressure and the divergence; projection and the screen pass read the third relaxation's pressure |
| Frame.NextFrameReads | glShader.cpp:639-641 | because of the fourth swap, the next frame's advection reads the projected velocity, but its first relaxation starts from the second relaxation's pressure, not the third's |
| Frame.StaleAttachmentRead | glShader.cpp:565-567 | pressure slot 0, attached to colour attachment 1 by the seed pass, is still attached after a frame, and one of the frame's first two relaxations samples it while it is attached to the bound framebuffer |
| Frame.SeedFeedsFirstFrame | glShader.cpp:557-567 | the seed pass has no inputs and writes exactly the velocity and the pressure that the first frame reads first |
| Frame.AcceptForcePoint | glShader.cpp:680-683 | a point is accepted exactly when it lies strictly inside (-1,1)^3; it then maps to (w+1)/2, which lies strictly inside (0,1)^3 |
| Frame.ForcePointBoundary | glShader.cpp:680-683 | the cube's corners are rejected and its centre maps to (0.5, 0.5, 0.5) |
| Scheduler.Solver.constructor | glShader.cpp:53-59 | roles start at current 0 / result 1, the counter at 0 and the force point at zero, with an empty log |
| Scheduler.Solver.SetupUniform | glShader.cpp:219-244 | the program's uniform values become `BoundUniforms(old values, declared, p, old force point)`, and the force point becomes `ForcePointAfter(declared, old force point)` |
| Scheduler.Solver.DrawToTexture | glShader.cpp:246-341 | the state after the pass is `Exec` of a texture pass: framebuffer bound and attached, inputs bound, fresh program given its uniforms, draw issued, window and program 0 restored |
| Scheduler.Solver.DrawToScreen | glShader.cpp:343-490 | the state after the pass is `Exec` of a screen pass: inputs bound, fresh program given its uniforms, draw issued, program 0 restored, framebuffer and attachments unchanged |
| Scheduler.Solver.Initialize | glShader.cpp:556-567 | keeps `Valid()` and logs exactly the seed pass |
| Scheduler.Solver.AdvectPass | glShader.cpp:581-589 | keeps `Valid()` and logs the advection pass for the current velocity role |
| Scheduler.Solver.DivergencePass | glShader.cpp:591-599 | keeps `Valid()` and logs the divergence pass reading the advected velocity |
| Scheduler.Solver.RelaxPass | glShader.cpp:605-618 | keeps `Valid()`, logs one relaxation reading the current pressure slot with the counter's coefficients, and swaps the pressure roles |
| Scheduler.Solver.Relaxations | glShader.cpp:603-619 | three relaxations, logged in order, each from the slot the previous one wrote; the pressure role ends swapped three times |
| Scheduler.Solver.ProjectPass | glShader.cpp:621-629 | keeps `Valid()` and logs the projection pass into the current velocity slot |
| Scheduler.Solver.ScreenPass | glShader.cpp:631-637 | keeps `Valid()` and logs the screen pass with the absorption coefficient |
| Scheduler.Solver.VelocityPasses | glShader.cpp:581-599 | logs advection, then divergence |
| Scheduler.Solver.OutputPasses | glShader.cpp:621-649 | logs projection, then the screen pass; swaps the pressure roles a fourth time and advances the counter by one time step |
| Scheduler.Solver.Simulate | glShader.cpp:570-650 | keeps `Valid()`, logs exactly the seven passes of `FrameSteps` for the roles and counter at entry, ends with the GL state, draws and force point equal to `Run` of those passes from the state at entry, leaves the roles as they were (four swaps) and advances the counter by one time step |
| Scheduler.Solver.Click | glShader.cpp:675-686 | a left-button press whose unprojected point is strictly inside the cube sets the force point to `AcceptForcePoint(point)` and logs it; every other event changes nothing |

## Left out

- Shader loading (`readFile`, `LoadShader`, compiling and linking) is a parameter of type `Interface`. It gives the uniform names a linked program declares. A failed link is a program that declares nothing.
- `glShader.h` is not part of this model.
- Vertex buffers, the index buffer, vertex attributes, `initGeomData`, viewports, culling, the depth test, clearing, buffer swaps and buffer deletion are not modelled. They do not touch the state the passes schedule.
- Texture and framebuffer creation in `initialize` are not modelled. The generated names come in as `Textures`, and the model assumes only that they are distinct where a lemma says so.
- DrawToScreen: the camera matrices, the eye position and the viewport uniforms (glShader.cpp:445-462) are not set. Neither is `window_invert_mvp`. The screen draw's recorded uniforms hold only what the uniform setup assigns.
- Click: the unprojection of the cursor position through `window_invert_mvp` is taken as the parameter `worldPos`.
- `angle`, `idle`, `timer`, `reshape`, the display callback and `main` are GLUT plumbing and are left out.
- Scheduler.Solver.Simulate: floating-point rounding is not modelled. The `double` time counter and the GLfloat uniforms are exact reals, and `0.001f` is taken as exactly 0.001. The only IEEE behaviour kept is `1.0/0`, which gives +infinity on the first frame, and `1/(4+infinity) = 0`.
- Uniforms.BoundUniformsAt: a uniform whose GLSL type does not match the `glUniform*` call is recorded as set. GL would instead raise an error and leave the value.
- Error reporting (`glGetError`, `glCheckFramebufferStatus` and the `printf` diagnostics) is left out. An incomplete framebuffer does not stop the pass in the source either.
- `AdvectPass`, `DivergencePass`, `RelaxPass`, `ProjectPass`, `ScreenPass`, `VelocityPasses`, `OutputPasses` and `Relaxations` split the body of `simulate` into parts. The descriptor each part hands to the next is the one reused object `texData` of the source.
