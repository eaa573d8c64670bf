/** The fixed per-frame pass sequence of the simulation: the texture
    names, the double-buffer role indices, the relaxation coefficients, the
    pass descriptors of one frame and what they guarantee, and the
    acceptance of a clicked force point. */
module Frame {
  import opened Descriptors
  import opened Binding
  import opened Passes

  const TexWidth := 640
  const TexHeight := 480
  const TexDepth := 40
  /** Added to the time counter once per frame (`0.001f`, taken as exact). */
  const TimeStep: real := 0.001
  const Absorption: real := 0.4

  const GlutLeftButton := 0
  const GlutDown := 0

  const InitShader := "frag_init_all.glsl"
  const AdvectShader := "frag_pass1_advect.glsl"
  const DivergenceShader := "frag_pass2_divergence.glsl"
  const DiffuseShader := "frag_pass3_diffuse.glsl"
  const ProjectShader := "frag_pass4_proj.glsl"
  const ScreenShader := "frag_screen.glsl"

  /** A two-slot texture pair (`GLuint velTexIds[2]`, `presTexIds[2]`). */
  type Slots = s: seq<TexId> | |s| == 2 witness [0, 0]

  /** A slot index of a pair. */
  type Role = r: int | 0 <= r <= 1

  /** The names generated once at initialisation: the framebuffer, the two
      velocity slots, the two pressure slots and the divergence texture. */
  datatype Textures = Textures(fbo: TexId, vel: Slots, pres: Slots, div: TexId)

  /** The five texture names are pairwise distinct, as generated names are. */
  predicate Distinct(t: Textures) {
    && t.vel[0] != t.vel[1] && t.pres[0] != t.pres[1]
    && t.div != t.vel[0] && t.div != t.vel[1] && t.div != t.pres[0] && t.div != t.pres[1]
    && t.vel[0] != t.pres[0] && t.vel[0] != t.pres[1]
    && t.vel[1] != t.pres[0] && t.vel[1] != t.pres[1]
  }

  // ---------------------------------------------------------------------
  // Relaxation coefficients

  /** `rAlpha = 1.0/count`: the reciprocal of the time counter, and positive
      infinity while the counter is still 0 (the first frame). */
  function RAlpha(count: real): (a: Scalar)
    requires count >= 0.0
    ensures a.Finite? <==> count > 0.0
    ensures a.Finite? ==> a.r > 0.0 && a.r * count == 1.0
  {
    if count == 0.0 then PosInfinity else Finite(1.0 / count)
  }

  /** `rBeta = 1/(4 + rAlpha)`, computed from the stored rAlpha. */
  function RBeta(a: Scalar): (b: Scalar)
    ensures a == PosInfinity ==> b == Finite(0.0)
    ensures a.Finite? && a.r != -4.0 ==> b.Finite? && b.r * (4.0 + a.r) == 1.0
    ensures a.Finite? && a.r > 0.0 ==> b.Finite? && 0.0 < b.r < 0.25
  {
    match a
    case PosInfinity => Finite(0.0)
    case Finite(r) => if 4.0 + r == 0.0 then PosInfinity else Finite(1.0 / (4.0 + r))
  }

  /** A time counter of 2 gives rAlpha 0.5 and rBeta 1/4.5; a counter of 0
      gives an infinite rAlpha and a zero rBeta. */
  lemma CoefficientExamples()
    ensures RAlpha(2.0) == Finite(0.5) && RBeta(RAlpha(2.0)) == Finite(1.0 / 4.5)
    ensures RAlpha(0.0) == PosInfinity && RBeta(RAlpha(0.0)) == Finite(0.0)
  {
  }

  // ---------------------------------------------------------------------
  // The pass descriptors of a frame

  function BaseUniforms(): map<string, Scalar> {
    map["texWidth" := Finite(TexWidth as real), "texHeight" := Finite(TexHeight as real),
        "texDepth" := Finite(TexDepth as real)]
  }

  function FrameUniforms(count: real): map<string, Scalar> {
    BaseUniforms()["currTime" := Finite(count)]
  }

  /** The relaxation coefficients stay in the reused descriptor, so the
      projection and screen passes carry them too. */
  function RelaxUniforms(count: real): map<string, Scalar>
    requires count >= 0.0
  {
    FrameUniforms(count)["rAlpha" := RAlpha(count)]["rBeta" := RBeta(RAlpha(count))]
  }

  function ScreenUniforms(count: real): map<string, Scalar>
    requires count >= 0.0
  {
    RelaxUniforms(count)["absorption" := Finite(Absorption)]
  }

  /** The seed pass: no inputs, writes velocity slot 0 and pressure slot 0. */
  function SeedStep(t: Textures): Step {
    Step(Texture, Pass(t.fbo, [], [], [t.vel[0], t.pres[0]], InitShader, BaseUniforms()))
  }

  function AdvectStep(t: Textures, cv: Role, count: real): Step {
    Step(Texture, Pass(t.fbo, [t.vel[cv]], ["velocity"], [t.vel[1 - cv]], AdvectShader, FrameUniforms(count)))
  }

  function DivergenceStep(t: Textures, cv: Role, count: real): Step {
    Step(Texture, Pass(t.fbo, [t.vel[1 - cv]], ["velocity"], [t.div], DivergenceShader, FrameUniforms(count)))
  }

  /** One relaxation with pressure slot `cp` current. */
  function RelaxStep(t: Textures, cp: Role, count: real): Step
    requires count >= 0.0
  {
    Step(Texture, Pass(t.fbo, [t.pres[cp], t.div], ["pressure", "divergence"], [t.pres[1 - cp]],
                   DiffuseShader, RelaxUniforms(count)))
  }

  function ProjectStep(t: Textures, cv: Role, cp: Role, count: real): Step
    requires count >= 0.0
  {
    Step(Texture, Pass(t.fbo, [t.vel[1 - cv], t.pres[cp]], ["velocity", "pressure"], [t.vel[cv]],
                   ProjectShader, RelaxUniforms(count)))
  }

  function ScreenStep(t: Textures, cv: Role, cp: Role, count: real): Step
    requires count >= 0.0
  {
    Step(Screen, Pass(t.fbo, [t.vel[cv], t.pres[cp]], ["velocity", "pressure"], [],
                  ScreenShader, ScreenUniforms(count)))
  }

  /** The current pressure slot after `flips` role swaps. */
  function RoleAfter(c: Role, flips: nat): Role {
    if flips == 0 then c else 1 - RoleAfter(c, flips - 1)
  }

  /** The passes of one frame, for the roles and counter at its start. */
  function FrameSteps(t: Textures, cv: Role, cp: Role, count: real): seq<Step>
    requires count >= 0.0
  {
    [AdvectStep(t, cv, count), DivergenceStep(t, cv, count),
     RelaxStep(t, RoleAfter(cp, 0), count), RelaxStep(t, RoleAfter(cp, 1), count),
     RelaxStep(t, RoleAfter(cp, 2), count),
     ProjectStep(t, cv, RoleAfter(cp, 3), count), ScreenStep(t, cv, RoleAfter(cp, 3), count)]
  }

  // ---------------------------------------------------------------------
  // Properties of the frame

  /** Roles alternate: after an even number of swaps the original slot is
      current again, after an odd number the other one. */
  lemma {:induction false} RoleAlternation(c: Role, flips: nat)
    ensures RoleAfter(c, flips) == if flips % 2 == 0 then c else 1 - c
  {
    if flips > 0 {
      RoleAlternation(c, flips - 1);
    }
  }

  function Shaders(draws: seq<Draw>): seq<string> {
    seq(|draws|, i requires 0 <= i < |draws| => draws[i].pass.fragShader)
  }

  function Targets(draws: seq<Draw>): seq<Target> {
    seq(|draws|, i requires 0 <= i < |draws| => draws[i].target)
  }

  lemma FrameWellFormed(t: Textures, cv: Role, cp: Role, count: real)
    requires count >= 0.0
    ensures |FrameSteps(t, cv, cp, count)| == 7
    ensures AllWellFormed(FrameSteps(t, cv, cp, count))
  {
  }

  /** One frame issues, after the earlier draws and in this order, one
      advection, one divergence, three relaxations and one projection into
      textures, then one screen draw. */
  lemma FrameOrder(iface: Interface, m: Machine, t: Textures, cv: Role, cp: Role, count: real)
    requires count >= 0.0
    ensures AllWellFormed(FrameSteps(t, cv, cp, count))
    ensures var d := Run(iface, m, FrameSteps(t, cv, cp, count)).issued;
      && |d| == |m.issued| + 7 && d[..|m.issued|] == m.issued
      && Shaders(d[|m.issued|..]) == [AdvectShader, DivergenceShader, DiffuseShader, DiffuseShader,
                                      DiffuseShader, ProjectShader, ScreenShader]
      && Targets(d[|m.issued|..]) == [Texture, Texture, Texture, Texture, Texture, Texture, Screen]
  {
    var steps := FrameSteps(t, cv, cp, count);
    FrameWellFormed(t, cv, cp, count);
    var d := Run(iface, m, steps).issued;
    var n := |m.issued|;
    RunAt(iface, m, steps, 0);
    forall i | 0 <= i < 7
      ensures d[n..][i].target == steps[i].target && d[n..][i].pass == steps[i].pass
    {
      RunAt(iface, m, steps, i);
    }
  }

  /** The six texture passes of a frame leave the window bound and no
      program, colour attachment 0 of the framebuffer holding the projected
      velocity, its draw-buffer list [ATTACHMENT0], and every unit from 2
      on as before. */
  lemma TexturePassesState(iface: Interface, m: Machine, t: Textures, cv: Role, cp: Role, count: real)
    requires count >= 0.0
    ensures AllWellFormed(FrameSteps(t, cv, cp, count))
    ensures var r := Run(iface, m, FrameSteps(t, cv, cp, count)[..6]);
      && r.gl.framebuffer == 0 && r.gl.program == None
      && r.gl.attachments == m.gl.attachments[(t.fbo, 0) := t.vel[cv]]
      && r.gl.drawBuffers == m.gl.drawBuffers[t.fbo := [ColorAttachment0]]
      && forall u: nat :: u >= 2 ==>
           (u in r.gl.units <==> u in m.gl.units) && (u in m.gl.units ==> r.gl.units[u] == m.gl.units[u])
  {
    var steps := FrameSteps(t, cv, cp, count);
    FrameWellFormed(t, cv, cp, count);
    var texturePasses := steps[..6];
    assert SingleOutputOn(texturePasses, t.fbo);
    SingleOutputRun(iface, m, texturePasses, t.fbo);
    assert FewInputs(texturePasses);
    forall u: nat | u >= 2
      ensures var r := Run(iface, m, texturePasses);
        (u in r.gl.units <==> u in m.gl.units) && (u in m.gl.units ==> r.gl.units[u] == m.gl.units[u])
    {
      HighUnitsUntouched(iface, m, texturePasses, u);
    }
  }

  /** The GL state a frame leaves behind: the window bound and no program,
      colour attachment 0 of the framebuffer holding the projected velocity
      and its draw-buffer list [ATTACHMENT0], units 0 and 1 holding the
      screen pass's inputs (the projected velocity and the third
      relaxation's pressure), every other unit and attachment as before, and
      the uniform values those of the screen draw. */
  lemma FrameEndState(iface: Interface, m: Machine, t: Textures, cv: Role, cp: Role, count: real)
    requires count >= 0.0
    ensures AllWellFormed(FrameSteps(t, cv, cp, count))
    ensures var r := Run(iface, m, FrameSteps(t, cv, cp, count));
      && r.gl.framebuffer == 0 && r.gl.program == None && r.gl.activeUnit == 1
      && r.gl.attachments == m.gl.attachments[(t.fbo, 0) := t.vel[cv]]
      && r.gl.drawBuffers == m.gl.drawBuffers[t.fbo := [ColorAttachment0]]
      && r.gl.units == m.gl.units[0 := t.vel[cv]][1 := t.pres[1 - cp]]
      && |r.issued| == |m.issued| + 7 && r.gl.uniformValues == r.issued[|m.issued| + 6].uniforms
  {
    var steps := FrameSteps(t, cv, cp, count);
    TexturePassesState(iface, m, t, cv, cp, count);
    RoleAlternation(cp, 3);
    RunSnoc(iface, m, steps, 6);
    assert steps[..7] == steps;
    var prev := Run(iface, m, steps[..6]);
    InputUnitsTwo(prev.gl.units, t.vel[cv], t.pres[1 - cp]);
    RebindLowUnits(prev.gl.units, m.gl.units, t.vel[cv], t.pres[1 - cp]);
    RunAt(iface, m, steps, 6);
  }

  /** The seed pass binds the window and no program afterwards, attaches
      velocity slot 0 and pressure slot 0 to colour attachments 0 and 1 and
      sets the draw-buffer list [ATTACHMENT0, ATTACHMENT0+1], and, having
      no inputs, binds texture 0 on unit 0. */
  lemma SeedState(iface: Interface, m: Machine, t: Textures)
    ensures WellFormed(SeedStep(t).pass)
    ensures var r := Exec(iface, m, SeedStep(t));
      && r.gl.framebuffer == 0 && r.gl.program == None && r.gl.activeUnit == 0
      && r.gl.attachments == m.gl.attachments[(t.fbo, 0) := t.vel[0]][(t.fbo, 1) := t.pres[0]]
      && r.gl.drawBuffers == m.gl.drawBuffers[t.fbo := [ColorAttachment0, ColorAttachment0 + 1]]
      && r.gl.units == m.gl.units[0 := 0]
  {
    AttachTwo(m.gl.attachments, t.fbo, t.vel[0], t.pres[0]);
  }

  /** The log entries of the first `n` relaxations of a frame entered
      with pressure slot `cp` current. */
  function RelaxLog(t: Textures, cp: Role, count: real, n: nat): (r: seq<Event>)
    requires count >= 0.0
    ensures |r| == n
  {
    if n == 0 then [] else RelaxLog(t, cp, count, n - 1) + [Issue(RelaxStep(t, RoleAfter(cp, n - 1), count))]
  }

  /** The first three relaxation entries, one by one. */
  lemma RelaxLogThree(t: Textures, cp: Role, count: real)
    requires count >= 0.0
    ensures RelaxLog(t, cp, count, 3) ==
      [Issue(RelaxStep(t, RoleAfter(cp, 0), count)), Issue(RelaxStep(t, RoleAfter(cp, 1), count)),
       Issue(RelaxStep(t, RoleAfter(cp, 2), count))]
  {
    assert RelaxLog(t, cp, count, 1) == [Issue(RelaxStep(t, RoleAfter(cp, 0), count))];
  }

  /** Regrouping seven log entries appended in five pieces. */
  lemma LogRegroup(log: seq<Event>, a: Event, b: Event, r: seq<Event>, p: Event, s: Event)
    requires |r| == 3
    ensures log + [a] + [b] + r + [p] + [s] == log + [a, b, r[0], r[1], r[2], p, s]
  {
    assert r == [r[0], r[1], r[2]];
  }

  /** A log that received advection, divergence, the three relaxations,
      projection and the screen pass, one after the other, received the
      log entries of a frame. */
  lemma FrameLog(log: seq<Event>, t: Textures, cv: Role, cp: Role, count: real)
    requires count >= 0.0
    ensures log + [Issue(AdvectStep(t, cv, count))] + [Issue(DivergenceStep(t, cv, count))]
              + RelaxLog(t, cp, count, 3)
              + [Issue(ProjectStep(t, cv, RoleAfter(cp, 3), count))] + [Issue(ScreenStep(t, cv, RoleAfter(cp, 3), count))]
            == log + Issues(FrameSteps(t, cv, cp, count))
  {
    var steps := FrameSteps(t, cv, cp, count);
    var r := RelaxLog(t, cp, count, 3);
    RelaxLogThree(t, cp, count);
    LogRegroup(log, Issue(steps[0]), Issue(steps[1]), r, Issue(steps[5]), Issue(steps[6]));
    assert Issues(steps) == [Issue(steps[0]), Issue(steps[1]), r[0], r[1], r[2], Issue(steps[5]), Issue(steps[6])];
  }

  /** Setting the coefficients again on a descriptor that already carries
      them leaves its uniforms unchanged. */
  lemma RelaxUniformsStable(count: real)
    requires count >= 0.0
    ensures RelaxUniforms(count)["rAlpha" := RAlpha(count)]["rBeta" := RBeta(RAlpha(count))] == RelaxUniforms(count)
  {
  }

  /** The output does not appear among the inputs of the same pass. */
  predicate HazardFree(s: Step) {
    forall o :: o in s.pass.outputTexIds ==> o !in s.pass.inputTexIds
  }

  /** No pass of a frame, nor the seed pass, reads a texture it writes,
      given distinct texture names. */
  lemma NoSelfAliasing(t: Textures, cv: Role, cp: Role, count: real, i: nat)
    requires Distinct(t) && count >= 0.0 && i < 7
    ensures HazardFree(SeedStep(t))
    ensures HazardFree(FrameSteps(t, cv, cp, count)[i])
  {
    RoleAlternation(cp, 0);
    RoleAlternation(cp, 1);
    RoleAlternation(cp, 2);
    RoleAlternation(cp, 3);
  }

  /** Reads follow the last write within a frame: divergence reads the
      advected velocity; each relaxation reads the divergence and the
      pressure slot the previous relaxation wrote; projection reads the
      advected velocity and the third relaxation's pressure and writes the
      velocity slot advection read; the screen pass reads what projection
      and the third relaxation wrote. */
  lemma PressureFollowsLastWrite(t: Textures, cv: Role, cp: Role, count: real)
    requires count >= 0.0
    ensures var f := FrameSteps(t, cv, cp, count);
      && f[1].pass.inputTexIds[0] == f[0].pass.outputTexIds[0]
      && f[2].pass.inputTexIds[1] == f[1].pass.outputTexIds[0]
      && f[3].pass.inputTexIds[1] == f[1].pass.outputTexIds[0]
      && f[4].pass.inputTexIds[1] == f[1].pass.outputTexIds[0]
      && f[3].pass.inputTexIds[0] == f[2].pass.outputTexIds[0]
      && f[4].pass.inputTexIds[0] == f[3].pass.outputTexIds[0]
      && f[5].pass.inputTexIds == [f[0].pass.outputTexIds[0], f[4].pass.outputTexIds[0]]
      && f[5].pass.outputTexIds == [f[0].pass.inputTexIds[0]]
      && f[6].pass.inputTexIds == [f[5].pass.outputTexIds[0], f[4].pass.outputTexIds[0]]
  {
    RoleAlternation(cp, 1);
    RoleAlternation(cp, 2);
    RoleAlternation(cp, 3);
  }

  /** Because the roles are swapped a fourth time after the screen pass, the
      next frame (same roles) starts its relaxation from the slot the SECOND
      relaxation of this frame wrote, not the third's result that projection
      used; while its advection reads the velocity projection wrote. */
  lemma NextFrameReads(t: Textures, cv: Role, cp: Role, count: real, next: real)
    requires Distinct(t) && count >= 0.0 && next >= 0.0
    ensures var f, g := FrameSteps(t, cv, cp, count), FrameSteps(t, cv, cp, next);
      && g[0].pass.inputTexIds[0] == f[5].pass.outputTexIds[0]
      && g[2].pass.inputTexIds[0] == f[3].pass.outputTexIds[0]
      && g[2].pass.inputTexIds[0] != f[4].pass.outputTexIds[0]
  {
    RoleAlternation(cp, 1);
    RoleAlternation(cp, 2);
  }

  /** The seed pass writes exactly the two slots the first frame (all roles
      0) reads first: the velocity advection reads and the pressure the
      first relaxation reads. */
  lemma SeedFeedsFirstFrame(t: Textures, count: real)
    requires count >= 0.0
    ensures var f := FrameSteps(t, 0, 0, count);
      SeedStep(t).pass.inputTexIds == [] &&
      SeedStep(t).pass.outputTexIds == [f[0].pass.inputTexIds[0], f[2].pass.inputTexIds[0]]
  {
  }

  /** The seed pass leaves pressure slot 0 on colour attachment 1 of the
      framebuffer (`SeedState`), and the passes of a frame only rewrite
      attachment 0, so it stays attached. Meanwhile the first or the second
      relaxation of every frame, drawn into that framebuffer, samples
      pressure slot 0. The draw-buffer list [ATTACHMENT0] keeps the shader
      from writing it, but the texture is attached while it is read. */
  lemma StaleAttachmentRead(iface: Interface, m: Machine, t: Textures, cv: Role, cp: Role, count: real)
    requires count >= 0.0
    requires (t.fbo, 1) in m.gl.attachments && m.gl.attachments[(t.fbo, 1)] == t.pres[0]
    ensures AllWellFormed(FrameSteps(t, cv, cp, count))
    ensures var r := Run(iface, m, FrameSteps(t, cv, cp, count));
      (t.fbo, 1) in r.gl.attachments && r.gl.attachments[(t.fbo, 1)] == t.pres[0]
    ensures var f, k := FrameSteps(t, cv, cp, count), if cp == 0 then 2 else 3;
      && f[k].target == Texture && f[k].pass.fbo == t.fbo && f[k].pass.inputTexIds[0] == t.pres[0]
      && (t.fbo, 1) in Run(iface, m, f[..k]).gl.attachments
      && Run(iface, m, f[..k]).gl.attachments[(t.fbo, 1)] == t.pres[0]
  {
    var f := FrameSteps(t, cv, cp, count);
    FrameEndState(iface, m, t, cv, cp, count);
    var k := if cp == 0 then 2 else 3;
    if cp == 0 {
      assert f[k] == RelaxStep(t, 0, count);
    } else {
      assert RoleAfter(cp, 1) == 0;
      assert f[k] == RelaxStep(t, 0, count);
    }
    assert SingleOutputOn(f[..k], t.fbo);
    SingleOutputRun(iface, m, f[..k], t.fbo);
  }

  // ---------------------------------------------------------------------
  // Force-point acceptance

  predicate InOpenCube(w: Vec3) {
    -1.0 < w.x < 1.0 && -1.0 < w.y < 1.0 && -1.0 < w.z < 1.0
  }

  /** A candidate point is accepted only strictly inside the cube (-1,1)^3
      and is then mapped into (0,1)^3 by (w+1)/2. */
  function AcceptForcePoint(w: Vec3): (r: Option<Vec3>)
    ensures r.Some? <==> InOpenCube(w)
    ensures r.Some? ==> && 2.0 * r.value.x - 1.0 == w.x
                        && 2.0 * r.value.y - 1.0 == w.y
                        && 2.0 * r.value.z - 1.0 == w.z
    ensures r.Some? ==> && 0.0 < r.value.x < 1.0 && 0.0 < r.value.y < 1.0 && 0.0 < r.value.z < 1.0
  {
    if InOpenCube(w) then Some(Vec3((w.x + 1.0) / 2.0, (w.y + 1.0) / 2.0, (w.z + 1.0) / 2.0)) else None
  }

  /** The cube's corners are rejected, its centre maps to (0.5,0.5,0.5). */
  lemma ForcePointBoundary()
    ensures AcceptForcePoint(Vec3(1.0, 1.0, 1.0)) == None
    ensures AcceptForcePoint(Vec3(-1.0, -1.0, -1.0)) == None
    ensures AcceptForcePoint(Origin) == Some(Vec3(0.5, 0.5, 0.5))
  {
  }

}
