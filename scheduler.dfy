/** The application state of the simulation and its routines: the per-pass
    draw routines with their uniform setup, the seed pass, one simulation
    frame, and the mouse handler that sets the force point. */
module Scheduler {
  import opened Descriptors
  import opened Binding
  import opened Uniforms
  import opened Passes
  import opened Frame

  /** The application globals: the GL context, the shader compiler, the
      generated texture names, the double-buffer role indices, the time
      counter and the pending force point. */
  class Solver {
    const gl: GlContext
    /** The shader compiler: declared uniform names per shader set. */
    const iface: Interface
    const tex: Textures
    var currVelID: int
    var resultVelID: int
    var currPresID: int
    var resultPresID: int
    var count: real
    var forcePoint: Vec3
    /** The GL state, draws and force point at start-up. */
    ghost const start: Machine
    /** Every pass issued and every accepted click since start-up. */
    ghost var events: seq<Event>

    /** What the passes can change, as a value. */
    ghost function Snap(): Machine
      reads gl, this`forcePoint
    {
      Machine(gl.State(), gl.issued, forcePoint)
    }

    /** The GL state, the draws and the force point are the replay of the
        event log. */
    ghost predicate Logged()
      reads gl, this`forcePoint, this`events
    {
      EventsWellFormed(events) && Snap() == Replay(iface, start, events)
    }

    /** Each pair's indices stay in {0,1} and complementary, the time
        counter never goes below its start value 0, and the state is the
        replay of the log. */
    ghost predicate Valid()
      reads this, gl
    {
      && (currVelID == 0 || currVelID == 1) && resultVelID == 1 - currVelID
      && (currPresID == 0 || currPresID == 1) && resultPresID == 1 - currPresID
      && count >= 0.0
      && Logged()
    }

    /** The globals' initial values; the texture names are the ones GL
        generates during initialisation. */
    constructor (gl: GlContext, iface: Interface, tex: Textures)
      ensures Valid()
      ensures this.gl == gl && this.iface == iface && this.tex == tex
      ensures currVelID == 0 && resultVelID == 1 && currPresID == 0 && resultPresID == 1
      ensures count == 0.0 && forcePoint == Origin
      ensures start == Machine(gl.State(), gl.issued, Origin) && events == []
    {
      this.gl, this.iface, this.tex := gl, iface, tex;
      currVelID, resultVelID := 0, 1;
      currPresID, resultPresID := 0, 1;
      count, forcePoint := 0.0, Origin;
      start := Machine(gl.State(), gl.issued, Origin);
      events := [];
    }

    /** Binds the float uniforms, then the sampler units, then the pending
        force point, each only when the program declares the name; the
        force point is consumed by a program that declares it. */
    method SetupUniform(declared: set<string>, p: Pass)
      requires WellFormed(p)
      modifies gl`uniformValues, this`forcePoint
      ensures gl.uniformValues == BoundUniforms(old(gl.uniformValues), declared, p, old(forcePoint))
      ensures forcePoint == ForcePointAfter(declared, old(forcePoint))
    {
      // the map of float uniforms, in any order: its keys are distinct
      var remaining := p.uniforms.Keys;
      while remaining != {}
        invariant remaining <= p.uniforms.Keys
        invariant forcePoint == old(forcePoint)
        invariant gl.uniformValues == FloatUniforms(old(gl.uniformValues), declared, p.uniforms - remaining)
        decreases remaining
      {
        var name :| name in remaining;
        FloatUniformsStep(old(gl.uniformValues), declared, p.uniforms, remaining, name);
        if name in declared {
          gl.uniformValues := gl.uniformValues[name := Float(p.uniforms[name])];
        }
        remaining := remaining - {name};
      }
      assert p.uniforms - remaining == p.uniforms;

      ghost var afterFloats := gl.uniformValues;
      var i := 0;
      while i < |p.inputTexIds|
        invariant 0 <= i <= |p.inputTexIds|
        invariant forcePoint == old(forcePoint)
        invariant gl.uniformValues == SamplerUniforms(afterFloats, declared, p.inputTexNames[..i])
      {
        if p.inputTexNames[i] in declared {
          gl.uniformValues := gl.uniformValues[p.inputTexNames[i] := Int(i)];
        }
        assert p.inputTexNames[..i + 1][..i] == p.inputTexNames[..i];
        i := i + 1;
      }

      if ForcePointName in declared {
        gl.uniformValues := gl.uniformValues[ForcePointName := Vector(forcePoint)];
        forcePoint := Origin;
      }
    }

    /** One texture pass: bind the framebuffer, attach the outputs and set
        the draw buffers, bind the inputs, load and use a fresh program,
        set the uniforms, draw, then restore the framebuffer and program. */
    method DrawToTexture(p: Pass)
      requires WellFormed(p)
      modifies gl, this`forcePoint
      ensures Snap() == Exec(iface, old(Snap()), Step(Texture, p))
    {
      gl.framebuffer := p.fbo;
      AttachOutputs(gl, p.outputTexIds);
      BindInputTexture(gl, p.inputTexIds);
      var declared := iface(SourcesFor(Texture, p.fragShader));
      gl.program, gl.uniformValues := Some(declared), map[];
      SetupUniform(declared, p);
      gl.issued := gl.issued + [Draw(Texture, p, gl.uniformValues)];
      gl.framebuffer := 0;
      gl.program := None;
    }

    /** The screen pass: bind the inputs, load and use a fresh program, set
        the uniforms, draw to the window, release the program. */
    method DrawToScreen(p: Pass)
      requires WellFormed(p)
      modifies gl, this`forcePoint
      ensures Snap() == Exec(iface, old(Snap()), Step(Screen, p))
    {
      BindInputTexture(gl, p.inputTexIds);
      var declared := iface(SourcesFor(Screen, p.fragShader));
      gl.program, gl.uniformValues := Some(declared), map[];
      SetupUniform(declared, p);
      gl.issued := gl.issued + [Draw(Screen, p, gl.uniformValues)];
      gl.program := None;
    }

    /** Appends a pass just issued from the logged machine `before` to the
        log. */
    ghost method Record(before: Machine, s: Step)
      requires WellFormed(s.pass) && EventsWellFormed(events) && before == Replay(iface, start, events)
      requires Snap() == Exec(iface, before, s)
      modifies this`events
      ensures Logged() && events == old(events) + [Issue(s)]
    {
      ReplaySnoc(iface, start, events, Issue(s));
      events := events + [Issue(s)];
    }

    /** The seed pass that fills velocity slot 0 and pressure slot 0. */
    method Initialize()
      requires Valid()
      modifies gl, this`forcePoint, this`events
      ensures Valid()
      ensures events == old(events) + [Issue(SeedStep(tex))]
    {
      var initData := Pass(tex.fbo, [], [], [tex.vel[0], tex.pres[0]], InitShader, BaseUniforms());
      ghost var before := Snap();
      DrawToTexture(initData);
      Record(before, Step(Texture, initData));
    }

    /** Pass 1 of a frame, advection: the current velocity slot in, the
        other velocity slot out. */
    method AdvectPass(texData: Pass) returns (next: Pass)
      requires Valid() && texData.uniforms == FrameUniforms(count)
      modifies gl, this`forcePoint, this`events
      ensures Valid()
      ensures next.uniforms == FrameUniforms(count)
      ensures events == old(events) + [Issue(AdvectStep(tex, currVelID, count))]
    {
      next := texData.(fbo := tex.fbo, inputTexIds := [tex.vel[currVelID]], inputTexNames := ["velocity"],
                       outputTexIds := [tex.vel[resultVelID]], fragShader := AdvectShader);
      ghost var before := Snap();
      DrawToTexture(next);
      Record(before, Step(Texture, next));
    }

    /** Pass 2, divergence: the advected velocity in, the divergence
        texture out. */
    method DivergencePass(texData: Pass) returns (next: Pass)
      requires Valid() && texData.uniforms == FrameUniforms(count)
      modifies gl, this`forcePoint, this`events
      ensures Valid()
      ensures next.uniforms == FrameUniforms(count)
      ensures events == old(events) + [Issue(DivergenceStep(tex, currVelID, count))]
    {
      next := texData.(fbo := tex.fbo, inputTexIds := [tex.vel[resultVelID]], inputTexNames := ["velocity"],
                       outputTexIds := [tex.div], fragShader := DivergenceShader);
      ghost var before := Snap();
      DrawToTexture(next);
      Record(before, Step(Texture, next));
    }

    /** Pass 3, one relaxation: the current pressure slot and the
        divergence in, the other pressure slot out, with the relaxation
        coefficients of the current time counter; then the pressure roles
        swap. */
    method RelaxPass(texData: Pass) returns (next: Pass)
      requires Valid()
      requires texData.uniforms == FrameUniforms(count) || texData.uniforms == RelaxUniforms(count)
      modifies gl, this`currPresID, this`resultPresID, this`forcePoint, this`events
      ensures Valid()
      ensures currPresID == old(resultPresID) && resultPresID == old(currPresID)
      ensures next.uniforms == RelaxUniforms(count)
      ensures events == old(events) + [Issue(RelaxStep(tex, old(currPresID), count))]
    {
      next := texData.(fbo := tex.fbo, inputTexIds := [tex.pres[currPresID], tex.div],
                       inputTexNames := ["pressure", "divergence"], outputTexIds := [tex.pres[resultPresID]]);
      next := next.(uniforms := next.uniforms["rAlpha" := RAlpha(count)]);
      next := next.(uniforms := next.uniforms["rBeta" := RBeta(next.uniforms["rAlpha"])]);
      next := next.(fragShader := DiffuseShader);
      RelaxUniformsStable(count);
      ghost var before := Snap();
      DrawToTexture(next);
      Record(before, Step(Texture, next));

      // swap
      currPresID := resultPresID;
      resultPresID := 1 - currPresID;
    }

    /** Pass 4, projection: the advected velocity and the current pressure
        in, the current velocity slot out. */
    method ProjectPass(texData: Pass) returns (next: Pass)
      requires Valid() && texData.uniforms == RelaxUniforms(count)
      modifies gl, this`forcePoint, this`events
      ensures Valid()
      ensures next.fbo == tex.fbo && next.uniforms == RelaxUniforms(count)
      ensures events == old(events) + [Issue(ProjectStep(tex, currVelID, currPresID, count))]
    {
      next := texData.(fbo := tex.fbo, inputTexIds := [tex.vel[resultVelID], tex.pres[currPresID]],
                       inputTexNames := ["velocity", "pressure"], outputTexIds := [tex.vel[currVelID]],
                       fragShader := ProjectShader);
      ghost var before := Snap();
      DrawToTexture(next);
      Record(before, Step(Texture, next));
    }

    /** The ray-marched display: the projected velocity and the current
        pressure in, the window out, with the absorption coefficient. */
    method ScreenPass(texData: Pass)
      requires Valid() && texData.uniforms == RelaxUniforms(count) && texData.fbo == tex.fbo
      modifies gl, this`forcePoint, this`events
      ensures Valid()
      ensures events == old(events) + [Issue(ScreenStep(tex, currVelID, currPresID, count))]
    {
      var next := texData.(inputTexIds := [tex.vel[currVelID], tex.pres[currPresID]],
                       inputTexNames := ["velocity", "pressure"], outputTexIds := [],
                       fragShader := ScreenShader);
      next := next.(uniforms := next.uniforms["absorption" := Finite(Absorption)]);
      ghost var before := Snap();
      DrawToScreen(next);
      Record(before, Step(Screen, next));
    }

    /** The three relaxations of a frame, swapping the pressure roles
        after each. */
    method Relaxations(texData: Pass) returns (next: Pass)
      requires Valid()
      requires texData.uniforms == FrameUniforms(count)
      modifies gl, this`currPresID, this`resultPresID, this`forcePoint, this`events
      ensures Valid()
      ensures currPresID == RoleAfter(old(currPresID), 3)
      ensures next.uniforms == RelaxUniforms(count)
      ensures events == old(events) + RelaxLog(tex, old(currPresID), count, 3)
    {
      ghost var cp0: Role := currPresID;
      ghost var log0 := events;
      ghost var c0 := count;
      next := texData;
      var i := 0;
      while i < 3
        invariant 0 <= i <= 3
        invariant Valid()
        invariant currPresID == RoleAfter(cp0, i)
        invariant next.uniforms == if i == 0 then FrameUniforms(count) else RelaxUniforms(count)
        invariant count == c0
        invariant events == log0 + RelaxLog(tex, cp0, c0, i)
      {
        LogSnoc(log0, RelaxLog(tex, cp0, c0, i), Issue(RelaxStep(tex, currPresID, c0)));
        next := RelaxPass(next);
        i := i + 1;
      }
    }

    /** The velocity phase of a frame: advection, then divergence. */
    method VelocityPasses(texData: Pass) returns (next: Pass)
      requires Valid() && texData.uniforms == FrameUniforms(count)
      modifies gl, this`forcePoint, this`events
      ensures Valid()
      ensures next.uniforms == FrameUniforms(count)
      ensures events == old(events) + [Issue(AdvectStep(tex, currVelID, count))] + [Issue(DivergenceStep(tex, currVelID, count))]
    {
      next := AdvectPass(texData);
      next := DivergencePass(next);
    }

    /** The close of a frame: projection, the display, the fourth pressure
        swap and the time step. */
    method OutputPasses(texData: Pass)
      requires Valid() && texData.uniforms == RelaxUniforms(count)
      modifies gl, this`currPresID, this`resultPresID, this`count, this`forcePoint, this`events
      ensures Valid()
      ensures currPresID == old(resultPresID) && count == old(count) + TimeStep
      ensures events == old(events) + [Issue(ProjectStep(tex, currVelID, old(currPresID), old(count)))]
                                    + [Issue(ScreenStep(tex, currVelID, old(currPresID), old(count)))]
    {
      var next := ProjectPass(texData);
      ScreenPass(next);

      // swap
      currPresID := resultPresID;
      resultPresID := 1 - currPresID;
      count := count + TimeStep;
    }

    /** One simulation frame: advection, divergence, three relaxations
        swapping the pressure roles after each, projection, the screen pass,
        a fourth pressure swap and the time step. The GL state, the draws
        and the force point end as running the frame's passes from the
        state at entry. */
    method Simulate()
      requires Valid()
      modifies gl, this`currPresID, this`resultPresID, this`count, this`forcePoint, this`events
      ensures Valid()
      ensures currVelID == old(currVelID) && resultVelID == old(resultVelID)
      ensures currPresID == old(currPresID) && resultPresID == old(resultPresID)
      ensures count == old(count) + TimeStep
      ensures events == old(events) + Issues(FrameSteps(tex, old(currVelID), old(currPresID), old(count)))
      ensures AllWellFormed(FrameSteps(tex, old(currVelID), old(currPresID), old(count)))
      ensures Snap() == Run(iface, old(Snap()), FrameSteps(tex, old(currVelID), old(currPresID), old(count)))
    {
      var texData := Pass(0, [], [], [], "", BaseUniforms());
      texData := texData.(uniforms := texData.uniforms["currTime" := Finite(count)]);
      texData := VelocityPasses(texData);
      texData := Relaxations(texData);
      OutputPasses(texData);
      FrameLog(old(events), tex, currVelID, old(currPresID), old(count));
      FrameWellFormed(tex, currVelID, old(currPresID), old(count));
      ReplayRun(iface, start, old(events), FrameSteps(tex, currVelID, old(currPresID), old(count)));
    }

    /** A left-button press whose unprojected point lies strictly inside the
        cube replaces the pending force point; any other event leaves it. */
    method Click(button: int, state: int, worldPos: Vec3)
      requires Valid()
      modifies this`forcePoint, this`events
      ensures Valid()
      ensures forcePoint ==
        if button == GlutLeftButton && state == GlutDown && AcceptForcePoint(worldPos).Some?
        then AcceptForcePoint(worldPos).value
        else old(forcePoint)
      ensures events == old(events) +
        if button == GlutLeftButton && state == GlutDown && AcceptForcePoint(worldPos).Some?
        then [Press(AcceptForcePoint(worldPos).value)]
        else []
    {
      if button == GlutLeftButton && state == GlutDown {
        if InOpenCube(worldPos) {
          forcePoint := Vec3((worldPos.x + 1.0) / 2.0, (worldPos.y + 1.0) / 2.0, (worldPos.z + 1.0) / 2.0);
          ReplaySnoc(iface, start, events, Press(forcePoint));
          events := events + [Press(forcePoint)];
        }
      }
    }
  }
}
