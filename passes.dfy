/** What issuing passes does, as values: the GL state, the draws and the
    pending force point after one pass, after a sequence of passes, and
    after a log of input events (passes and accepted clicks). */
module Passes {
  import opened Descriptors
  import opened Binding
  import opened Uniforms

  /** A pass together with where it renders. */
  datatype Step = Step(target: Target, pass: Pass)

  predicate AllWellFormed(steps: seq<Step>) {
    forall i :: 0 <= i < |steps| ==> WellFormed(steps[i].pass)
  }

  /** The uniform names of the program a step loads. */
  function Declared(iface: Interface, s: Step): set<string> {
    iface(SourcesFor(s.target, s.pass.fragShader))
  }

  /** The draw a step issues with `fp` pending: a freshly linked program, so
      the uniform values are exactly those the setup assigns. */
  function DrawOf(iface: Interface, s: Step, fp: Vec3): Draw
    requires WellFormed(s.pass)
  {
    Draw(s.target, s.pass, BoundUniforms(map[], Declared(iface, s), s.pass, fp))
  }

  /** Everything issuing a pass can change: the GL state, the draws issued
      so far and the pending force point. */
  datatype Machine = Machine(gl: GlState, issued: seq<Draw>, forcePoint: Vec3)

  /** One pass: the inputs go on units 0.., the fresh program receives its
      uniforms, the draw is issued and the program released; a texture pass
      also attaches its outputs, sets the draw buffers of its framebuffer
      and rebinds the window afterwards. */
  function Exec(iface: Interface, m: Machine, s: Step): Machine
    requires WellFormed(s.pass)
  {
    var p := s.pass;
    var units := InputUnits(m.gl.units, p.inputTexIds);
    var active := if p.inputTexIds == [] then 0 else |p.inputTexIds| - 1;
    var d := DrawOf(iface, s, m.forcePoint);
    var gl :=
      if s.target == Texture then
        GlState(active, units, 0, AttachAll(m.gl.attachments, p.fbo, p.outputTexIds),
                m.gl.drawBuffers[p.fbo := AttachmentList(|p.outputTexIds|)], None, d.uniforms)
      else
        GlState(active, units, m.gl.framebuffer, m.gl.attachments, m.gl.drawBuffers, None, d.uniforms);
    Machine(gl, m.issued + [d], ForcePointAfter(Declared(iface, s), m.forcePoint))
  }

  /** A sequence of passes, one after the other. */
  function Run(iface: Interface, m: Machine, steps: seq<Step>): Machine
    requires AllWellFormed(steps)
  {
    if steps == [] then m
    else
      var k := |steps| - 1;
      Exec(iface, Run(iface, m, steps[..k]), steps[k])
  }

  lemma RunSnoc(iface: Interface, m: Machine, steps: seq<Step>, k: nat)
    requires AllWellFormed(steps) && k < |steps|
    ensures Run(iface, m, steps[..k + 1]) == Exec(iface, Run(iface, m, steps[..k]), steps[k])
  {
    assert steps[..k + 1][..k] == steps[..k];
  }

  /** A run issues one draw per step after the earlier draws, and draw `i`
      is step `i` issued with whatever force point the steps before it left
      pending. */
  lemma {:induction false} RunAt(iface: Interface, m: Machine, steps: seq<Step>, i: nat)
    requires AllWellFormed(steps)
    ensures |Run(iface, m, steps).issued| == |m.issued| + |steps|
    ensures Run(iface, m, steps).issued[..|m.issued|] == m.issued
    ensures i < |steps| ==>
      Run(iface, m, steps).issued[|m.issued| + i] == DrawOf(iface, steps[i], Run(iface, m, steps[..i]).forcePoint)
  {
    if steps != [] {
      var k := |steps| - 1;
      RunAt(iface, m, steps[..k], i);
      if i < k {
        assert steps[..k][..i] == steps[..i];
      } else if i == k {
        assert steps[..k] == steps[..i];
      }
    }
  }

  /** Some step's program declares "forcepoint". */
  predicate DeclaresForce(iface: Interface, steps: seq<Step>) {
    exists i :: 0 <= i < |steps| && ForcePointName in Declared(iface, steps[i])
  }

  /** The pending force point survives a sequence of passes exactly when no
      program among them declares "forcepoint"; otherwise it ends cleared. */
  lemma {:induction false} RunForcePoint(iface: Interface, m: Machine, steps: seq<Step>)
    requires AllWellFormed(steps)
    ensures Run(iface, m, steps).forcePoint == if DeclaresForce(iface, steps) then Origin else m.forcePoint
  {
    if steps != [] {
      var k := |steps| - 1;
      RunForcePoint(iface, m, steps[..k]);
      if DeclaresForce(iface, steps[..k]) {
        var j :| 0 <= j < k && ForcePointName in Declared(iface, steps[..k][j]);
        assert steps[..k][j] == steps[j];
      } else if !DeclaresForce(iface, steps) {
        assert ForcePointName !in Declared(iface, steps[k]);
      } else {
        var j :| 0 <= j < |steps| && ForcePointName in Declared(iface, steps[j]);
        assert j == k;
      }
    }
  }

  /** The force point reaches the first pass whose program declares
      "forcepoint"; any later declaring pass receives zero. */
  lemma ForcePointDelivered(iface: Interface, m: Machine, steps: seq<Step>, i: nat)
    requires AllWellFormed(steps) && i < |steps| && ForcePointName in Declared(iface, steps[i])
    ensures |Run(iface, m, steps).issued| == |m.issued| + |steps|
    ensures ForcePointName in Run(iface, m, steps).issued[|m.issued| + i].uniforms
    ensures Run(iface, m, steps).issued[|m.issued| + i].uniforms[ForcePointName] ==
              Vector(if DeclaresForce(iface, steps[..i]) then Origin else m.forcePoint)
  {
    RunAt(iface, m, steps, i);
    RunForcePoint(iface, m, steps[..i]);
    BoundUniformsAt(map[], Declared(iface, steps[i]), steps[i].pass, Run(iface, m, steps[..i]).forcePoint, ForcePointName);
  }

  /** Passes that each write a single output, to colour attachment 0 of
      framebuffer `f`. */
  predicate SingleOutputOn(steps: seq<Step>, f: TexId) {
    forall i :: 0 <= i < |steps| ==>
      steps[i].target == Texture && steps[i].pass.fbo == f && |steps[i].pass.outputTexIds| == 1
  }

  /** After such passes the window is bound, no program is in use, colour
      attachment 0 of `f` holds the last output, the draw-buffer list of
      `f` is [ATTACHMENT0], and every other attachment is as before. */
  lemma {:induction false} SingleOutputRun(iface: Interface, m: Machine, steps: seq<Step>, f: TexId)
    requires AllWellFormed(steps) && SingleOutputOn(steps, f) && steps != []
    ensures Run(iface, m, steps).gl.framebuffer == 0 && Run(iface, m, steps).gl.program == None
    ensures Run(iface, m, steps).gl.attachments == m.gl.attachments[(f, 0) := steps[|steps| - 1].pass.outputTexIds[0]]
    ensures Run(iface, m, steps).gl.drawBuffers == m.gl.drawBuffers[f := [ColorAttachment0]]
  {
    var k := |steps| - 1;
    var prev := Run(iface, m, steps[..k]);
    var o := steps[k].pass.outputTexIds;
    assert [o[0]] == o;
    AttachOne(prev.gl.attachments, f, o[0]);
    if k > 0 {
      SingleOutputRun(iface, m, steps[..k], f);
      assert steps[..k][k - 1] == steps[k - 1];
    }
  }

  /** Passes that each read one or two textures. */
  predicate FewInputs(steps: seq<Step>) {
    forall i :: 0 <= i < |steps| ==> 1 <= |steps[i].pass.inputTexIds| <= 2
  }

  /** Such passes leave every texture unit from 2 on as it was. */
  lemma {:induction false} HighUnitsUntouched(iface: Interface, m: Machine, steps: seq<Step>, u: nat)
    requires AllWellFormed(steps) && FewInputs(steps) && u >= 2
    ensures u in Run(iface, m, steps).gl.units <==> u in m.gl.units
    ensures u in m.gl.units ==> Run(iface, m, steps).gl.units[u] == m.gl.units[u]
  {
    if steps != [] {
      var k := |steps| - 1;
      HighUnitsUntouched(iface, m, steps[..k], u);
      InputUnitsAt(Run(iface, m, steps[..k]).gl.units, steps[k].pass.inputTexIds, u);
    }
  }

  // ---------------------------------------------------------------------
  // The event log

  /** An input to the machine: a pass issued, or an accepted click setting
      the pending force point. */
  datatype Event = Issue(step: Step) | Press(point: Vec3)

  predicate EventsWellFormed(events: seq<Event>) {
    forall i :: 0 <= i < |events| && events[i].Issue? ==> WellFormed(events[i].step.pass)
  }

  function Apply(iface: Interface, m: Machine, e: Event): Machine
    requires e.Issue? ==> WellFormed(e.step.pass)
  {
    match e
    case Issue(s) => Exec(iface, m, s)
    case Press(v) => m.(forcePoint := v)
  }

  /** The machine after a log of events, oldest first. */
  function Replay(iface: Interface, m: Machine, events: seq<Event>): Machine
    requires EventsWellFormed(events)
    decreases events
  {
    if events == [] then m else Replay(iface, Apply(iface, m, events[0]), events[1..])
  }

  /** The log entries of a sequence of passes. */
  function Issues(steps: seq<Step>): (r: seq<Event>)
    ensures |r| == |steps|
    ensures forall i :: 0 <= i < |steps| ==> r[i] == Issue(steps[i])
  {
    if steps == [] then [] else [Issue(steps[0])] + Issues(steps[1..])
  }

  lemma IssuesSnoc(steps: seq<Step>, k: nat)
    requires k < |steps|
    ensures Issues(steps[..k + 1]) == Issues(steps[..k]) + [Issue(steps[k])]
  {
  }

  lemma LogSnoc(a: seq<Event>, b: seq<Event>, e: Event)
    ensures a + b + [e] == a + (b + [e])
  {
  }

  /** One more event applies to the machine the earlier events left. */
  lemma {:induction false} ReplaySnoc(iface: Interface, m: Machine, events: seq<Event>, e: Event)
    requires EventsWellFormed(events) && (e.Issue? ==> WellFormed(e.step.pass))
    ensures EventsWellFormed(events + [e])
    ensures Replay(iface, m, events + [e]) == Apply(iface, Replay(iface, m, events), e)
    decreases events
  {
    if events != [] {
      assert (events + [e])[1..] == events[1..] + [e];
      ReplaySnoc(iface, Apply(iface, m, events[0]), events[1..], e);
    }
  }

  /** Replaying two logs one after the other is replaying their
      concatenation. */
  lemma {:induction false} ReplayAppend(iface: Interface, m: Machine, a: seq<Event>, b: seq<Event>)
    requires EventsWellFormed(a) && EventsWellFormed(b)
    ensures EventsWellFormed(a + b)
    ensures Replay(iface, m, a + b) == Replay(iface, Replay(iface, m, a), b)
    decreases a
  {
    if a == [] {
      assert a + b == b;
    } else {
      assert (a + b)[1..] == a[1..] + b;
      ReplayAppend(iface, Apply(iface, m, a[0]), a[1..], b);
    }
  }

  /** Replaying the log entries of a sequence of passes is running them. */
  lemma {:induction false} ReplayIssues(iface: Interface, m: Machine, steps: seq<Step>)
    requires AllWellFormed(steps)
    ensures EventsWellFormed(Issues(steps))
    ensures Replay(iface, m, Issues(steps)) == Run(iface, m, steps)
  {
    if steps != [] {
      var k := |steps| - 1;
      ReplayIssues(iface, m, steps[..k]);
      IssuesSnoc(steps, k);
      assert steps[..k + 1] == steps;
      ReplaySnoc(iface, m, Issues(steps[..k]), Issue(steps[k]));
    }
  }

  /** A log extended by the entries of some passes replays to those passes
      run on the machine the log left. */
  lemma ReplayRun(iface: Interface, m: Machine, events: seq<Event>, steps: seq<Step>)
    requires EventsWellFormed(events) && AllWellFormed(steps)
    ensures EventsWellFormed(events + Issues(steps))
    ensures Replay(iface, m, events + Issues(steps)) == Run(iface, Replay(iface, m, events), steps)
  {
    ReplayIssues(iface, Replay(iface, m, events), steps);
    ReplayAppend(iface, m, events, Issues(steps));
  }
}
