/** The GL binding context every pass shares, and the two loops that
    rebind it for a pass: texture units for the inputs, colour attachments
    and the draw-buffer list for the outputs. */
module Binding {
  import opened Descriptors

  /** A snapshot of the GL state a pass can change, as a value. */
  datatype GlState = GlState(
    activeUnit: nat,
    units: map<nat, TexId>,
    framebuffer: TexId,
    attachments: map<(TexId, nat), TexId>,
    drawBuffers: map<TexId, seq<int>>,
    program: Option<set<string>>,
    uniformValues: map<string, UniformValue>)

  /** The process-wide GL state the passes touch. Texture unit `k` is the
      one `glActiveTexture(GL_TEXTURE0 + k)` selects; colour attachment `k`
      of a framebuffer is `GL_COLOR_ATTACHMENT0 + k`. */
  class GlContext {
    var activeUnit: nat
    var units: map<nat, TexId>                // 3D texture bound on each unit
    var framebuffer: TexId                    // GL_FRAMEBUFFER binding, 0 = window
    var attachments: map<(TexId, nat), TexId> // (framebuffer, colour attachment) -> texture
    var drawBuffers: map<TexId, seq<int>>     // glDrawBuffers list, per framebuffer
    var program: Option<set<string>>          // program in use, by its declared names
    var uniformValues: map<string, UniformValue> // values set on the latest program
    ghost var issued: seq<Draw>               // every draw call issued so far

    constructor ()
      ensures activeUnit == 0 && units == map[] && framebuffer == 0
      ensures attachments == map[] && drawBuffers == map[]
      ensures program == None && uniformValues == map[] && issued == []
    {
      activeUnit, units, framebuffer := 0, map[], 0;
      attachments, drawBuffers := map[], map[];
      program, uniformValues := None, map[];
      issued := [];
    }

    /** The current values of the fields, as a snapshot. */
    ghost function State(): GlState
      reads this
    {
      GlState(activeUnit, units, framebuffer, attachments, drawBuffers, program, uniformValues)
    }
  }

  /** Units after binding `ids[0..]` one after the other, unit `k` getting
      `ids[k]`, as the input loop does. */
  function BindAll(units: map<nat, TexId>, ids: seq<TexId>): map<nat, TexId>
  {
    if ids == [] then units
    else BindAll(units, ids[..|ids| - 1])[|ids| - 1 := ids[|ids| - 1]]
  }

  /** Units after the input binding of one pass; with no inputs unit 0 is
      explicitly bound to no texture. */
  function InputUnits(units: map<nat, TexId>, ids: seq<TexId>): map<nat, TexId>
  {
    if ids == [] then units[0 := 0] else BindAll(units, ids)
  }

  /** Unit `u` holds input `u` when there is one, and otherwise is exactly
      as it was. */
  lemma {:induction false} BindAllAt(units: map<nat, TexId>, ids: seq<TexId>, u: nat)
    ensures u < |ids| ==> u in BindAll(units, ids) && BindAll(units, ids)[u] == ids[u]
    ensures u >= |ids| ==> (u in BindAll(units, ids) <==> u in units)
    ensures u >= |ids| && u in units ==> BindAll(units, ids)[u] == units[u]
  {
    if ids != [] {
      BindAllAt(units, ids[..|ids| - 1], u);
    }
  }

  /** Input `i` is bound to texture unit `i` for every input, every other
      unit is left untouched, and with no inputs unit 0 holds texture 0. */
  lemma InputUnitsAt(units: map<nat, TexId>, ids: seq<TexId>, u: nat)
    ensures ids == [] ==> 0 in InputUnits(units, ids) && InputUnits(units, ids)[0] == 0
    ensures u < |ids| ==> u in InputUnits(units, ids) && InputUnits(units, ids)[u] == ids[u]
    ensures u >= |ids| && (ids != [] || u != 0) ==>
              (u in InputUnits(units, ids) <==> u in units) &&
              (u in units ==> InputUnits(units, ids)[u] == units[u])
  {
    BindAllAt(units, ids, u);
  }

  lemma InputUnitsOne(units: map<nat, TexId>, a: TexId)
    ensures InputUnits(units, [a]) == units[0 := a]
  {
    assert [a][..0] == [];
    assert BindAll(units, [a][..0]) == units;
  }

  lemma InputUnitsTwo(units: map<nat, TexId>, a: TexId, b: TexId)
    ensures InputUnits(units, [a, b]) == units[0 := a][1 := b]
  {
    assert [a, b][..1] == [a];
    InputUnitsOne(units, a);
  }

  /** Unit maps that agree from unit 2 on agree everywhere once units 0
      and 1 are rebound. */
  lemma RebindLowUnits(a: map<nat, TexId>, b: map<nat, TexId>, x: TexId, y: TexId)
    requires forall u: nat :: u >= 2 ==> (u in a <==> u in b) && (u in b ==> a[u] == b[u])
    ensures a[0 := x][1 := y] == b[0 := x][1 := y]
  {
    var a', b' := a[0 := x][1 := y], b[0 := x][1 := y];
    assert forall u :: u in a' <==> u in b';
    assert forall u :: u in a' ==> a'[u] == b'[u];
  }

  /** glActiveTexture/glBindTexture for every input in list order; unit 0
      cleared when there are no inputs. */
  method BindInputTexture(gl: GlContext, ids: seq<TexId>)
    modifies gl`activeUnit, gl`units
    ensures gl.units == InputUnits(old(gl.units), ids)
    ensures gl.activeUnit == if ids == [] then 0 else |ids| - 1
  {
    var id := 0;
    while id < |ids|
      invariant 0 <= id <= |ids|
      invariant gl.units == BindAll(old(gl.units), ids[..id])
      invariant gl.activeUnit == if id == 0 then old(gl.activeUnit) else id - 1
    {
      gl.activeUnit := id;
      gl.units := gl.units[gl.activeUnit := ids[id]];
      assert ids[..id + 1][..id] == ids[..id];
      id := id + 1;
    }
    assert ids[..|ids|] == ids;
    if ids == [] {
      gl.activeUnit := 0;
      gl.units := gl.units[gl.activeUnit := 0];
    }
  }

  /** Attachments of framebuffer `fbo` after attaching `outs[k]` to colour
      attachment `k`, one after the other. */
  function AttachAll(att: map<(TexId, nat), TexId>, fbo: TexId, outs: seq<TexId>): map<(TexId, nat), TexId>
  {
    if outs == [] then att
    else AttachAll(att, fbo, outs[..|outs| - 1])[(fbo, |outs| - 1) := outs[|outs| - 1]]
  }

  /** The list the attachment loop pushes: one enum per output. */
  function AttachmentList(n: nat): seq<int>
  {
    if n == 0 then [] else AttachmentList(n - 1) + [ColorAttachment0 + n - 1]
  }

  /** Output `k` sits on colour attachment `k` of `fbo`; every other
      attachment, of this or another framebuffer, is as it was (a stale
      attachment beyond the outputs is not cleared). */
  lemma {:induction false} AttachAllAt(att: map<(TexId, nat), TexId>, fbo: TexId, outs: seq<TexId>, f: TexId, k: nat)
    ensures f == fbo && k < |outs| ==> (f, k) in AttachAll(att, fbo, outs) && AttachAll(att, fbo, outs)[(f, k)] == outs[k]
    ensures f != fbo || k >= |outs| ==> ((f, k) in AttachAll(att, fbo, outs) <==> (f, k) in att)
    ensures (f != fbo || k >= |outs|) && (f, k) in att ==> AttachAll(att, fbo, outs)[(f, k)] == att[(f, k)]
  {
    if outs != [] {
      AttachAllAt(att, fbo, outs[..|outs| - 1], f, k);
    }
  }

  /** The draw-buffer list is exactly ATTACHMENT0 .. ATTACHMENT0+n-1. */
  lemma {:induction false} AttachmentListAt(n: nat, k: nat)
    ensures |AttachmentList(n)| == n
    ensures k < n ==> AttachmentList(n)[k] == ColorAttachment0 + k
  {
    if n > 0 {
      AttachmentListAt(n - 1, k);
    }
  }

  lemma AttachOne(att: map<(TexId, nat), TexId>, fbo: TexId, a: TexId)
    ensures AttachAll(att, fbo, [a]) == att[(fbo, 0) := a]
    ensures AttachmentList(1) == [ColorAttachment0]
  {
    assert [a][..0] == [];
  }

  lemma AttachTwo(att: map<(TexId, nat), TexId>, fbo: TexId, a: TexId, b: TexId)
    ensures AttachAll(att, fbo, [a, b]) == att[(fbo, 0) := a][(fbo, 1) := b]
    ensures AttachmentList(2) == [ColorAttachment0, ColorAttachment0 + 1]
  {
    assert [a, b][..1] == [a];
    AttachOne(att, fbo, a);
  }

  /** The attachment loop of a texture pass and its glDrawBuffers call, on
      the framebuffer currently bound. */
  method AttachOutputs(gl: GlContext, outs: seq<TexId>)
    modifies gl`attachments, gl`drawBuffers
    ensures gl.attachments == AttachAll(old(gl.attachments), gl.framebuffer, outs)
    ensures gl.drawBuffers == old(gl.drawBuffers)[gl.framebuffer := AttachmentList(|outs|)]
  {
    var attachmentEnums: seq<int> := [];
    var id := 0;
    while id < |outs|
      invariant 0 <= id <= |outs|
      invariant gl.attachments == AttachAll(old(gl.attachments), gl.framebuffer, outs[..id])
      invariant attachmentEnums == AttachmentList(id)
      invariant gl.drawBuffers == old(gl.drawBuffers)
    {
      gl.attachments := gl.attachments[(gl.framebuffer, id) := outs[id]];
      attachmentEnums := attachmentEnums + [ColorAttachment0 + id];
      assert outs[..id + 1][..id] == outs[..id];
      id := id + 1;
    }
    assert outs[..|outs|] == outs;
    gl.drawBuffers := gl.drawBuffers[gl.framebuffer := attachmentEnums];
  }
}
