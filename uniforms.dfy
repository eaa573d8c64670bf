/** Best-effort uniform binding: what the uniform setup of a pass leaves on
    the program, as a function of the names the program declares. */
module Uniforms {
  import opened Descriptors

  /** The float uniforms of the descriptor that the program declares;
      the others are skipped without error or effect. */
  function FloatUniforms(vals: map<string, UniformValue>, declared: set<string>, uniforms: map<string, Scalar>): map<string, UniformValue>
  {
    vals + map n | n in uniforms && n in declared :: Float(uniforms[n])
  }

  /** Sampler `i` (by its name) gets texture unit `i`, in list order, when
      the program declares that name. */
  function SamplerUniforms(vals: map<string, UniformValue>, declared: set<string>, names: seq<string>): map<string, UniformValue>
  {
    if names == [] then vals
    else
      var i := |names| - 1;
      var before := SamplerUniforms(vals, declared, names[..i]);
      if names[i] in declared then before[names[i] := Int(i)] else before
  }

  /** Setting one more float uniform of the descriptor, when declared,
      extends the float setup by that name. */
  lemma FloatUniformsStep(vals: map<string, UniformValue>, declared: set<string>, uniforms: map<string, Scalar>,
                          remaining: set<string>, name: string)
    requires name in remaining && remaining <= uniforms.Keys
    ensures FloatUniforms(vals, declared, uniforms - (remaining - {name})) ==
      if name in declared then FloatUniforms(vals, declared, uniforms - remaining)[name := Float(uniforms[name])]
      else FloatUniforms(vals, declared, uniforms - remaining)
  {
  }

  /** The sampler names actually read: one per input texture. */
  function SamplerNames(p: Pass): seq<string>
    requires WellFormed(p)
  {
    p.inputTexNames[..|p.inputTexIds|]
  }

  /** The whole uniform setup: float uniforms, then sampler units, then the
      pending force point if the program declares "forcepoint". */
  function BoundUniforms(vals: map<string, UniformValue>, declared: set<string>, p: Pass, forcePoint: Vec3): map<string, UniformValue>
    requires WellFormed(p)
  {
    var withSamplers := SamplerUniforms(FloatUniforms(vals, declared, p.uniforms), declared, SamplerNames(p));
    if ForcePointName in declared then withSamplers[ForcePointName := Vector(forcePoint)] else withSamplers
  }

  /** The pending force point after the uniform setup: consumed and reset to
      zero exactly when the program declares "forcepoint". */
  function ForcePointAfter(declared: set<string>, forcePoint: Vec3): Vec3
  {
    if ForcePointName in declared then Origin else forcePoint
  }

  predicate DistinctNames(names: seq<string>) {
    forall a, b :: 0 <= a < b < |names| ==> names[a] != names[b]
  }

  /** A name the program does not declare, or that is not a sampler name,
      keeps whatever value it had. */
  lemma {:induction false} SamplerUntouched(vals: map<string, UniformValue>, declared: set<string>, names: seq<string>, n: string)
    requires n !in declared || n !in names
    ensures n in SamplerUniforms(vals, declared, names) <==> n in vals
    ensures n in vals ==> SamplerUniforms(vals, declared, names)[n] == vals[n]
  {
    if names != [] {
      var i := |names| - 1;
      assert n !in names ==> n !in names[..i];
      SamplerUntouched(vals, declared, names[..i], n);
    }
  }

  /** With distinct sampler names, declared sampler `i` holds the value `i`. */
  lemma {:induction false} SamplerAt(vals: map<string, UniformValue>, declared: set<string>, names: seq<string>, i: nat)
    requires DistinctNames(names)
    requires i < |names| && names[i] in declared
    ensures names[i] in SamplerUniforms(vals, declared, names)
    ensures SamplerUniforms(vals, declared, names)[names[i]] == Int(i)
  {
    var last := |names| - 1;
    if i < last {
      SamplerAt(vals, declared, names[..last], i);
      assert names[last] != names[i];
    }
  }

  /** The best-effort binding contract of one uniform setup, name by name:
      an undeclared name is never touched; "forcepoint" receives the pending
      point; a declared sampler name receives its unit; a declared float
      uniform that is neither receives the descriptor's value; any other
      name keeps its value. */
  lemma BoundUniformsAt(vals: map<string, UniformValue>, declared: set<string>, p: Pass, forcePoint: Vec3, n: string)
    requires WellFormed(p)
    ensures var r := BoundUniforms(vals, declared, p, forcePoint);
      && (n !in declared ==> (n in r <==> n in vals) && (n in vals ==> r[n] == vals[n]))
      && (n == ForcePointName && n in declared ==> n in r && r[n] == Vector(forcePoint))
      && (n in declared && n != ForcePointName && n !in SamplerNames(p) && n in p.uniforms ==>
            n in r && r[n] == Float(p.uniforms[n]))
      && (n in declared && n != ForcePointName && n !in SamplerNames(p) && n !in p.uniforms ==>
            (n in r <==> n in vals) && (n in vals ==> r[n] == vals[n]))
  {
    if n !in declared || n !in SamplerNames(p) {
      SamplerUntouched(FloatUniforms(vals, declared, p.uniforms), declared, SamplerNames(p), n);
    }
  }

  /** Sampler name `i` is assigned the value `i` (texture unit `i`) when the
      program declares it and the sampler names are distinct. */
  lemma BoundSamplerAt(vals: map<string, UniformValue>, declared: set<string>, p: Pass, forcePoint: Vec3, i: nat)
    requires WellFormed(p) && DistinctNames(SamplerNames(p))
    requires i < |p.inputTexIds| && p.inputTexNames[i] in declared && p.inputTexNames[i] != ForcePointName
    ensures var r := BoundUniforms(vals, declared, p, forcePoint);
      p.inputTexNames[i] in r && r[p.inputTexNames[i]] == Int(i)
  {
    SamplerAt(FloatUniforms(vals, declared, p.uniforms), declared, SamplerNames(p), i);
  }
}
