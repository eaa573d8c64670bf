/** Values shared by the whole model: texture names, uniform values, the
    per-pass descriptor (`simTexData`) and the record of an issued draw. */
module Descriptors {

  datatype Option<T> = None | Some(value: T)

  /** A GL texture or framebuffer name (GLuint); 0 names "no texture". */
  type TexId = nat

  /** A GLfloat uniform value. IEEE division by zero yields positive
      infinity, which the relaxation coefficients reach on the first frame. */
  datatype Scalar = Finite(r: real) | PosInfinity

  /** glm::vec3 over the reals. */
  datatype Vec3 = Vec3(x: real, y: real, z: real)

  const Origin := Vec3(0.0, 0.0, 0.0)

  /** What a glUniform* call stores: glUniform1f, glUniform1i or glUniform3fv. */
  datatype UniformValue = Float(f: Scalar) | Int(i: int) | Vector(v: Vec3)

  /** Where a pass renders: drawToTexture or drawToScreen. */
  datatype Target = Texture | Screen

  /** One pass descriptor: input textures with their sampler names, output
      textures (mapped positionally to colour attachments), the fragment
      shader and the float uniforms by name. */
  datatype Pass = Pass(
    fbo: TexId,
    inputTexIds: seq<TexId>,
    inputTexNames: seq<string>,
    outputTexIds: seq<TexId>,
    fragShader: string,
    uniforms: map<string, Scalar>)

  /** The sampler loop of the uniform setup reads `inputTexNames[i]` for
      every input `i`, so a descriptor needs a name for every input. */
  predicate WellFormed(p: Pass) {
    |p.inputTexNames| >= |p.inputTexIds|
  }

  /** The shader stages handed to the shader loader (`nullptr` is None). */
  datatype ShaderSources = ShaderSources(vertex: string, fragment: string, geometry: Option<string>)

  /** The opaque shader compiler, reduced to what the model needs: the set
      of uniform names the linked program declares (those whose location is
      not -1). A program that failed to link declares nothing. */
  type Interface = ShaderSources -> set<string>

  /** The stages each kind of pass loads. */
  function SourcesFor(target: Target, fragShader: string): ShaderSources {
    match target
    case Texture => ShaderSources("vertex.glsl", fragShader, Some("geom.glsl"))
    case Screen => ShaderSources("vertex_screen.glsl", fragShader, None)
  }

  /** One issued draw call: its target, its descriptor and the uniform values
      the program held when the draw was issued. */
  datatype Draw = Draw(target: Target, pass: Pass, uniforms: map<string, UniformValue>)

  const ForcePointName := "forcepoint"

  /** GL_COLOR_ATTACHMENT0 */
  const ColorAttachment0: int := 0x8CE0
}
