/**
 * TextureFilter and TextureWrapMode: two enums that each carry an OpenGL constant and map a
 * constant back to the enum, throwing IllegalArgumentException for any other value.
 * `Err(message)` stands for that exception.
 */
module TextureEnums {
  import opened Wrappers
  import opened JavaLang

  /** GL11.GL_NEAREST, GL11.GL_LINEAR, GL11.GL_CLAMP and GL11.GL_REPEAT. */
  const GL_NEAREST: Int32 := 0x2600
  const GL_LINEAR: Int32 := 0x2601
  const GL_CLAMP: Int32 := 0x2900
  const GL_REPEAT: Int32 := 0x2901

  datatype TextureFilter = NEAREST | LINEAR

  datatype TextureWrapMode = CLAMP | REPEAT

  /** TextureFilter.getGLType: the constant given to the enum value. */
  function FilterGLType(f: TextureFilter): Int32
  {
    match f
    case NEAREST => GL_NEAREST
    case LINEAR => GL_LINEAR
  }

  /** TextureFilter.fromGLType. */
  function FilterFromGLType(glType: Int32): (r: Result<TextureFilter, string>)
    ensures r.Err? ==> r.error == "Unsupported filter type"
  {
    if glType == GL_NEAREST then Ok(NEAREST)
    else if glType == GL_LINEAR then Ok(LINEAR)
    else Err("Unsupported filter type")
  }

  /** Reading back the constant of a filter gives the filter. */
  lemma FilterRoundTrip(f: TextureFilter)
    ensures FilterFromGLType(FilterGLType(f)) == Ok(f)
  {
  }

  /** A constant is accepted exactly when it is the constant of some filter, and then maps back to it. */
  lemma FilterFromGLTypeExact(glType: Int32)
    ensures FilterFromGLType(glType).Ok? <==> exists f :: FilterGLType(f) == glType
    ensures FilterFromGLType(glType).Ok? ==> FilterGLType(FilterFromGLType(glType).value) == glType
  {
    if glType == GL_NEAREST {
      assert FilterGLType(NEAREST) == glType;
    } else if glType == GL_LINEAR {
      assert FilterGLType(LINEAR) == glType;
    }
  }

  /** Distinct filters carry distinct constants. */
  lemma FilterGLTypeInjective(f: TextureFilter, g: TextureFilter)
    requires FilterGLType(f) == FilterGLType(g)
    ensures f == g
  {
  }

  /** TextureWrapMode.getGLType. */
  function WrapGLType(w: TextureWrapMode): Int32
  {
    match w
    case CLAMP => GL_CLAMP
    case REPEAT => GL_REPEAT
  }

  /** TextureWrapMode.fromGLType. */
  function WrapFromGLType(glType: Int32): (r: Result<TextureWrapMode, string>)
    ensures r.Err? ==> r.error == "Unsupported texture wrap mode"
  {
    if glType == GL_CLAMP then Ok(CLAMP)
    else if glType == GL_REPEAT then Ok(REPEAT)
    else Err("Unsupported texture wrap mode")
  }

  lemma WrapRoundTrip(w: TextureWrapMode)
    ensures WrapFromGLType(WrapGLType(w)) == Ok(w)
  {
  }

  lemma WrapFromGLTypeExact(glType: Int32)
    ensures WrapFromGLType(glType).Ok? <==> exists w :: WrapGLType(w) == glType
    ensures WrapFromGLType(glType).Ok? ==> WrapGLType(WrapFromGLType(glType).value) == glType
  {
    if glType == GL_CLAMP {
      assert WrapGLType(CLAMP) == glType;
    } else if glType == GL_REPEAT {
      assert WrapGLType(REPEAT) == glType;
    }
  }

  lemma WrapGLTypeInjective(v: TextureWrapMode, w: TextureWrapMode)
    requires WrapGLType(v) == WrapGLType(w)
    ensures v == w
  {
  }

  /** The two enums use disjoint constants: no filter constant is read as a wrap mode. */
  lemma FilterIsNoWrapMode(f: TextureFilter)
    ensures WrapFromGLType(FilterGLType(f)).Err?
  {
  }
}
