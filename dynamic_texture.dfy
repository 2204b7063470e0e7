/**
 * DefaultDynamicTexture: a texture whose OpenGL object is made by `resize` and freed by
 * `dispose`. The id -1 means "no texture object"; while the id is -1 every getter reports the
 * defaults (size 0 by 0, NEAREST filters, CLAMP wrapping) and `bind` does nothing.
 *
 * The texture format is kept as an opaque value; a getter that would throw
 * IllegalArgumentException on an unknown GL constant returns `Err` with that message.
 */
module DynamicTextures {
  import opened Wrappers
  import opened JavaLang
  import opened TextureEnums
  import opened GlContext

  /** The id of a texture that has no OpenGL object. */
  const INVALID_ID: int := -1

  class DynamicTexture {
    var id: int
    const format: nat
    const minFilter: TextureFilter
    const magFilter: TextureFilter
    const horizontalWrapMode: TextureWrapMode
    const verticalWrapMode: TextureWrapMode
    const gl: Gl

    /**
     * The id is -1 or names a live texture object, which still has the parameters this
     * texture gave it.
     */
    ghost predicate Valid()
      reads this, gl
    {
      && gl.Valid()
      && (id != INVALID_ID ==>
            && id > 0 && id in gl.textures
            && gl.textures[id].minFilter == FilterGLType(minFilter)
            && gl.textures[id].magFilter == FilterGLType(magFilter)
            && gl.textures[id].wrapS == WrapGLType(horizontalWrapMode)
            && gl.textures[id].wrapT == WrapGLType(verticalWrapMode))
    }

    /** A new texture has no OpenGL object yet. */
    constructor(gl: Gl, format: nat, minFilter: TextureFilter, magFilter: TextureFilter,
                horizontalWrapMode: TextureWrapMode, verticalWrapMode: TextureWrapMode)
      requires gl.Valid()
      ensures Valid() && id == INVALID_ID && this.gl == gl && this.format == format
      ensures this.minFilter == minFilter && this.magFilter == magFilter
      ensures this.horizontalWrapMode == horizontalWrapMode && this.verticalWrapMode == verticalWrapMode
    {
      id := INVALID_ID;
      this.gl := gl;
      this.format := format;
      this.minFilter, this.magFilter := minFilter, magFilter;
      this.horizontalWrapMode, this.verticalWrapMode := horizontalWrapMode, verticalWrapMode;
    }

    /** getWidth: 0 without a texture object, else what OpenGL reports. */
    function Width(): (w: Int32)
      reads this, gl
      ensures id == INVALID_ID ==> w == 0
      ensures id != INVALID_ID ==> w == gl.Query(id).width
    {
      if id == INVALID_ID then 0 else gl.Query(id).width
    }

    /** getHeight: 0 without a texture object, else what OpenGL reports. */
    function Height(): (h: Int32)
      reads this, gl
      ensures id == INVALID_ID ==> h == 0
      ensures id != INVALID_ID ==> h == gl.Query(id).height
    {
      if id == INVALID_ID then 0 else gl.Query(id).height
    }

    /** getMinFilter: NEAREST without a texture object, else the filter OpenGL reports. */
    function MinFilter(): (r: Result<TextureFilter, string>)
      requires Valid()
      reads this, gl
      ensures r == if id == INVALID_ID then Ok(NEAREST) else Ok(minFilter)
    {
      if id == INVALID_ID then Ok(NEAREST)
      else
        FilterRoundTrip(minFilter);
        FilterFromGLType(gl.Query(id).minFilter)
    }

    /** getMagFilter: NEAREST without a texture object, else the filter OpenGL reports. */
    function MagFilter(): (r: Result<TextureFilter, string>)
      requires Valid()
      reads this, gl
      ensures r == if id == INVALID_ID then Ok(NEAREST) else Ok(magFilter)
    {
      if id == INVALID_ID then Ok(NEAREST)
      else
        FilterRoundTrip(magFilter);
        FilterFromGLType(gl.Query(id).magFilter)
    }

    /** getHorizontalWrapMode: CLAMP without a texture object, else the mode OpenGL reports. */
    function HorizontalWrapMode(): (r: Result<TextureWrapMode, string>)
      requires Valid()
      reads this, gl
      ensures r == if id == INVALID_ID then Ok(CLAMP) else Ok(horizontalWrapMode)
    {
      if id == INVALID_ID then Ok(CLAMP)
      else
        WrapRoundTrip(horizontalWrapMode);
        WrapFromGLType(gl.Query(id).wrapS)
    }

    /** getVerticalWrapMode: CLAMP without a texture object, else the mode OpenGL reports. */
    function VerticalWrapMode(): (r: Result<TextureWrapMode, string>)
      requires Valid()
      reads this, gl
      ensures r == if id == INVALID_ID then Ok(CLAMP) else Ok(verticalWrapMode)
    {
      if id == INVALID_ID then Ok(CLAMP)
      else
        WrapRoundTrip(verticalWrapMode);
        WrapFromGLType(gl.Query(id).wrapT)
    }

    /** dispose: frees the texture object, if any, and returns to id -1; a second call does nothing. */
    method Dispose()
      requires Valid()
      modifies this, gl
      ensures Valid() && id == INVALID_ID
      ensures gl.textures == old(gl.textures) - {old(id)}
      ensures old(id) == INVALID_ID ==> unchanged(gl)
      ensures gl.texture2D == if old(id) != INVALID_ID && old(gl.texture2D) == old(id) then 0 else old(gl.texture2D)
      ensures gl.framebuffers == old(gl.framebuffers) && gl.nextTexture == old(gl.nextTexture)
      ensures gl.drawFramebuffer == old(gl.drawFramebuffer) && gl.readFramebuffer == old(gl.readFramebuffer)
    {
      if id == INVALID_ID {
        return;
      }
      gl.DeleteTexture(id);
      id := INVALID_ID;
    }

    /**
     * resize: frees the old texture object, makes a new one with this texture's filters and
     * wrap modes, and gives it the new size.
     */
    method Resize(width: Int32, height: Int32)
      requires Valid()
      modifies this, gl
      ensures Valid()
      ensures id > 0 && id !in old(gl.textures) - {old(id)}
      ensures gl.textures == (old(gl.textures) - {old(id)})[id := TextureObject(width, height,
                FilterGLType(minFilter), FilterGLType(magFilter), WrapGLType(horizontalWrapMode), WrapGLType(verticalWrapMode))]
      ensures Width() == width && Height() == height
      ensures MinFilter() == Ok(minFilter) && MagFilter() == Ok(magFilter)
      ensures HorizontalWrapMode() == Ok(horizontalWrapMode) && VerticalWrapMode() == Ok(verticalWrapMode)
      ensures gl.framebuffers == old(gl.framebuffers)
      ensures gl.drawFramebuffer == old(gl.drawFramebuffer) && gl.readFramebuffer == old(gl.readFramebuffer)
    {
      Dispose();
      id := gl.CreateTexture(minFilter, magFilter, horizontalWrapMode, verticalWrapMode);
      gl.TexImage2D(id, width, height);
    }

    /** bind: binds the texture object to GL_TEXTURE_2D; without one, nothing happens. */
    method Bind()
      requires Valid()
      modifies gl
      ensures Valid()
      ensures gl.texture2D == if id == INVALID_ID then old(gl.texture2D) else id
      ensures gl.textures == old(gl.textures) && gl.nextTexture == old(gl.nextTexture)
      ensures gl.framebuffers == old(gl.framebuffers)
      ensures gl.drawFramebuffer == old(gl.drawFramebuffer) && gl.readFramebuffer == old(gl.readFramebuffer)
    {
      if id == INVALID_ID {
        return;
      }
      gl.BindTexture(id);
    }

    /** unbind: GL_TEXTURE_2D is left with nothing bound. */
    method Unbind()
      requires Valid()
      modifies gl
      ensures Valid()
      ensures gl.texture2D == 0
      ensures gl.textures == old(gl.textures) && gl.nextTexture == old(gl.nextTexture)
      ensures gl.framebuffers == old(gl.framebuffers)
      ensures gl.drawFramebuffer == old(gl.drawFramebuffer) && gl.readFramebuffer == old(gl.readFramebuffer)
    {
      gl.BindTexture(0);
    }
  }

  /**
   * The life of one texture: the defaults before the first resize, the requested size and
   * parameters after it, the defaults again after dispose, and a second dispose that frees
   * nothing more. Nothing it did is left in OpenGL.
   */
  method Lifecycle(gl: Gl, width: Int32, height: Int32, minFilter: TextureFilter, wrap: TextureWrapMode)
    returns (before: (Int32, Result<TextureFilter, string>), resized: (Int32, Result<TextureFilter, string>),
             disposed: (Int32, Result<TextureWrapMode, string>))
    requires gl.Valid()
    modifies gl
    ensures before == (0, Ok(NEAREST))
    ensures resized == (width, Ok(minFilter))
    ensures disposed == (0, Ok(CLAMP))
    ensures gl.textures == old(gl.textures)
  {
    var t := new DynamicTexture(gl, 0, minFilter, LINEAR, wrap, wrap);
    before := (t.Width(), t.MinFilter());
    t.Resize(width, height);
    resized := (t.Width(), t.MinFilter());
    t.Dispose();
    t.Dispose();
    disposed := (t.Width(), t.HorizontalWrapMode());
  }
}
