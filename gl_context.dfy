/**
 * The part of the OpenGL context the texture and framebuffer classes read and change: the
 * live texture objects with the parameters they were given, the 2D texture binding, the
 * draw and read framebuffer bindings, and the framebuffer names handed out.
 *
 * OpenGL hands out positive names; the model takes the next unused one. The value 0 in a
 * binding means nothing is bound, so no binding is ever negative.
 */
module GlContext {
  import opened JavaLang
  import opened TextureEnums

  /** What OpenGL keeps for a 2D texture: its size and the four parameters, as GL constants. */
  datatype TextureObject = TextureObject(width: Int32, height: Int32,
                                         minFilter: Int32, magFilter: Int32, wrapS: Int32, wrapT: Int32)

  /** The parameters a query on a name that is not a live texture reads: all zero. */
  const NO_TEXTURE_OBJECT := TextureObject(0, 0, 0, 0, 0, 0)

  class Gl {
    var textures: map<int, TextureObject>
    var nextTexture: int
    var texture2D: int
    var framebuffers: set<int>
    var nextFramebuffer: int
    var drawFramebuffer: int
    var readFramebuffer: int

    ghost predicate Valid()
      reads this
    {
      && nextTexture > 0 && (forall n :: n in textures ==> 0 < n < nextTexture)
      && nextFramebuffer > 0 && (forall n :: n in framebuffers ==> 0 < n < nextFramebuffer)
      && texture2D >= 0 && drawFramebuffer >= 0 && readFramebuffer >= 0
    }

    /** A fresh context: no objects, nothing bound. */
    constructor()
      ensures Valid()
      ensures textures == map[] && framebuffers == {}
      ensures texture2D == 0 && drawFramebuffer == 0 && readFramebuffer == 0
    {
      textures, nextTexture, texture2D := map[], 1, 0;
      framebuffers, nextFramebuffer, drawFramebuffer, readFramebuffer := {}, 1, 0, 0;
    }

    /** DSA.getTexParameteri on the size and parameters of `name`. */
    function Query(name: int): (t: TextureObject)
      reads this
      ensures name !in textures ==> t == NO_TEXTURE_OBJECT
    {
      if name in textures then textures[name] else NO_TEXTURE_OBJECT
    }

    /**
     * TextureUtils.createTexture: a new texture name whose filter and wrap parameters are
     * set to the given enums' constants; it has no image yet, so its size is 0 by 0.
     */
    method CreateTexture(minFilter: TextureFilter, magFilter: TextureFilter,
                         wrapS: TextureWrapMode, wrapT: TextureWrapMode) returns (name: int)
      requires Valid()
      modifies this
      ensures Valid()
      ensures name > 0 && name !in old(textures)
      ensures textures == old(textures)[name := TextureObject(0, 0, FilterGLType(minFilter), FilterGLType(magFilter),
                                                             WrapGLType(wrapS), WrapGLType(wrapT))]
      ensures texture2D == old(texture2D) && framebuffers == old(framebuffers)
      ensures drawFramebuffer == old(drawFramebuffer) && readFramebuffer == old(readFramebuffer)
    {
      name := nextTexture;
      nextTexture := nextTexture + 1;
      textures := textures[name := TextureObject(0, 0, FilterGLType(minFilter), FilterGLType(magFilter),
                                                 WrapGLType(wrapS), WrapGLType(wrapT))];
    }

    /** DSA.texImage2D at level 0: gives a live texture its size. */
    method TexImage2D(name: int, width: Int32, height: Int32)
      requires Valid() && name in textures
      modifies this
      ensures Valid()
      ensures textures == old(textures)[name := old(textures)[name].(width := width, height := height)]
      ensures nextTexture == old(nextTexture) && texture2D == old(texture2D) && framebuffers == old(framebuffers)
      ensures drawFramebuffer == old(drawFramebuffer) && readFramebuffer == old(readFramebuffer)
    {
      textures := textures[name := textures[name].(width := width, height := height)];
    }

    /** glDeleteTextures: the name is freed, and a binding to it reverts to 0. */
    method DeleteTexture(name: int)
      requires Valid()
      modifies this
      ensures Valid()
      ensures textures == old(textures) - {name}
      ensures texture2D == if old(texture2D) == name then 0 else old(texture2D)
      ensures nextTexture == old(nextTexture) && framebuffers == old(framebuffers)
      ensures drawFramebuffer == old(drawFramebuffer) && readFramebuffer == old(readFramebuffer)
    {
      textures := textures - {name};
      if texture2D == name {
        texture2D := 0;
      }
    }

    /** glBindTexture(GL_TEXTURE_2D, name). */
    method BindTexture(name: int)
      requires Valid() && name >= 0
      modifies this
      ensures Valid()
      ensures texture2D == name
      ensures textures == old(textures) && nextTexture == old(nextTexture) && framebuffers == old(framebuffers)
      ensures drawFramebuffer == old(drawFramebuffer) && readFramebuffer == old(readFramebuffer)
    {
      texture2D := name;
    }

    /** glGenFramebuffers: a new framebuffer name. */
    method GenFramebuffer() returns (name: int)
      requires Valid()
      modifies this
      ensures Valid()
      ensures name > 0 && name !in old(framebuffers) && framebuffers == old(framebuffers) + {name}
      ensures textures == old(textures) && texture2D == old(texture2D)
      ensures drawFramebuffer == old(drawFramebuffer) && readFramebuffer == old(readFramebuffer)
    {
      name := nextFramebuffer;
      nextFramebuffer := nextFramebuffer + 1;
      framebuffers := framebuffers + {name};
    }

    /** glBindFramebuffer on the draw target, the read target, or both (GL_FRAMEBUFFER). */
    method BindFramebuffer(draw: bool, read: bool, name: int)
      requires Valid() && name >= 0
      modifies this
      ensures Valid()
      ensures drawFramebuffer == if draw then name else old(drawFramebuffer)
      ensures readFramebuffer == if read then name else old(readFramebuffer)
      ensures textures == old(textures) && nextTexture == old(nextTexture) && texture2D == old(texture2D)
      ensures framebuffers == old(framebuffers) && nextFramebuffer == old(nextFramebuffer)
    {
      if draw {
        drawFramebuffer := name;
      }
      if read {
        readFramebuffer := name;
      }
    }

    /** glDeleteFramebuffers: the name is freed, and a binding to it reverts to 0. */
    method DeleteFramebuffer(name: int)
      requires Valid()
      modifies this
      ensures Valid()
      ensures framebuffers == old(framebuffers) - {name}
      ensures drawFramebuffer == if old(drawFramebuffer) == name then 0 else old(drawFramebuffer)
      ensures readFramebuffer == if old(readFramebuffer) == name then 0 else old(readFramebuffer)
      ensures textures == old(textures) && nextTexture == old(nextTexture) && texture2D == old(texture2D)
    {
      framebuffers := framebuffers - {name};
      if drawFramebuffer == name {
        drawFramebuffer := 0;
      }
      if readFramebuffer == name {
        readFramebuffer := 0;
      }
    }
  }
}
