/**
 * DefaultFramebufferBuilder and DefaultFramebuffer.
 *
 * The builder collects at most one attachment per attachment type, each sized to the builder's
 * width and height at the time it is added. The framebuffer remembers the bindings it replaced
 * when it was bound, in previousDrawId, previousReadId and previousTexture; previousDrawId is -1
 * exactly while it is not bound, and unbinding restores what was saved.
 *
 * An attachment is represented by its settings and size; the texture object behind it is not
 * part of this model.
 */
module Framebuffers {
  import opened Wrappers
  import opened JavaLang
  import opened TextureEnums
  import opened Callbacks
  import opened GlContext

  /** The value of previousDrawId while the framebuffer is not bound. */
  const NOT_BOUND: int := -1

  datatype TextureType = COLOR | DEPTH | STENCIL | DEPTH_STENCIL

  /** AttachmentType; COLOR_0 is the enum constant COLOR, and the last three carry an _ATTACHMENT suffix. */
  datatype AttachmentType =
    | COLOR_0 | COLOR_1 | COLOR_2 | COLOR_3 | COLOR_4 | COLOR_5 | COLOR_6 | COLOR_7
    | DEPTH_ATTACHMENT | STENCIL_ATTACHMENT | DEPTH_STENCIL_ATTACHMENT

  /** AttachmentType.getTextureType. */
  function TextureTypeOf(t: AttachmentType): TextureType
  {
    match t
    case DEPTH_ATTACHMENT => DEPTH
    case STENCIL_ATTACHMENT => STENCIL
    case DEPTH_STENCIL_ATTACHMENT => DEPTH_STENCIL
    case _ => COLOR
  }

  /** AttachmentType.getGLType: GL_COLOR_ATTACHMENT0 .. 7, GL_DEPTH_ATTACHMENT, GL_STENCIL_ATTACHMENT, GL_DEPTH_STENCIL_ATTACHMENT. */
  function AttachmentGLType(t: AttachmentType): Int32
  {
    match t
    case COLOR_0 => 0x8CE0
    case COLOR_1 => 0x8CE1
    case COLOR_2 => 0x8CE2
    case COLOR_3 => 0x8CE3
    case COLOR_4 => 0x8CE4
    case COLOR_5 => 0x8CE5
    case COLOR_6 => 0x8CE6
    case COLOR_7 => 0x8CE7
    case DEPTH_ATTACHMENT => 0x8D00
    case STENCIL_ATTACHMENT => 0x8D20
    case DEPTH_STENCIL_ATTACHMENT => 0x821A
  }

  /** Each attachment point has its own GL constant, so no two attachments land on the same point. */
  lemma AttachmentGLTypeInjective(s: AttachmentType, t: AttachmentType)
    requires AttachmentGLType(s) == AttachmentGLType(t)
    ensures s == t
  {
  }

  /** The eight colour attachments are consecutive from GL_COLOR_ATTACHMENT0, and only they are colour. */
  lemma ColorAttachmentsConsecutive(t: AttachmentType)
    ensures TextureTypeOf(t) == COLOR <==> 0x8CE0 <= AttachmentGLType(t) <= 0x8CE7
  {
  }

  /** What the attachment callback chose on a DefaultAttachmentBuilder. */
  datatype AttachmentSettings = AttachmentSettings(
    attachmentType: AttachmentType, format: nat,
    minFilter: TextureFilter, magFilter: TextureFilter,
    horizontalWrapMode: TextureWrapMode, verticalWrapMode: TextureWrapMode)

  /** The settings of an attachment builder the callback leaves alone (apart from its format). */
  function DefaultSettings(format: nat): (s: AttachmentSettings)
    ensures s.attachmentType == COLOR_0 && s.minFilter == s.magFilter == NEAREST
    ensures s.horizontalWrapMode == s.verticalWrapMode == CLAMP
  {
    AttachmentSettings(COLOR_0, format, NEAREST, NEAREST, CLAMP, CLAMP)
  }

  /** An attachment: its settings and the size of its texture. */
  datatype Attachment = Attachment(settings: AttachmentSettings, width: Int32, height: Int32)
  {
    function Type(): AttachmentType { settings.attachmentType }
  }

  /** Every attachment is stored under its own type. */
  ghost predicate KeyedByType(attachments: map<AttachmentType, Attachment>)
  {
    forall t :: t in attachments ==> attachments[t].Type() == t
  }

  /** Every attachment is sized `width` by `height`. */
  ghost predicate AllSized(attachments: map<AttachmentType, Attachment>, width: Int32, height: Int32)
  {
    forall t :: t in attachments ==> attachments[t].width == width && attachments[t].height == height
  }

  /** The attachments with their textures resized. */
  function Resized(attachments: map<AttachmentType, Attachment>, width: Int32, height: Int32)
    : (r: map<AttachmentType, Attachment>)
    ensures r.Keys == attachments.Keys
    ensures AllSized(r, width, height)
    ensures forall t :: t in r ==> r[t].settings == attachments[t].settings
  {
    map t | t in attachments :: attachments[t].(width := width, height := height)
  }

  /** The three bindings a framebuffer's bind replaces and its unbind restores: draw, read and 2D texture. */
  function Bindings(gl: Gl): (int, int, int)
    reads gl
  {
    (gl.drawFramebuffer, gl.readFramebuffer, gl.texture2D)
  }

  class Framebuffer {
    const id: int
    const gl: Gl
    var attachments: map<AttachmentType, Attachment>
    var previousDrawId: int
    var previousReadId: int
    var previousTexture: int
    var width: Int32
    var height: Int32

    ghost predicate Valid()
      reads this, gl
    {
      && gl.Valid() && id > 0
      && KeyedByType(attachments)
      && (previousDrawId != NOT_BOUND ==> previousDrawId >= 0 && previousReadId >= 0 && previousTexture >= 0)
    }

    predicate IsBound()
      reads this
    {
      previousDrawId != NOT_BOUND
    }

    /**
     * The constructor: a new framebuffer name, then resize to the given size. The new
     * framebuffer is not bound, and the context's bindings are as they were.
     */
    constructor(gl: Gl, width: Int32, height: Int32, attachments: map<AttachmentType, Attachment>)
      requires gl.Valid() && KeyedByType(attachments)
      modifies gl
      ensures Valid() && this.gl == gl && !IsBound()
      ensures id !in old(gl.framebuffers) && id in gl.framebuffers
      ensures this.width == width && this.height == height
      ensures this.attachments == Resized(attachments, width, height)
      ensures Bindings(gl) == old(Bindings(gl)) && gl.textures == old(gl.textures)
    {
      var name := gl.GenFramebuffer();
      this.id := name;
      this.gl := gl;
      this.attachments := attachments;
      previousDrawId := NOT_BOUND;
      previousReadId := 0;
      previousTexture := 0;
      new;
      Resize(width, height);
    }

    /** hasAttachment: whether an attachment of that type was added. */
    predicate HasAttachment(t: AttachmentType)
      reads this
    {
      t in attachments
    }

    /** getAttachment: the attachment of that type, which is of that type, or null. */
    function GetAttachment(t: AttachmentType): (r: Option<Attachment>)
      requires Valid()
      reads this, gl
      ensures r.Some? <==> HasAttachment(t)
      ensures r.Some? ==> r.value.Type() == t
    {
      if t in attachments then Some(attachments[t]) else None
    }

    /**
     * bind: while already bound, nothing happens; otherwise the draw and read framebuffer and
     * 2D texture bindings are saved, the 2D texture is unbound and this framebuffer is bound
     * for both drawing and reading.
     */
    method Bind()
      requires Valid()
      modifies this, gl
      ensures Valid() && IsBound()
      ensures old(IsBound()) ==> unchanged(this) && unchanged(gl)
      ensures !old(IsBound()) ==>
                && (previousDrawId, previousReadId, previousTexture) == old(Bindings(gl))
                && Bindings(gl) == (id, id, 0)
      ensures attachments == old(attachments) && width == old(width) && height == old(height)
      ensures gl.textures == old(gl.textures) && gl.framebuffers == old(gl.framebuffers)
    {
      if previousDrawId != NOT_BOUND {
        return;
      }
      previousDrawId := gl.drawFramebuffer;
      previousReadId := gl.readFramebuffer;
      previousTexture := gl.texture2D;
      gl.BindTexture(0);
      gl.BindFramebuffer(true, true, id);
    }

    /**
     * unbind: while not bound, nothing happens; otherwise the saved bindings are restored and
     * the framebuffer is marked unbound.
     */
    method Unbind()
      requires Valid()
      modifies this, gl
      ensures Valid() && !IsBound()
      ensures !old(IsBound()) ==> unchanged(this) && unchanged(gl)
      ensures old(IsBound()) ==> Bindings(gl) == (old(previousDrawId), old(previousReadId), old(previousTexture))
      ensures attachments == old(attachments) && width == old(width) && height == old(height)
      ensures gl.textures == old(gl.textures) && gl.framebuffers == old(gl.framebuffers)
    {
      if previousDrawId == NOT_BOUND {
        return;
      }
      gl.BindFramebuffer(true, false, previousDrawId);
      gl.BindFramebuffer(false, true, previousReadId);
      gl.BindTexture(previousTexture);
      previousDrawId := NOT_BOUND;
    }

    /**
     * resize: every attachment's texture takes the new size, the framebuffer is bound to
     * attach them and unbound again, and the new size is stored. It ends unbound: if it was
     * bound before, the bindings saved then are restored; otherwise the bindings are as before.
     */
    method Resize(width: Int32, height: Int32)
      requires Valid()
      modifies this, gl
      ensures Valid() && !IsBound()
      ensures this.width == width && this.height == height
      ensures attachments == Resized(old(attachments), width, height)
      ensures old(IsBound()) ==> Bindings(gl) == (old(previousDrawId), old(previousReadId), old(previousTexture))
      ensures !old(IsBound()) ==> Bindings(gl) == old(Bindings(gl))
      ensures gl.textures == old(gl.textures) && gl.framebuffers == old(gl.framebuffers)
    {
      attachments := Resized(attachments, width, height);
      Bind();
      Unbind();
      this.width := width;
      this.height := height;
    }

    /** dispose: frees the framebuffer name; disposing the attachments' textures is not part of this model. */
    method Dispose()
      requires Valid()
      modifies gl
      ensures gl.Valid()
      ensures gl.framebuffers == old(gl.framebuffers) - {id}
      ensures gl.textures == old(gl.textures) && gl.texture2D == old(gl.texture2D)
    {
      gl.DeleteFramebuffer(id);
    }
  }

  /** Binding an unbound framebuffer and unbinding it again leaves the context's bindings as they were. */
  method BindUnbindRestores(fb: Framebuffer)
    requires fb.Valid() && !fb.IsBound()
    modifies fb, fb.gl
    ensures fb.Valid() && !fb.IsBound()
    ensures Bindings(fb.gl) == old(Bindings(fb.gl))
  {
    fb.Bind();
    fb.Unbind();
  }

  /** A second bind changes nothing, so one unbind still restores the bindings from before the first bind. */
  method BindTwiceUnbindOnce(fb: Framebuffer)
    requires fb.Valid() && !fb.IsBound()
    modifies fb, fb.gl
    ensures fb.Valid() && !fb.IsBound()
    ensures Bindings(fb.gl) == old(Bindings(fb.gl))
  {
    fb.Bind();
    fb.Bind();
    fb.Unbind();
  }

  class FramebufferBuilder {
    var attachments: map<AttachmentType, Attachment>
    var width: Int32
    var height: Int32
    var bindCallback: Callback
    var unbindCallback: Callback

    ghost predicate Valid()
      reads this
    {
      KeyedByType(attachments)
    }

    /** A new builder: size 0 by 0, no attachments, identity callbacks. */
    constructor()
      ensures Valid() && attachments == map[] && width == 0 && height == 0
      ensures bindCallback == Identity && unbindCallback == Identity
    {
      attachments, width, height := map[], 0, 0;
      bindCallback, unbindCallback := Identity, Identity;
    }

    method Width(w: Int32)
      modifies this
      ensures width == w && height == old(height) && attachments == old(attachments)
      ensures bindCallback == old(bindCallback) && unbindCallback == old(unbindCallback)
    {
      width := w;
    }

    method Height(h: Int32)
      modifies this
      ensures height == h && width == old(width) && attachments == old(attachments)
      ensures bindCallback == old(bindCallback) && unbindCallback == old(unbindCallback)
    {
      height := h;
    }

    /**
     * attachment: fails while the width or height is 0; otherwise the attachment is built at
     * the current size, and fails if one of its type is already there; otherwise it is stored
     * under its type.
     */
    method AddAttachment(settings: AttachmentSettings) returns (r: Result<(), string>)
      requires Valid()
      modifies this
      ensures Valid()
      ensures old(width) == 0 || old(height) == 0 ==> r == Err("Width or height of attachment cannot be 0")
      ensures old(width) != 0 && old(height) != 0 && settings.attachmentType in old(attachments) ==>
                r == Err("Framebuffer already contains attachment of same type")
      ensures r.Ok? <==> old(width) != 0 && old(height) != 0 && settings.attachmentType !in old(attachments)
      ensures r.Ok? ==> attachments == old(attachments)[settings.attachmentType := Attachment(settings, width, height)]
      ensures r.Err? ==> attachments == old(attachments)
      ensures width == old(width) && height == old(height)
      ensures bindCallback == old(bindCallback) && unbindCallback == old(unbindCallback)
    {
      if width == 0 || height == 0 {
        return Err("Width or height of attachment cannot be 0");
      }
      var attachment := Attachment(settings, width, height);
      var t := attachment.Type();
      if t in attachments {
        return Err("Framebuffer already contains attachment of same type");
      }
      attachments := attachments[t := attachment];
      return Ok(());
    }

    /** onBind: the first callback replaces the identity, later ones run after it. */
    method OnBind(callback: nat)
      modifies this
      ensures bindCallback == Register(old(bindCallback), callback)
      ensures Invocations(bindCallback) == Invocations(old(bindCallback)) + [callback]
      ensures unbindCallback == old(unbindCallback)
      ensures attachments == old(attachments) && width == old(width) && height == old(height)
    {
      bindCallback := Register(bindCallback, callback);
    }

    /** onUnbind: as onBind, for the unbind callback. */
    method OnUnbind(callback: nat)
      modifies this
      ensures unbindCallback == Register(old(unbindCallback), callback)
      ensures Invocations(unbindCallback) == Invocations(old(unbindCallback)) + [callback]
      ensures bindCallback == old(bindCallback)
      ensures attachments == old(attachments) && width == old(width) && height == old(height)
    {
      unbindCallback := Register(unbindCallback, callback);
    }

    /** build: a framebuffer of the current size with the collected attachments. */
    method Build(gl: Gl) returns (fb: Framebuffer)
      requires Valid() && gl.Valid()
      modifies gl
      ensures fresh(fb) && fb.Valid() && fb.gl == gl && !fb.IsBound()
      ensures fb.width == width && fb.height == height
      ensures forall t :: fb.HasAttachment(t) <==> t in attachments
      ensures forall t :: t in attachments ==> t in fb.attachments && fb.attachments[t].settings == attachments[t].settings
      ensures AllSized(fb.attachments, width, height)
      ensures Bindings(gl) == old(Bindings(gl)) && gl.textures == old(gl.textures)
    {
      fb := new Framebuffer(gl, width, height, attachments);
    }
  }

  /**
   * Two attachments of different types are both kept, at the builder's size, and a second
   * attachment of an existing type is refused.
   */
  method TwoAttachments(format: nat) returns (builder: FramebufferBuilder, refused: Result<(), string>)
    ensures refused == Err("Framebuffer already contains attachment of same type")
    ensures builder.attachments.Keys == {COLOR_0, DEPTH_ATTACHMENT}
    ensures builder.attachments[DEPTH_ATTACHMENT].width == 640
  {
    builder := new FramebufferBuilder();
    builder.Width(640);
    builder.Height(480);
    var first := builder.AddAttachment(DefaultSettings(format));
    var second := builder.AddAttachment(DefaultSettings(format).(attachmentType := DEPTH_ATTACHMENT));
    refused := builder.AddAttachment(DefaultSettings(format));
  }
}
