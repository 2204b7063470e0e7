/**
 * DefaultTextureFactories: `create` makes a new dynamic texture on every call; `get(location,
 * filters, wrap modes)` memoises textures loaded from resources, and `get(textureId)` memoises
 * one proxy per existing texture object.
 *
 * The memo for resource textures is keyed by combineMany over the location's hash and the four
 * enum ordinals, not by the request itself, so two requests whose keys collide share one
 * texture. `Get` models that as written; `GetByRequest` keys the memo by the request, which gives
 * every caller a texture with the location and settings it asked for.
 *
 * Loading a resource texture's image is not part of this model.
 */
module TextureFactories {
  import opened Wrappers
  import opened JavaLang
  import opened HashUtils
  import opened TextureEnums
  import opened GlContext
  import opened DynamicTextures
  import opened ShaderPreProcessor

  /** Minecraft's ResourceLocation.hashCode: 31 * namespace.hashCode() + path.hashCode(). */
  function LocationHash(l: Location): Int32
  {
    Combine(StringHash(l.namespace), StringHash(l.path))
  }

  /** Enum.ordinal: the position of the constant in its declaration. */
  function FilterOrdinal(f: TextureFilter): Int32
  {
    match f
    case NEAREST => 0
    case LINEAR => 1
  }

  function WrapOrdinal(w: TextureWrapMode): Int32
  {
    match w
    case CLAMP => 0
    case REPEAT => 1
  }

  /** The arguments of get(location, minFilter, magFilter, horizontalWrapMode, verticalWrapMode). */
  datatype TextureRequest = TextureRequest(location: Location, minFilter: TextureFilter, magFilter: TextureFilter,
                                           horizontalWrapMode: TextureWrapMode, verticalWrapMode: TextureWrapMode)

  /** The hashes get passes to combineMany. */
  function RequestHashes(r: TextureRequest): (hs: seq<Int32>)
    ensures |hs| == 5
  {
    [LocationHash(r.location), FilterOrdinal(r.minFilter), FilterOrdinal(r.magFilter),
     WrapOrdinal(r.horizontalWrapMode), WrapOrdinal(r.verticalWrapMode)]
  }

  /** The memo key of a request: combineMany of its hashes. */
  function CacheKey(r: TextureRequest): Int32
  {
    FoldHashes(RequestHashes(r))
  }

  lemma Polynomial5(h: int, a: int, b: int, c: int, d: int)
    ensures Polynomial([h, a, b, c, d]) == 923521 * h + 29791 * a + 961 * b + 31 * c + d
  {
    assert [h][..0] == [];
    assert Polynomial([h]) == h;
    assert [h, a][..1] == [h];
    assert Polynomial([h, a]) == 31 * h + a;
    assert [h, a, b][..2] == [h, a];
    assert Polynomial([h, a, b]) == 961 * h + 31 * a + b;
    assert [h, a, b, c][..3] == [h, a, b];
    assert Polynomial([h, a, b, c]) == 29791 * h + 961 * a + 31 * b + c;
    assert [h, a, b, c, d][..4] == [h, a, b, c];
  }

  /** Two integers that wrap to the same int and lie closer together than 2^32 are equal. */
  lemma WrapCloseEqual(x: int, y: int)
    requires Wrap32(x) == Wrap32(y) && -TWO_32 < x - y < TWO_32
    ensures x == y
  {
    var w := Wrap32(x);
    var qx, qy := (w - x) / TWO_32, (w - y) / TWO_32;
    assert w - x == TWO_32 * qx;
    assert w - y == TWO_32 * qy;
    assert x - y == TWO_32 * (qy - qx);
  }

  /** Base-31 digits of -1, 0 or 1 that sum to zero are all zero. */
  lemma BalancedDigitsZero(a: int, b: int, c: int, d: int)
    requires -1 <= a <= 1 && -1 <= b <= 1 && -1 <= c <= 1 && -1 <= d <= 1
    requires 29791 * a + 961 * b + 31 * c + d == 0
    ensures a == 0 && b == 0 && c == 0 && d == 0
  {
  }

  /**
   * For one location, distinct filter and wrap settings always get distinct keys: a collision
   * needs two locations.
   */
  lemma CacheKeySeparatesSettings(r1: TextureRequest, r2: TextureRequest)
    requires LocationHash(r1.location) == LocationHash(r2.location)
    requires CacheKey(r1) == CacheKey(r2)
    ensures r1.minFilter == r2.minFilter && r1.magFilter == r2.magFilter
    ensures r1.horizontalWrapMode == r2.horizontalWrapMode && r1.verticalWrapMode == r2.verticalWrapMode
  {
    var h1, h2 := RequestHashes(r1), RequestHashes(r2);
    FoldHashesIsPolynomial(h1);
    FoldHashesIsPolynomial(h2);
    assert h1 == [h1[0], h1[1], h1[2], h1[3], h1[4]];
    assert h2 == [h2[0], h2[1], h2[2], h2[3], h2[4]];
    Polynomial5(h1[0], h1[1], h1[2], h1[3], h1[4]);
    Polynomial5(h2[0], h2[1], h2[2], h2[3], h2[4]);
    WrapCloseEqual(Polynomial(h1), Polynomial(h2));
    BalancedDigitsZero(h1[1] - h2[1], h1[2] - h2[2], h1[3] - h2[3], h1[4] - h2[4]);
  }

  /**
   * "ao" and "c1" are both valid resource paths and have the same String.hashCode
   * (97 * 31 + 111 == 99 * 31 + 49 == 3118).
   */
  lemma AoCollidesWithC1(namespace: string)
    ensures ValidPath("ao") && ValidPath("c1")
    ensures LocationHash(Location(namespace, "ao")) == LocationHash(Location(namespace, "c1"))
  {
    assert "ao"[..1] == "a" && "c1"[..1] == "c";
    assert "a"[..0] == [] && "c"[..0] == [];
    assert StringHash("ao") == 3118 == StringHash("c1");
  }

  /** DefaultTexture: a texture loaded from a resource location with fixed settings. */
  class ResourceTexture {
    const location: Location
    const minFilter: TextureFilter
    const magFilter: TextureFilter
    const horizontalWrapMode: TextureWrapMode
    const verticalWrapMode: TextureWrapMode

    constructor(r: TextureRequest)
      ensures Request() == r
    {
      location := r.location;
      minFilter, magFilter := r.minFilter, r.magFilter;
      horizontalWrapMode, verticalWrapMode := r.horizontalWrapMode, r.verticalWrapMode;
    }

    /** The request this texture serves. */
    function Request(): TextureRequest
    {
      TextureRequest(location, minFilter, magFilter, horizontalWrapMode, verticalWrapMode)
    }
  }

  /** ProxyTexture: an existing texture object, with the size and parameters read when it was made. */
  class ProxyTexture {
    const textureId: int
    const width: Int32
    const height: Int32
    const minFilter: TextureFilter
    const magFilter: TextureFilter
    const horizontalWrapMode: TextureWrapMode
    const verticalWrapMode: TextureWrapMode

    constructor(textureId: int, width: Int32, height: Int32, minFilter: TextureFilter, magFilter: TextureFilter,
                horizontalWrapMode: TextureWrapMode, verticalWrapMode: TextureWrapMode)
      ensures this.textureId == textureId && this.width == width && this.height == height
      ensures this.minFilter == minFilter && this.magFilter == magFilter
      ensures this.horizontalWrapMode == horizontalWrapMode && this.verticalWrapMode == verticalWrapMode
    {
      this.textureId, this.width, this.height := textureId, width, height;
      this.minFilter, this.magFilter := minFilter, magFilter;
      this.horizontalWrapMode, this.verticalWrapMode := horizontalWrapMode, verticalWrapMode;
    }
  }

  /** Whether the four parameters of a texture object are constants the enums know. */
  predicate Readable(obj: TextureObject)
  {
    && FilterFromGLType(obj.minFilter).Ok? && FilterFromGLType(obj.magFilter).Ok?
    && WrapFromGLType(obj.wrapS).Ok? && WrapFromGLType(obj.wrapT).Ok?
  }

  class Factories {
    var staticTextures: map<Int32, ResourceTexture>
    var proxyTextures: map<int, ProxyTexture>
    var textures: map<TextureRequest, ResourceTexture>
    const gl: Gl

    /** Every memoised texture is stored under the key of the request it serves. */
    ghost predicate Valid()
      reads this
    {
      && (forall k :: k in staticTextures ==> CacheKey(staticTextures[k].Request()) == k)
      && (forall q :: q in textures ==> textures[q].Request() == q)
    }

    constructor(gl: Gl)
      ensures Valid()
      ensures this.gl == gl && staticTextures == map[] && proxyTextures == map[] && textures == map[]
    {
      this.gl := gl;
      staticTextures, proxyTextures, textures := map[], map[], map[];
    }

    /** create: a new dynamic texture with the given settings, on every call. */
    method Create(format: nat, minFilter: TextureFilter, magFilter: TextureFilter,
                  horizontalWrapMode: TextureWrapMode, verticalWrapMode: TextureWrapMode)
      returns (t: DynamicTexture)
      requires gl.Valid()
      ensures fresh(t) && t.Valid() && t.gl == gl && t.id == INVALID_ID && t.format == format
      ensures t.minFilter == minFilter && t.magFilter == magFilter
      ensures t.horizontalWrapMode == horizontalWrapMode && t.verticalWrapMode == verticalWrapMode
    {
      t := new DynamicTexture(gl, format, minFilter, magFilter, horizontalWrapMode, verticalWrapMode);
    }

    /**
     * get(location, filters, wrap modes), as written: the texture stored under the request's
     * key, made from this request and stored if there is none.
     */
    method Get(r: TextureRequest) returns (t: ResourceTexture)
      requires Valid()
      modifies this
      ensures Valid()
      ensures CacheKey(t.Request()) == CacheKey(r)
      ensures LocationHash(t.location) == LocationHash(r.location) ==>
                t.minFilter == r.minFilter && t.magFilter == r.magFilter
                && t.horizontalWrapMode == r.horizontalWrapMode && t.verticalWrapMode == r.verticalWrapMode
      ensures CacheKey(r) in old(staticTextures) ==>
                t == old(staticTextures)[CacheKey(r)] && staticTextures == old(staticTextures)
      ensures CacheKey(r) !in old(staticTextures) ==>
                fresh(t) && t.Request() == r && staticTextures == old(staticTextures)[CacheKey(r) := t]
      ensures proxyTextures == old(proxyTextures) && textures == old(textures)
    {
      var key := CombineMany(RequestHashes(r));
      var hash := key.value;
      if hash in staticTextures {
        t := staticTextures[hash];
        if LocationHash(t.location) == LocationHash(r.location) {
          CacheKeySeparatesSettings(t.Request(), r);
        }
        return;
      }
      t := new ResourceTexture(r);
      staticTextures := staticTextures[hash := t];
    }

    /** get(location, filters, wrap modes), keyed by the request itself. */
    method GetByRequest(r: TextureRequest) returns (t: ResourceTexture)
      requires Valid()
      modifies this
      ensures Valid()
      ensures t.Request() == r
      ensures r in old(textures) ==> t == old(textures)[r] && textures == old(textures)
      ensures r !in old(textures) ==> fresh(t)
      ensures r in textures && textures[r] == t
      ensures staticTextures == old(staticTextures) && proxyTextures == old(proxyTextures)
    {
      if r in textures {
        return textures[r];
      }
      t := new ResourceTexture(r);
      textures := textures[r := t];
    }

    /**
     * get(textureId): the proxy already made for that id, else a new proxy reading the
     * texture's size and parameters; a parameter the enums do not know fails, and nothing is
     * stored.
     */
    method GetProxy(textureId: int) returns (r: Result<ProxyTexture, string>)
      requires Valid()
      modifies this
      ensures Valid()
      ensures textureId in old(proxyTextures) ==> r == Ok(old(proxyTextures)[textureId]) && proxyTextures == old(proxyTextures)
      ensures textureId !in old(proxyTextures) ==> (r.Ok? <==> Readable(gl.Query(textureId)))
      ensures r.Err? ==> proxyTextures == old(proxyTextures)
                         && (r.error == "Unsupported filter type" || r.error == "Unsupported texture wrap mode")
      ensures r.Ok? && textureId !in old(proxyTextures) ==>
                && fresh(r.value) && proxyTextures == old(proxyTextures)[textureId := r.value]
                && r.value.textureId == textureId
                && r.value.width == gl.Query(textureId).width && r.value.height == gl.Query(textureId).height
                && FilterGLType(r.value.minFilter) == gl.Query(textureId).minFilter
                && FilterGLType(r.value.magFilter) == gl.Query(textureId).magFilter
                && WrapGLType(r.value.horizontalWrapMode) == gl.Query(textureId).wrapS
                && WrapGLType(r.value.verticalWrapMode) == gl.Query(textureId).wrapT
      ensures staticTextures == old(staticTextures) && textures == old(textures)
    {
      if textureId in proxyTextures {
        return Ok(proxyTextures[textureId]);
      }
      var obj := gl.Query(textureId);
      var minFilter := FilterFromGLType(obj.minFilter);
      if minFilter.Err? {
        return Err(minFilter.error);
      }
      var magFilter := FilterFromGLType(obj.magFilter);
      if magFilter.Err? {
        return Err(magFilter.error);
      }
      var wrapS := WrapFromGLType(obj.wrapS);
      if wrapS.Err? {
        return Err(wrapS.error);
      }
      var wrapT := WrapFromGLType(obj.wrapT);
      if wrapT.Err? {
        return Err(wrapT.error);
      }
      FilterFromGLTypeExact(obj.minFilter);
      FilterFromGLTypeExact(obj.magFilter);
      WrapFromGLTypeExact(obj.wrapS);
      WrapFromGLTypeExact(obj.wrapT);
      var p := new ProxyTexture(textureId, obj.width, obj.height, minFilter.value, magFilter.value,
                                wrapS.value, wrapT.value);
      proxyTextures := proxyTextures[textureId := p];
      return Ok(p);
    }
  }

  /** A proxy for a live dynamic texture reports the size and settings that texture was made with. */
  method ProxyOfDynamicTexture(f: Factories, t: DynamicTexture) returns (r: Result<ProxyTexture, string>)
    requires f.Valid() && t.Valid() && t.id != INVALID_ID && f.gl == t.gl && t.id !in f.proxyTextures
    modifies f
    ensures r.Ok?
    ensures r.value.width == t.Width() && r.value.height == t.Height()
    ensures r.value.minFilter == t.minFilter && r.value.magFilter == t.magFilter
    ensures r.value.horizontalWrapMode == t.horizontalWrapMode && r.value.verticalWrapMode == t.verticalWrapMode
  {
    FilterRoundTrip(t.minFilter);
    FilterRoundTrip(t.magFilter);
    WrapRoundTrip(t.horizontalWrapMode);
    WrapRoundTrip(t.verticalWrapMode);
    r := f.GetProxy(t.id);
    if r.Ok? {
      FilterGLTypeInjective(r.value.minFilter, t.minFilter);
      FilterGLTypeInjective(r.value.magFilter, t.magFilter);
      WrapGLTypeInjective(r.value.horizontalWrapMode, t.horizontalWrapMode);
      WrapGLTypeInjective(r.value.verticalWrapMode, t.verticalWrapMode);
    }
  }

  /**
   * As written, two requests for different locations whose hashes collide ("ao" and "c1")
   * receive one and the same texture, which serves the first location.
   */
  method CollidingLocationsShareTexture(namespace: string) returns (first: ResourceTexture, second: ResourceTexture)
    ensures first == second
    ensures second.location == Location(namespace, "ao") != Location(namespace, "c1")
  {
    var r1 := TextureRequest(Location(namespace, "ao"), NEAREST, NEAREST, CLAMP, CLAMP);
    var r2 := r1.(location := Location(namespace, "c1"));
    AoCollidesWithC1(namespace);
    assert CacheKey(r1) == CacheKey(r2);
    var gl := new Gl();
    var f := new Factories(gl);
    first := f.Get(r1);
    second := f.Get(r2);
  }

  /** Keyed by the request, the same two requests receive two textures, each for its own location. */
  method DistinctLocationsByRequest(namespace: string) returns (first: ResourceTexture, second: ResourceTexture)
    ensures first != second
    ensures first.location == Location(namespace, "ao") && second.location == Location(namespace, "c1")
  {
    var r1 := TextureRequest(Location(namespace, "ao"), NEAREST, NEAREST, CLAMP, CLAMP);
    var r2 := r1.(location := Location(namespace, "c1"));
    var gl := new Gl();
    var f := new Factories(gl);
    first := f.GetByRequest(r1);
    second := f.GetByRequest(r2);
  }
}
