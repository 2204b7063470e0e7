/**
 * The glyph atlas of a font (DefaultFontTexture): its sizing, the slot layout, the glyph map and
 * the ready flag.
 *
 * The atlas is a square of sizeInSlots × sizeInSlots slots of spriteSize pixels. Slot i sits at
 * column i mod sizeInSlots and row i div sizeInSlots. Shape extraction and rendering (FreeType,
 * msdfgen, AWT) are not modelled: a reload is given the entries the rendering pass produced, in
 * iteration order, and the atlas is given texture ids instead of creating GL textures.
 * Glyph metrics are Java floats; they are modelled as reals, which only matters for rounding.
 */
module FontTextures {
  import opened JavaLang
  import opened Wrappers
  import opened FontCharSets

  // ---------------------------------------------------------------------------------------------
  // Sizing

  /** The first power of two, doubling from `size`, whose square holds `numChars` slots. */
  function SlotsFrom(size: nat, numChars: int): (r: nat)
    requires size >= 1
    ensures r >= size
    decreases numChars - size
  {
    if size * size >= numChars then size
    else
      assert size <= size * size;
      SlotsFrom(2 * size, numChars)
  }

  /** The number of slots per side the atlas needs for `numChars` characters. */
  function SlotsFor(numChars: int): nat
  {
    SlotsFrom(2, numChars)
  }

  lemma {:induction false} SlotsFromIsPowerOfTwo(size: nat, numChars: int, k: nat)
    requires size == Pow2(k) && k >= 1
    ensures exists j :: j >= k && SlotsFrom(size, numChars) == Pow2(j)
    ensures SlotsFrom(size, numChars) * SlotsFrom(size, numChars) >= numChars
    ensures SlotsFrom(size, numChars) == size || (SlotsFrom(size, numChars) / 2) * (SlotsFrom(size, numChars) / 2) < numChars
    decreases numChars - size
  {
    if size * size < numChars {
      assert size <= size * size;
      assert 2 * size == Pow2(k + 1);
      SlotsFromIsPowerOfTwo(2 * size, numChars, k + 1);
    }
  }

  /**
   * The atlas side is the smallest power of two, at least 2, whose square holds every
   * character: a power of two, big enough, and either 2 or twice a side that is too small.
   */
  lemma SlotsForIsSmallest(numChars: int)
    ensures exists j :: j >= 1 && SlotsFor(numChars) == Pow2(j)
    ensures SlotsFor(numChars) * SlotsFor(numChars) >= numChars
    ensures SlotsFor(numChars) == 2 || (SlotsFor(numChars) / 2) * (SlotsFor(numChars) / 2) < numChars
  {
    SlotsFromIsPowerOfTwo(2, numChars, 1);
  }

  /**
   * The sizing loop of the constructor: doubles the side, starting at 2, while its square is
   * below the number of characters, and fails when a doubling is needed once the side has
   * reached the maximum.
   */
  method ComputeSizeInSlots(numChars: int, maxSize: int) returns (r: Result<nat, string>)
    ensures r.Ok? <==> SlotsFor(numChars) == 2 || SlotsFor(numChars) / 2 < maxSize
    ensures r.Ok? ==> r.value == SlotsFor(numChars)
    ensures r.Err? ==> r.error == "Font atlas too large, not supported yet"
  {
    var size: nat := 2;
    while size * size < numChars
      invariant size >= 2 && SlotsFrom(size, numChars) == SlotsFor(numChars)
      invariant size == 2 || size / 2 < maxSize
      decreases numChars - size
    {
      assert size <= size * size;
      assert SlotsFrom(size, numChars) == SlotsFrom(2 * size, numChars);
      if !(size < maxSize) {
        SlotsGrowFrom(size, numChars);
        return Err("Font atlas too large, not supported yet");
      }
      size := 2 * size;
    }
    return Ok(size);
  }

  /** Once the loop must grow past `size`, the final side is at least twice `size`. */
  lemma {:induction false} SlotsGrowFrom(size: nat, numChars: int)
    requires size >= 1 && size * size < numChars
    ensures SlotsFrom(size, numChars) >= 2 * size && SlotsFrom(size, numChars) / 2 >= size
  {
  }

  // ---------------------------------------------------------------------------------------------
  // Slots

  /** The pixel position of slot `index`: ((index mod n) * s, (index div n) * s). */
  function SlotPosition(index: nat, sizeInSlots: nat, spriteSize: nat): (p: (int, int))
    requires sizeInSlots > 0
  {
    ((index % sizeInSlots) * spriteSize, (index / sizeInSlots) * spriteSize)
  }

  /** A slot below n² lies entirely inside the n·s × n·s atlas. */
  lemma SlotInsideAtlas(index: nat, n: nat, s: nat)
    requires n > 0 && index < n * n
    ensures 0 <= SlotPosition(index, n, s).0 && SlotPosition(index, n, s).0 + s <= n * s
    ensures 0 <= SlotPosition(index, n, s).1 && SlotPosition(index, n, s).1 + s <= n * s
  {
    RowBelow(index, n);
    CellFits(index % n, n, s);
    CellFits(index / n, n, s);
  }

  /** The row of a slot below n² is below n. */
  lemma RowBelow(index: nat, n: nat)
    requires n > 0 && index < n * n
    ensures index / n < n
  {
    var row := index / n;
    if row >= n {
      MulLe(n, n, row);
      assert false;
    }
  }

  /** A cell below n, scaled by s, ends inside n·s. */
  lemma CellFits(a: nat, n: nat, s: nat)
    requires a < n
    ensures 0 <= a * s && a * s + s <= n * s
  {
    if s > 0 {
      MulLe(s, a + 1, n);
      assert s * (a + 1) == a * s + s;
    }
  }

  /** Distinct slots sit at distinct positions, so with a positive sprite size they never overlap. */
  lemma SlotsDistinct(i: nat, j: nat, n: nat, s: nat)
    requires n > 0 && s > 0 && i != j
    ensures SlotPosition(i, n, s) != SlotPosition(j, n, s)
  {
    if i % n != j % n {
      MulDistinct(i % n, j % n, s);
    } else {
      assert i == (i / n) * n + i % n && j == (j / n) * n + j % n;
      assert i / n != j / n;
      MulDistinct(i / n, j / n, s);
    }
  }

  lemma MulDistinct(a: int, b: int, s: int)
    requires s > 0 && a != b
    ensures a * s != b * s
  {
    if a < b {
      MulLe(s, a + 1, b);
    } else if b < a {
      MulLe(s, b + 1, a);
    }
  }

  /**
   * fillEmptySlots: draws the missing-glyph image into every slot from numShapes up to n² - 1,
   * in order; nothing when the shapes already fill the atlas.
   */
  method FillEmptySlots(numShapes: nat, n: nat, s: nat) returns (draws: seq<(int, int)>)
    requires n > 0
    ensures |draws| == if numShapes <= n * n then n * n - numShapes else 0
    ensures forall i :: 0 <= i < |draws| ==> draws[i] == SlotPosition(numShapes + i, n, s)
  {
    var numEmptySlots := n * n - numShapes;
    draws := [];
    var i := 0;
    while i < numEmptySlots
      invariant 0 <= i <= if numEmptySlots >= 0 then numEmptySlots else 0
      invariant |draws| == i
      invariant forall k :: 0 <= k < i ==> draws[k] == SlotPosition(numShapes + k, n, s)
    {
      var contIndex := numShapes + i;
      draws := draws + [((contIndex % n) * s, (contIndex / n) * s)];
      i := i + 1;
    }
    assert i == if numEmptySlots >= 0 then numEmptySlots else 0;
  }

  /**
   * The slots filled with the missing glyph are exactly those no shape took: each lies inside
   * the atlas and differs from the slot of every shape.
   */
  lemma FilledSlotsAreFree(numShapes: nat, n: nat, s: nat, i: nat, shape: nat)
    requires n > 0 && s > 0 && numShapes + i < n * n && shape < numShapes
    ensures SlotPosition(numShapes + i, n, s) != SlotPosition(shape, n, s)
    ensures 0 <= SlotPosition(numShapes + i, n, s).0 && SlotPosition(numShapes + i, n, s).0 + s <= n * s
    ensures 0 <= SlotPosition(numShapes + i, n, s).1 && SlotPosition(numShapes + i, n, s).1 + s <= n * s
  {
    SlotsDistinct(numShapes + i, shape, n, s);
    SlotInsideAtlas(numShapes + i, n, s);
  }

  // ---------------------------------------------------------------------------------------------
  // The texture

  datatype GlyphMetrics = GlyphMetrics(width: real, height: real, bearingX: real, bearingY: real)

  /** The four metrics the atlas keeps a maximum of. */
  datatype Metric = Width | Height | BearingX | BearingY

  function MetricOf(m: GlyphMetrics, which: Metric): real
  {
    match which
    case Width => m.width
    case Height => m.height
    case BearingX => m.bearingX
    case BearingY => m.bearingY
  }

  /** A glyph's sprite: its metrics and the pixel position of its slot. */
  datatype GlyphSprite = GlyphSprite(metrics: GlyphMetrics, position: (int, int))

  /**
   * One entry of the rendering pass, in iteration order: a character whose shape was empty (it
   * gets the missing-glyph image), or a rendered one with the metrics the font reported, if any.
   */
  datatype ShapeEntry = EmptyShape(c: Char16) | Rendered(c: Char16, metrics: Option<GlyphMetrics>)

  function Max(a: real, b: real): real
  {
    if a < b then b else a
  }

  /** The largest of `start` and the reported values of metric `f` over the rendered entries. */
  function MaxOver(start: real, entries: seq<ShapeEntry>, f: Metric): real
    decreases |entries|
  {
    if entries == [] then start
    else
      var e := entries[|entries| - 1];
      var m := MaxOver(start, entries[..|entries| - 1], f);
      if e.Rendered? && e.metrics.Some? then Max(m, MetricOf(e.metrics.value, f)) else m
  }

  /** The glyph map after the rendering pass: each rendered character with metrics, at its slot. */
  function SpritesOf(entries: seq<ShapeEntry>, n: nat, s: nat): map<Char16, GlyphSprite>
    requires n > 0
    decreases |entries|
  {
    if entries == [] then map[]
    else
      var i := |entries| - 1;
      var e := entries[i];
      var m := SpritesOf(entries[..i], n, s);
      if e.Rendered? && e.metrics.Some? then m[e.c := GlyphSprite(e.metrics.value, SlotPosition(i, n, s))] else m
  }

  /** Every sprite in the map is one the rendering pass produced, at that entry's slot. */
  lemma {:induction false} SpritesComeFromEntries(entries: seq<ShapeEntry>, n: nat, s: nat, c: Char16)
    requires n > 0
    requires c in SpritesOf(entries, n, s)
    ensures exists i :: 0 <= i < |entries| && entries[i] == Rendered(c, Some(SpritesOf(entries, n, s)[c].metrics))
                        && SpritesOf(entries, n, s)[c].position == SlotPosition(i, n, s)
    decreases |entries|
  {
    var i := |entries| - 1;
    var e := entries[i];
    if !(e.Rendered? && e.metrics.Some? && e.c == c) {
      SpritesComeFromEntries(entries[..i], n, s, c);
      var j :| 0 <= j < |entries[..i]| && entries[..i][j] == Rendered(c, Some(SpritesOf(entries[..i], n, s)[c].metrics))
               && SpritesOf(entries[..i], n, s)[c].position == SlotPosition(j, n, s);
      assert entries[j] == entries[..i][j];
    }
  }

  class FontTexture {
    const spriteSize: nat
    const sizeInSlots: nat
    const missingGlyphSprite: GlyphSprite
    var glyphSprites: map<Char16, GlyphSprite>
    var textureId: int
    var isReady: bool
    var maxGlyphWidth: real
    var maxGlyphHeight: real
    var maxGlyphBearingX: real
    var maxGlyphBearingY: real
    var lineHeight: real

    ghost predicate Valid()
    {
      sizeInSlots >= 2 && spriteSize > 0
    }

    constructor (spriteSize: nat, sizeInSlots: nat)
      requires spriteSize > 0 && sizeInSlots >= 2
      ensures Valid() && this.spriteSize == spriteSize && this.sizeInSlots == sizeInSlots
      ensures missingGlyphSprite == GlyphSprite(GlyphMetrics(spriteSize as real, spriteSize as real, 0.0, 0.0), (0, 0))
      ensures glyphSprites == map[] && textureId == -1 && !isReady
    {
      this.spriteSize := spriteSize;
      this.sizeInSlots := sizeInSlots;
      missingGlyphSprite := GlyphSprite(GlyphMetrics(spriteSize as real, spriteSize as real, 0.0, 0.0), (0, 0));
      glyphSprites := map[];
      textureId := -1;
      isReady := false;
    }

    /**
     * DefaultFontTexture(font, spriteSize, …): sizes the atlas for the number of distinct
     * supported characters, with at most GL_MAX_TEXTURE_SIZE / spriteSize slots per side.
     */
    static method New(spriteSize: nat, supported: seq<Range>, maxTextureSize: nat) returns (r: Result<FontTexture, string>)
      requires spriteSize > 0 && Expandable(supported)
      ensures r.Ok? ==> fresh(r.value) && r.value.Valid() && !r.value.isReady
      ensures r.Ok? ==> r.value.sizeInSlots == SlotsFor(|Elements(Expand(supported))|)
      ensures r.Ok? <==> var p := SlotsFor(|Elements(Expand(supported))|);
                           CharCountAsWritten(supported) >= 0 && (p == 2 || p / 2 < maxTextureSize / spriteSize)
      ensures CharCountAsWritten(supported) < 0 ==> r == Err(NEGATIVE_EXPECTED)
    {
      var chars :- ToSet(supported);
      var size :- ComputeSizeInSlots(|chars|, maxTextureSize / spriteSize);
      SlotsForIsSmallest(|chars|);
      var t := new FontTexture(spriteSize, size);
      return Ok(t);
    }

    /** getWidth / getHeight: the atlas is sizeInSlots × spriteSize pixels on each side. */
    function GetWidth(): int
    {
      sizeInSlots * spriteSize
    }

    function GetHeight(): int
    {
      sizeInSlots * spriteSize
    }

    /** Every one of the sizeInSlots² slots lies inside the getWidth × getHeight atlas. */
    lemma SlotInsideTexture(index: nat)
      requires Valid() && index < sizeInSlots * sizeInSlots
      ensures 0 <= SlotPosition(index, sizeInSlots, spriteSize).0
      ensures SlotPosition(index, sizeInSlots, spriteSize).0 + spriteSize <= GetWidth()
      ensures 0 <= SlotPosition(index, sizeInSlots, spriteSize).1
      ensures SlotPosition(index, sizeInSlots, spriteSize).1 + spriteSize <= GetHeight()
    {
      SlotInsideAtlas(index, sizeInSlots, spriteSize);
    }

    /** clear: no sprites, and every maximum and the line height back to zero. */
    method Clear()
      modifies this
      ensures glyphSprites == map[]
      ensures maxGlyphWidth == 0.0 && maxGlyphHeight == 0.0 && maxGlyphBearingX == 0.0 && maxGlyphBearingY == 0.0
      ensures lineHeight == 0.0
      ensures textureId == old(textureId) && isReady == old(isReady)
    {
      glyphSprites := map[];
      maxGlyphWidth := 0.0;
      maxGlyphHeight := 0.0;
      maxGlyphBearingX := 0.0;
      maxGlyphBearingY := 0.0;
      lineHeight := 0.0;
    }

    /** getGlyphSprite: the character's sprite, or the missing-glyph sprite for an unmapped one. */
    function GetGlyphSprite(c: Char16): (g: GlyphSprite)
      reads this
      ensures c !in glyphSprites ==> g == missingGlyphSprite
      ensures c in glyphSprites ==> g == glyphSprites[c]
    {
      if c in glyphSprites then glyphSprites[c] else missingGlyphSprite
    }

    /**
     * prepare: the atlas is no longer ready; the old texture is deleted when there is one, and
     * a new texture id is taken.
     */
    method Prepare(newTextureId: int) returns (deleted: Option<int>)
      modifies this
      ensures !isReady && textureId == newTextureId
      ensures deleted == if old(textureId) != -1 then Some(old(textureId)) else None
      ensures glyphSprites == old(glyphSprites)
    {
      isReady := false;
      deleted := None;
      if textureId != -1 {
        deleted := Some(textureId);
      }
      textureId := newTextureId;
    }

    /**
     * The rendering pass of reload (renderShapes): every entry takes the next slot; a rendered
     * character with metrics gets a sprite at its slot and raises the maxima.
     */
    method RenderShapes(entries: seq<ShapeEntry>)
      requires Valid()
      modifies this
      ensures glyphSprites == old(glyphSprites) + SpritesOf(entries, sizeInSlots, spriteSize)
      ensures maxGlyphWidth == MaxOver(old(maxGlyphWidth), entries, Width)
      ensures maxGlyphHeight == MaxOver(old(maxGlyphHeight), entries, Height)
      ensures maxGlyphBearingX == MaxOver(old(maxGlyphBearingX), entries, BearingX)
      ensures maxGlyphBearingY == MaxOver(old(maxGlyphBearingY), entries, BearingY)
      ensures textureId == old(textureId) && isReady == old(isReady) && lineHeight == old(lineHeight)
    {
      var index := 0;
      while index < |entries|
        invariant 0 <= index <= |entries|
        invariant glyphSprites == old(glyphSprites) + SpritesOf(entries[..index], sizeInSlots, spriteSize)
        invariant maxGlyphWidth == MaxOver(old(maxGlyphWidth), entries[..index], Width)
        invariant maxGlyphHeight == MaxOver(old(maxGlyphHeight), entries[..index], Height)
        invariant maxGlyphBearingX == MaxOver(old(maxGlyphBearingX), entries[..index], BearingX)
        invariant maxGlyphBearingY == MaxOver(old(maxGlyphBearingY), entries[..index], BearingY)
        invariant textureId == old(textureId) && isReady == old(isReady) && lineHeight == old(lineHeight)
      {
        PrefixStep(entries, index);
        var e := entries[index];
        if e.Rendered? && e.metrics.Some? {
          var m := e.metrics.value;
          RaiseMaxima(m);
          var position := ((index % sizeInSlots) * spriteSize, (index / sizeInSlots) * spriteSize);
          glyphSprites := glyphSprites[e.c := GlyphSprite(m, position)];
        }
        index := index + 1;
      }
      assert entries[..index] == entries;
    }

    /** Raises each maximum to the glyph's value where the glyph exceeds it. */
    method RaiseMaxima(m: GlyphMetrics)
      modifies this
      ensures maxGlyphWidth == Max(old(maxGlyphWidth), m.width)
      ensures maxGlyphHeight == Max(old(maxGlyphHeight), m.height)
      ensures maxGlyphBearingX == Max(old(maxGlyphBearingX), m.bearingX)
      ensures maxGlyphBearingY == Max(old(maxGlyphBearingY), m.bearingY)
      ensures glyphSprites == old(glyphSprites) && textureId == old(textureId)
      ensures isReady == old(isReady) && lineHeight == old(lineHeight)
    {
      if maxGlyphWidth < m.width { maxGlyphWidth := m.width; }
      if maxGlyphHeight < m.height { maxGlyphHeight := m.height; }
      if maxGlyphBearingX < m.bearingX { maxGlyphBearingX := m.bearingX; }
      if maxGlyphBearingY < m.bearingY { maxGlyphBearingY := m.bearingY; }
    }

    /**
     * reload: clears the glyph data, runs the rendering pass, sets the line height, fills the
     * free slots with the missing glyph, uploads the image and ends ready.
     */
    method Reload(entries: seq<ShapeEntry>, newLineHeight: real) returns (fills: seq<(int, int)>)
      requires Valid()
      modifies this
      ensures isReady && textureId == old(textureId)
      ensures glyphSprites == SpritesOf(entries, sizeInSlots, spriteSize)
      ensures maxGlyphWidth == MaxOver(0.0, entries, Width) && maxGlyphHeight == MaxOver(0.0, entries, Height)
      ensures maxGlyphBearingX == MaxOver(0.0, entries, BearingX)
      ensures maxGlyphBearingY == MaxOver(0.0, entries, BearingY)
      ensures lineHeight == newLineHeight
      ensures |fills| == if |entries| <= sizeInSlots * sizeInSlots then sizeInSlots * sizeInSlots - |entries| else 0
      ensures forall i :: 0 <= i < |fills| ==> fills[i] == SlotPosition(|entries| + i, sizeInSlots, spriteSize)
    {
      Clear();
      RenderShapes(entries);
      lineHeight := newLineHeight;
      fills := FillEmptySlots(|entries|, sizeInSlots, spriteSize);
      isReady := true;
    }
  }

  /** One more entry of the rendering pass: how the glyph map and the maxima grow. */
  lemma PrefixStep(entries: seq<ShapeEntry>, index: nat)
    requires index < |entries|
    ensures var e, prefix, next := entries[index], entries[..index], entries[..index + 1];
      && (forall start, f :: MaxOver(start, next, f) ==
            if e.Rendered? && e.metrics.Some? then Max(MaxOver(start, prefix, f), MetricOf(e.metrics.value, f))
            else MaxOver(start, prefix, f))
      && (forall n: nat, s: nat | n > 0 :: SpritesOf(next, n, s) ==
            if e.Rendered? && e.metrics.Some? then SpritesOf(prefix, n, s)[e.c := GlyphSprite(e.metrics.value, SlotPosition(index, n, s))]
            else SpritesOf(prefix, n, s))
  {
    assert entries[..index + 1][..index] == entries[..index];
  }

  /** Each maximum bounds the value of every rendered glyph and is 0 or one of those values. */
  lemma {:induction false} MaxOverIsMaximum(start: real, entries: seq<ShapeEntry>, f: Metric)
    ensures start <= MaxOver(start, entries, f)
    ensures forall i :: 0 <= i < |entries| && entries[i].Rendered? && entries[i].metrics.Some?
              ==> MetricOf(entries[i].metrics.value, f) <= MaxOver(start, entries, f)
    ensures MaxOver(start, entries, f) == start ||
            exists i :: 0 <= i < |entries| && entries[i].Rendered? && entries[i].metrics.Some?
                        && MaxOver(start, entries, f) == MetricOf(entries[i].metrics.value, f)
    decreases |entries|
  {
    if entries != [] {
      var n := |entries| - 1;
      MaxOverIsMaximum(start, entries[..n], f);
      forall i | 0 <= i < n
        ensures entries[..n][i] == entries[i]
      {
      }
    }
  }
}
