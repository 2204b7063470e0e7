/**
 * Uniform buffers (DefaultUniformBuffer) and their builder (DefaultUniformBufferBuilder).
 *
 * A buffer lays out its uniforms one after another in insertion order, each taking its type's
 * aligned size; its size is the sum of those sizes. The GL buffer object is allocated on the
 * first setup only. The builder rejects a repeated name, collects bind and unbind callbacks,
 * and gives every buffer it builds the next global binding point.
 */
module UniformBuffers {
  import opened JavaLang
  import opened Wrappers
  import opened UniformTypes
  import opened Uniforms
  import opened UniformCaches
  import opened Callbacks
  import MemoryUtils

  // ---------------------------------------------------------------------------------------------
  // Layout

  /** The sum of the aligned sizes of the types. */
  function TotalSize(types: seq<UniformType>): int
    decreases |types|
  {
    if types == [] then 0 else TotalSize(types[..|types| - 1]) + AlignedSize(types[|types| - 1])
  }

  /** Every aligned size is positive: it is at least the type's size, which is at least 4. */
  lemma AlignedSizePositive(t: UniformType)
    ensures AlignedSize(t) >= 4
  {
    AlignedSizeRoundsUp(t);
    LayoutTable(t);
  }

  /** The offset of field `i` is the total aligned size of the fields before it. */
  function FieldOffsetAt(types: seq<UniformType>, i: nat): int
    requires i <= |types|
  {
    TotalSize(types[..i])
  }

  lemma {:induction false} TotalSizeMonotone(types: seq<UniformType>, i: nat, j: nat)
    requires i <= j <= |types|
    ensures TotalSize(types[..i]) + 4 * (j - i) <= TotalSize(types[..j])
    decreases j - i
  {
    if i < j {
      TotalSizeMonotone(types, i, j - 1);
      assert types[..j][..j - 1] == types[..j - 1];
      AlignedSizePositive(types[j - 1]);
    }
  }

  /** The first field starts at 0 and each field ends where the next one begins. */
  lemma FieldsAreAdjacent(types: seq<UniformType>, i: nat)
    requires i < |types|
    ensures FieldOffsetAt(types, 0) == 0
    ensures FieldOffsetAt(types, i) + AlignedSize(types[i]) == FieldOffsetAt(types, i + 1)
  {
    assert types[..i + 1][..i] == types[..i];
  }

  /** Fields never overlap: a field ends at or before the start of every later field. */
  lemma FieldsDisjoint(types: seq<UniformType>, i: nat, j: nat)
    requires i < j < |types|
    ensures FieldOffsetAt(types, i) + AlignedSize(types[i]) <= FieldOffsetAt(types, j)
  {
    FieldsAreAdjacent(types, i);
    TotalSizeMonotone(types, i + 1, j);
  }

  /** Every field lies inside the buffer. */
  lemma FieldsInsideBuffer(types: seq<UniformType>, i: nat)
    requires i < |types|
    ensures FieldOffsetAt(types, i) + AlignedSize(types[i]) <= TotalSize(types)
  {
    FieldsAreAdjacent(types, i);
    TotalSizeMonotone(types, i + 1, |types|);
    assert types[..|types|] == types;
  }

  /** The last field ends exactly at the end of the buffer. */
  lemma LastFieldEndsBuffer(types: seq<UniformType>)
    requires types != []
    ensures FieldOffsetAt(types, |types| - 1) + AlignedSize(types[|types| - 1]) == TotalSize(types)
  {
  }

  /** Fields are at strictly increasing offsets, so distinct fields have distinct offsets. */
  lemma OffsetsIncrease(types: seq<UniformType>, i: nat, j: nat)
    requires i < j <= |types|
    ensures FieldOffsetAt(types, i) < FieldOffsetAt(types, j)
  {
    TotalSizeMonotone(types, i, j);
  }

  /** The offsets the constructor records: each name maps to the offset of its field. */
  function OffsetMap(names: seq<string>, types: seq<UniformType>): map<string, int>
    requires |names| == |types|
    decreases |names|
  {
    if names == [] then map[]
    else
      var n := |names| - 1;
      OffsetMap(names[..n], types[..n])[names[n] := TotalSize(types[..n])]
  }

  lemma {:induction false} OffsetMapKeys(names: seq<string>, types: seq<UniformType>)
    requires |names| == |types|
    ensures forall n :: n in OffsetMap(names, types) <==> n in names
    decreases |names|
  {
    if names != [] {
      var n := |names| - 1;
      OffsetMapKeys(names[..n], types[..n]);
      assert names == names[..n] + [names[n]];
    }
  }

  /** With distinct names, each name's recorded offset is the offset of its own field. */
  lemma {:induction false} OffsetMapAt(names: seq<string>, types: seq<UniformType>, i: nat)
    requires |names| == |types| && i < |names|
    requires forall i, j :: 0 <= i < j < |names| ==> names[i] != names[j]
    ensures names[i] in OffsetMap(names, types)
    ensures OffsetMap(names, types)[names[i]] == FieldOffsetAt(types, i)
    decreases |names|
  {
    var n := |names| - 1;
    var prefix := OffsetMap(names[..n], types[..n]);
    assert OffsetMap(names, types) == prefix[names[n] := TotalSize(types[..n])];
    if i < n {
      OffsetMapAt(names[..n], types[..n], i);
      assert names[..n][i] == names[i] && names[i] != names[n];
      assert types[..n][..i] == types[..i];
    }
  }

  /** The upload targets the cache computes from the recorded offsets are the field offsets. */
  lemma UploadTargets(names: seq<string>, types: seq<UniformType>, address: int)
    requires |names| == |types|
    requires forall i, j :: 0 <= i < j < |names| ==> names[i] != names[j]
    ensures seq(|names|, i requires 0 <= i < |names| => address + OffsetOrZero(OffsetMap(names, types), names[i]))
         == seq(|names|, i requires 0 <= i < |names| => address + FieldOffsetAt(types, i))
  {
    var m := OffsetMap(names, types);
    var viaMap := seq(|names|, i requires 0 <= i < |names| => address + OffsetOrZero(m, names[i]));
    var direct := seq(|names|, i requires 0 <= i < |names| => address + FieldOffsetAt(types, i));
    forall i | 0 <= i < |names|
      ensures viaMap[i] == direct[i]
    {
      OffsetMapAt(names, types, i);
    }
    assert viaMap == direct;
  }

  /**
   * The layout pass of the constructor: the sum of the aligned sizes, and the running total
   * of aligned sizes recorded under each name before that name's field is added.
   */
  method ComputeLayout(names: seq<string>, types: seq<UniformType>) returns (size: int, offsets: map<string, int>)
    requires |names| == |types|
    ensures size == TotalSize(types)
    ensures offsets == OffsetMap(names, types)
  {
    offsets := map[];
    size := 0;
    var k := 0;
    while k < |names|
      invariant 0 <= k <= |names|
      invariant size == TotalSize(types[..k])
      invariant offsets == OffsetMap(names[..k], types[..k])
    {
      offsets := offsets[names[k] := size];
      assert types[..k + 1][..k] == types[..k];
      assert names[..k + 1][..k] == names[..k];
      size := size + AlignedSize(types[k]);
      k := k + 1;
    }
    assert types[..k] == types;
    assert names[..k] == names;
  }

  // ---------------------------------------------------------------------------------------------
  // The buffer

  /** A GL action the buffer performs: allocating a buffer object of some size. */
  datatype Allocation = Allocation(bufferId: int, size: int)

  class UniformBuffer {
    const cache: UniformCache
    const names: seq<string>
    const types: seq<UniformType>
    const size: int
    const fieldOffsets: map<string, int>
    const bindingPoint: int
    const bindCallback: Callback
    const unbindCallback: Callback
    var bufferId: int

    ghost predicate Valid()
    {
      && cache.Valid()
      && cache.names == names
      && |types| == |names|
      && (forall i :: 0 <= i < |names| ==> cache.uniforms[i].utype == types[i])
      && size == TotalSize(types)
      && fieldOffsets == OffsetMap(names, types)
    }

    /**
     * The constructor: wraps the uniforms in a cache, sums their aligned sizes, and records each
     * name's offset as the running total of the aligned sizes before it. No GL buffer exists yet.
     */
    constructor (names: seq<string>, uniforms: seq<Uniform>, bind: Callback, unbind: Callback, bindingPoint: int)
      requires |names| == |uniforms|
      requires forall i :: 0 <= i < |uniforms| ==> uniforms[i].name == names[i]
      requires forall i, j :: 0 <= i < j < |names| ==> names[i] != names[j]
      ensures Valid() && fresh(cache)
      ensures this.names == names && cache.uniforms == uniforms
      ensures this.bindingPoint == bindingPoint && bindCallback == bind && unbindCallback == unbind
      ensures bufferId == -1
    {
      var ts := seq(|uniforms|, i requires 0 <= i < |uniforms| => uniforms[i].utype);
      var total, offsets := ComputeLayout(names, ts);
      this.names := names;
      this.types := ts;
      this.size := total;
      this.fieldOffsets := offsets;
      this.bindingPoint := bindingPoint;
      this.bindCallback := bind;
      this.unbindCallback := unbind;
      this.bufferId := -1;
      this.cache := new UniformCache(names, uniforms);
    }

    /** getFieldOffset: the recorded offset, or 0 for a name that is not a field. */
    function GetFieldOffset(name: string): (r: int)
      requires Valid()
      ensures name !in names ==> r == 0
      ensures name in names ==> r == FieldOffsetAt(types, IndexOfName(names, name))
    {
      OffsetMapKeys(names, types);
      if name in names then OffsetMapAt(names, types, IndexOfName(names, name)); OffsetOrZero(fieldOffsets, name)
      else OffsetOrZero(fieldOffsets, name)
    }

    function GetSize(): int
    {
      size
    }

    /**
     * setup(name, program): allocates a GL buffer of `size` bytes the first time only, then
     * binds the program's block to this buffer's binding point. The block binding is not modelled.
     */
    method Setup(generatedId: int) returns (allocation: Option<Allocation>)
      requires generatedId > 0
      modifies this
      ensures old(bufferId) == -1 ==> bufferId == generatedId && allocation == Some(Allocation(generatedId, size))
      ensures old(bufferId) != -1 ==> bufferId == old(bufferId) && allocation == None
    {
      allocation := None;
      if bufferId == -1 {
        bufferId := generatedId;
        allocation := Some(Allocation(bufferId, size));
      }
    }

    /**
     * bind(name, program): runs the bind callback, then uploads every uniform at the mapped
     * buffer's address plus its field offset.
     */
    method Bind(address: int) returns (invoked: seq<nat>, writes: seq<Push>)
      requires Valid()
      modifies set u | u in cache.uniforms
      ensures invoked == Invocations(bindCallback)
      ensures forall i :: 0 <= i < |names| ==> cache.uniforms[i].State() == FlushSpec(old(cache.uniforms[i].State())).0
      ensures writes == Pushes(old(cache.States()), seq(|names|, i requires 0 <= i < |names| => address + FieldOffsetAt(types, i)))
    {
      invoked := Invocations(bindCallback);
      writes := cache.UploadAll(address, fieldOffsets);
      UploadTargets(names, types, address);
    }

    /** unbind(name, program): runs the unbind callback. */
    function Unbind(): (invoked: seq<nat>)
      ensures invoked == Invocations(unbindCallback)
    {
      Invocations(unbindCallback)
    }
  }

  /** Setting a fresh buffer up twice allocates once: the second setup finds the buffer already made. */
  method SetupTwice(buffer: UniformBuffer, g1: int, g2: int) returns (first: Option<Allocation>, second: Option<Allocation>)
    requires g1 > 0 && g2 > 0 && buffer.bufferId == -1
    modifies buffer
    ensures first == Some(Allocation(g1, buffer.size)) && second == None
    ensures buffer.bufferId == g1
  {
    first := buffer.Setup(g1);
    second := buffer.Setup(g2);
  }

  // ---------------------------------------------------------------------------------------------
  // The builder

  /** The process-wide counter of binding points (the builder's static nextGlobalIndex). */
  class BindingPoints {
    var next: nat

    constructor ()
      ensures next == 0
    {
      next := 0;
    }
  }

  class UniformBufferBuilder {
    var names: seq<string>
    var types: seq<UniformType>
    var bindCallback: Callback
    var unbindCallback: Callback

    ghost predicate Valid()
      reads this
    {
      && |names| == |types|
      && forall i, j :: 0 <= i < j < |names| ==> names[i] != names[j]
    }

    constructor ()
      ensures Valid()
      ensures names == [] && types == [] && bindCallback == Identity && unbindCallback == Identity
    {
      names := [];
      types := [];
      bindCallback := Identity;
      unbindCallback := Identity;
    }

    /** uniform(name, type): a repeated name is an error; otherwise the entry is appended. */
    method AddUniform(name: string, utype: UniformType) returns (r: Result<(), string>)
      requires Valid()
      modifies this
      ensures Valid()
      ensures r.Err? <==> name in old(names)
      ensures r.Ok? ==> names == old(names) + [name] && types == old(types) + [utype]
      ensures r.Err? ==> r.error == "Uniform '" + name + "' is already defined"
      ensures r.Err? ==> names == old(names) && types == old(types)
      ensures bindCallback == old(bindCallback) && unbindCallback == old(unbindCallback)
    {
      if name in names {
        return Err("Uniform '" + name + "' is already defined");
      }
      names := names + [name];
      types := types + [utype];
      return Ok(());
    }

    method OnBind(id: nat)
      modifies this
      ensures bindCallback == Register(old(bindCallback), id)
      ensures names == old(names) && types == old(types) && unbindCallback == old(unbindCallback)
    {
      bindCallback := Register(bindCallback, id);
    }

    method OnUnbind(id: nat)
      modifies this
      ensures unbindCallback == Register(old(unbindCallback), id)
      ensures names == old(names) && types == old(types) && bindCallback == old(bindCallback)
    {
      unbindCallback := Register(unbindCallback, id);
    }

    /**
     * build(): a buffer over the added uniforms with the collected callbacks and the next global
     * binding point, which is then incremented. uniform() creates each uniform with
     * type.create(name) as it is added; the builder here keeps the name and type and creates the
     * uniforms when the buffer is built, which gives the same clean uniforms in the same order.
     */
    method Build(points: BindingPoints) returns (buffer: UniformBuffer)
      requires Valid()
      modifies points
      ensures fresh(buffer) && buffer.Valid()
      ensures buffer.names == names && buffer.types == types
      ensures buffer.bindingPoint == old(points.next) && points.next == old(points.next) + 1
      ensures buffer.bindCallback == bindCallback && buffer.unbindCallback == unbindCallback
      ensures forall i :: 0 <= i < |names| ==> !buffer.cache.uniforms[i].requiresUpdate
    {
      var uniforms := CreateUniforms(names, types);
      buffer := new UniformBuffer(names, uniforms, bindCallback, unbindCallback, points.next);
      points.next := points.next + 1;
    }
  }

  /** type.create(name) for every entry: a clean uniform of that name and type. */
  method CreateUniforms(names: seq<string>, types: seq<UniformType>) returns (uniforms: seq<Uniform>)
    requires |names| == |types|
    ensures |uniforms| == |names|
    ensures forall i :: 0 <= i < |names| ==> uniforms[i].name == names[i] && uniforms[i].utype == types[i]
    ensures forall i :: 0 <= i < |names| ==> fresh(uniforms[i]) && !uniforms[i].requiresUpdate
  {
    uniforms := [];
    var k := 0;
    while k < |names|
      invariant 0 <= k <= |names|
      invariant |uniforms| == k
      invariant forall i :: 0 <= i < k ==> uniforms[i].name == names[i] && uniforms[i].utype == types[i]
      invariant forall i :: 0 <= i < k ==> fresh(uniforms[i]) && !uniforms[i].requiresUpdate
    {
      var u := new Uniform(names[k], types[k], 0);
      uniforms := uniforms + [u];
      k := k + 1;
    }
  }
}
