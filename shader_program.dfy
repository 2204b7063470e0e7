/**
 * DefaultShaderProgram: a linked GL program with its samplers, uniform blocks and bind
 * callbacks, and the flags that track whether it is linked, bound and due for a relink.
 *
 * The GL calls bind and unbind make are returned as a list of `GlCall`s; the program id is
 * the value glCreateProgram returned. What happens inside a sampler's or a uniform buffer's
 * own bind is not part of this model: a call records that it was made.
 */
module ShaderPrograms {
  import opened Wrappers
  import opened JavaLang
  import opened Callbacks
  import opened ObjectQueues
  import opened UniformTypes
  import opened ShaderPreProcessor

  /** The texture a dynamic sampler binds: a fixed id, or the supplier a static sampler was given. */
  datatype TextureSource = Fixed(textureId: Int32) | Supplied(supplier: nat)

  /** StaticSampler (bindless texture handle) or DynamicSampler (texture unit `id`). */
  datatype Sampler =
    | Static(id: int, name: string, supplier: nat)
    | Dynamic(id: int, name: string, texture: TextureSource)

  /** A new DynamicSampler's texture supplier yields -1. */
  const NO_TEXTURE: TextureSource := Fixed(-1)

  /** Distinct sampler names have distinct ids. */
  ghost predicate Injective(m: map<string, int>)
  {
    forall a, b :: a in m && b in m && a != b ==> m[a] != m[b]
  }

  /** Each name of the map exactly once. */
  ghost predicate Enumerates(order: seq<string>, m: map<string, int>)
  {
    Distinct(order) && forall n :: n in order <==> n in m
  }

  /**
   * The sampler the constructor sets up under the id of `name`: a DynamicSampler for an id
   * without a texture supplier; for one with a supplier, StaticSampler.create, which falls back
   * to a DynamicSampler reading that supplier when bindless textures are not supported.
   */
  function SamplerFor(samplerIds: map<string, int>, staticSamplers: map<int, nat>, bindless: bool,
                      name: string): (s: Sampler)
    requires name in samplerIds
    ensures s.id == samplerIds[name] && s.name == name
    ensures s.Static? <==> bindless && samplerIds[name] in staticSamplers
  {
    var id := samplerIds[name];
    if id !in staticSamplers then Dynamic(id, name, NO_TEXTURE)
    else if bindless then Static(id, name, staticSamplers[id])
    else Dynamic(id, name, Supplied(staticSamplers[id]))
  }

  /** stream().filter(value == id).findFirst() over the sampler names in iteration order. */
  function FirstName(order: seq<string>, samplerIds: map<string, int>, id: int): (r: Option<string>)
    ensures r.Some? ==> r.value in order && r.value in samplerIds && samplerIds[r.value] == id
    ensures r.None? ==> forall n :: n in order && n in samplerIds ==> samplerIds[n] != id
  {
    if order == [] then None
    else if order[0] in samplerIds && samplerIds[order[0]] == id then Some(order[0])
    else FirstName(order[1..], samplerIds, id)
  }

  /**
   * The two loops of the constructor: first every id with a texture supplier gets the sampler
   * StaticSampler.create makes for it (a dynamic one is also put in the dynamic list), then
   * every other id gets a new DynamicSampler, which goes in the dynamic list.
   */
  method CreateSamplers(samplerIds: map<string, int>, staticSamplers: map<int, nat>, bindless: bool,
                        staticOrder: seq<int>, nameOrder: seq<string>)
    returns (samplers: map<int, Sampler>, dynamicSamplers: seq<int>)
    requires Injective(samplerIds) && Enumerates(nameOrder, samplerIds)
    requires Distinct(staticOrder) && forall id :: id in staticOrder <==> id in staticSamplers
    requires forall id :: id in staticSamplers ==> id in samplerIds.Values
    ensures samplers.Keys == samplerIds.Values
    ensures forall n :: n in samplerIds ==> samplers[samplerIds[n]] == SamplerFor(samplerIds, staticSamplers, bindless, n)
    ensures Distinct(dynamicSamplers)
    ensures forall id :: id in dynamicSamplers <==> id in samplers && samplers[id].Dynamic?
  {
    samplers, dynamicSamplers := map[], [];
    for i := 0 to |staticOrder|
      invariant forall id :: id in samplers <==> id in staticOrder[..i]
      invariant forall n :: n in samplerIds && samplerIds[n] in samplers ==>
                  samplers[samplerIds[n]] == SamplerFor(samplerIds, staticSamplers, bindless, n)
      invariant Distinct(dynamicSamplers)
      invariant forall id :: id in dynamicSamplers <==> id in samplers && samplers[id].Dynamic?
    {
      var id := staticOrder[i];
      FirstNameFinds(nameOrder, samplerIds, id);
      var name := FirstName(nameOrder, samplerIds, id).value;
      var sampler := if bindless then Static(id, name, staticSamplers[id])
                     else Dynamic(id, name, Supplied(staticSamplers[id]));
      assert id !in samplers by {
        assert staticOrder[i] !in staticOrder[..i];
      }
      samplers := samplers[id := sampler];
      if sampler.Dynamic? {
        DistinctSnoc(dynamicSamplers, id);
        dynamicSamplers := dynamicSamplers + [id];
      }
      assert staticOrder[..i + 1] == staticOrder[..i] + [id];
    }
    assert staticOrder[..|staticOrder|] == staticOrder;
    for j := 0 to |nameOrder|
      invariant forall id :: id in samplers ==> id in samplerIds.Values
      invariant forall n :: n in samplerIds ==>
                  (samplerIds[n] in samplers <==> samplerIds[n] in staticSamplers || n in nameOrder[..j])
      invariant forall n :: n in samplerIds && samplerIds[n] in samplers ==>
                  samplers[samplerIds[n]] == SamplerFor(samplerIds, staticSamplers, bindless, n)
      invariant Distinct(dynamicSamplers)
      invariant forall id :: id in dynamicSamplers <==> id in samplers && samplers[id].Dynamic?
    {
      var name := nameOrder[j];
      var id := samplerIds[name];
      assert nameOrder[..j + 1] == nameOrder[..j] + [name];
      if id in staticSamplers {
        continue;
      }
      assert id !in samplers by {
        assert name !in nameOrder[..j] by {
          DistinctAt(nameOrder, j);
        }
      }
      samplers := samplers[id := Dynamic(id, name, NO_TEXTURE)];
      DistinctSnoc(dynamicSamplers, id);
      dynamicSamplers := dynamicSamplers + [id];
    }
    assert nameOrder[..|nameOrder|] == nameOrder;
    forall id
      ensures id in samplers.Keys <==> id in samplerIds.Values
    {
      if id in samplerIds.Values {
        var n :| n in samplerIds && samplerIds[n] == id;
        assert n in nameOrder;
      }
    }
  }

  lemma {:induction false} FirstNameFinds(order: seq<string>, samplerIds: map<string, int>, id: int)
    requires forall n :: n in samplerIds ==> n in order
    requires id in samplerIds.Values
    ensures FirstName(order, samplerIds, id).Some?
  {
    var n :| n in samplerIds && samplerIds[n] == id;
    assert n in order;
  }

  lemma DistinctSnoc<T>(s: seq<T>, x: T)
    requires Distinct(s) && x !in s
    ensures Distinct(s + [x])
  {
  }

  lemma DistinctAt<T>(s: seq<T>, j: nat)
    requires Distinct(s) && j < |s|
    ensures s[j] !in s[..j]
  {
  }

  /** What building a program hands over from the builder. */
  datatype ProgramParts = ProgramParts(
    objects: seq<nat>,                 // the shader objects, in stage order
    uniformNames: seq<string>,         // the uniforms, in declaration order
    uniformTypes: seq<UniformType>,
    uniformBuffers: map<string, nat>,  // uniform block name -> buffer
    bindCallback: Callback,
    unbindCallback: Callback,
    samplerIds: map<string, int>,
    constants: Entries,
    defines: Entries,
    staticSamplers: map<int, nat>)     // sampler id -> texture supplier

  /** A GL call made by bind or unbind, in the order made. */
  datatype GlCall =
    | UseProgram(program: int)
    | BindBlock(block: string)
    | UnbindBlock(block: string)
    | BindSampler(sampler: int)
    | UnbindSampler(sampler: int)
    | Invoke(callback: nat)
    | ApplyUniforms

  function BlockCalls(blocks: seq<string>, bind: bool): (r: seq<GlCall>)
    ensures |r| == |blocks|
  {
    if blocks == [] then []
    else [if bind then BindBlock(blocks[0]) else UnbindBlock(blocks[0])] + BlockCalls(blocks[1..], bind)
  }

  function SamplerCalls(ids: seq<int>, bind: bool): (r: seq<GlCall>)
    ensures |r| == |ids|
  {
    if ids == [] then []
    else [if bind then BindSampler(ids[0]) else UnbindSampler(ids[0])] + SamplerCalls(ids[1..], bind)
  }

  function CallbackCalls(ids: seq<nat>): (r: seq<GlCall>)
    ensures |r| == |ids|
  {
    if ids == [] then [] else [Invoke(ids[0])] + CallbackCalls(ids[1..])
  }

  /** The blocks and samplers a list of calls binds, and those it unbinds. */
  function BoundBlocks(calls: seq<GlCall>): set<string>
  {
    if calls == [] then {}
    else (if calls[0].BindBlock? then {calls[0].block} else {}) + BoundBlocks(calls[1..])
  }

  function UnboundBlocks(calls: seq<GlCall>): set<string>
  {
    if calls == [] then {}
    else (if calls[0].UnbindBlock? then {calls[0].block} else {}) + UnboundBlocks(calls[1..])
  }

  function BoundSamplers(calls: seq<GlCall>): set<int>
  {
    if calls == [] then {}
    else (if calls[0].BindSampler? then {calls[0].sampler} else {}) + BoundSamplers(calls[1..])
  }

  function UnboundSamplers(calls: seq<GlCall>): set<int>
  {
    if calls == [] then {}
    else (if calls[0].UnbindSampler? then {calls[0].sampler} else {}) + UnboundSamplers(calls[1..])
  }

  function Elements<T>(s: seq<T>): set<T>
  {
    set x | x in s
  }

  lemma {:induction false} BlockCallsCover(blocks: seq<string>)
    ensures BoundBlocks(BlockCalls(blocks, true)) == Elements(blocks)
    ensures UnboundBlocks(BlockCalls(blocks, false)) == Elements(blocks)
    ensures BoundSamplers(BlockCalls(blocks, true)) == {} && UnboundSamplers(BlockCalls(blocks, false)) == {}
  {
    if blocks != [] {
      BlockCallsCover(blocks[1..]);
      assert BlockCalls(blocks, true)[1..] == BlockCalls(blocks[1..], true);
      assert BlockCalls(blocks, false)[1..] == BlockCalls(blocks[1..], false);
      assert Elements(blocks) == {blocks[0]} + Elements(blocks[1..]);
    }
  }

  lemma {:induction false} SamplerCallsCover(ids: seq<int>)
    ensures BoundSamplers(SamplerCalls(ids, true)) == Elements(ids)
    ensures UnboundSamplers(SamplerCalls(ids, false)) == Elements(ids)
    ensures BoundBlocks(SamplerCalls(ids, true)) == {} && UnboundBlocks(SamplerCalls(ids, false)) == {}
  {
    if ids != [] {
      SamplerCallsCover(ids[1..]);
      assert SamplerCalls(ids, true)[1..] == SamplerCalls(ids[1..], true);
      assert SamplerCalls(ids, false)[1..] == SamplerCalls(ids[1..], false);
      assert Elements(ids) == {ids[0]} + Elements(ids[1..]);
    }
  }

  lemma {:induction false} CallbackCallsBindNothing(ids: seq<nat>)
    ensures BoundBlocks(CallbackCalls(ids)) == {} && UnboundBlocks(CallbackCalls(ids)) == {}
    ensures BoundSamplers(CallbackCalls(ids)) == {} && UnboundSamplers(CallbackCalls(ids)) == {}
  {
    if ids != [] {
      CallbackCallsBindNothing(ids[1..]);
      assert CallbackCalls(ids)[1..] == CallbackCalls(ids[1..]);
    }
  }

  lemma {:induction false} CoverConcat(a: seq<GlCall>, b: seq<GlCall>)
    ensures BoundBlocks(a + b) == BoundBlocks(a) + BoundBlocks(b)
    ensures UnboundBlocks(a + b) == UnboundBlocks(a) + UnboundBlocks(b)
    ensures BoundSamplers(a + b) == BoundSamplers(a) + BoundSamplers(b)
    ensures UnboundSamplers(a + b) == UnboundSamplers(a) + UnboundSamplers(b)
  {
    if a != [] {
      CoverConcat(a[1..], b);
      assert (a + b)[1..] == a[1..] + b;
    } else {
      assert a + b == b;
    }
  }

  class ShaderProgram {
    const id: int
    const objects: seq<nat>
    const uniformNames: seq<string>
    const uniformTypes: seq<UniformType>
    const bindCallback: Callback
    const unbindCallback: Callback
    const uniformBuffers: map<string, nat>
    /** The uniform block names in the iteration order of the HashMap. */
    const blockOrder: seq<string>
    const samplerIds: map<string, int>
    const constants: Entries
    const defines: Entries
    var samplers: map<int, Sampler>
    const dynamicSamplers: seq<int>
    var isLinked: bool
    var isRelinkRequested: bool
    var isBound: bool

    /** Bound only while linked: what bind, unbind, prepare and reload maintain. */
    predicate Coherent()
      reads this
    {
      isBound ==> isLinked
    }

    /**
     * The constructor: keeps the builder's collections and sets up one sampler per sampler id
     * (CreateSamplers). A new program is neither linked nor bound.
     */
    constructor(parts: ProgramParts, glId: int, bindless: bool,
                staticOrder: seq<int>, nameOrder: seq<string>, blockOrder: seq<string>)
      requires Injective(parts.samplerIds) && Enumerates(nameOrder, parts.samplerIds)
      requires Distinct(staticOrder) && forall i :: i in staticOrder <==> i in parts.staticSamplers
      requires forall i :: i in parts.staticSamplers ==> i in parts.samplerIds.Values
      requires Distinct(blockOrder) && forall b :: b in blockOrder <==> b in parts.uniformBuffers
      ensures id == glId && objects == parts.objects && samplerIds == parts.samplerIds
      ensures uniformNames == parts.uniformNames && uniformTypes == parts.uniformTypes
      ensures uniformBuffers == parts.uniformBuffers && this.blockOrder == blockOrder
      ensures bindCallback == parts.bindCallback && unbindCallback == parts.unbindCallback
      ensures constants == parts.constants && defines == parts.defines
      ensures samplers.Keys == samplerIds.Values
      ensures forall n :: n in samplerIds ==>
                samplers[samplerIds[n]] == SamplerFor(samplerIds, parts.staticSamplers, bindless, n)
      ensures Distinct(dynamicSamplers)
      ensures forall i :: i in dynamicSamplers <==> i in samplers && samplers[i].Dynamic?
      ensures !isLinked && !isBound && !isRelinkRequested
    {
      id := glId;
      objects := parts.objects;
      uniformNames := parts.uniformNames;
      uniformTypes := parts.uniformTypes;
      bindCallback := parts.bindCallback;
      unbindCallback := parts.unbindCallback;
      uniformBuffers := parts.uniformBuffers;
      this.blockOrder := blockOrder;
      samplerIds := parts.samplerIds;
      constants := parts.constants;
      defines := parts.defines;
      var s, d := CreateSamplers(parts.samplerIds, parts.staticSamplers, bindless, staticOrder, nameOrder);
      samplers := s;
      dynamicSamplers := d;
      isLinked, isRelinkRequested, isBound := false, false, false;
    }

    /** The calls bind makes: use the program, bind the blocks, the dynamic samplers, run the callbacks, apply the uniforms. */
    function BindCalls(): (r: seq<GlCall>)
      reads this
      ensures r != [] && r[0] == UseProgram(id) && r[|r| - 1] == ApplyUniforms
    {
      [UseProgram(id)] + BlockCalls(blockOrder, true) + SamplerCalls(dynamicSamplers, true)
      + CallbackCalls(Invocations(bindCallback)) + [ApplyUniforms]
    }

    /** The calls unbind makes: run the callbacks, unbind the dynamic samplers and the blocks, use program 0. */
    function UnbindCalls(): (r: seq<GlCall>)
      reads this
      ensures r != [] && r[|r| - 1] == UseProgram(0)
    {
      CallbackCalls(Invocations(unbindCallback)) + SamplerCalls(dynamicSamplers, false)
      + BlockCalls(blockOrder, false) + [UseProgram(0)]
    }

    /** bind: a no-op while bound or not linked. */
    method Bind() returns (calls: seq<GlCall>)
      modifies this
      ensures if old(isBound) || !old(isLinked) then calls == [] && isBound == old(isBound)
              else calls == BindCalls() && isBound
      ensures isLinked == old(isLinked) && isRelinkRequested == old(isRelinkRequested)
      ensures samplers == old(samplers)
      ensures old(Coherent()) ==> Coherent()
    {
      if isBound || !isLinked {
        return [];
      }
      calls := BindCalls();
      isBound := true;
    }

    /** unbind: a no-op while not bound or not linked. */
    method Unbind() returns (calls: seq<GlCall>)
      modifies this
      ensures if !old(isBound) || !old(isLinked) then calls == [] && isBound == old(isBound)
              else calls == UnbindCalls() && !isBound
      ensures isLinked == old(isLinked) && isRelinkRequested == old(isRelinkRequested)
      ensures samplers == old(samplers)
      ensures old(Coherent()) ==> Coherent()
    {
      if !isBound || !isLinked {
        return [];
      }
      calls := UnbindCalls();
      isBound := false;
    }

    /** prepare: unbind, then mark the program unlinked; a coherent program ends neither bound nor linked. */
    method Prepare() returns (calls: seq<GlCall>)
      modifies this
      ensures !isLinked
      ensures calls == if old(isBound) && old(isLinked) then UnbindCalls() else []
      ensures old(Coherent()) ==> !isBound && Coherent()
      ensures isRelinkRequested == old(isRelinkRequested) && samplers == old(samplers)
    {
      calls := Unbind();
      isLinked := false;
    }

    /**
     * reload: after compiling, linking and setting up uniforms, samplers and blocks (none of
     * which is part of this model), the program is marked linked, whatever the link status.
     */
    method Reload()
      modifies this
      ensures isLinked
      ensures isBound == old(isBound) && isRelinkRequested == old(isRelinkRequested)
      ensures samplers == old(samplers)
      ensures Coherent()
    {
      isLinked := true;
    }

    /** dispose: marks the program unlinked; the bound flag is left as it was. */
    method Dispose()
      modifies this
      ensures !isLinked
      ensures isBound == old(isBound) && isRelinkRequested == old(isRelinkRequested)
      ensures samplers == old(samplers)
      ensures !old(isBound) ==> Coherent()
    {
      isLinked := false;
    }

    /** requestRelink: sets the flag isRelinkRequested reports; nothing in the program clears it. */
    method RequestRelink()
      modifies this
      ensures isRelinkRequested
      ensures isLinked == old(isLinked) && isBound == old(isBound) && samplers == old(samplers)
    {
      isRelinkRequested := true;
    }

    /** samplerIds.getInt(name): the sampler's id, or the map's default value 0 for an unknown name. */
    function SamplerIdOf(name: string): (i: int)
      reads this
      ensures name in samplerIds ==> i == samplerIds[name]
      ensures name !in samplerIds ==> i == 0
    {
      if name in samplerIds then samplerIds[name] else 0
    }

    /** getSampler: samplers.get of that id, None standing for null. */
    function GetSampler(name: string): (r: Option<Sampler>)
      reads this
      ensures r.Some? <==> SamplerIdOf(name) in samplers
      ensures r.Some? ==> r.value == samplers[SamplerIdOf(name)]
    {
      var i := SamplerIdOf(name);
      if i in samplers then Some(samplers[i]) else None
    }

    /**
     * setSampler(name, textureId) as written: the sampler getSampler finds must be dynamic, and
     * from then on binds the given texture. An unknown name reaches the sampler with id 0.
     */
    method SetSampler(name: string, textureId: Int32) returns (r: Result<(), string>)
      modifies this
      ensures var s := old(GetSampler(name));
              if s.Some? && s.value.Dynamic? then
                r.Ok? && samplers == old(samplers)[SamplerIdOf(name) := s.value.(texture := Fixed(textureId))]
              else
                r == Err("Sampler '" + name + "' is not dynamic") && samplers == old(samplers)
      ensures isLinked == old(isLinked) && isBound == old(isBound) && isRelinkRequested == old(isRelinkRequested)
    {
      var s := GetSampler(name);
      if !(s.Some? && s.value.Dynamic?) {
        return Err("Sampler '" + name + "' is not dynamic");
      }
      samplers := samplers[SamplerIdOf(name) := s.value.(texture := Fixed(textureId))];
      return Ok(());
    }

    /** setSampler with the name looked up first: an unknown name fails and no sampler changes. */
    method SetSamplerChecked(name: string, textureId: Int32) returns (r: Result<(), string>)
      modifies this
      ensures r.Ok? <==> name in samplerIds && samplerIds[name] in old(samplers)
                         && old(samplers)[samplerIds[name]].Dynamic?
      ensures r.Ok? ==> samplers == old(samplers)[samplerIds[name] := old(samplers)[samplerIds[name]].(texture := Fixed(textureId))]
      ensures r.Err? ==> samplers == old(samplers)
      ensures isLinked == old(isLinked) && isBound == old(isBound) && isRelinkRequested == old(isRelinkRequested)
    {
      if name !in samplerIds {
        return Err("Sampler '" + name + "' does not exist");
      }
      r := SetSampler(name, textureId);
    }
  }

  /** Every block and dynamic sampler bind binds is unbound again by unbind, and no other. */
  lemma UnbindUndoesBind(p: ShaderProgram)
    ensures BoundBlocks(p.BindCalls()) == UnboundBlocks(p.UnbindCalls()) == Elements(p.blockOrder)
    ensures BoundSamplers(p.BindCalls()) == UnboundSamplers(p.UnbindCalls()) == Elements(p.dynamicSamplers)
  {
    BlockCallsCover(p.blockOrder);
    SamplerCallsCover(p.dynamicSamplers);
    CallbackCallsBindNothing(Invocations(p.bindCallback));
    CallbackCallsBindNothing(Invocations(p.unbindCallback));
    var b1 := [UseProgram(p.id)] + BlockCalls(p.blockOrder, true);
    var b2 := b1 + SamplerCalls(p.dynamicSamplers, true);
    var b3 := b2 + CallbackCalls(Invocations(p.bindCallback));
    CoverConcat([UseProgram(p.id)], BlockCalls(p.blockOrder, true));
    CoverConcat(b1, SamplerCalls(p.dynamicSamplers, true));
    CoverConcat(b2, CallbackCalls(Invocations(p.bindCallback)));
    CoverConcat(b3, [ApplyUniforms]);
    var u1 := CallbackCalls(Invocations(p.unbindCallback)) + SamplerCalls(p.dynamicSamplers, false);
    var u2 := u1 + BlockCalls(p.blockOrder, false);
    CoverConcat(CallbackCalls(Invocations(p.unbindCallback)), SamplerCalls(p.dynamicSamplers, false));
    CoverConcat(u1, BlockCalls(p.blockOrder, false));
    CoverConcat(u2, [UseProgram(0)]);
  }

  /**
   * A program's life through the reload handler: it binds only once reloaded, and a prepare
   * while bound unbinds it and leaves it unlinked, so the next bind does nothing.
   */
  method Lifecycle(parts: ProgramParts, glId: int, staticOrder: seq<int>, nameOrder: seq<string>, blockOrder: seq<string>)
    returns (beforeReload: seq<GlCall>, afterReload: seq<GlCall>, prepared: seq<GlCall>, afterPrepare: seq<GlCall>)
    requires Injective(parts.samplerIds) && Enumerates(nameOrder, parts.samplerIds)
    requires Distinct(staticOrder) && forall i :: i in staticOrder <==> i in parts.staticSamplers
    requires forall i :: i in parts.staticSamplers ==> i in parts.samplerIds.Values
    requires Distinct(blockOrder) && forall b :: b in blockOrder <==> b in parts.uniformBuffers
    ensures beforeReload == [] && afterPrepare == []
    ensures afterReload != [] && afterReload[0] == UseProgram(glId)
    ensures prepared != [] && prepared[|prepared| - 1] == UseProgram(0)
  {
    var p := new ShaderProgram(parts, glId, false, staticOrder, nameOrder, blockOrder);
    beforeReload := p.Bind();
    p.Reload();
    afterReload := p.Bind();
    prepared := p.Prepare();
    afterPrepare := p.Bind();
  }

  /** With the name checked first, an unknown sampler name no longer reaches sampler 0. */
  method UnknownSamplerName(parts: ProgramParts, glId: int, nameOrder: seq<string>, blockOrder: seq<string>, name: string)
    returns (asWritten: Result<(), string>, checked: Result<(), string>, retargeted: Sampler)
    requires Injective(parts.samplerIds) && Enumerates(nameOrder, parts.samplerIds)
    requires parts.staticSamplers == map[]
    requires Distinct(blockOrder) && forall b :: b in blockOrder <==> b in parts.uniformBuffers
    requires 0 in parts.samplerIds.Values && name !in parts.samplerIds
    ensures asWritten.Ok? && retargeted.Dynamic? && retargeted.id == 0 && retargeted.texture == Fixed(7)
    ensures checked.Err?
  {
    var p := new ShaderProgram(parts, glId, false, [], nameOrder, blockOrder);
    var n :| n in parts.samplerIds && parts.samplerIds[n] == 0;
    assert p.samplers[0] == SamplerFor(p.samplerIds, parts.staticSamplers, false, n);
    checked := p.SetSamplerChecked(name, 7);
    asWritten := p.SetSampler(name, 7);
    retargeted := p.samplers[0];
  }
}
