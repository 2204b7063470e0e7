/**
 * DefaultShaderProgramBuilder: collects the stages, defines, constants, samplers, uniforms,
 * uniform blocks and callbacks of a shader program, rejecting a name given twice, and builds
 * the program from them. A failed check (Requires.that, an IllegalStateException) is `Err`
 * with its message, and leaves the builder as it was.
 *
 * Values are kept as the text the pre-processor prints for them. A float value's text
 * (Float.toString) is passed in.
 */
module ShaderProgramBuilders {
  import opened Wrappers
  import opened JavaLang
  import opened Callbacks
  import opened ObjectQueues
  import opened UniformTypes
  import opened ShaderPreProcessor
  import opened ShaderPrograms

  /** The value of a define: define(name), define(name, boolean), define(name, int), define(name, float). */
  datatype DefineValue = Flag | BoolFlag(b: bool) | IntDefine(i: Int32) | FloatDefine(text: string)

  /** The value of a constant: constant(name, int), constant(name, float), constant(name, boolean). */
  datatype ConstantValue = IntConstant(i: Int32) | FloatConstant(text: string) | BoolConstant(b: bool)

  /** A define's stored value as printed: define(name) stores 1 and a boolean define 1 or 0. */
  function DefineText(v: DefineValue): string
  {
    match v
    case Flag => "1"
    case BoolFlag(b) => if b then "1" else "0"
    case IntDefine(i) => DecimalString(i)
    case FloatDefine(text) => text
  }

  /** A constant's stored value as printed; a boolean constant is a Boolean, printed true or false. */
  function ConstantText(v: ConstantValue): string
  {
    match v
    case IntConstant(i) => DecimalString(i)
    case FloatConstant(text) => text
    case BoolConstant(b) => if b then "true" else "false"
  }

  lemma DefineFlagValues(b: bool)
    ensures DefineText(Flag) == DefineText(BoolFlag(true)) == "1"
    ensures DefineText(BoolFlag(false)) == "0"
    ensures DefineText(BoolFlag(b)) == DefineText(IntDefine(if b then 1 else 0))
  {
    assert DecimalString(1) == "1" && DecimalString(0) == "0";
  }

  /** Sampler names map one to one onto the ids 0 .. |names|-1; `names` lists them by id. */
  ghost predicate ConsecutiveIds(samplers: map<string, int>, names: seq<string>)
  {
    && Injective(samplers)
    && (forall n :: n in samplers ==> 0 <= samplers[n] < |names|)
    && (forall i :: 0 <= i < |names| ==> names[i] in samplers && samplers[names[i]] == i)
  }

  class ShaderProgramBuilder {
    var objects: seq<nat>
    var uniformNames: seq<string>
    var uniformTypes: seq<UniformType>
    var uniformBuffers: map<string, nat>
    var constants: Entries
    var samplers: map<string, int>
    var staticSamplers: map<int, nat>
    var defines: Entries
    var format: nat
    var loader: nat
    var bindCallback: Callback
    var unbindCallback: Callback
    var currentSamplerId: nat
    /** The sampler names in the order they were declared, which is the order of their ids. */
    ghost var samplerNames: seq<string>

    ghost predicate Valid()
      reads this
    {
      && |uniformNames| == |uniformTypes|
      && Distinct(uniformNames)
      && Distinct(Keys(defines))
      && Distinct(Keys(constants))
      && ConsecutiveIds(samplers, samplerNames)
      && |samplerNames| == currentSamplerId
      && (forall i :: i in staticSamplers ==> 0 <= i < currentSamplerId)
    }

    /** A new builder: empty collections, the default vertex format and loader, identity callbacks. */
    constructor(defaultFormat: nat, defaultLoader: nat)
      ensures Valid()
      ensures objects == [] && uniformNames == [] && uniformTypes == [] && uniformBuffers == map[]
      ensures constants == [] && defines == [] && samplers == map[] && staticSamplers == map[]
      ensures format == defaultFormat && loader == defaultLoader
      ensures bindCallback == Identity && unbindCallback == Identity && currentSamplerId == 0
    {
      objects, uniformNames, uniformTypes, uniformBuffers := [], [], [], map[];
      constants, samplers, staticSamplers, defines := [], map[], map[], [];
      format, loader := defaultFormat, defaultLoader;
      bindCallback, unbindCallback := Identity, Identity;
      currentSamplerId := 0;
      samplerNames := [];
    }

    /** define (all four overloads): a repeated name fails; a new one is appended with its value. */
    method Define(name: string, value: DefineValue) returns (r: Result<(), string>)
      requires Valid()
      modifies this
      ensures Valid()
      ensures r.Err? <==> name in Keys(old(defines))
      ensures r.Err? ==> r.error == "Define '" + name + "' already exists" && defines == old(defines)
      ensures r.Ok? ==> defines == old(defines) + [(name, DefineText(value))]
      ensures Lookup(defines, name).Some?
      ensures r.Ok? ==> Lookup(defines, name) == Some(DefineText(value))
      ensures constants == old(constants) && samplers == old(samplers) && staticSamplers == old(staticSamplers)
      ensures uniformNames == old(uniformNames) && uniformTypes == old(uniformTypes) && uniformBuffers == old(uniformBuffers)
      ensures objects == old(objects) && currentSamplerId == old(currentSamplerId)
      ensures bindCallback == old(bindCallback) && unbindCallback == old(unbindCallback)
    {
      if name in Keys(defines) {
        return Err("Define '" + name + "' already exists");
      }
      AppendNewKey(defines, name, DefineText(value));
      defines := defines + [(name, DefineText(value))];
      return Ok(());
    }

    /** constant (all three overloads): a repeated name fails; a new one is appended with its value. */
    method Constant(name: string, value: ConstantValue) returns (r: Result<(), string>)
      requires Valid()
      modifies this
      ensures Valid()
      ensures r.Err? <==> name in Keys(old(constants))
      ensures r.Err? ==> r.error == "Constant '" + name + "' already exists" && constants == old(constants)
      ensures r.Ok? ==> constants == old(constants) + [(name, ConstantText(value))]
      ensures r.Ok? ==> Lookup(constants, name) == Some(ConstantText(value))
      ensures defines == old(defines) && samplers == old(samplers) && staticSamplers == old(staticSamplers)
      ensures uniformNames == old(uniformNames) && uniformTypes == old(uniformTypes) && uniformBuffers == old(uniformBuffers)
      ensures objects == old(objects) && currentSamplerId == old(currentSamplerId)
      ensures bindCallback == old(bindCallback) && unbindCallback == old(unbindCallback)
    {
      if name in Keys(constants) {
        return Err("Constant '" + name + "' already exists");
      }
      AppendNewKey(constants, name, ConstantText(value));
      constants := constants + [(name, ConstantText(value))];
      return Ok(());
    }

    /** sampler(name): a repeated name fails; a new one takes the next sampler id. */
    method Sampler(name: string) returns (r: Result<int, string>)
      requires Valid()
      modifies this
      ensures Valid()
      ensures r.Err? <==> name in old(samplers)
      ensures r.Err? ==> r.error == "Sampler '" + name + "' already exists"
      ensures r.Err? ==> samplers == old(samplers) && currentSamplerId == old(currentSamplerId)
      ensures r.Ok? ==> r.value == old(currentSamplerId) && currentSamplerId == old(currentSamplerId) + 1
      ensures r.Ok? ==> samplers == old(samplers)[name := r.value]
      ensures staticSamplers == old(staticSamplers) && defines == old(defines) && constants == old(constants)
      ensures uniformNames == old(uniformNames) && uniformTypes == old(uniformTypes) && uniformBuffers == old(uniformBuffers)
      ensures objects == old(objects)
      ensures bindCallback == old(bindCallback) && unbindCallback == old(unbindCallback)
    {
      if name in samplers {
        return Err("Sampler '" + name + "' already exists");
      }
      var id := currentSamplerId;
      currentSamplerId := currentSamplerId + 1;
      NextIdIsNew(samplers, samplerNames, name);
      samplers := samplers[name := id];
      samplerNames := samplerNames + [name];
      return Ok(id);
    }

    /** sampler(name, textureId): as sampler(name), and the id is recorded as static with its supplier. */
    method StaticSampler(name: string, supplier: nat) returns (r: Result<int, string>)
      requires Valid()
      modifies this
      ensures Valid()
      ensures r.Err? <==> name in old(samplers)
      ensures r.Err? ==> r.error == "Sampler '" + name + "' already exists"
      ensures r.Err? ==> samplers == old(samplers) && staticSamplers == old(staticSamplers)
                         && currentSamplerId == old(currentSamplerId)
      ensures r.Ok? ==> r.value == old(currentSamplerId) && currentSamplerId == old(currentSamplerId) + 1
      ensures r.Ok? ==> samplers == old(samplers)[name := r.value]
      ensures r.Ok? ==> staticSamplers == old(staticSamplers)[r.value := supplier]
      ensures defines == old(defines) && constants == old(constants)
      ensures uniformNames == old(uniformNames) && uniformTypes == old(uniformTypes) && uniformBuffers == old(uniformBuffers)
      ensures objects == old(objects)
      ensures bindCallback == old(bindCallback) && unbindCallback == old(unbindCallback)
    {
      if name in samplers {
        return Err("Sampler '" + name + "' already exists");
      }
      var id := currentSamplerId;
      currentSamplerId := currentSamplerId + 1;
      NextIdIsNew(samplers, samplerNames, name);
      samplers := samplers[name := id];
      samplerNames := samplerNames + [name];
      staticSamplers := staticSamplers[id := supplier];
      return Ok(id);
    }

    /** format: replaces the vertex format. */
    method Format(f: nat)
      modifies this
      ensures format == f && loader == old(loader) && objects == old(objects)
      ensures unchanged(this`samplers) && unchanged(this`defines) && unchanged(this`constants)
      ensures unchanged(this`uniformNames) && unchanged(this`uniformTypes) && unchanged(this`uniformBuffers)
      ensures unchanged(this`staticSamplers) && unchanged(this`currentSamplerId)
      ensures unchanged(this`bindCallback) && unchanged(this`unbindCallback)
    {
      format := f;
    }

    /** stage: the built shader object is appended. */
    method Stage(obj: nat)
      modifies this
      ensures objects == old(objects) + [obj] && format == old(format) && loader == old(loader)
      ensures unchanged(this`samplers) && unchanged(this`defines) && unchanged(this`constants)
      ensures unchanged(this`uniformNames) && unchanged(this`uniformTypes) && unchanged(this`uniformBuffers)
      ensures unchanged(this`staticSamplers) && unchanged(this`currentSamplerId)
      ensures unchanged(this`bindCallback) && unchanged(this`unbindCallback)
    {
      objects := objects + [obj];
    }

    /** uniform: a repeated name fails, then an unsupported type; otherwise the uniform is appended. */
    method Uniform(name: string, t: UniformType, caps: GlCapabilities) returns (r: Result<(), string>)
      requires Valid()
      modifies this
      ensures Valid()
      ensures r.Err? <==> name in old(uniformNames) || !IsSupported(t, caps)
      ensures name in old(uniformNames) ==> r == Err("Uniform '" + name + "' is already defined")
      ensures name !in old(uniformNames) && !IsSupported(t, caps) ==> r == Err("Unsupported uniform type")
      ensures r.Ok? ==> uniformNames == old(uniformNames) + [name] && uniformTypes == old(uniformTypes) + [t]
      ensures r.Err? ==> uniformNames == old(uniformNames) && uniformTypes == old(uniformTypes)
      ensures samplers == old(samplers) && staticSamplers == old(staticSamplers) && currentSamplerId == old(currentSamplerId)
      ensures defines == old(defines) && constants == old(constants) && uniformBuffers == old(uniformBuffers)
      ensures objects == old(objects)
      ensures bindCallback == old(bindCallback) && unbindCallback == old(unbindCallback)
    {
      if name in uniformNames {
        return Err("Uniform '" + name + "' is already defined");
      }
      if !IsSupported(t, caps) {
        return Err("Unsupported uniform type");
      }
      uniformNames := uniformNames + [name];
      uniformTypes := uniformTypes + [t];
      return Ok(());
    }

    /** uniforms: a repeated block name fails; otherwise the buffer is recorded under the name. */
    method Uniforms(name: string, buffer: nat) returns (r: Result<(), string>)
      requires Valid()
      modifies this
      ensures Valid()
      ensures r.Err? <==> name in old(uniformBuffers)
      ensures r.Err? ==> r.error == "Uniform block '" + name + "' is already defined"
                         && uniformBuffers == old(uniformBuffers)
      ensures r.Ok? ==> uniformBuffers == old(uniformBuffers)[name := buffer]
      ensures samplers == old(samplers) && staticSamplers == old(staticSamplers) && currentSamplerId == old(currentSamplerId)
      ensures defines == old(defines) && constants == old(constants)
      ensures uniformNames == old(uniformNames) && uniformTypes == old(uniformTypes)
      ensures objects == old(objects)
      ensures bindCallback == old(bindCallback) && unbindCallback == old(unbindCallback)
    {
      if name in uniformBuffers {
        return Err("Uniform block '" + name + "' is already defined");
      }
      uniformBuffers := uniformBuffers[name := buffer];
      return Ok(());
    }

    /** globalUniforms: the global uniform buffer as the block "Globals". */
    method GlobalUniforms(globals: nat) returns (r: Result<(), string>)
      requires Valid()
      modifies this
      ensures Valid()
      ensures r.Err? <==> "Globals" in old(uniformBuffers)
      ensures r.Ok? ==> uniformBuffers == old(uniformBuffers)["Globals" := globals]
      ensures r.Err? ==> uniformBuffers == old(uniformBuffers)
      ensures samplers == old(samplers) && staticSamplers == old(staticSamplers) && currentSamplerId == old(currentSamplerId)
      ensures defines == old(defines) && constants == old(constants)
      ensures uniformNames == old(uniformNames) && uniformTypes == old(uniformTypes)
      ensures objects == old(objects)
      ensures bindCallback == old(bindCallback) && unbindCallback == old(unbindCallback)
    {
      r := Uniforms("Globals", globals);
    }

    /** onBind: the first callback replaces the identity, later ones run after it. */
    method OnBind(callback: nat)
      modifies this
      ensures bindCallback == Register(old(bindCallback), callback)
      ensures Invocations(bindCallback) == Invocations(old(bindCallback)) + [callback]
      ensures unchanged(this`unbindCallback) && unchanged(this`samplers) && unchanged(this`defines)
      ensures unchanged(this`constants) && unchanged(this`uniformNames) && unchanged(this`uniformTypes)
      ensures unchanged(this`uniformBuffers) && unchanged(this`staticSamplers) && unchanged(this`currentSamplerId)
      ensures unchanged(this`objects) && unchanged(this`format) && unchanged(this`loader)
    {
      bindCallback := Register(bindCallback, callback);
    }

    /** onUnbind: as onBind, for the unbind callback. */
    method OnUnbind(callback: nat)
      modifies this
      ensures unbindCallback == Register(old(unbindCallback), callback)
      ensures Invocations(unbindCallback) == Invocations(old(unbindCallback)) + [callback]
      ensures unchanged(this`bindCallback) && unchanged(this`samplers) && unchanged(this`defines)
      ensures unchanged(this`constants) && unchanged(this`uniformNames) && unchanged(this`uniformTypes)
      ensures unchanged(this`uniformBuffers) && unchanged(this`staticSamplers) && unchanged(this`currentSamplerId)
      ensures unchanged(this`objects) && unchanged(this`format) && unchanged(this`loader)
    {
      unbindCallback := Register(unbindCallback, callback);
    }

    /** loader: replaces the shader loader supplier. */
    method Loader(l: nat)
      modifies this
      ensures loader == l && format == old(format) && objects == old(objects)
      ensures unchanged(this`samplers) && unchanged(this`defines) && unchanged(this`constants)
      ensures unchanged(this`uniformNames) && unchanged(this`uniformTypes) && unchanged(this`uniformBuffers)
      ensures unchanged(this`staticSamplers) && unchanged(this`currentSamplerId)
      ensures unchanged(this`bindCallback) && unchanged(this`unbindCallback)
    {
      loader := l;
    }

    /** What build hands to the program's constructor. */
    function Parts(): (p: ProgramParts)
      reads this
      ensures p.samplerIds == samplers && p.staticSamplers == staticSamplers
    {
      ProgramParts(objects, uniformNames, uniformTypes, uniformBuffers, bindCallback, unbindCallback,
                   samplers, constants, defines, staticSamplers)
    }

    /**
     * build: a new program over the collected parts. `glId` is what glCreateProgram returns; the
     * orders are the iteration orders of the static-sampler, sampler and uniform-block maps.
     */
    method Build(glId: int, bindless: bool, staticOrder: seq<int>, nameOrder: seq<string>, blockOrder: seq<string>)
      returns (program: ShaderProgram)
      requires Valid()
      requires Distinct(staticOrder) && forall i :: i in staticOrder <==> i in staticSamplers
      requires Enumerates(nameOrder, samplers)
      requires Distinct(blockOrder) && forall b :: b in blockOrder <==> b in uniformBuffers
      ensures fresh(program)
      ensures program.id == glId && program.samplerIds == samplers && program.objects == objects
      ensures program.defines == defines && program.constants == constants
      ensures program.uniformNames == uniformNames && program.uniformTypes == uniformTypes
      ensures program.bindCallback == bindCallback && program.unbindCallback == unbindCallback
      ensures forall i :: i in program.samplers <==> 0 <= i < currentSamplerId
      ensures forall n :: n in samplers ==>
                program.samplers[samplers[n]] == SamplerFor(samplers, staticSamplers, bindless, n)
      ensures !program.isLinked && !program.isBound
    {
      forall i | i in staticSamplers
        ensures i in samplers.Values
      {
        assert samplers[samplerNames[i]] == i;
      }
      program := new ShaderProgram(Parts(), glId, bindless, staticOrder, nameOrder, blockOrder);
      forall i | 0 <= i < currentSamplerId
        ensures i in program.samplers
      {
        assert samplers[samplerNames[i]] == i;
      }
    }
  }

  /** A key not yet in the map: LinkedHashMap.put appends it. */
  lemma AppendNewKey(m: Entries, key: string, value: string)
    requires Distinct(Keys(m)) && key !in Keys(m)
    ensures Put(m, key, value) == m + [(key, value)]
    ensures Keys(m + [(key, value)]) == Keys(m) + [key]
    ensures Distinct(Keys(m + [(key, value)]))
    ensures Lookup(m + [(key, value)], key) == Some(value)
  {
    PutAppends(m, key, value);
    KeysAppend(m, key, value);
  }

  lemma {:induction false} PutAppends(m: Entries, key: string, value: string)
    requires key !in Keys(m)
    ensures Put(m, key, value) == m + [(key, value)]
  {
    if m != [] {
      assert Keys(m) == [m[0].0] + Keys(m[1..]);
      PutAppends(m[1..], key, value);
      assert m == [m[0]] + m[1..];
    }
  }

  lemma {:induction false} KeysAppend(m: Entries, key: string, value: string)
    ensures Keys(m + [(key, value)]) == Keys(m) + [key]
  {
    if m != [] {
      KeysAppend(m[1..], key, value);
      assert (m + [(key, value)])[1..] == m[1..] + [(key, value)];
    }
  }

  /** Giving a new name the next id keeps names and ids consecutive. */
  lemma NextIdIsNew(samplers: map<string, int>, names: seq<string>, name: string)
    requires ConsecutiveIds(samplers, names) && name !in samplers
    ensures ConsecutiveIds(samplers[name := |names|], names + [name])
  {
  }

  /** Two samplers in a row take ids 0 and 1, and a repeated name fails without taking an id. */
  method SamplerIdsExample(f: nat, l: nat) returns (a: Result<int, string>, b: Result<int, string>, c: Result<int, string>)
    ensures a == Ok(0) && b == Ok(1)
    ensures c == Err("Sampler 'albedo' already exists")
  {
    var builder := new ShaderProgramBuilder(f, l);
    a := builder.Sampler("albedo");
    b := builder.StaticSampler("lightmap", 3);
    c := builder.Sampler("albedo");
    assert "Sampler '" + "albedo" + "' already exists" == "Sampler 'albedo' already exists";
  }
}
