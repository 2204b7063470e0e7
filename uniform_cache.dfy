/**
 * A uniform cache (DefaultUniformCache and the typed getters of UniformCache): an insertion-ordered
 * map from names to uniforms that applies, uploads or invalidates all of them at once.
 *
 * The LinkedHashMap becomes the parallel sequences `names` and `uniforms` in insertion order.
 * The program's uniform locations are a function passed in; the buffer's offset table and the
 * address of the mapped uniform buffer are parameters.
 */
module UniformCaches {
  import opened JavaLang
  import opened Wrappers
  import opened UniformTypes
  import opened Uniforms
  import HashUtils

  /** The pushes a pass over uniforms in these states emits: one per dirty uniform, in order. */
  function Pushes(states: seq<UniformState>, targets: seq<int>): (r: seq<Push>)
    requires |states| == |targets|
    ensures |r| <= |states|
    decreases |states|
  {
    if states == [] then []
    else
      (if states[0].requiresUpdate then [Push(targets[0], states[0].value)] else [])
      + Pushes(states[1..], targets[1..])
  }

  lemma {:induction false} PushesAppend(states: seq<UniformState>, targets: seq<int>, s: UniformState, t: int)
    requires |states| == |targets|
    ensures Pushes(states + [s], targets + [t])
            == Pushes(states, targets) + (if s.requiresUpdate then [Push(t, s.value)] else [])
    decreases |states|
  {
    if states == [] {
      assert [s][1..] == [] && [t][1..] == [];
    } else {
      assert (states + [s])[1..] == states[1..] + [s];
      assert (targets + [t])[1..] == targets[1..] + [t];
      PushesAppend(states[1..], targets[1..], s, t);
    }
  }

  /** Every dirty uniform is pushed to its own target with its current value, and nothing else. */
  lemma {:induction false} PushesAreTheDirtyUniforms(states: seq<UniformState>, targets: seq<int>, p: Push)
    requires |states| == |targets|
    ensures p in Pushes(states, targets) <==>
            exists i :: 0 <= i < |states| && states[i].requiresUpdate && p == Push(targets[i], states[i].value)
    decreases |states|
  {
    if states != [] {
      PushesAreTheDirtyUniforms(states[1..], targets[1..], p);
      if p in Pushes(states[1..], targets[1..]) {
        var i :| 0 <= i < |states[1..]| && states[1..][i].requiresUpdate
                 && p == Push(targets[1..][i], states[1..][i].value);
        assert states[i + 1].requiresUpdate && p == Push(targets[i + 1], states[i + 1].value);
      }
      if exists i :: 0 <= i < |states| && states[i].requiresUpdate && p == Push(targets[i], states[i].value) {
        var i :| 0 <= i < |states| && states[i].requiresUpdate && p == Push(targets[i], states[i].value);
        if i > 0 {
          assert states[1..][i - 1] == states[i] && targets[1..][i - 1] == targets[i];
        }
      }
    }
  }

  /** A pass over uniforms that are all clean pushes nothing. */
  lemma {:induction false} CleanPushesNothing(states: seq<UniformState>, targets: seq<int>)
    requires |states| == |targets|
    requires forall i :: 0 <= i < |states| ==> !states[i].requiresUpdate
    ensures Pushes(states, targets) == []
    decreases |states|
  {
    if states != [] {
      CleanPushesNothing(states[1..], targets[1..]);
    }
  }

  class UniformCache {
    const names: seq<string>
    const uniforms: seq<Uniform>

    /** Each key is its uniform's name; names and uniform objects are distinct. */
    ghost predicate Valid()
    {
      && |names| == |uniforms|
      && (forall i :: 0 <= i < |uniforms| ==> uniforms[i].name == names[i])
      && (forall i, j :: 0 <= i < j < |names| ==> names[i] != names[j])
      && (forall i, j :: 0 <= i < j < |uniforms| ==> uniforms[i] != uniforms[j])
    }

    constructor (names: seq<string>, uniforms: seq<Uniform>)
      requires |names| == |uniforms|
      requires forall i :: 0 <= i < |uniforms| ==> uniforms[i].name == names[i]
      requires forall i, j :: 0 <= i < j < |names| ==> names[i] != names[j]
      ensures this.names == names && this.uniforms == uniforms
      ensures Valid()
    {
      this.names := names;
      this.uniforms := uniforms;
      new;
      forall i, j | 0 <= i < j < |uniforms|
        ensures uniforms[i] != uniforms[j]
      {
        assert uniforms[i].name != uniforms[j].name;
      }
    }

    /** The states of the uniforms, in insertion order. */
    function States(): (r: seq<UniformState>)
      reads uniforms
      ensures |r| == |uniforms|
      ensures forall i :: 0 <= i < |uniforms| ==> r[i] == uniforms[i].State()
    {
      seq(|uniforms|, i reads uniforms requires 0 <= i < |uniforms| => uniforms[i].State())
    }

    /** applyAll: each uniform is applied, in insertion order, at its location in the program. */
    method ApplyAll(location: string -> Int32) returns (calls: seq<Push>)
      requires Valid()
      modifies set u | u in uniforms
      ensures forall i :: 0 <= i < |uniforms| ==> uniforms[i].State() == FlushSpec(old(uniforms[i].State())).0
      ensures calls == Pushes(old(States()), seq(|uniforms|, i requires 0 <= i < |uniforms| => location(names[i]) as int))
    {
      ghost var before := States();
      ghost var targets := seq(|uniforms|, i requires 0 <= i < |uniforms| => location(names[i]) as int);
      calls := [];
      var k := 0;
      while k < |uniforms|
        invariant 0 <= k <= |uniforms|
        invariant forall i :: 0 <= i < k ==> uniforms[i].State() == FlushSpec(before[i]).0
        invariant forall i :: k <= i < |uniforms| ==> uniforms[i].State() == before[i]
        invariant calls == Pushes(before[..k], targets[..k])
      {
        var call := uniforms[k].Apply(location(names[k]));
        PushesAppend(before[..k], targets[..k], before[k], targets[k]);
        assert before[..k + 1] == before[..k] + [before[k]];
        assert targets[..k + 1] == targets[..k] + [targets[k]];
        if call.Some? {
          calls := calls + [call.value];
        }
        k := k + 1;
      }
      assert before[..k] == before && targets[..k] == targets;
    }

    /**
     * uploadAll: each uniform is uploaded, in insertion order, at the mapped buffer's address
     * plus the buffer's offset for the uniform's name (the buffer's offset table is passed in).
     */
    method UploadAll(address: int, fieldOffsets: map<string, int>) returns (writes: seq<Push>)
      requires Valid()
      modifies set u | u in uniforms
      ensures forall i :: 0 <= i < |uniforms| ==> uniforms[i].State() == FlushSpec(old(uniforms[i].State())).0
      ensures writes == Pushes(old(States()), seq(|uniforms|, i requires 0 <= i < |uniforms| => address + OffsetOrZero(fieldOffsets, names[i])))
    {
      ghost var before := States();
      ghost var targets := seq(|uniforms|, i requires 0 <= i < |uniforms| => address + OffsetOrZero(fieldOffsets, names[i]));
      writes := [];
      var k := 0;
      while k < |uniforms|
        invariant 0 <= k <= |uniforms|
        invariant forall i :: 0 <= i < k ==> uniforms[i].State() == FlushSpec(before[i]).0
        invariant forall i :: k <= i < |uniforms| ==> uniforms[i].State() == before[i]
        invariant writes == Pushes(before[..k], targets[..k])
      {
        var write := uniforms[k].Upload(address + OffsetOrZero(fieldOffsets, uniforms[k].GetName()));
        PushesAppend(before[..k], targets[..k], before[k], targets[k]);
        assert before[..k + 1] == before[..k] + [before[k]];
        assert targets[..k + 1] == targets[..k] + [targets[k]];
        if write.Some? {
          writes := writes + [write.value];
        }
        k := k + 1;
      }
      assert before[..k] == before && targets[..k] == targets;
    }

    /** updateAll: every uniform is marked dirty. */
    method UpdateAll()
      requires Valid()
      modifies set u | u in uniforms
      ensures forall i :: 0 <= i < |uniforms| ==> uniforms[i].State() == NotifySpec(old(uniforms[i].State()))
    {
      ghost var before := States();
      var k := 0;
      while k < |uniforms|
        invariant 0 <= k <= |uniforms|
        invariant forall i :: 0 <= i < k ==> uniforms[i].State() == NotifySpec(before[i])
        invariant forall i :: k <= i < |uniforms| ==> uniforms[i].State() == before[i]
      {
        uniforms[k].NotifyUpdate();
        k := k + 1;
      }
    }

    /** get(name): the uniform stored under the name; a missing name is a NullPointerException. */
    function Get(name: string): (r: Result<Uniform, string>)
      requires Valid()
      ensures r.Ok? <==> name in names
      ensures r.Ok? ==> r.value in uniforms && r.value.name == name
      ensures r.Err? ==> r.error == "NullPointerException"
    {
      if name in names then
        var i := IndexOfName(names, name);
        Ok(uniforms[i])
      else Err("NullPointerException")
    }

    /**
     * The typed getters (getInt, getLong, …, getDMat4): get(name), then an IllegalStateException
     * unless the uniform has the getter's type.
     */
    function GetOfType(name: string, expected: UniformType): (r: Result<Uniform, string>)
      requires Valid()
      ensures r.Ok? <==> name in names && Get(name).value.utype == expected
      ensures r.Ok? ==> r.value.name == name && r.value.utype == expected
      ensures name !in names ==> r == Err("NullPointerException")
      ensures name in names && Get(name).value.utype != expected ==>
                r == Err("Uniform " + name + " is not a " + GetterWord(expected) + " uniform")
    {
      var u :- Get(name);
      if u.utype != expected then Err("Uniform " + name + " is not a " + GetterWord(expected) + " uniform")
      else Ok(u)
    }

    /** hashCode = HashUtils.hash(uniforms): the key set's hash combined with the values' hash. */
    method HashCode(identityHash: ScalarType -> Int32, emptyKeysHash: Int32, emptyValuesHash: Int32) returns (h: Int32)
      requires Valid()
      ensures h == HashUtils.Combine(
                     HashUtils.CollectionHash(NameHashes(names), emptyKeysHash),
                     HashUtils.CollectionHash(UniformHashes(uniforms, identityHash), emptyValuesHash))
    {
      h := HashUtils.HashMap(NameHashes(names), UniformHashes(uniforms, identityHash), emptyKeysHash, emptyValuesHash);
    }
  }

  /** The word a typed getter's message uses for its type: the constant's name in lower case. */
  function GetterWord(t: UniformType): string
  {
    match t
    case Scalar(s) => (match s case INT => "int" case LONG => "long" case FLOAT => "float" case DOUBLE => "double")
    case Vector(v) =>
      (match v
       case VEC2 => "vec2" case VEC3 => "vec3" case VEC4 => "vec4"
       case IVEC2 => "ivec2" case IVEC3 => "ivec3" case IVEC4 => "ivec4"
       case DVEC2 => "dvec2" case DVEC3 => "dvec3" case DVEC4 => "dvec4")
    case Matrix(m) =>
      (match m
       case MAT2 => "mat2" case MAT3 => "mat3" case MAT4 => "mat4"
       case DMAT2 => "dmat2" case DMAT3 => "dmat3" case DMAT4 => "dmat4")
  }

  /** A buffer's getFieldOffset: the offset recorded for the name, or 0 when there is none. */
  function OffsetOrZero(fieldOffsets: map<string, int>, name: string): int
  {
    if name in fieldOffsets then fieldOffsets[name] else 0
  }

  /** The position of a name that occurs in a list of names. */
  function IndexOfName(names: seq<string>, name: string): (i: nat)
    requires name in names
    ensures i < |names| && names[i] == name
  {
    if names[0] == name then 0 else 1 + IndexOfName(names[1..], name)
  }

  function NameHashes(names: seq<string>): (r: seq<Int32>)
    ensures |r| == |names|
    ensures forall i :: 0 <= i < |names| ==> r[i] == StringHash(names[i])
  {
    seq(|names|, i requires 0 <= i < |names| => StringHash(names[i]))
  }

  /** Uniform hashes depend only on names and types, never on values or dirty flags. */
  function UniformHashes(uniforms: seq<Uniform>, identityHash: ScalarType -> Int32): (r: seq<Int32>)
    ensures |r| == |uniforms|
    ensures forall i :: 0 <= i < |uniforms| ==> r[i] == uniforms[i].HashCode(identityHash)
  {
    seq(|uniforms|, i requires 0 <= i < |uniforms| => uniforms[i].HashCode(identityHash))
  }

  /** After an applyAll (or uploadAll) every uniform is clean, so a second pass pushes nothing. */
  lemma SecondPassPushesNothing(states: seq<UniformState>, targets: seq<int>)
    requires |states| == |targets|
    ensures Pushes(seq(|states|, i requires 0 <= i < |states| => FlushSpec(states[i]).0), targets) == []
  {
    CleanPushesNothing(seq(|states|, i requires 0 <= i < |states| => FlushSpec(states[i]).0), targets);
  }

  /** After updateAll every uniform is dirty, so the next pass pushes every uniform's value. */
  lemma {:induction false} AfterUpdateAllEveryUniformIsPushed(states: seq<UniformState>, targets: seq<int>)
    requires |states| == |targets|
    ensures Pushes(seq(|states|, i requires 0 <= i < |states| => NotifySpec(states[i])), targets)
            == seq(|states|, i requires 0 <= i < |states| => Push(targets[i], states[i].value))
    decreases |states|
  {
    var dirty := seq(|states|, i requires 0 <= i < |states| => NotifySpec(states[i]));
    if states != [] {
      AfterUpdateAllEveryUniformIsPushed(states[1..], targets[1..]);
      assert dirty[1..] == seq(|states[1..]|, i requires 0 <= i < |states[1..]| => NotifySpec(states[1..][i]));
    }
  }
}
