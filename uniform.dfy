/**
 * Uniforms and their dirty flag (AbstractUniform, DefaultLongUniform).
 *
 * A uniform remembers whether its value changed since it was last pushed to the GPU. setLong
 * raises the flag only when the value really changes; apply (a glUniform call) and upload (a
 * write into a mapped uniform buffer) push the value only when the flag is up, and lower it.
 * The GL call and the memory write are modelled as the `Push` they return.
 */
module Uniforms {
  import opened JavaLang
  import opened Wrappers
  import opened UniformTypes
  import HashUtils

  /** The observable state of a uniform: its value and its dirty flag. */
  datatype UniformState = UniformState(value: Int64, requiresUpdate: bool)

  /** A value pushed to a target: a uniform location (apply) or a memory address (upload). */
  datatype Push = Push(target: int, value: Int64)

  /** setLong: an equal value changes nothing; a new value is stored and marks the uniform dirty. */
  function SetLongSpec(s: UniformState, v: Int64): (r: UniformState)
    ensures r.value == v
    ensures r.requiresUpdate == (s.requiresUpdate || s.value != v)
  {
    if s.value == v then s else UniformState(v, true)
  }

  /** apply / upload: nothing when clean; otherwise the value is pushed and the flag cleared. */
  function FlushSpec(s: UniformState): (r: (UniformState, Option<Int64>))
    ensures !r.0.requiresUpdate && r.0.value == s.value
    ensures r.1 == (if s.requiresUpdate then Some(s.value) else None)
  {
    if !s.requiresUpdate then (s, None) else (s.(requiresUpdate := false), Some(s.value))
  }

  /** notifyUpdate: raise the flag. */
  function NotifySpec(s: UniformState): UniformState
  {
    s.(requiresUpdate := true)
  }

  class Uniform {
    const name: string
    const utype: UniformType
    var value: Int64
    var requiresUpdate: bool

    function State(): UniformState
      reads this
    {
      UniformState(value, requiresUpdate)
    }

    /**
     * A uniform of some type with its initial value; it starts clean. DefaultLongUniform is
     * built through NewLong below; the other uniform classes share this shape.
     */
    constructor (name: string, utype: UniformType, initial: Int64)
      ensures this.name == name && this.utype == utype
      ensures State() == UniformState(initial, false)
    {
      this.name := name;
      this.utype := utype;
      value := initial;
      requiresUpdate := false;
    }

    /** DefaultLongUniform(name, defaultValue): fails unless the default is a Number. */
    static method NewLong(name: string, defaultValue: JavaObject) returns (r: Result<Uniform, string>)
      ensures r.Ok? <==> defaultValue.Number?
      ensures r.Ok? ==> fresh(r.value) && r.value.name == name && r.value.utype == Scalar(LONG)
                        && r.value.State() == UniformState(defaultValue.longValue, false)
      ensures r.Err? ==> r.error == "Default value is not a number"
    {
      if !defaultValue.Number? {
        return Err("Default value is not a number");
      }
      var u := new Uniform(name, Scalar(LONG), defaultValue.longValue);
      return Ok(u);
    }

    /** getName. */
    function GetName(): string
    {
      name
    }

    /** requiresUpdate(). */
    function RequiresUpdate(): bool
      reads this
    {
      requiresUpdate
    }

    /** getLong. */
    function GetLong(): Int64
      reads this
    {
      value
    }

    method SetLong(v: Int64)
      modifies this
      ensures State() == SetLongSpec(old(State()), v)
    {
      if value == v {
        return;
      }
      value := v;
      requiresUpdate := true;
    }

    method NotifyUpdate()
      modifies this
      ensures State() == NotifySpec(old(State()))
    {
      requiresUpdate := true;
    }

    /** apply(program): glUniform1i64ARB(location of the name, value) when dirty. */
    method Apply(location: Int32) returns (call: Option<Push>)
      modifies this
      ensures State() == FlushSpec(old(State())).0
      ensures call == (match FlushSpec(old(State())).1 case Some(v) => Some(Push(location, v)) case None => None)
    {
      if !requiresUpdate {
        return None;
      }
      call := Some(Push(location, value));
      requiresUpdate := false;
    }

    /** upload(address): memPutLong(address, value) when dirty. */
    method Upload(address: int) returns (write: Option<Push>)
      modifies this
      ensures State() == FlushSpec(old(State())).0
      ensures write == (match FlushSpec(old(State())).1 case Some(v) => Some(Push(address, v)) case None => None)
    {
      if !requiresUpdate {
        return None;
      }
      write := Some(Push(address, value));
      requiresUpdate := false;
    }

    /** hashCode = combine(name.hashCode(), getType().getHash()). */
    function HashCode(identityHash: ScalarType -> Int32): Int32
    {
      HashUtils.Combine(StringHash(name), Hash(utype, identityHash))
    }
  }

  /**
   * hashCode tells uniforms apart by name within one type, and by type for one name when both
   * types are scalars.
   */
  lemma HashCodeSeparates(u1: Uniform, u2: Uniform, identityHash: ScalarType -> Int32)
    ensures u1.utype == u2.utype && StringHash(u1.name) != StringHash(u2.name) ==>
              u1.HashCode(identityHash) != u2.HashCode(identityHash)
    ensures u1.name == u2.name && u1.utype.Scalar? && u2.utype.Scalar? && u1.utype != u2.utype ==>
              u1.HashCode(identityHash) != u2.HashCode(identityHash)
  {
    var h1, h2 := Hash(u1.utype, identityHash), Hash(u2.utype, identityHash);
    if u1.utype == u2.utype && u1.HashCode(identityHash) == u2.HashCode(identityHash) {
      HashUtils.CombineInjectiveLeft(StringHash(u1.name), StringHash(u2.name), h1);
    }
    if u1.name == u2.name && u1.utype.Scalar? && u2.utype.Scalar? && u1.utype != u2.utype {
      ScalarHashesDiffer(u1.utype.scalar, u2.utype.scalar);
      if u1.HashCode(identityHash) == u2.HashCode(identityHash) {
        HashUtils.CombineInjectiveRight(StringHash(u1.name), h1, h2);
      }
    }
  }

  // ---------------------------------------------------------------------------------------------
  // The dirty flag is sound

  /** One step a client can take on a uniform. */
  datatype Op = SetLong(v: Int64) | NotifyUpdate | Flush

  /**
   * Runs some operations from state `s`, where `pushed` is the value the GPU last received.
   * Returns the final state and the value the GPU holds afterwards.
   */
  function Run(s: UniformState, pushed: Int64, ops: seq<Op>): (UniformState, Int64)
    decreases |ops|
  {
    if ops == [] then (s, pushed)
    else
      match ops[0]
      case SetLong(v) => Run(SetLongSpec(s, v), pushed, ops[1..])
      case NotifyUpdate => Run(NotifySpec(s), pushed, ops[1..])
      case Flush =>
        var (s', out) := FlushSpec(s);
        Run(s', if out.Some? then out.value else pushed, ops[1..])
  }

  /** A clean uniform's value is the one the GPU holds. */
  predicate Synced(s: UniformState, pushed: Int64)
  {
    !s.requiresUpdate ==> pushed == s.value
  }

  /**
   * Whatever a client does, a clean uniform never holds a value the GPU has not received:
   * setLong with an equal value may skip the flag because the GPU already has that value.
   */
  lemma {:induction false} RunKeepsSynced(s: UniformState, pushed: Int64, ops: seq<Op>)
    requires Synced(s, pushed)
    ensures Synced(Run(s, pushed, ops).0, Run(s, pushed, ops).1)
    decreases |ops|
  {
    if ops != [] {
      match ops[0]
      case SetLong(v) => RunKeepsSynced(SetLongSpec(s, v), pushed, ops[1..]);
      case NotifyUpdate => RunKeepsSynced(NotifySpec(s), pushed, ops[1..]);
      case Flush =>
        var (s', out) := FlushSpec(s);
        RunKeepsSynced(s', if out.Some? then out.value else pushed, ops[1..]);
    }
  }

  /** After any run that ends with a flush, the GPU holds the uniform's current value. */
  lemma {:induction false} FlushDelivers(s: UniformState, pushed: Int64, ops: seq<Op>)
    requires Synced(s, pushed)
    ensures var (s', p') := Run(s, pushed, ops + [Flush]); p' == s'.value && !s'.requiresUpdate
    decreases |ops|
  {
    if ops == [] {
      assert [Flush][1..] == [];
    } else {
      assert (ops + [Flush])[1..] == ops[1..] + [Flush];
      match ops[0]
      case SetLong(v) => FlushDelivers(SetLongSpec(s, v), pushed, ops[1..]);
      case NotifyUpdate => FlushDelivers(NotifySpec(s), pushed, ops[1..]);
      case Flush =>
        var (s', out) := FlushSpec(s);
        FlushDelivers(s', if out.Some? then out.value else pushed, ops[1..]);
    }
  }

  /** Every scalar type's default value is a Number, so create(name) of LONG never fails. */
  lemma ScalarDefaultsAreNumbers(s: ScalarType)
    ensures DefaultValue(Scalar(s)).Number? && DefaultValue(Scalar(s)).longValue == 0
  {
  }
}
