/**
 * Bind and unbind callbacks as the builders collect them.
 *
 * Each builder starts from a private identity callback. The first registered callback replaces
 * it; each later one is chained after the current callback with `andThen`. A user callback is
 * known here only by an identifier, and a callback is judged by the user callbacks it runs,
 * in order.
 */
module Callbacks {

  datatype Callback = Identity | User(id: nat) | AndThen(first: Callback, next: nat)

  /** The user callbacks that running `cb` invokes, in order. */
  function Invocations(cb: Callback): seq<nat>
  {
    match cb
    case Identity => []
    case User(id) => [id]
    case AndThen(first, next) => Invocations(first) + [next]
  }

  /** onBind / onUnbind: replace the identity callback, or chain after the current one. */
  function Register(cb: Callback, id: nat): (r: Callback)
    ensures Invocations(r) == Invocations(cb) + [id]
    ensures cb == Identity ==> r == User(id)
  {
    if cb == Identity then User(id) else AndThen(cb, id)
  }

  /** Registering callbacks one after another runs them in registration order. */
  function RegisterAll(cb: Callback, ids: seq<nat>): Callback
    decreases |ids|
  {
    if ids == [] then cb else RegisterAll(Register(cb, ids[0]), ids[1..])
  }

  lemma {:induction false} RegisterAllRunsInOrder(cb: Callback, ids: seq<nat>)
    ensures Invocations(RegisterAll(cb, ids)) == Invocations(cb) + ids
    decreases |ids|
  {
    if ids != [] {
      RegisterAllRunsInOrder(Register(cb, ids[0]), ids[1..]);
      assert [ids[0]] + ids[1..] == ids;
    }
  }

  /** A callback built only from registrations is never left as the identity. */
  lemma {:induction false} RegisterAllFromIdentity(ids: seq<nat>)
    requires ids != []
    ensures RegisterAll(Identity, ids) != Identity
    ensures Invocations(RegisterAll(Identity, ids)) == ids
  {
    RegisterAllRunsInOrder(Identity, ids);
  }
}
