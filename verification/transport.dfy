/**
 * The transport primitives that mitogen/service.py consumes but does not
 * define (mitogen.core.Message, CallError, the _DEAD sentinel and the reply
 * path), reduced to the values the dispatch logic looks at.
 */
module Transport {

  newtype byte = x: int | 0 <= x < 256

  datatype Option<+T> = None | Some(value: T)

  /** A Python exception: its class name and its message. */
  datatype Exception = Exception(kind: string, text: string)

  /** mitogen.core.CallError, built either from a message string or by wrapping an exception. */
  datatype CallError = FromText(text: string) | FromException(cause: Exception)

  /**
   * What `msg.unpickle(throw=False)` gives back for a message: the dead
   * sentinel, a CallError sent by the peer, an ordinary argument value, or a
   * payload that could not be unpickled at all (unpickle raises even with
   * throw=False in that case).
   */
  datatype Unpickled<V> =
    | Dead
    | RemoteError(error: CallError)
    | Value(args: V)
    | Undecodable(failure: Exception)

  /**
   * An inbound message: the identity its reply is routed by, its raw payload
   * and the result of unpickling that payload (taken as given).
   */
  datatype Message<V> = Message(replyTo: nat, data: seq<byte>, unpickled: Unpickled<V>)

  /** The value passed to `msg.reply(...)`: a handler result or a CallError. */
  datatype Reply<R> = Result(value: R) | Error(error: CallError)

  /**
   * What a service does that a caller can observe, in order: entering the
   * handler (`self.dispatch(args, msg)`) and sending a reply (`msg.reply(...)`).
   */
  datatype Effect<V, R> = Dispatched(args: V) | Replied(replyTo: nat, body: Reply<R>)

  /** The handler invocations among `effects`, in order. */
  function Calls<V, R>(effects: seq<Effect<V, R>>): (calls: seq<V>)
    ensures |calls| <= |effects|
  {
    if effects == [] then []
    else (if effects[0].Dispatched? then [effects[0].args] else []) + Calls(effects[1..])
  }

  /** The reply identities addressed by the replies among `effects`, in order. */
  function Targets<V, R>(effects: seq<Effect<V, R>>): (targets: seq<nat>)
    ensures |targets| <= |effects|
  {
    if effects == [] then []
    else (if effects[0].Replied? then [effects[0].replyTo] else []) + Targets(effects[1..])
  }

  lemma {:induction false} CallsAppend<V, R>(a: seq<Effect<V, R>>, b: seq<Effect<V, R>>)
    ensures Calls(a + b) == Calls(a) + Calls(b)
  {
    if a == [] {
      assert a + b == b;
    } else {
      var head := if a[0].Dispatched? then [a[0].args] else [];
      assert (a + b)[0] == a[0];
      assert (a + b)[1..] == a[1..] + b;
      CallsAppend(a[1..], b);
      assert Calls(a + b) == head + (Calls(a[1..]) + Calls(b));
      assert Calls(a) == head + Calls(a[1..]);
    }
  }

  lemma {:induction false} TargetsAppend<V, R>(a: seq<Effect<V, R>>, b: seq<Effect<V, R>>)
    ensures Targets(a + b) == Targets(a) + Targets(b)
  {
    if a == [] {
      assert a + b == b;
    } else {
      var head := if a[0].Replied? then [a[0].replyTo] else [];
      assert (a + b)[0] == a[0];
      assert (a + b)[1..] == a[1..] + b;
      TargetsAppend(a[1..], b);
      assert Targets(a + b) == head + (Targets(a[1..]) + Targets(b));
      assert Targets(a) == head + Targets(a[1..]);
    }
  }
}
