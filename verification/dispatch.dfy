/**
 * The request-handling decisions of mitogen/service.py as pure functions:
 * what `Service.dispatch_one` does with one message, what `Service.run`
 * does with the messages its receiver yields, and what one `Pool` worker
 * does with the outcomes its select yields.
 */
module Dispatch {
  import opened Transport

  /** The text of the CallError sent back for an oversized message. */
  const MESSAGE_SIZE_EXCEEDED: string := "Message size exceeded"

  /** `Service.max_message_size` when a subclass does not override it. */
  const DEFAULT_MAX_MESSAGE_SIZE: nat := 0

  /** How a call of the handler `self.dispatch(args, msg)` ends. */
  datatype HandlerResult<R> = Returns(value: R) | Raises(error: Exception)

  /**
   * The members a `Service` subclass overrides: `max_message_size`,
   * `validate_args` and `dispatch`.
   */
  datatype Behaviour<!V, R> = Behaviour(
    maxMessageSize: nat,
    validateArgs: V -> bool,
    dispatch: (V, Message<V>) -> HandlerResult<R>)

  /** A subclass that only supplies `dispatch` and inherits the rest from `Service`. */
  function Defaults<V, R>(dispatch: (V, Message<V>) -> HandlerResult<R>): (b: Behaviour<V, R>)
    ensures b.maxMessageSize == DEFAULT_MAX_MESSAGE_SIZE
    ensures b.dispatch == dispatch
  {
    Behaviour(DEFAULT_MAX_MESSAGE_SIZE, args => true, dispatch)
  }

  // The classification of one message, stated independently of DispatchOne.

  /** The payload passes the size check. */
  predicate WithinSize<V, R>(b: Behaviour<V, R>, msg: Message<V>)
  {
    |msg.data| <= b.maxMessageSize
  }

  /** The unpickled value is the dead sentinel, a CallError, or fails `validate_args`. */
  predicate IsJunk<V, R>(b: Behaviour<V, R>, msg: Message<V>)
  {
    msg.unpickled.Dead? || msg.unpickled.RemoteError? ||
    (msg.unpickled.Value? && !b.validateArgs(msg.unpickled.args))
  }

  /** The message reaches the handler. */
  predicate Accepted<V, R>(b: Behaviour<V, R>, msg: Message<V>)
  {
    WithinSize(b, msg) && msg.unpickled.Value? && b.validateArgs(msg.unpickled.args)
  }

  /** Unpickling raises, so the exception leaves `dispatch_one`. */
  predicate Escapes<V, R>(b: Behaviour<V, R>, msg: Message<V>)
  {
    WithinSize(b, msg) && msg.unpickled.Undecodable?
  }

  /** The sender gets a reply: the message is oversized or reaches the handler. */
  predicate Answered<V, R>(b: Behaviour<V, R>, msg: Message<V>)
  {
    !WithinSize(b, msg) || Accepted(b, msg)
  }

  /** The reply for a handler call: its result, or a CallError wrapping what it raised. */
  function AsReply<R>(result: HandlerResult<R>): (reply: Reply<R>)
    ensures result.Returns? <==> reply.Result?
    ensures result.Returns? ==> reply.value == result.value
    ensures result.Raises? ==> reply.error == FromException(result.error)
  {
    match result
    case Returns(value) => Result(value)
    case Raises(error) => Error(FromException(error))
  }

  /** What one call of `dispatch_one` did, and the exception it let out, if any. */
  datatype Step<V, R> = Step(effects: seq<Effect<V, R>>, raised: Option<Exception>)

  /**
   * `Service.dispatch_one`: the size check, then unpickling, the junk
   * filter, and the handler call inside its failure boundary.
   */
  function DispatchOne<V, R>(b: Behaviour<V, R>, msg: Message<V>): (step: Step<V, R>)
    ensures Targets(step.effects) == if Answered(b, msg) then [msg.replyTo] else []
    ensures Calls(step.effects) == if Accepted(b, msg) then [msg.unpickled.args] else []
    ensures step.raised.Some? <==> Escapes(b, msg)
    ensures step.raised.Some? ==> step.raised.value == msg.unpickled.failure && |step.effects| == 0
  {
    if |msg.data| > b.maxMessageSize then
      Step([Replied(msg.replyTo, Error(FromText(MESSAGE_SIZE_EXCEEDED)))], None)
    else
      match msg.unpickled
      case Undecodable(error) => Step([], Some(error))
      case Dead => Step([], None)
      case RemoteError(_) => Step([], None)
      case Value(args) =>
        if !b.validateArgs(args) then Step([], None)
        else Step([Dispatched(args), Replied(msg.replyTo, AsReply(b.dispatch(args, msg)))], None)
  }

  /** Every message falls in exactly one of the four classes. */
  lemma OneClassPerMessage<V, R>(b: Behaviour<V, R>, msg: Message<V>)
    ensures (if !WithinSize(b, msg) then 1 else 0) + (if WithinSize(b, msg) && IsJunk(b, msg) then 1 else 0)
          + (if Accepted(b, msg) then 1 else 0) + (if Escapes(b, msg) then 1 else 0) == 1
  {
  }

  /**
   * An oversized message gets exactly one reply, the size error, and its
   * outcome depends on nothing but its size and reply identity: neither the
   * unpickled value, `validate_args` nor `dispatch` is consulted.
   */
  lemma OversizedGetsSizeError<V, R>(b: Behaviour<V, R>, msg: Message<V>, b': Behaviour<V, R>, msg': Message<V>)
    requires !WithinSize(b, msg)
    requires b'.maxMessageSize == b.maxMessageSize
    requires msg'.data == msg.data && msg'.replyTo == msg.replyTo
    ensures DispatchOne(b, msg) == Step([Replied(msg.replyTo, Error(FromText(MESSAGE_SIZE_EXCEEDED)))], None)
    ensures DispatchOne(b', msg') == DispatchOne(b, msg)
  {
  }

  /** With the inherited `max_message_size`, only an empty payload passes the size check. */
  lemma DefaultSizeAdmitsOnlyEmpty<V, R>(dispatch: (V, Message<V>) -> HandlerResult<R>, msg: Message<V>)
    ensures WithinSize(Defaults(dispatch), msg) <==> |msg.data| == 0
    ensures |msg.data| > 0 ==>
      DispatchOne(Defaults(dispatch), msg).effects == [Replied(msg.replyTo, Error(FromText(MESSAGE_SIZE_EXCEEDED)))]
  {
  }

  /** Junk within the size limit is dropped: no reply, no handler call, nothing raised. */
  lemma JunkIsDropped<V, R>(b: Behaviour<V, R>, msg: Message<V>)
    requires WithinSize(b, msg) && IsJunk(b, msg)
    ensures DispatchOne(b, msg) == Step([], None)
  {
  }

  /**
   * The inherited `validate_args` accepts every argument, so with it only the
   * dead sentinel and a CallError are junk.
   */
  lemma DefaultValidateRejectsOnlySentinels<V, R>(dispatch: (V, Message<V>) -> HandlerResult<R>, msg: Message<V>)
    ensures msg.unpickled.Value? ==> Defaults(dispatch).validateArgs(msg.unpickled.args)
    ensures IsJunk(Defaults(dispatch), msg) <==> msg.unpickled.Dead? || msg.unpickled.RemoteError?
  {
  }

  /**
   * An accepted message enters the handler exactly once and then gets
   * exactly one reply: the handler's result, or a CallError wrapping what
   * it raised.
   */
  lemma AcceptedIsDispatchedOnce<V, R>(b: Behaviour<V, R>, msg: Message<V>)
    requires Accepted(b, msg)
    ensures var args := msg.unpickled.args;
      match b.dispatch(args, msg)
      case Returns(value) =>
        DispatchOne(b, msg) == Step([Dispatched(args), Replied(msg.replyTo, Result(value))], None)
      case Raises(error) =>
        DispatchOne(b, msg) == Step([Dispatched(args), Replied(msg.replyTo, Error(FromException(error)))], None)
  {
  }

  // Service.run on its own receiver.

  /** What `Service.run` did: its effects, the exception that ended it, and how many messages it took. */
  datatype Served<V, R> = Served(effects: seq<Effect<V, R>>, raised: Option<Exception>, consumed: nat)

  /**
   * `Service.run` on a receiver that yields `msgs` and then reports its
   * channel closed: each message goes through `dispatch_one` in turn, and
   * an exception leaving `dispatch_one` ends the run.
   */
  function Serve<V, R>(b: Behaviour<V, R>, msgs: seq<Message<V>>): (s: Served<V, R>)
    ensures s.consumed <= |msgs|
    decreases |msgs|
  {
    if |msgs| == 0 then Served([], None, 0)
    else
      var step := DispatchOne(b, msgs[0]);
      if step.raised.Some? then Served(step.effects, step.raised, 1)
      else
        var rest := Serve(b, msgs[1..]);
        Served(step.effects + rest.effects, rest.raised, 1 + rest.consumed)
  }

  /**
   * A run takes every message when none of them makes `dispatch_one`
   * raise; otherwise it stops at the first that does and re-raises its
   * exception.
   */
  lemma {:induction false} ServeStopsAtFirstEscape<V, R>(b: Behaviour<V, R>, msgs: seq<Message<V>>)
    ensures var s := Serve(b, msgs);
      (s.raised.None? <==> forall i :: 0 <= i < |msgs| ==> !Escapes(b, msgs[i])) &&
      (s.raised.None? ==> s.consumed == |msgs|) &&
      (s.raised.Some? ==>
        0 < s.consumed && Escapes(b, msgs[s.consumed - 1]) &&
        s.raised.value == msgs[s.consumed - 1].unpickled.failure &&
        forall i :: 0 <= i < s.consumed - 1 ==> !Escapes(b, msgs[i]))
    decreases |msgs|
  {
    if |msgs| > 0 && !Escapes(b, msgs[0]) {
      var rest := Serve(b, msgs[1..]);
      ServeStopsAtFirstEscape(b, msgs[1..]);
      assert DispatchOne(b, msgs[0]).raised.None?;
      assert Serve(b, msgs).raised == rest.raised && Serve(b, msgs).consumed == 1 + rest.consumed;
      forall i | 1 <= i < |msgs|
        ensures msgs[i] == msgs[1..][i - 1]
      {
      }
    }
  }

  /** One turn of `Service.run` that takes a message and lets nothing escape. */
  lemma ServeAdvance<V, R>(b: Behaviour<V, R>, start: seq<Message<V>>, before: seq<Message<V>>,
                          done: seq<Effect<V, R>>, taken: nat, step: Step<V, R>)
    requires |before| > 0 && step == DispatchOne(b, before[0])
    requires var rest := Serve(b, before);
      Serve(b, start) == Served(done + rest.effects, rest.raised, taken + rest.consumed)
    ensures step.raised.Some? ==> Serve(b, start) == Served(done + step.effects, step.raised, taken + 1)
    ensures step.raised.None? ==> var rest := Serve(b, before[1..]);
      Serve(b, start) == Served((done + step.effects) + rest.effects, rest.raised, taken + 1 + rest.consumed)
  {
    if step.raised.None? {
      var rest := Serve(b, before[1..]);
      assert Serve(b, before) == Served(step.effects + rest.effects, rest.raised, 1 + rest.consumed);
      assert done + (step.effects + rest.effects) == (done + step.effects) + rest.effects;
    }
  }

  // One Pool worker.

  /** Why a select stopped yielding messages. */
  datatype CloseReason = ChannelError | LatchError

  /**
   * One result of the pool's select, with the message already routed to
   * the service that owns the receiver it came from.
   */
  datatype Event<!V, R> = Deliver(msg: Message<V>, owner: Behaviour<V, R>) | Closed(reason: CloseReason)

  /** No close among `events`. */
  predicate Open<V, R>(events: seq<Event<V, R>>)
  {
    forall i :: 0 <= i < |events| ==> events[i].Deliver?
  }

  /**
   * `Pool._worker_run` over `events`: every delivered message goes through
   * its owner's `dispatch_one`, an exception leaving `dispatch_one` is
   * swallowed, and the first close ends the loop.
   */
  function Drain<V, R>(events: seq<Event<V, R>>): (effects: seq<Effect<V, R>>)
    ensures |Targets(effects)| <= Pulls(events)
    decreases |events|
  {
    if |events| == 0 then []
    else
      match events[0]
      case Closed(_) => []
      case Deliver(msg, owner) =>
        var rest := Drain(events[1..]);
        TargetsAppend(DispatchOne(owner, msg).effects, rest);
        DispatchOne(owner, msg).effects + rest
  }

  /** How many results the worker takes from the select: up to and including the first close. */
  function Pulls<V, R>(events: seq<Event<V, R>>): (n: nat)
    ensures n <= |events|
    decreases |events|
  {
    if |events| == 0 then 0
    else if events[0].Closed? then 1
    else 1 + Pulls(events[1..])
  }

  /** One turn of the worker loop that routes a message. */
  lemma DrainAdvance<V, R>(all: seq<Event<V, R>>, done: seq<Effect<V, R>>, events: seq<Event<V, R>>)
    requires |events| > 0 && events[0].Deliver?
    requires Drain(all) == done + Drain(events)
    ensures Drain(all) == (done + DispatchOne(events[0].owner, events[0].msg).effects) + Drain(events[1..])
    ensures Pulls(events) == 1 + Pulls(events[1..])
  {
    var step := DispatchOne(events[0].owner, events[0].msg);
    assert Drain(events) == step.effects + Drain(events[1..]);
    assert done + (step.effects + Drain(events[1..])) == (done + step.effects) + Drain(events[1..]);
  }

  /**
   * The worker takes results up to and including the first close, or all of
   * them when none is a close.
   */
  lemma {:induction false} PullsStopsAtFirstClose<V, R>(events: seq<Event<V, R>>)
    ensures var n := Pulls(events);
      (forall i :: 0 <= i < n - 1 ==> events[i].Deliver?) &&
      (n < |events| ==> 0 < n && events[n - 1].Closed?) &&
      (n == |events| && 0 < n && events[n - 1].Deliver? ==> Open(events))
    decreases |events|
  {
    if |events| > 0 && events[0].Deliver? {
      PullsStopsAtFirstClose(events[1..]);
      assert forall i :: 1 <= i < |events| ==> events[i] == events[1..][i - 1];
    }
  }

  /** Reference: the reply identities of the answered messages before the first close. */
  function AnsweredIds<V, R>(events: seq<Event<V, R>>): (ids: seq<nat>)
    decreases |events|
  {
    if |events| == 0 then []
    else
      match events[0]
      case Closed(_) => []
      case Deliver(msg, owner) =>
        (if Answered(owner, msg) then [msg.replyTo] else []) + AnsweredIds(events[1..])
  }

  /** Reference: the arguments of the accepted messages before the first close. */
  function AcceptedArgs<V, R>(events: seq<Event<V, R>>): (args: seq<V>)
    decreases |events|
  {
    if |events| == 0 then []
    else
      match events[0]
      case Closed(_) => []
      case Deliver(msg, owner) =>
        (if Accepted(owner, msg) then [msg.unpickled.args] else []) + AcceptedArgs(events[1..])
  }

  /** Nothing after the first close is processed. */
  lemma {:induction false} DrainStopsAtFirstClose<V, R>(before: seq<Event<V, R>>, reason: CloseReason, after: seq<Event<V, R>>)
    requires Open(before)
    ensures Drain(before + [Closed(reason)] + after) == Drain(before)
    decreases |before|
  {
    var all := before + [Closed(reason)] + after;
    if |before| == 0 {
      assert all[0] == Closed(reason);
    } else {
      assert all[0] == before[0];
      assert all[1..] == before[1..] + [Closed(reason)] + after;
      DrainStopsAtFirstClose(before[1..], reason, after);
    }
  }

  /** A message whose `dispatch_one` raises leaves no effect, and the worker goes on with the next one. */
  lemma DrainContinuesPastEscape<V, R>(msg: Message<V>, owner: Behaviour<V, R>, rest: seq<Event<V, R>>)
    requires Escapes(owner, msg)
    ensures Drain([Deliver(msg, owner)] + rest) == Drain(rest)
  {
    assert ([Deliver(msg, owner)] + rest)[1..] == rest;
  }

  /**
   * The worker sends one reply to each answered message and none to any
   * other, in arrival order, and enters each accepted message's handler once.
   */
  lemma {:induction false} DrainRepliesToAnswered<V, R>(events: seq<Event<V, R>>)
    ensures Targets(Drain(events)) == AnsweredIds(events)
    ensures Calls(Drain(events)) == AcceptedArgs(events)
    decreases |events|
  {
    if |events| > 0 && events[0].Deliver? {
      var step := DispatchOne(events[0].owner, events[0].msg);
      DrainRepliesToAnswered(events[1..]);
      TargetsAppend(step.effects, Drain(events[1..]));
      CallsAppend(step.effects, Drain(events[1..]));
    }
  }

  /**
   * If no message before the close is junk or fails to unpickle, every one
   * of them gets exactly one reply, in order.
   */
  lemma {:induction false} DrainAnswersEveryWellFormed<V, R>(events: seq<Event<V, R>>)
    requires Open(events)
    requires forall i :: 0 <= i < |events| ==> Answered(events[i].owner, events[i].msg)
    ensures |Targets(Drain(events))| == |events|
    ensures forall i :: 0 <= i < |events| ==> Targets(Drain(events))[i] == events[i].msg.replyTo
  {
    DrainRepliesToAnswered(events);
    AnsweredIdsOfWellFormed(events);
  }

  lemma {:induction false} AnsweredIdsOfWellFormed<V, R>(events: seq<Event<V, R>>)
    requires Open(events)
    requires forall i :: 0 <= i < |events| ==> Answered(events[i].owner, events[i].msg)
    ensures |AnsweredIds(events)| == |events|
    ensures forall i :: 0 <= i < |events| ==> AnsweredIds(events)[i] == events[i].msg.replyTo
    decreases |events|
  {
    if |events| > 0 {
      AnsweredIdsOfWellFormed(events[1..]);
      assert forall i :: 1 <= i < |events| ==> AnsweredIds(events)[i] == AnsweredIds(events[1..])[i - 1];
    }
  }

  /** The events of a worker whose select yields `msgs`, all from receivers owned by `b`. */
  function Deliveries<V, R>(b: Behaviour<V, R>, msgs: seq<Message<V>>): (events: seq<Event<V, R>>)
    ensures |events| == |msgs| && Open(events)
    ensures forall i :: 0 <= i < |msgs| ==> events[i] == Deliver(msgs[i], b)
  {
    seq(|msgs|, i requires 0 <= i < |msgs| => Deliver(msgs[i], b))
  }

  /**
   * `Service.run` does what a pool worker does with the same messages, up
   * to and including the first one whose `dispatch_one` raises.
   */
  lemma {:induction false} ServeIsDrainUpToEscape<V, R>(b: Behaviour<V, R>, msgs: seq<Message<V>>)
    ensures Serve(b, msgs).effects == Drain(Deliveries(b, msgs[..Serve(b, msgs).consumed]))
    decreases |msgs|
  {
    var s := Serve(b, msgs);
    if |msgs| > 0 {
      var step := DispatchOne(b, msgs[0]);
      var events := Deliveries(b, msgs[..s.consumed]);
      assert events[0] == Deliver(msgs[0], b);
      if step.raised.Some? {
        assert |events| == 1;
        assert events[1..] == [];
        assert Drain(events) == step.effects + Drain(events[1..]);
      } else {
        var rest := Serve(b, msgs[1..]);
        ServeIsDrainUpToEscape(b, msgs[1..]);
        assert msgs[1..][..rest.consumed] == msgs[1..s.consumed];
        assert events[1..] == Deliveries(b, msgs[1..][..rest.consumed]);
      }
    }
  }
}
