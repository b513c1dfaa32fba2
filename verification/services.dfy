/**
 * The stateful part of mitogen/service.py: a `Service` that owns a receiver
 * and a `running` flag, and a `Pool` whose worker pulls messages from a
 * select spanning every service's receiver and routes each to the service
 * that owns it. Replies and handler calls are returned as a sequence of
 * effects; the methods' contracts tie them to the pure functions of Dispatch.
 */
module Services {
  import opened Transport
  import opened Dispatch

  /**
   * mitogen.core.Receiver, reduced to what the service code uses: its
   * handle, the `service` back-reference a Service sets on it, and the
   * messages the transport has queued for it. Once they are used up the
   * channel counts as closed.
   */
  class Receiver<!V, R> {
    const handle: int
    var service: Service?<V, R>
    var pending: seq<Message<V>>

    constructor (handle: int)
      ensures this.handle == handle && service == null && pending == []
    {
      this.handle := handle;
      service := null;
      pending := [];
    }

    /** `Receiver.get()`: the next message, or None where it raises ChannelError. */
    method Get() returns (msg: Option<Message<V>>)
      modifies this`pending
      ensures |old(pending)| == 0 ==> msg.None? && pending == old(pending)
      ensures |old(pending)| > 0 ==> msg == Some(old(pending)[0]) && pending == old(pending)[1..]
    {
      if |pending| == 0 {
        msg := None;
      } else {
        msg := Some(pending[0]);
        pending := pending[1..];
      }
    }
  }

  class Service<!V, R> {
    /** The overridden `max_message_size`, `validate_args` and `dispatch`. */
    const behaviour: Behaviour<V, R>
    const recv: Receiver<V, R>
    const handle: int
    var running: bool

    /** `Service.__init__`: bind a receiver, point it back at this service, start running. */
    constructor (behaviour: Behaviour<V, R>, handle: int)
      ensures this.behaviour == behaviour
      ensures fresh(recv) && recv.service == this && recv.pending == []
      ensures this.handle == recv.handle == handle
      ensures running
    {
      this.behaviour := behaviour;
      recv := new Receiver(handle);
      this.handle := handle;
      running := true;
      new;
      recv.service := this;
    }

    /**
     * `Service.run_once`: take one message and put it through
     * `dispatch_one`; on ChannelError clear `running` and dispatch nothing.
     * `running` is never set back to true.
     */
    method RunOnce() returns (effects: seq<Effect<V, R>>, raised: Option<Exception>)
      modifies this`running, recv`pending
      ensures |old(recv.pending)| == 0 ==>
        !running && recv.pending == old(recv.pending) && |effects| == 0 && raised.None?
      ensures |old(recv.pending)| > 0 ==>
        running == old(running) && recv.pending == old(recv.pending)[1..] &&
        Step(effects, raised) == DispatchOne(behaviour, old(recv.pending)[0])
    {
      var msg := recv.Get();
      match msg {
        case None =>
          running := false;
          effects, raised := [], None;
        case Some(m) =>
          var step := DispatchOne(behaviour, m);
          effects, raised := step.effects, step.raised;
      }
    }

    /**
     * `Service.run`: call `run_once` while `running` holds. The loop ends
     * right after the channel closes, or when an exception leaves
     * `dispatch_one`, which propagates out of `run` with `running` still set.
     */
    method Run() returns (effects: seq<Effect<V, R>>, raised: Option<Exception>)
      modifies this`running, recv`pending
      ensures !old(running) ==>
        !running && recv.pending == old(recv.pending) && |effects| == 0 && raised.None?
      ensures old(running) ==>
        var s := Serve(behaviour, old(recv.pending));
        effects == s.effects && raised == s.raised &&
        recv.pending == old(recv.pending)[s.consumed..] &&
        running == raised.Some?
    {
      effects, raised := [], None;
      if !running {
        return;
      }
      ghost var start := recv.pending;
      ghost var taken: nat := 0;
      while running
        invariant taken <= |start| && recv.pending == start[taken..]
        invariant raised.None?
        invariant running ==>
          var rest := Serve(behaviour, recv.pending);
          Serve(behaviour, start) == Served(effects + rest.effects, rest.raised, taken + rest.consumed)
        invariant !running ==> taken == |start| && Serve(behaviour, start) == Served(effects, None, |start|)
        decreases |recv.pending| + (if running then 1 else 0)
      {
        ghost var before := recv.pending;
        ghost var done := effects;
        var e, r := RunOnce();
        effects := effects + e;
        if |before| == 0 {
          assert done + [] == done;
        } else {
          assert recv.pending == start[taken + 1..];
          ServeAdvance(behaviour, start, before, done, taken, Step(e, r));
          taken := taken + 1;
        }
        if r.Some? {
          raised := r;
          return;
        }
      }
    }
  }

  /**
   * One result of `Select.get()`: a message with the receiver it arrived
   * on, or the ChannelError or LatchError it raised.
   */
  datatype SelectOutcome<!V, R> = Got(msg: Message<V>, recv: Receiver<V, R>) | Failed(reason: CloseReason)

  /**
   * mitogen.master.Select over a fixed list of receivers, reduced to the
   * results its successive `get()` calls return. Once they are used up the
   * select counts as closed by `Pool.stop`, and `get()` raises LatchError.
   */
  class Select<!V, R> {
    const receivers: seq<Receiver<V, R>>
    const oneshot: bool
    var outcomes: seq<SelectOutcome<V, R>>

    /** Every message comes from one of the select's receivers. */
    ghost predicate Valid()
      reads this
    {
      forall o | o in outcomes && o.Got? :: o.recv in receivers
    }

    constructor (receivers: seq<Receiver<V, R>>, oneshot: bool)
      ensures this.receivers == receivers && this.oneshot == oneshot
      ensures outcomes == [] && Valid()
    {
      this.receivers := receivers;
      this.oneshot := oneshot;
      outcomes := [];
    }

    /** `Select.get()`. */
    method Get() returns (o: SelectOutcome<V, R>)
      requires Valid()
      modifies this`outcomes
      ensures Valid()
      ensures |old(outcomes)| == 0 ==> o == Failed(LatchError) && outcomes == old(outcomes)
      ensures |old(outcomes)| > 0 ==> o == old(outcomes)[0] && outcomes == old(outcomes)[1..]
    {
      if |outcomes| == 0 {
        o := Failed(LatchError);
      } else {
        o := outcomes[0];
        outcomes := outcomes[1..];
      }
    }
  }

  /**
   * Line 123, `msg.receiver.service`: route each message to the service
   * whose receiver it arrived on.
   */
  function Resolve<V, R>(outcomes: seq<SelectOutcome<V, R>>): (events: seq<Event<V, R>>)
    reads set o | o in outcomes && o.Got? :: o.recv
    requires forall o | o in outcomes && o.Got? :: o.recv.service != null
    ensures |events| == |outcomes|
    ensures forall i :: 0 <= i < |outcomes| && outcomes[i].Got? ==>
      events[i] == Deliver(outcomes[i].msg, outcomes[i].recv.service.behaviour)
    ensures forall i :: 0 <= i < |outcomes| && outcomes[i].Failed? ==> events[i] == Closed(outcomes[i].reason)
    decreases |outcomes|
  {
    if |outcomes| == 0 then []
    else
      var head := match outcomes[0]
        case Got(msg, recv) => Deliver(msg, recv.service.behaviour)
        case Failed(reason) => Closed(reason);
      [head] + Resolve(outcomes[1..])
  }

  class Pool<!V, R> {
    const services: seq<Service<V, R>>
    const size: nat
    const select: Select<V, R>

    /**
     * The select spans exactly the services' receivers, and each receiver
     * points back at the service that owns it.
     */
    ghost predicate Valid()
      reads this, select, select.receivers
    {
      select.Valid() &&
      (forall s | s in services :: s.recv in select.receivers && s.recv.service == s) &&
      (forall r | r in select.receivers :: r.service != null && r.service in services)
    }

    /**
     * `Pool.__init__` without its threads: a non-oneshot select over every
     * service's receiver.
     */
    constructor (services: seq<Service<V, R>>, size: nat)
      requires forall s | s in services :: s.recv.service == s
      ensures this.services == services && this.size == size
      ensures fresh(select) && !select.oneshot && select.outcomes == []
      ensures |select.receivers| == |services|
      ensures forall i :: 0 <= i < |services| ==> select.receivers[i] == services[i].recv
      ensures Valid()
    {
      this.services := services;
      this.size := size;
      var receivers := seq(|services|, i requires 0 <= i < |services| => services[i].recv);
      select := new Select(receivers, false);
      new;
      forall r | r in select.receivers
        ensures r.service != null && r.service in services
      {
        var i :| 0 <= i < |services| && receivers[i] == r;
        assert services[i] in services;
      }
    }

    /**
     * `Pool._worker_run` for one worker: route each message to its owning
     * service's `dispatch_one`, swallow what escapes it, and return at the
     * first ChannelError or LatchError.
     */
    method WorkerRun() returns (effects: seq<Effect<V, R>>)
      requires Valid()
      modifies select`outcomes
      ensures Valid()
      ensures effects == Drain(old(Resolve(select.outcomes)))
      ensures select.outcomes == old(select.outcomes)[old(Pulls(Resolve(select.outcomes)))..]
    {
      effects := [];
      ghost var start := select.outcomes;
      ghost var events := Resolve(start);
      ghost var taken: nat := 0;
      while true
        invariant Valid()
        invariant taken <= |start| && select.outcomes == start[taken..]
        invariant Drain(events) == effects + Drain(events[taken..])
        invariant Pulls(events) == taken + Pulls(events[taken..])
        decreases |start| - taken
      {
        ghost var rest := events[taken..];
        var o := select.Get();
        if taken < |start| {
          assert o == start[taken];
          assert rest[1..] == events[taken + 1..];
          taken := taken + 1;
        }
        match o {
          case Failed(_) =>
            return;
          case Got(msg, recv) =>
            var service := recv.service;
            var step := DispatchOne(service.behaviour, msg);
            DrainAdvance(events, effects, rest);
            // An exception leaving dispatch_one is logged and dropped.
            effects := effects + step.effects;
        }
      }
    }
  }
}
