# mitogen service dispatch, modelled in Dafny

This project models the request-handling core of `mitogen/service.py`.

A `Service` binds one receiver to one request handler. `dispatch_one` decides what happens to each incoming message:

- an oversized payload gets a `CallError('Message size exceeded')` reply;
- junk is dropped without a reply. Junk is the dead sentinel, a `CallError` value, or arguments that `validate_args` refuses;
- anything else is passed to the handler once, and its result, or a `CallError` wrapping what it raised, is sent back.

`run_once` and `run` drive one service from its own receiver until the channel closes. One `Pool` worker pulls messages from a select spanning every service's receiver. It routes each message to the service whose receiver produced it, using the receiver's `service` back-reference. It logs and swallows any `Exception` that escapes `dispatch_one` and returns at the first `ChannelError` or `LatchError`.

Files:

- `transport.dfy` (module `Transport`) stands in for the transport values the core only consumes: a message with its payload, its reply identity and the result of unpickling it; `CallError`; the reply value. It also defines `Effect`, the log of what a service does that a caller can observe: entering the handler, and sending a reply.
- `dispatch.dfy` (module `Dispatch`) holds the pure decisions. `DispatchOne` models `dispatch_one`. `Serve` is what `Service.run` does with the messages its receiver yields. `Drain` is what one worker does with the results its select yields. The lemmas state the properties of these three.
- `services.dfy` (module `Services`) holds the stateful part as classes: `Receiver` (with the `service` back-reference), `Service` (with the `running` flag), `Select` and `Pool`. `RunOnce`, `Run` and `WorkerRun` are loops and state changes proved against `DispatchOne`, `Serve` and `Drain`.

`msg.unpickle(throw=False)` at line 59 is outside the `try`, and unpickling a garbled payload still raises, so that failure escapes `dispatch_one`. The model therefore has an `Undecodable` unpickling result. For such a message, `dispatch_one` sends nothing and lets the exception out. `Service.run` propagates it with `running` still true, and the pool worker logs it and goes on.

Receivers and the select are modelled as the finite sequence of results their successive `get()` calls return. An exhausted receiver raises `ChannelError`. An exhausted select raises `LatchError`, as after `Pool.stop` has closed it.

## Model

| member | source | states |
|---|---|---|
| `Dispatch.Defaults` | mitogen/service.py:40-51 | a subclass that overrides only `dispatch` has `max_message_size` 0 and keeps its own handler |
| `Dispatch.AsReply` | mitogen/service.py:66-70 | a returning handler's value becomes the reply; a raising handler becomes a `CallError` wrapping its exception |
| `Dispatch.DispatchOne` | mitogen/service.py:53-70 | at most one reply, addressed to the sender, sent exactly when the message is oversized or reaches the handler; the handler is entered once exactly when the message passes the size, sentinel, `CallError` and `validate_args` checks; an exception leaves only when unpickling fails, and then nothing was sent |
| `Dispatch.OneClassPerMessage` | mitogen/service.py:53-70 | every message is exactly one of: oversized, junk, accepted, or failing to unpickle |
| `Dispatch.OversizedGetsSizeError` | mitogen/service.py:54-57 | an oversized message gets exactly the reply `CallError('Message size exceeded')`; its outcome is the same whatever it unpickles to and whatever `validate_args` and `dispatch` do |
| `Dispatch.DefaultSizeAdmitsOnlyEmpty` | mitogen/service.py:41-57 | with the inherited `max_message_size`, a payload passes the size check if and only if it is empty; any other payload gets the size error |
| `Dispatch.JunkIsDropped` | mitogen/service.py:59-64 | a dead sentinel, a `CallError` value or arguments refused by `validate_args` get no reply and no handler call |
| `Dispatch.DefaultValidateRejectsOnlySentinels` | mitogen/service.py:50-64 | the inherited `validate_args` accepts every argument; with it a message is junk if and only if it is the dead sentinel or a `CallError` |
| `Dispatch.AcceptedIsDispatchedOnce` | mitogen/service.py:66-70 | an accepted message enters the handler once, then gets exactly one reply: the returned value, or a `CallError` wrapping the raised exception |
| `Dispatch.Serve` | mitogen/service.py:83-85 | a run never takes more messages than the receiver yields |
| `Dispatch.ServeStopsAtFirstEscape` | mitogen/service.py:72-85 | a run takes every message if none makes `dispatch_one` raise; otherwise it stops at the first that does, re-raising that message's unpickling error |
| `Dispatch.Pulls` | mitogen/service.py:114-121 | the worker never takes more results than the select yields |
| `Dispatch.PullsStopsAtFirstClose` | mitogen/service.py:114-121 | the worker takes results up to and including the first `ChannelError`/`LatchError`, or all of them if none is a close |
| `Dispatch.Drain` | mitogen/service.py:114-127 | the reference definition of one worker's loop, which `WorkerRun` is proved against; its own contract only says the worker sends at most one reply per result it takes; its properties are the `Drain*` and `Pulls*` lemmas |
| `Dispatch.DrainStopsAtFirstClose` | mitogen/service.py:114-127 | nothing after the first close is processed |
| `Dispatch.DrainContinuesPastEscape` | mitogen/service.py:124-127 | a message whose `dispatch_one` raises leaves no effect, and the worker goes on with the next message |
| `Dispatch.DrainRepliesToAnswered` | mitogen/service.py:114-127 | the worker's replies go, in arrival order, to exactly the oversized or accepted messages before the first close, one each; its handler calls are exactly the accepted messages' arguments, once each |
| `Dispatch.DrainAnswersEveryWellFormed` | mitogen/service.py:114-127 | if no message before the close is junk or fails to unpickle, each gets exactly one reply, in order |
| `Dispatch.ServeIsDrainUpToEscape` | mitogen/service.py:72-127 | `Service.run` has the same effects as a pool worker given the same messages, up to and including the first one whose `dispatch_one` raises |
| `Services.Service.constructor` | mitogen/service.py:43-48 | a new service owns a fresh receiver whose `service` points back at it, takes that receiver's handle, and is running |
| `Services.Service.RunOnce` | mitogen/service.py:72-81 | on `ChannelError`, `running` becomes false and nothing is dispatched; otherwise `running` is unchanged and exactly the next message goes through `dispatch_one` |
| `Services.Service.Run` | mitogen/service.py:83-85 | a stopped service does nothing; a running one does what `Serve` says and stops right after the first channel close, or keeps `running` set when an exception propagates out |
| `Services.Resolve` | mitogen/service.py:123 | each message `Got(msg, recv)` becomes a delivery of `msg` to the behaviour of `recv.service`, the service its receiver points back at; each `ChannelError`/`LatchError` stays a close with the same reason, at the same position |
| `Services.Pool.constructor` | mitogen/service.py:89-99 | the pool's non-oneshot select spans exactly the services' receivers, in order, and each receiver points back at its own service |
| `Services.Pool.WorkerRun` | mitogen/service.py:114-127 | the worker's effects are `Drain` of the routed select results, and it consumes exactly the results up to the first close |

## Left out

- Threads: creating and starting the workers in `Pool.__init__`, `Pool.stop` and the joins, `_worker_main`'s crash-log-and-reraise wrapper, and several workers sharing one select. One worker is modelled in isolation.
- Blocking: a receiver or select that never closes would keep `run` or a worker looping forever. Only runs that end are modelled: the receiver or select yields a finite sequence of results and is then closed.
- The internals of `Receiver`, `Select`, `Message.unpickle` and `Message.reply` are not part of this model. Their source is not part of it either. The unpickled value is taken as given, and `reply` as never failing. So the second reply at line 70, which a failing `reply` at line 67 would cause, is not modelled.
- `validate_args` is modelled as never raising. A raising one would escape `dispatch_one` the way a failed unpickle does.
- Handlers are modelled as raising only `Exception` subclasses, which `except Exception` catches.
- Handle allocation: the handle a receiver is bound to is a constructor argument. The `router` attribute is not modelled.
- Logging (every `LOG.*` call), `Pool.__repr__` and the thread names.
- `call()` at lines 146-149 is a thin wrapper over transport operations outside this model.
- How `CallError` renders a wrapped exception as text. The model keeps the exception itself.
