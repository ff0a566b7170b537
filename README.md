# Hand-written coroutine and its scheduler

This project models the core of a small Rust program that shows how an
`async fn` becomes a poll-driven state machine. The body being imitated is

    print "Program starting"; txt1 = get("/600/HelloWorld1").await; print txt1;
    txt2 = get("/400/HelloWorld2").await; print txt2

The program writes it by hand as a `Coroutine` whose `state` is one of
`Start`, `Wait1(request)`, `Wait2(request)` and `Resolved`. Its `poll` loops:
each pass either advances the state and goes on, or breaks with `NotReady`
(the request in flight is not ready) or `Ready(())` (the body has run).
`main` polls the coroutine until it is ready. After every `NotReady` it prints
"Schedule other tasks".

Files:

- `future.dfy` (module `Future`): `PollState<T> = NotReady | Ready(value)`.
- `http.dfy` (module `Http`): a stand-in for the HTTP collaborator. A
  `Server` maps each request path to a `Response(latency, body)`. `Get`
  starts a `Request`. `PollRequest` answers `NotReady` `latency` times and
  then `Ready(body)`.
- `stdout.dfy` (module `Console`): `println!` as appends to `Stdout.lines`.
- `coroutine.dfy` (module `CoroutineMachine`): the `State` datatype and the
  `Coroutine` class. Its `Poll` method has the source's loop and `break`s.
  `Resume` is the pure specification of one `poll` call. The lemmas give
  each transition.
- `scheduler.dfy` (module `Scheduler`): the `main` loop as method
  `Schedule`. `Tail` is a reference definition of what is still to be
  printed. `Transcript` is the closed form of the whole output. The lemmas
  tie each poll to them.

The HTTP collaborator is a parameter (`server`). The clock behind its
latency becomes a number of polls. The coroutine and the scheduler write to
one shared `Stdout` object.

If request 1 answers `NotReady` twice and request 2 answers it once, the
program prints three "Schedule other tasks" lines, and `main` exits on its
fourth poll (`Scheduler.ExampleRun`).

## Model

| member | source | states |
|---|---|---|
| `CoroutineMachine.Coroutine.constructor` | coroutine/src/main.rs:30-34 | a new coroutine is in state `Start` (and so holds no request) |
| `CoroutineMachine.Coroutine.Poll` | coroutine/src/main.rs:40-72 | requires the state not to be `Resolved` (the panic at line 69); the new state, the printed lines and the result are those of `Resume` from the old state; returns `Ready` exactly when it leaves the coroutine `Resolved`; the stage never moves backwards; it never polls a request that has already answered `Ready`, and the state never keeps such a request (`Valid`); the loop ends because every pass that goes on moves one stage forward |
| `CoroutineMachine.Resume` | coroutine/src/main.rs:40-72 | one `poll` call returns `Ready` if and only if it ends in `Resolved`; every request it polls is still unanswered, and the state it leaves holds no answered request; on `NotReady` it ends waiting in `Wait1` or `Wait2`; the stage never decreases, and from `Start` it strictly advances |
| `CoroutineMachine.PollFromStart` | coroutine/src/main.rs:43-48 | from `Start`, "Program starting" is printed first, request 1 is started, and the same call goes straight on to poll it in `Wait1` |
| `CoroutineMachine.SuspensionKeepsStage` | coroutine/src/main.rs:50-67 | in `Wait1` or `Wait2`, the call stays at the same stage if and only if the request in flight is not ready; it then returns `NotReady` and prints nothing, and only that request's countdown moves |
| `CoroutineMachine.Wait1ReadyContinues` | coroutine/src/main.rs:51-55 | a ready request 1 prints its body, starts request 2 and polling continues in the same call |
| `CoroutineMachine.Wait2ReadyResolves` | coroutine/src/main.rs:60-63 | a ready request 2 prints its body, the state becomes `Resolved` and the call returns `Ready(())` |
| `CoroutineMachine.DrainsInOneCall` | coroutine/src/main.rs:41-71 | if both requests are ready at their first poll, one call prints all three lines and returns `Ready(())` |
| `Http.PollRequest` | coroutine/src/main.rs:50-56 | polling is allowed only before the request has answered `Ready`; it gives `Ready(body)` exactly when no latency is left, and the request is then marked answered; otherwise it gives `NotReady` with one poll less to wait |
| `Http.ReadyExactlyOnce` | coroutine/src/main.rs:59-66 | a request polled for as long as it may be (until it has answered) answers `NotReady` exactly `latency` times, then `Ready(body)` once |
| `Console.Stdout.PrintLine` | coroutine/src/main.rs:45 | `println!` appends one line to the output and changes nothing else |
| `Scheduler.SuspendConsumesTail` | coroutine/src/main.rs:56-66 | a poll that suspends in `Wait1` or `Wait2` returns `NotReady`, and with the scheduler's one line it consumes exactly the front of what is still to come, leaving one fewer `NotReady` to come |
| `Scheduler.PollConsumesTail` | coroutine/src/main.rs:82-89 | one poll followed by the scheduler's reaction prints exactly the front of what is still to come; a `NotReady` leaves one fewer `NotReady` to come; a `Ready` leaves none |
| `Scheduler.SchedulerStep` | coroutine/src/main.rs:83-87 | one pass of the loop keeps "printed so far" followed by "still to come" equal to the whole transcript |
| `Scheduler.TailFromStart` | coroutine/src/main.rs:80-93 | driven from `Start`, the output still to come is the whole transcript |
| `Scheduler.TranscriptOrder` | coroutine/src/main.rs:43-63 | the output is "Program starting", then `latency1` scheduler lines, the body of request 1, `latency2` scheduler lines, and the body of request 2; each body appears once, at its place |
| `Scheduler.Schedule` | coroutine/src/main.rs:79-94 | the `main` loop never polls the coroutine after `Ready`; it prints exactly the transcript, with one "Schedule other tasks" per `NotReady`; it stops after exactly `latency1 + latency2 + 1` polls; every poll but the last answers `NotReady` and the last answers `Ready` (`results`) |
| `Scheduler.ExampleTranscript` | coroutine/src/main.rs:82-93 | for a request 1 with two `NotReady` answers and a request 2 with one, the output is "Program starting", two scheduler lines, "first", one scheduler line, "second" |
| `Scheduler.ExampleRun` | coroutine/src/main.rs:79-94 | running the `main` loop against that server prints those six lines and ends at the fourth poll |

## Left out

- The `http` module is not part of this model. A server's answer is a `Response` given as a parameter. Its latency is a count of `NotReady` polls, not elapsed time. The response bodies are arbitrary strings.
- The `future` module is not part of this model. Only `PollState` is needed, and it is restated in `future.dfy`.
- `thread::sleep` between polls in `main` is not modelled. It only paces the loop and has no effect on the result or the output.
- Standard output is the list `Stdout.lines`. No I/O is modelled.
- `Box<dyn Future>` is not modelled. Dynamic dispatch and heap ownership of the inner futures are replaced by the `Request` value held in the state.
- The panic on polling a `Resolved` coroutine is not modelled as an abort. It is the precondition of `Poll` and `Resume`, and `Schedule` is proved never to violate it.
- `async_main` only calls `Coroutine::new`, so `Schedule` constructs the coroutine directly.
