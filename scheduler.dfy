/**
 * The cooperative scheduler of `main`: it polls the top-level coroutine until
 * it is ready and prints "Schedule other tasks" after every NotReady. The
 * pacing sleep between polls has no effect on what is printed and is not
 * modelled.
 */
module Scheduler {
  import opened Future
  import opened Http
  import opened CoroutineMachine
  import Console

  const ScheduleOther := "Schedule other tasks"

  /** `n` copies of `line`. */
  function Repeat(line: string, n: nat): (r: seq<string>)
    ensures |r| == n
    ensures forall i :: 0 <= i < n ==> r[i] == line
  {
    if n == 0 then [] else [line] + Repeat(line, n - 1)
  }

  /** Everything the program prints, given how the server answers the two requests. */
  function Transcript(server: Server): seq<string>
  {
    [ProgramStarting]
    + Repeat(ScheduleOther, server(Path1).latency) + [server(Path1).body]
    + Repeat(ScheduleOther, server(Path2).latency) + [server(Path2).body]
  }

  /**
   * Reference definition, independent of `Resume`: the lines still to be
   * printed, by coroutine and scheduler together, when the scheduler drives
   * a coroutine in state `s` to the end.
   */
  function Tail(server: Server, s: State): seq<string>
    decreases 3 - Rank(s)
  {
    match s
    case Start => [ProgramStarting] + Tail(server, Wait1(Get(server, Path1)))
    case Wait1(f) => Repeat(ScheduleOther, f.remaining) + [f.body] + Tail(server, Wait2(Get(server, Path2)))
    case Wait2(f) => Repeat(ScheduleOther, f.remaining) + [f.body]
    case Resolved => []
  }

  /** How many more polls of a coroutine in state `s` will answer NotReady. */
  function Pending(server: Server, s: State): nat
  {
    match s
    case Start => server(Path1).latency + server(Path2).latency
    case Wait1(f) => f.remaining + server(Path2).latency
    case Wait2(f) => f.remaining
    case Resolved => 0
  }

  /** Driven from the start, the remaining output is the whole transcript. */
  lemma TailFromStart(server: Server)
    ensures Tail(server, Start) == Transcript(server)
  {
  }

  /** Suspending in a waiting state consumes one scheduler line and one NotReady. */
  lemma SuspendConsumesTail(server: Server, s: State)
    requires (s.Wait1? || s.Wait2?) && Live(s) && InFlight(s).remaining > 0
    ensures var o := Resume(server, s);
            o.result.NotReady? &&
            Tail(server, s) == o.emitted + [ScheduleOther] + Tail(server, o.next) &&
            Pending(server, s) == Pending(server, o.next) + 1
  {
    var f := InFlight(s);
    var f' := Request(f.remaining - 1, f.body, false);
    var rest := if s.Wait1? then Tail(server, Wait2(Get(server, Path2))) else [];
    assert Tail(server, s) == Repeat(ScheduleOther, f.remaining) + [f.body] + rest;
    assert Repeat(ScheduleOther, f.remaining) == [ScheduleOther] + Repeat(ScheduleOther, f.remaining - 1);
    var o := Resume(server, s);
    assert o.emitted == [] && InFlight(o.next) == f' && o.next.Wait1? == s.Wait1?;
    assert Tail(server, o.next) == Repeat(ScheduleOther, f.remaining - 1) + [f.body] + rest;
  }

  /**
   * One poll consumes exactly the front of the remaining output: on NotReady
   * the lines the poll printed and the scheduler's one line, with one
   * NotReady fewer to come; on Ready the rest of the output, with none to come.
   */
  lemma {:induction false} PollConsumesTail(server: Server, s: State)
    requires s != Resolved && Live(s)
    ensures var o := Resume(server, s);
            o.result.NotReady? ==>
              Tail(server, s) == o.emitted + [ScheduleOther] + Tail(server, o.next) &&
              Pending(server, s) == Pending(server, o.next) + 1
    ensures var o := Resume(server, s);
            o.result.Ready? ==> Tail(server, s) == o.emitted && Pending(server, s) == 0
    decreases 3 - Rank(s)
  {
    if s.Start? {
      var g := Wait1(Get(server, Path1));
      PollConsumesTail(server, g);
      var o := Resume(server, g);
      if o.result.NotReady? {
        assert [ProgramStarting] + o.emitted + [ScheduleOther] + Tail(server, o.next)
            == [ProgramStarting] + (o.emitted + [ScheduleOther] + Tail(server, o.next));
      }
    } else if InFlight(s).remaining > 0 {
      SuspendConsumesTail(server, s);
    } else if s.Wait1? {
      var g := Wait2(Get(server, Path2));
      PollConsumesTail(server, g);
      var o := Resume(server, g);
      assert Repeat(ScheduleOther, 0) == [];
      if o.result.NotReady? {
        assert [s.fut1.body] + o.emitted + [ScheduleOther] + Tail(server, o.next)
            == [s.fut1.body] + (o.emitted + [ScheduleOther] + Tail(server, o.next));
      }
    } else {
      assert Repeat(ScheduleOther, 0) == [];
    }
  }

  /**
   * The printed transcript in order: "Program starting" first, the body of
   * request 1 after `latency1` scheduler lines, the body of request 2 after
   * `latency2` more, each exactly once at its place, and every other line is
   * the scheduler's.
   */
  lemma TranscriptOrder(server: Server)
    ensures var t, d1, d2 := Transcript(server), server(Path1).latency, server(Path2).latency;
            |t| == d1 + d2 + 3 &&
            t[0] == ProgramStarting &&
            t[d1 + 1] == server(Path1).body &&
            t[d1 + d2 + 2] == server(Path2).body &&
            forall i :: 0 < i < |t| && i != d1 + 1 && i != d1 + d2 + 2 ==> t[i] == ScheduleOther
  {
  }

  /**
   * One pass of the scheduler loop keeps what has been printed plus what is
   * still to come equal to the transcript, and spends one NotReady.
   */
  lemma SchedulerStep(server: Server, s: State, printed: seq<string>)
    requires s != Resolved && Live(s)
    requires printed + Tail(server, s) == Transcript(server)
    ensures var o := Resume(server, s);
            o.result.NotReady? ==>
              o.next != Resolved &&
              printed + o.emitted + [ScheduleOther] + Tail(server, o.next) == Transcript(server) &&
              Pending(server, s) == Pending(server, o.next) + 1
    ensures var o := Resume(server, s);
            o.result.Ready? ==> printed + o.emitted == Transcript(server)
  {
    PollConsumesTail(server, s);
    var o := Resume(server, s);
    if o.result.NotReady? {
      assert printed + o.emitted + [ScheduleOther] + Tail(server, o.next)
          == printed + (o.emitted + [ScheduleOther] + Tail(server, o.next));
    }
  }

  /**
   * The loop of `main`: polls the coroutine until Ready, printing one
   * "Schedule other tasks" per NotReady. It never polls the coroutine after
   * Ready (each poll meets `Poll`'s precondition), prints the whole
   * transcript, and returns after exactly latency1 + latency2 + 1 polls.
   * `results` records what each poll answered: every poll but the last
   * answered NotReady, and the last answered Ready.
   */
  method Schedule(server: Server) returns (lines: seq<string>, polls: nat, ghost results: seq<PollState<()>>)
    ensures lines == Transcript(server)
    ensures polls == server(Path1).latency + server(Path2).latency + 1
    ensures |results| == polls && results[polls - 1] == Ready(())
    ensures forall i :: 0 <= i < polls - 1 ==> results[i] == NotReady
  {
    var out := new Console.Stdout();
    var future := new Coroutine(server, out);
    TailFromStart(server);
    polls, results := 0, [];
    while true
      invariant future.server == server && future.out == out
      invariant future.state != Resolved && future.Valid()
      invariant out.lines + Tail(server, future.state) == Transcript(server)
      invariant polls + Pending(server, future.state) == Pending(server, Start)
      invariant |results| == polls && forall i :: 0 <= i < polls ==> results[i] == NotReady
      decreases Pending(server, future.state)
    {
      ghost var s, printed := future.state, out.lines;
      SchedulerStep(server, s, printed);
      var r := future.Poll();
      polls, results := polls + 1, results + [r];
      match r {
        case NotReady =>
          out.PrintLine(ScheduleOther);
        case Ready(_) =>
          break;
      }
    }
    lines := out.lines;
  }

  /** An example server: request 1 answers NotReady twice, request 2 once. */
  function ExampleServer(): Server
  {
    (path: string) => if path == Path1 then Response(2, "first") else Response(1, "second")
  }

  /**
   * For the example server the program prints three "Schedule other tasks"
   * lines (two while request 1 is pending, one while request 2 is) and the
   * two bodies in order.
   */
  lemma ExampleTranscript()
    ensures Transcript(ExampleServer()) ==
            [ProgramStarting, ScheduleOther, ScheduleOther, "first", ScheduleOther, "second"]
  {
  }

  /** Running `main` against the example server: the six lines above, and the loop ends at its fourth poll. */
  method ExampleRun() returns (lines: seq<string>, polls: nat)
    ensures lines == [ProgramStarting, ScheduleOther, ScheduleOther, "first", ScheduleOther, "second"]
    ensures polls == 4
  {
    ghost var results;
    lines, polls, results := Schedule(ExampleServer());
    ExampleTranscript();
  }
}
