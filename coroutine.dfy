/**
 * The hand-written state machine that stands for the async body
 *   print "Program starting"; txt1 = get(path 1).await; print txt1;
 *   txt2 = get(path 2).await; print txt2
 * and its `poll`, which keeps advancing until an inner request is not ready
 * or the whole body has run.
 */
module CoroutineMachine {
  import opened Future
  import opened Http
  import Console

  const ProgramStarting := "Program starting"
  const Path1 := "/600/HelloWorld1"
  const Path2 := "/400/HelloWorld2"

  /** One variant per suspension point; each Wait holds the request in flight. */
  datatype State = Start | Wait1(fut1: Request) | Wait2(fut2: Request) | Resolved

  /** Position of a state in the fixed order Start, Wait1, Wait2, Resolved. */
  function Rank(s: State): nat
  {
    match s
    case Start => 0
    case Wait1(_) => 1
    case Wait2(_) => 2
    case Resolved => 3
  }

  /**
   * A request held by a waiting state has not answered yet: once it answers
   * Ready, the state that held it is replaced.
   */
  predicate Live(s: State)
  {
    match s
    case Wait1(fut1) => !fut1.answered
    case Wait2(fut2) => !fut2.answered
    case _ => true
  }

  /** What one call of `poll` does: the state it leaves, the lines it prints, what it returns. */
  datatype Outcome = Outcome(next: State, emitted: seq<string>, result: PollState<()>)

  /**
   * One call of `poll` from state `s`, as a function. Polling a resolved
   * coroutine is the fatal case, so it is excluded by the precondition.
   * No request is polled after it has answered, and none is left in the state.
   */
  function Resume(server: Server, s: State): (o: Outcome)
    requires s != Resolved && Live(s)
    ensures Live(o.next)
    ensures o.result.Ready? <==> o.next == Resolved
    ensures o.result.NotReady? ==> o.next.Wait1? || o.next.Wait2?
    ensures Rank(s) <= Rank(o.next)
    ensures s.Start? ==> Rank(s) < Rank(o.next)
    decreases 3 - Rank(s)
  {
    match s
    case Start =>
      var o := Resume(server, Wait1(Get(server, Path1)));
      o.(emitted := [ProgramStarting] + o.emitted)
    case Wait1(fut1) =>
      var (p, fut1') := PollRequest(fut1);
      if p.Ready? then
        var o := Resume(server, Wait2(Get(server, Path2)));
        o.(emitted := [p.value] + o.emitted)
      else
        Outcome(Wait1(fut1'), [], NotReady)
    case Wait2(fut2) =>
      var (p, fut2') := PollRequest(fut2);
      if p.Ready? then Outcome(Resolved, [p.value], Ready(()))
      else Outcome(Wait2(fut2'), [], NotReady)
  }

  /** The request a waiting state holds. */
  function InFlight(s: State): Request
    requires s.Wait1? || s.Wait2?
  {
    if s.Wait1? then s.fut1 else s.fut2
  }

  /** Polling from Start prints "Program starting" first, starts request 1 and goes straight on to poll it. */
  lemma PollFromStart(server: Server)
    ensures var o := Resume(server, Start);
            var rest := Resume(server, Wait1(Get(server, Path1)));
            o.emitted == [ProgramStarting] + rest.emitted && o.next == rest.next && o.result == rest.result
    ensures Resume(server, Start).emitted[0] == ProgramStarting
  {
  }

  /**
   * In Wait1 or Wait2, `poll` stays at the same stage exactly when the
   * request in flight is not ready; then it returns NotReady, prints
   * nothing, and only the request's own countdown moves.
   */
  lemma SuspensionKeepsStage(server: Server, s: State)
    requires (s.Wait1? || s.Wait2?) && Live(s)
    ensures var o := Resume(server, s);
            Rank(o.next) == Rank(s) <==> PollRequest(InFlight(s)).0.NotReady?
    ensures var o := Resume(server, s);
            PollRequest(InFlight(s)).0.NotReady? ==>
              o.result == NotReady && o.emitted == [] &&
              InFlight(o.next) == PollRequest(InFlight(s)).1
  {
  }

  /** In Wait1, a ready request 1 prints its body, starts request 2 and polling continues in the same call. */
  lemma Wait1ReadyContinues(server: Server, fut1: Request)
    requires fut1.remaining == 0 && !fut1.answered
    ensures var o := Resume(server, Wait1(fut1));
            var rest := Resume(server, Wait2(Get(server, Path2)));
            o.emitted == [fut1.body] + rest.emitted && o.next == rest.next && o.result == rest.result
  {
  }

  /** In Wait2, a ready request 2 prints its body, resolves and returns Ready. */
  lemma Wait2ReadyResolves(server: Server, fut2: Request)
    requires fut2.remaining == 0 && !fut2.answered
    ensures Resume(server, Wait2(fut2)) == Outcome(Resolved, [fut2.body], Ready(()))
  {
  }

  /** When both requests are ready at their first poll, a single call runs the whole body. */
  lemma DrainsInOneCall(server: Server)
    requires server(Path1).latency == 0 && server(Path2).latency == 0
    ensures Resume(server, Start) ==
            Outcome(Resolved, [ProgramStarting, server(Path1).body, server(Path2).body], Ready(()))
  {
  }

  /** The coroutine: its only field the source updates is `state`. */
  class Coroutine {
    var state: State
    /** The HTTP collaborator that `Http::get` consults. */
    const server: Server
    /** Where `println!` writes. */
    const out: Console.Stdout

    /** The request the state holds, if any, has not answered yet. */
    predicate Valid()
      reads this
    {
      Live(state)
    }

    /** `Coroutine::new`: a fresh coroutine has not begun. */
    constructor (server: Server, out: Console.Stdout)
      ensures state == Start && Valid()
      ensures this.server == server && this.out == out
    {
      this.state := Start;
      this.server := server;
      this.out := out;
    }

    /**
     * `poll`: loops over the state, advancing through every stage that is
     * ready, and breaks with NotReady at the first request that is not, or
     * with Ready(()) once the body has run. Each pass that does not break
     * moves the state one stage forward, so the loop ends.
     */
    method Poll() returns (r: PollState<()>)
      requires Valid() && state != Resolved
      modifies this, out
      ensures Valid()
      ensures var o := Resume(server, old(state));
              state == o.next && r == o.result && out.lines == old(out.lines) + o.emitted
      ensures r.Ready? <==> state == Resolved
      ensures Rank(old(state)) <= Rank(state)
    {
      ghost var goal := Resume(server, state);
      ghost var before := out.lines;
      while true
        invariant state != Resolved && Live(state)
        invariant Resume(server, state).next == goal.next
        invariant Resume(server, state).result == goal.result
        invariant out.lines + Resume(server, state).emitted == before + goal.emitted
        decreases 3 - Rank(state)
      {
        match state
        case Start =>
          out.PrintLine(ProgramStarting);
          state := Wait1(Get(server, Path1));
        case Wait1(fut1) =>
          var (p, fut1') := PollRequest(fut1);
          match p {
            case Ready(txt1) =>
              out.PrintLine(txt1);
              state := Wait2(Get(server, Path2));
            case NotReady =>
              state := Wait1(fut1');
              r := NotReady;
              break;
          }
        case Wait2(fut2) =>
          var (p, fut2') := PollRequest(fut2);
          match p {
            case Ready(txt2) =>
              out.PrintLine(txt2);
              state := Resolved;
              r := Ready(());
              break;
            case NotReady =>
              state := Wait2(fut2');
              r := NotReady;
              break;
          }
      }
    }
  }
}
