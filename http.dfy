/**
 * A stand-in for the simulated HTTP collaborator. Its wall-clock latency is
 * replaced by a count of polls: a request answers NotReady `latency` times
 * and then Ready(body) once.
 */
module Http {
  import opened Future

  /** What the server answers for one request path. */
  datatype Response = Response(latency: nat, body: string)

  /** The collaborator's behaviour: the response for every request path. */
  type Server = string -> Response

  /**
   * An in-flight GET: how many more polls answer NotReady, the body it
   * yields, and whether it has already answered Ready.
   */
  datatype Request = Request(remaining: nat, body: string, answered: bool)

  /** `Http::get`: starts a request; construction always succeeds and polls nothing. */
  function Get(server: Server, path: string): Request
  {
    Request(server(path).latency, server(path).body, false)
  }

  /**
   * One poll of an in-flight request, and the request as it is afterwards.
   * A request that has answered Ready must not be polled again.
   */
  function PollRequest(req: Request): (r: (PollState<string>, Request))
    requires !req.answered
    ensures r.0.Ready? <==> req.remaining == 0
    ensures r.0.Ready? ==> r.0.value == req.body && r.1.answered
    ensures r.0.NotReady? ==> r.1 == Request(req.remaining - 1, req.body, false)
  {
    if req.remaining == 0 then (Ready(req.body), req.(answered := true))
    else (NotReady, Request(req.remaining - 1, req.body, false))
  }

  /** The answers a request gives when it is polled for as long as it may be, that is until it has answered. */
  function Answers(req: Request): seq<PollState<string>>
    requires !req.answered
    decreases req.remaining
  {
    var (p, next) := PollRequest(req);
    [p] + (if next.answered then [] else Answers(next))
  }

  /** A request answers NotReady exactly `remaining` times, then Ready(body) exactly once. */
  lemma {:induction false} ReadyExactlyOnce(req: Request)
    requires !req.answered
    ensures |Answers(req)| == req.remaining + 1
    ensures Answers(req)[req.remaining] == Ready(req.body)
    ensures forall i :: 0 <= i < req.remaining ==> Answers(req)[i] == NotReady
    decreases req.remaining
  {
    if req.remaining > 0 {
      ReadyExactlyOnce(Request(req.remaining - 1, req.body, false));
    }
  }
}
