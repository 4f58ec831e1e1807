/**
 The in-flight counter `activeRequests` of lib/axios.ts seen through the hooks
 that move it. Every hook runs as one atomic step; a history is the sequence
 of steps run so far, and the counter is the net effect of that history.
 */
module Trace {

  /** The four interceptor callbacks. */
  datatype Hook =
    | Request        // request fulfilled hook: activeRequests++
    | RequestError   // request rejected hook:  activeRequests--
    | Response       // response fulfilled hook: activeRequests--
    | ResponseError  // response rejected hook:  activeRequests--

  /** How far one step moves the counter. */
  function Delta(h: Hook): (d: int)
  {
    if h == Request then 1 else -1
  }

  /** The counter after a history run from the initial value 0. */
  function Net(s: seq<Hook>): (n: int)
  {
    if s == [] then 0 else Net(s[..|s| - 1]) + Delta(s[|s| - 1])
  }

  /** How many steps of a history are the hook h. */
  function Count(s: seq<Hook>, h: Hook): (n: nat)
  {
    if s == [] then 0 else Count(s[..|s| - 1], h) + (if s[|s| - 1] == h then 1 else 0)
  }

  /** How many steps of a history lower the counter. */
  function Decrements(s: seq<Hook>): (n: nat)
  {
    Count(s, RequestError) + Count(s, Response) + Count(s, ResponseError)
  }

  /** Running one more step moves the counter by that step's delta. */
  lemma NetSnoc(s: seq<Hook>, h: Hook)
    ensures Net(s + [h]) == Net(s) + Delta(h)
    ensures Count(s + [h], h) == Count(s, h) + 1
    ensures forall g :: g != h ==> Count(s + [h], g) == Count(s, g)
  {
  }

  /** The counter of two histories run one after the other is the sum of
      their counters. */
  lemma {:induction false} NetAppend(a: seq<Hook>, b: seq<Hook>)
    ensures Net(a + b) == Net(a) + Net(b)
    decreases |b|
  {
    if b == [] {
      assert a + b == a;
    } else {
      var b', h := b[..|b| - 1], b[|b| - 1];
      assert b == b' + [h];
      assert a + b == (a + b') + [h];
      NetAppend(a, b');
      NetSnoc(a + b', h);
      NetSnoc(b', h);
    }
  }

  /** The counter is the number of request steps minus the number of
      decrementing steps; it has no other memory. */
  lemma {:induction false} NetCounts(s: seq<Hook>)
    ensures Net(s) == Count(s, Request) - Decrements(s)
    decreases |s|
  {
    if s != [] {
      NetCounts(s[..|s| - 1]);
    }
  }

  /** When every request step is answered by exactly one response step, and
      no request-error step ran, the counter is back to 0 whatever the order
      the steps ran in. */
  lemma AllSettledIdle(s: seq<Hook>)
    requires Count(s, Request) == Count(s, Response) + Count(s, ResponseError)
    requires Count(s, RequestError) == 0
    ensures Net(s) == 0
  {
    NetCounts(s);
  }

  /** Under the same pairing, with some requests still unanswered, the
      counter is exactly the number of unanswered requests. */
  lemma InFlightCounted(s: seq<Hook>)
    requires Count(s, RequestError) == 0
    requires Count(s, Response) + Count(s, ResponseError) <= Count(s, Request)
    ensures Net(s) == Count(s, Request) - Count(s, Response) - Count(s, ResponseError)
    ensures Net(s) >= 0
  {
    NetCounts(s);
  }

  /** A request hook followed by one response hook, of either kind, leaves the
      counter where it was. */
  lemma RequestThenResponseRestores(s: seq<Hook>, h: Hook)
    requires h == Response || h == ResponseError
    ensures Net(s + [Request, h]) == Net(s)
  {
    NetSnoc(s, Request);
    assert s + [Request, h] == (s + [Request]) + [h];
    NetSnoc(s + [Request], h);
  }

  /** A request whose failure is seen by both the request-error hook and the
      response-error hook lowers the counter once more than it raised it. */
  lemma DoubleRejectionDrifts(s: seq<Hook>)
    ensures Net(s + [Request, RequestError, ResponseError]) == Net(s) - 1
  {
    var tail := [Request, RequestError, ResponseError];
    assert tail[..2] == [Request, RequestError] && tail[..2][..1] == [Request];
    assert [Request][..0] == [];
    NetAppend(s, tail);
  }

  /** Starting idle, that double rejection leaves the counter at -1, so the
      next request, although in flight, brings it only back to 0. */
  lemma DriftHidesNextRequest(s: seq<Hook>)
    requires Net(s) == 0
    ensures Net(s + [Request, RequestError, ResponseError]) == -1
    ensures Net(s + [Request, RequestError, ResponseError, Request]) == 0
  {
    DoubleRejectionDrifts(s);
    assert s + [Request, RequestError, ResponseError, Request]
        == (s + [Request, RequestError, ResponseError]) + [Request];
    NetSnoc(s + [Request, RequestError, ResponseError], Request);
  }
}
