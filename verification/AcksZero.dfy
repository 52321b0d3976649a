/**
 A Produce that wants no response (nisshi-proxy/src/acks_zero.rs), and the marker through which
 it tells its connection not to write one (nisshi-sans-io/src/input.rs, nisshi-service/src/stream.rs).
 */
module AcksZero {
  import opened Prelude
  import opened Requests
  import opened FanOut

  // ------------------------------------------------------------------ the failure search

  function FirstFailing(rows: seq<Answered>): (failure: Option<Answered>)
    ensures failure.None? <==> forall i :: 0 <= i < |rows| ==> rows[i].row.errorCode == NO_ERROR
    ensures failure.Some? ==>
              exists i :: 0 <= i < |rows| && rows[i] == failure.value && rows[i].row.errorCode != NO_ERROR
                          && forall j :: 0 <= j < i ==> rows[j].row.errorCode == NO_ERROR
  {
    if rows == [] then None
    else if rows[0].row.errorCode != NO_ERROR then Some(rows[0])
    else
      var rest := FirstFailing(rows[1..]);
      assert rest.Some? ==> exists i :: 0 <= i < |rows[1..]| && rows[1..][i] == rest.value && rows[1 + i] == rest.value
                                        && rows[1 + i].row.errorCode != NO_ERROR
                                        && forall j :: 0 <= j < i ==> rows[1..][j].row.errorCode == NO_ERROR;
      rest
  }

  ghost predicate Succeeds(response: ProduceResponse) {
    forall i :: 0 <= i < |Rows(response)| ==> Rows(response)[i].row.errorCode == NO_ERROR
  }

  // ------------------------------------------------------------------ the layer

  /** The request that the layer passes on. An `acks=0` request goes at `acks=1`. */
  function ToOrigin(request: ProduceRequest): (r: ProduceRequest)
    ensures r.acks != ACKS_NONE
    ensures r == request.(acks := r.acks)
    ensures r == request <==> request.acks != ACKS_NONE
    ensures request.acks == ACKS_NONE ==> r.acks == ACKS_LEADER
  {
    if request.acks != ACKS_NONE then request else request.(acks := ACKS_LEADER)
  }

  /** The response to `request` is to be suppressed, given what the layers below answered. */
  ghost predicate Suppresses(request: ProduceRequest, outcome: Result<ProduceResponse, string>) {
    request.acks == ACKS_NONE && outcome.Ok? && Succeeds(outcome.value)
  }

  /** Serving `request` ends its connection. */
  ghost predicate Ends(request: ProduceRequest, outcome: Result<ProduceResponse, string>) {
    outcome.Err? || (request.acks == ACKS_NONE && !Succeeds(outcome.value))
  }

  /**
   A flag that a handler sets and the connection's loop takes. A connection has two of them: one
   suppresses the response to a request, the other closes the connection after it.
   */
  class ResponseMarker {
    var marked: bool

    constructor ()
      ensures !marked
    {
      marked := false;
    }

    method Mark()
      modifies this
      ensures marked
    {
      marked := true;
    }

    method Take() returns (was: bool)
      modifies this
      ensures was == old(marked) && !marked
    {
      was := marked;
      marked := false;
    }
  }

  /** `AcksZeroService::serve`, where `outcome` is what the layers below answer to `passed`. */
  method Serve(marker: ResponseMarker, request: ProduceRequest, outcome: Result<ProduceResponse, string>)
    returns (passed: ProduceRequest, result: Result<ProduceResponse, string>)
    modifies marker
    ensures passed == ToOrigin(request)
    ensures result.Err? <==> Ends(request, outcome)
    ensures result.Ok? ==> result == outcome
    ensures marker.marked <==> old(marker.marked) || Suppresses(request, outcome)
  {
    passed := ToOrigin(request);
    if request.acks != ACKS_NONE || outcome.Err? {
      result := outcome;
      return;
    }
    var failure := FirstFailing(Rows(outcome.value));
    if failure.Some? {
      result := Err("acks=0 produce failed");
    } else {
      marker.Mark();
      result := outcome;
    }
  }

  // ------------------------------------------------------------------ the connection

  /**
   One request of a connection: a Produce, or another, whose handler never suppresses the response but
   may ask to close. `writes` is whether the response, if there is one, can be written.
   */
  datatype Exchange =
    | Produce(request: ProduceRequest, outcome: Result<ProduceResponse, string>, writes: bool)
    | Other(ok: bool, closes: bool, writes: bool)

  ghost predicate Suppressed(e: Exchange) {
    e.Produce? && Suppresses(e.request, e.outcome)
  }

  /** Serving the request fails, which ends the connection before the marker is taken. */
  ghost predicate Fatal(e: Exchange) {
    if e.Produce? then Ends(e.request, e.outcome) else !e.ok
  }

  /** The request is served, and the connection ends after it. */
  ghost predicate Last(e: Exchange) {
    (!Suppressed(e) && !e.writes) || (e.Other? && e.closes)
  }

  /** What the layers below get of `exchanges`. */
  function Passed(exchanges: seq<Exchange>): (passed: seq<ProduceRequest>)
    ensures forall k :: 0 <= k < |passed| ==> passed[k].acks != ACKS_NONE
  {
    if exchanges == [] then []
    else
      var n := |exchanges| - 1;
      if exchanges[n].Produce? then Passed(exchanges[..n]) + [ToOrigin(exchanges[n].request)] else Passed(exchanges[..n])
  }

  /** One request after another: what two runs of exchanges pass on is passed on in that order. */
  lemma {:induction false} PassedConcat(a: seq<Exchange>, b: seq<Exchange>)
    ensures Passed(a + b) == Passed(a) + Passed(b)
  {
    if b == [] {
      assert a + b == a;
    } else {
      var n := |b| - 1;
      assert (a + b)[..|a| + n] == a + b[..n];
      PassedConcat(a, b[..n]);
    }
  }

  /** Every Produce is passed on, with nothing but its acks changed, and nothing else is. */
  lemma PassedOne(e: Exchange)
    ensures Passed([e]) == if e.Produce? then [e.request.(acks := if e.request.acks == 0 then 1 else e.request.acks)] else []
  {
    assert [e][..0] == [];
  }

  /**
   The loop of a connection. `taken[k]` is what the marker reports after request `k`, `served` is the
   number of requests that went to a handler, and `passed` is what went to the layers below.
   */
  method ServeConnection(exchanges: seq<Exchange>) returns (taken: seq<bool>, served: nat, passed: seq<ProduceRequest>)
    ensures |taken| <= served <= |exchanges| && served <= |taken| + 1
    ensures forall k :: 0 <= k < |taken| ==> !Fatal(exchanges[k]) && (taken[k] <==> Suppressed(exchanges[k]))
    ensures forall k :: 0 <= k < |taken| - 1 ==> !Last(exchanges[k])
    ensures served > |taken| ==> Fatal(exchanges[|taken|])
    ensures served == |taken| < |exchanges| ==> |taken| > 0 && Last(exchanges[|taken| - 1])
    ensures passed == Passed(exchanges[..served])
  {
    var suppress := new ResponseMarker();
    var close := new ResponseMarker();
    taken, served, passed := [], 0, [];
    while served < |exchanges|
      invariant served == |taken| <= |exchanges|
      invariant !suppress.marked && !close.marked && suppress != close
      invariant forall j :: 0 <= j < |taken| ==> !Fatal(exchanges[j]) && (taken[j] <==> Suppressed(exchanges[j]))
      invariant forall j :: 0 <= j < |taken| ==> !Last(exchanges[j])
      invariant passed == Passed(exchanges[..served])
    {
      var e := exchanges[served];
      served := served + 1;
      assert exchanges[..served][..served - 1] == exchanges[..served - 1];
      match e {
        case Produce(request, outcome, _) =>
          var forwarded, result := Serve(suppress, request, outcome);
          passed := passed + [forwarded];
          if result.Err? {
            return;
          }
        case Other(ok, closes, _) =>
          if closes {
            close.Mark();
          }
          if !ok {
            return;
          }
      }
      var was := suppress.Take();
      taken := taken + [was];
      if !was && !e.writes {
        return;
      }
      var closing := close.Take();
      if closing {
        return;
      }
    }
  }
}
