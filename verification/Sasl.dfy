/**
 The SASL stage of one connection (nisshi-auth/src/lib.rs, handshake.rs, authenticate.rs). The SASL
 library is an oracle: it says whether a handshake's mechanism starts an exchange, and what
 each step of an exchange gives.
 */
module Sasl {
  import opened Prelude

  datatype Success = Success(authId: string)

  /** What one step of an exchange gives. A step can finish without a validated identity. */
  datatype StepResult = Failed | Running | Finishes(identity: Option<Success>)

  /** `exchange` is the index of the handshake that opened the exchange. */
  datatype Stage = Server | Session(exchange: nat) | Finished(success: Option<Success>)

  /** A request on the connection, with the oracle's answer to it. */
  datatype Event = Handshake(starts: bool) | Authenticate(step: StepResult)

  const UNSUPPORTED_SASL_MECHANISM: i16 := 33
  const ILLEGAL_SASL_STATE: i16 := 34
  const SASL_AUTHENTICATION_FAILED: i16 := 58

  /** The stage after an event, where `at` is the event's index. */
  function After(stage: Option<Stage>, event: Event, at: nat): Option<Stage> {
    match event
    case Handshake(starts) => if starts then Some(Session(at)) else None
    case Authenticate(step) =>
      if stage.Some? && stage.value.Session? then
        match step
        case Failed => None
        case Running => stage
        case Finishes(identity) => Some(Finished(identity))
      else None
  }

  function StageAfter(events: seq<Event>): Option<Stage> {
    if events == [] then Some(Server)
    else
      var n := |events| - 1;
      After(StageAfter(events[..n]), events[n], n)
  }

  /** The error code of the response to an event. */
  function Answer(stage: Option<Stage>, event: Event): i16 {
    match event
    case Handshake(starts) => if starts then NO_ERROR else UNSUPPORTED_SASL_MECHANISM
    case Authenticate(step) =>
      if stage.Some? && stage.value.Session? then if step.Failed? then SASL_AUTHENTICATION_FAILED else NO_ERROR
      else ILLEGAL_SASL_STATE
  }

  predicate Authenticated(stage: Option<Stage>) {
    stage.Some? && stage.value.Finished? && stage.value.success.Some?
  }

  // ------------------------------------------------------------------ the services

  class AuthenticationExtension {
    var stage: Option<Stage>

    /** `server`. */
    constructor ()
      ensures stage == Some(Server)
    {
      stage := Some(Server);
    }

    /** `is_authenticated`. */
    method IsAuthenticated() returns (r: bool)
      ensures r <==> Authenticated(stage)
    {
      match stage
      case Some(Finished(Some(_))) => r := true;
      case _ => r := false;
    }

    /**
     `SaslHandshakeService::serve`. A stage that is left from an earlier exchange gives way to a fresh
     server, which is then taken. `closes` is whether the connection is to end after the response.
     */
    method ServeHandshake(starts: bool, at: nat) returns (code: i16, closes: bool)
      modifies this
      ensures stage == After(old(stage), Handshake(starts), at)
      ensures code == Answer(old(stage), Handshake(starts))
      ensures code == (if starts then 0 else 33) && (closes <==> !starts)
    {
      if stage.None? || !stage.value.Server? {
        stage := Some(Server);
      }
      stage := None;
      if starts {
        stage := Some(Session(at));
        code, closes := NO_ERROR, false;
      } else {
        code, closes := UNSUPPORTED_SASL_MECHANISM, true;
      }
    }

    /** `SaslAuthenticateService::serve`. */
    method ServeAuthenticate(step: StepResult, at: nat) returns (code: i16)
      modifies this
      ensures stage == After(old(stage), Authenticate(step), at)
      ensures code == Answer(old(stage), Authenticate(step))
    {
      match stage
      case Some(Session(_)) =>
        if step.Failed? {
          stage := None;
          return SASL_AUTHENTICATION_FAILED;
        }
        if step.Finishes? {
          stage := Some(Finished(step.identity));
        }
        code := NO_ERROR;
      case _ =>
        stage := None;
        code := ILLEGAL_SASL_STATE;
    }
  }

  // ------------------------------------------------------------------ every run

  /** Handshake `j` opened an exchange, and every event after it, before `n`, was a step that went on. */
  ghost predicate Open(events: seq<Event>, n: nat, j: nat)
    requires n <= |events|
  {
    j < n && events[j] == Handshake(true) && forall k :: j < k < n ==> events[k] == Authenticate(Running)
  }

  /** An exchange is under way exactly if the latest handshake opened it and every step since went on. */
  lemma {:induction false} SessionIff(events: seq<Event>, n: nat, j: nat)
    requires n <= |events|
    ensures StageAfter(events[..n]) == Some(Session(j)) <==> Open(events, n, j)
  {
    if n > 0 {
      SessionIff(events, n - 1, j);
      assert events[..n][..n - 1] == events[..n - 1];
    }
  }

  ghost predicate InExchange(events: seq<Event>, n: nat)
    requires n <= |events|
  {
    exists j: nat :: Open(events, n, j)
  }

  lemma InExchangeIff(events: seq<Event>, n: nat)
    requires n <= |events|
    ensures
      var stage := StageAfter(events[..n]);
      stage.Some? && stage.value.Session? <==> InExchange(events, n)
  {
    var stage := StageAfter(events[..n]);
    if stage.Some? && stage.value.Session? {
      SessionIff(events, n, stage.value.exchange);
    }
    if j: nat :| Open(events, n, j) {
      SessionIff(events, n, j);
    }
  }

  /**
   In every run, the connection counts as authenticated exactly if the last event was an
   authenticate step that finished with a validated identity, in the exchange that the most recent
   handshake opened.
   */
  lemma AuthenticatedIff(events: seq<Event>)
    ensures Authenticated(StageAfter(events)) <==>
            && events != []
            && var n := |events| - 1;
               && events[n].Authenticate? && events[n].step.Finishes? && events[n].step.identity.Some?
               && InExchange(events, n)
  {
    if events != [] {
      InExchangeIff(events, |events| - 1);
    }
  }

  /** In every run, any event after an authentication ends it. */
  lemma NextEventEnds(events: seq<Event>, n: nat)
    requires n < |events| && Authenticated(StageAfter(events[..n]))
    ensures !Authenticated(StageAfter(events[..n + 1]))
  {
    assert events[..n + 1][..n] == events[..n];
  }

  /** In every run, the initial server stage does not recur after the first event. */
  lemma ServerOnlyAtStart(events: seq<Event>)
    ensures StageAfter(events) == Some(Server) <==> events == []
  {
    if events != [] {
      var n := |events| - 1;
      assert StageAfter(events) == After(StageAfter(events[..n]), events[n], n);
    }
  }

  /**
   In every run, a handshake gets code 33 if its mechanism starts no exchange. An authenticate request gets
   code 34 if no exchange is open, and code 58 if one is and the step fails. There is no other error.
   */
  lemma AnswerCodes(events: seq<Event>, n: nat)
    requires n < |events|
    ensures
      var code := Answer(StageAfter(events[..n]), events[n]);
      && code in {0, 33, 34, 58}
      && (code == 33 <==> events[n] == Handshake(false))
      && (code == 34 <==> events[n].Authenticate? && !InExchange(events, n))
      && (code == 58 <==> events[n] == Authenticate(Failed) && InExchange(events, n))
  {
    InExchangeIff(events, n);
  }

  /** In every run, an authenticate request gets no error code exactly if it is a step of an open exchange that does not fail. */
  lemma AcceptedIff(events: seq<Event>, n: nat)
    requires n < |events| && events[n].Authenticate?
    ensures Answer(StageAfter(events[..n]), events[n]) == NO_ERROR <==> !events[n].step.Failed? && InExchange(events, n)
  {
    InExchangeIff(events, n);
  }
}
