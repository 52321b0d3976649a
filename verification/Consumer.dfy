/**
 A member of a consumer group (nisshi-sans-io/src/consumer.rs, `GroupConsumer`): a machine that takes
 the coordinator's last response and gives the next request. The loop that drives it is in
 nisshi-client/src/consumer.rs.
 */
module Consumer {
  import opened Prelude

  datatype TopicPartition = TopicPartition(topic: string, partitions: seq<i32>)

  datatype MemberAssignment = MemberAssignment(version: i16, assignedPartitions: seq<TopicPartition>, userData: Option<Bytes>)

  datatype Subscription = Subscription(
    topics: seq<string>,
    userData: Option<Bytes>,
    ownedPartitions: Option<seq<TopicPartition>>,
    generationId: Option<i32>,
    rackId: Option<string>)

  datatype MemberMetadata = MemberMetadata(version: i16, subscription: Subscription)

  /** A subscription as it is encoded: each version has the fields of the one before and more. */
  datatype Wire =
    | V0(topics: seq<string>, userData: Option<Bytes>)
    | V1(topics: seq<string>, userData: Option<Bytes>, owned: seq<TopicPartition>)
    | V2(topics: seq<string>, userData: Option<Bytes>, owned: seq<TopicPartition>, generationId: i32)
    | V3(topics: seq<string>, userData: Option<Bytes>, owned: seq<TopicPartition>, generationId: i32, rackId: Option<string>)

  datatype Protocol = Protocol(name: string, metadata: Bytes)

  datatype Member = Member(memberId: string, metadata: Bytes)

  datatype SyncAssignment = SyncAssignment(memberId: string, assignment: Bytes)

  /** What the machine asks the coordinator. */
  datatype Action =
    | JoinGroup(groupId: string, sessionTimeoutMs: i32, rebalanceTimeoutMs: i32, memberId: string, reason: string,
                protocols: seq<Protocol>)
    | SyncGroup(groupId: string, generationId: i32, memberId: string, protocolType: Option<string>, protocolName: Option<string>,
                assignments: seq<SyncAssignment>)
    | Heartbeat(groupId: string, generationId: i32, memberId: string)

  /** What the coordinator answers. */
  datatype Body =
    | JoinGroupResponse(errorCode: i16, generationId: i32, protocolType: Option<string>, protocolName: Option<string>,
                        leader: string, memberId: string, members: seq<Member>)
    | SyncGroupResponse(errorCode: i16, assignment: Bytes)
    | HeartbeatResponse(errorCode: i16)

  datatype MemberState =
    | Outsider(generation: Option<i32>, member: Option<string>, memberAssignment: Option<MemberAssignment>)
    | Follower(generationId: i32, memberId: string, memberAssignment: Option<MemberAssignment>)
    | Leader(generationId: i32, memberId: string, memberAssignment: Option<MemberAssignment>)

  /** The fixed part of a member, with the byte codecs and the assignor that it calls. */
  datatype Env = Env(
    groupId: string,
    topics: seq<string>,
    rebalanceTimeoutMs: i32,
    sessionTimeoutMs: i32,
    encode: Wire -> Result<Bytes, string>,
    read: Bytes -> Option<Wire>,
    decodeAssignment: Bytes -> Result<MemberAssignment, string>,
    assign: (Option<string>, seq<Member>) -> Result<seq<SyncAssignment>, string>)
  {
    /** The encoded metadata reads back as it was. */
    ghost predicate Lawful() {
      forall w :: encode(w).Ok? ==> read(encode(w).value) == Some(w)
    }
  }

  const NOT_COORDINATOR: i16 := 16
  const UNKNOWN_MEMBER_ID: i16 := 25
  const REBALANCE_IN_PROGRESS: i16 := 27
  const MEMBER_ID_REQUIRED: i16 := 79

  const ASSIGNORS := ["range", "roundrobin", "uniform", "cooperative-sticky"]

  // ------------------------------------------------------------------ join requests

  predicate Encodable(version: i16) {
    0 <= version <= 3
  }

  /** The encoding of a subscription drops what its version has no field for. */
  function ToWire(m: MemberMetadata): Wire
    requires Encodable(m.version)
  {
    var s := m.subscription;
    var generationId := if s.generationId.Some? then s.generationId.value else -1;
    match m.version
    case 0 => V0(s.topics, s.userData)
    case 1 => V1(s.topics, s.userData, OrEmpty(s.ownedPartitions))
    case 2 => V2(s.topics, s.userData, OrEmpty(s.ownedPartitions), generationId)
    case _ => V3(s.topics, s.userData, OrEmpty(s.ownedPartitions), generationId, s.rackId)
  }

  /** The version that a join request is encoded at: that of the installed assignment. */
  function ClaimVersion(ma: Option<MemberAssignment>): i16 {
    if ma.Some? then ma.value.version else 3
  }

  function ClaimedPartitions(ma: Option<MemberAssignment>): seq<TopicPartition> {
    if ma.Some? then ma.value.assignedPartitions else []
  }

  /** `join_protocol`. */
  function JoinProtocol(env: Env, name: string, generation: Option<i32>,
                        ma: Option<MemberAssignment>): Result<Protocol, string>
    requires Encodable(ClaimVersion(ma))
  {
    var generationId := if generation.Some? then generation else Some(-1);
    var metadata := MemberMetadata(ClaimVersion(ma), Subscription(env.topics, None, Some(ClaimedPartitions(ma)), generationId, None));
    match env.encode(ToWire(metadata))
    case Err(e) => Err(e)
    case Ok(bytes) => Ok(Protocol(name, bytes))
  }

  /** `join_protocols`, for a list of assignors: all of them, or the first error. */
  function JoinProtocols(env: Env, names: seq<string>, generation: Option<i32>,
                         ma: Option<MemberAssignment>): Result<seq<Protocol>, string>
    requires Encodable(ClaimVersion(ma))
  {
    if names == [] then Ok([])
    else
      match JoinProtocol(env, names[0], generation, ma)
      case Err(e) => Err(e)
      case Ok(first) =>
        match JoinProtocols(env, names[1..], generation, ma)
        case Err(e) => Err(e)
        case Ok(rest) => Ok([first] + rest)
  }

  /** `join_request`. */
  function JoinRequest(env: Env, generation: Option<i32>, member: Option<string>, ma: Option<MemberAssignment>,
                       reason: string)
    : Result<Action, string>
    requires Encodable(ClaimVersion(ma))
  {
    match JoinProtocols(env, ASSIGNORS, generation, ma)
    case Err(e) => Err(e)
    case Ok(protocols) =>
      Ok(JoinGroup(env.groupId, env.sessionTimeoutMs, env.rebalanceTimeoutMs, OrEmpty(member), reason, protocols))
  }

  // ------------------------------------------------------------------ one step

  /** The inputs that the machine handles in a state. The others reach a `todo!` or an `assert!`. */
  predicate Handled(s: MemberState, input: Option<Body>) {
    if s.Outsider? then
      if input.None? then Encodable(ClaimVersion(s.memberAssignment))
      else
        && input.value.JoinGroupResponse?
        && (|| input.value.errorCode == NO_ERROR
            || (input.value.errorCode in {NOT_COORDINATOR, MEMBER_ID_REQUIRED} && Encodable(ClaimVersion(s.memberAssignment))))
    else
      && input.Some?
      && match input.value
         case JoinGroupResponse(_, _, _, _, _, _, _) => false
         case SyncGroupResponse(errorCode, assignment) =>
           || (errorCode == NO_ERROR && assignment != [])
           || (errorCode == REBALANCE_IN_PROGRESS && assignment == [] && Encodable(ClaimVersion(s.memberAssignment)))
         case HeartbeatResponse(errorCode) =>
           || errorCode in {NO_ERROR, UNKNOWN_MEMBER_ID}
           || (errorCode == REBALANCE_IN_PROGRESS && Encodable(ClaimVersion(s.memberAssignment)))
  }

  function WithAssignment(s: MemberState, ma: MemberAssignment): MemberState
    requires !s.Outsider?
  {
    if s.Leader? then Leader(s.generationId, s.memberId, Some(ma)) else Follower(s.generationId, s.memberId, Some(ma))
  }

  /** The state after a handled input. */
  function Transition(env: Env, s: MemberState, input: Option<Body>): MemberState
    requires Handled(s, input)
  {
    if input.None? then s
    else
      match input.value
      case JoinGroupResponse(errorCode, generationId, _, _, leader, memberId, _) =>
        if errorCode == NOT_COORDINATOR then s
        else if errorCode == MEMBER_ID_REQUIRED then s.(generation := Some(generationId), member := Some(memberId))
        else if leader == memberId then Leader(generationId, memberId, None)
        else Follower(generationId, memberId, None)
      case SyncGroupResponse(errorCode, assignment) =>
        if errorCode == NO_ERROR then
          match env.decodeAssignment(assignment)
          case Err(_) => s
          case Ok(ma) => WithAssignment(s, ma)
        else Outsider(None, Some(s.memberId), s.memberAssignment)
      case HeartbeatResponse(errorCode) =>
        if errorCode == UNKNOWN_MEMBER_ID then Outsider(None, None, None)
        else if errorCode == REBALANCE_IN_PROGRESS then Outsider(Some(s.generationId), Some(s.memberId), s.memberAssignment)
        else s
  }

  /** What the machine gives for a handled input: the next request, or an error. */
  function Emitted(env: Env, s: MemberState, input: Option<Body>): Result<Action, string>
    requires Handled(s, input)
  {
    if input.None? then JoinRequest(env, s.generation, s.member, s.memberAssignment, "join")
    else
      match input.value
      case JoinGroupResponse(errorCode, generationId, protocolType, protocolName, leader, memberId, members) =>
        if errorCode == NOT_COORDINATOR then JoinRequest(env, s.generation, s.member, s.memberAssignment, "join")
        else if errorCode == MEMBER_ID_REQUIRED then
          JoinRequest(env, Some(generationId), Some(memberId), s.memberAssignment, "join member id required")
        else if leader == memberId then
          match env.assign(protocolName, members)
          case Err(e) => Err(e)
          case Ok(assignments) => Ok(SyncGroup(env.groupId, generationId, leader, protocolType, protocolName, assignments))
        else Ok(SyncGroup(env.groupId, generationId, memberId, protocolType, protocolName, []))
      case SyncGroupResponse(errorCode, assignment) =>
        if errorCode == NO_ERROR then
          match env.decodeAssignment(assignment)
          case Err(e) => Err(e)
          case Ok(_) => Ok(Heartbeat(env.groupId, s.generationId, s.memberId))
        else JoinRequest(env, None, Some(s.memberId), s.memberAssignment, "join after sync with rebalance")
      case HeartbeatResponse(errorCode) =>
        if errorCode == UNKNOWN_MEMBER_ID then JoinRequest(env, None, None, None, "join after unknown member id")
        else if errorCode == REBALANCE_IN_PROGRESS then
          JoinRequest(env, Some(s.generationId), Some(s.memberId), s.memberAssignment, "join after rebalance")
        else Ok(Heartbeat(env.groupId, s.generationId, s.memberId))
  }

  /** The counters after a handled input: a response raises the counter of its error code. */
  function Counted(errors: map<i16, nat>, input: Option<Body>): map<i16, nat> {
    if input.None? then errors
    else
      var code := input.value.errorCode;
      errors[code := (if code in errors then errors[code] else 0) + 1]
  }

  class GroupConsumer {
    const env: Env
    var memberState: MemberState
    var errors: map<i16, nat>

    constructor (env: Env)
      ensures this.env == env && memberState == Outsider(None, None, None) && errors == map[]
    {
      this.env := env;
      memberState, errors := Outsider(None, None, None), map[];
    }

    method Count(code: i16)
      modifies this`errors
      ensures errors == old(errors)[code := (if code in old(errors) then old(errors)[code] else 0) + 1]
    {
      if code !in errors {
        errors := errors[code := 0];
      }
      errors := errors[code := errors[code] + 1];
    }

    /** `next_action`. */
    method NextAction(input: Option<Body>) returns (r: Result<Action, string>)
      requires Handled(memberState, input)
      modifies this
      ensures memberState == Transition(env, old(memberState), input)
      ensures r == Emitted(env, old(memberState), input)
      ensures errors == Counted(old(errors), input)
    {
      if input.None? {
        return JoinRequest(env, memberState.generation, memberState.member, memberState.memberAssignment, "join");
      }
      match input.value {
        case JoinGroupResponse(_, _, _, _, _, _, _) => r := OnJoin(input.value);
        case SyncGroupResponse(_, _) => r := OnSync(input.value);
        case HeartbeatResponse(_) => r := OnHeartbeat(input.value);
      }
    }

    method OnJoin(body: Body) returns (r: Result<Action, string>)
      requires body.JoinGroupResponse? && Handled(memberState, Some(body))
      modifies this
      ensures memberState == Transition(env, old(memberState), Some(body))
      ensures r == Emitted(env, old(memberState), Some(body))
      ensures errors == Counted(old(errors), Some(body))
    {
      Count(body.errorCode);
      if body.errorCode == NOT_COORDINATOR {
        r := JoinRequest(env, memberState.generation, memberState.member, memberState.memberAssignment, "join");
      } else if body.errorCode == MEMBER_ID_REQUIRED {
        memberState := memberState.(generation := Some(body.generationId));
        memberState := memberState.(member := Some(body.memberId));
        r := JoinRequest(env, memberState.generation, memberState.member, memberState.memberAssignment, "join member id required");
      } else if body.leader == body.memberId {
        memberState := Leader(body.generationId, body.memberId, None);
        var assignments := env.assign(body.protocolName, body.members);
        if assignments.Err? {
          return Err(assignments.error);
        }
        r := Ok(SyncGroup(env.groupId, body.generationId, body.leader, body.protocolType, body.protocolName, assignments.value));
      } else {
        memberState := Follower(body.generationId, body.memberId, None);
        r := Ok(SyncGroup(env.groupId, body.generationId, body.memberId, body.protocolType, body.protocolName, []));
      }
    }

    method OnSync(body: Body) returns (r: Result<Action, string>)
      requires body.SyncGroupResponse? && Handled(memberState, Some(body))
      modifies this
      ensures memberState == Transition(env, old(memberState), Some(body))
      ensures r == Emitted(env, old(memberState), Some(body))
      ensures errors == Counted(old(errors), Some(body))
    {
      Count(body.errorCode);
      if body.errorCode == NO_ERROR {
        var ma := env.decodeAssignment(body.assignment);
        if ma.Err? {
          return Err(ma.error);
        }
        memberState := WithAssignment(memberState, ma.value);
        r := Ok(Heartbeat(env.groupId, memberState.generationId, memberState.memberId));
      } else {
        memberState := Outsider(None, Some(memberState.memberId), memberState.memberAssignment);
        r := JoinRequest(env, None, memberState.member, memberState.memberAssignment, "join after sync with rebalance");
      }
    }

    method OnHeartbeat(body: Body) returns (r: Result<Action, string>)
      requires body.HeartbeatResponse? && Handled(memberState, Some(body))
      modifies this
      ensures memberState == Transition(env, old(memberState), Some(body))
      ensures r == Emitted(env, old(memberState), Some(body))
      ensures errors == Counted(old(errors), Some(body))
    {
      Count(body.errorCode);
      if body.errorCode == UNKNOWN_MEMBER_ID {
        memberState := Outsider(None, None, None);
        r := JoinRequest(env, None, None, None, "join after unknown member id");
      } else if body.errorCode == REBALANCE_IN_PROGRESS {
        memberState := Outsider(Some(memberState.generationId), Some(memberState.memberId), memberState.memberAssignment);
        r := JoinRequest(env, memberState.generation, memberState.member, memberState.memberAssignment, "join after rebalance");
      } else {
        r := Ok(Heartbeat(env.groupId, memberState.generationId, memberState.memberId));
      }
    }
  }
}
