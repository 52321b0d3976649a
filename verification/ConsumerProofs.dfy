/**
 What every run of a group member keeps (nisshi-sans-io/src/consumer.rs:584-1002,
 nisshi-client/src/consumer.rs:94-137). In a run each response answers the request before it, and
 each input is one that the machine handles.
 */
module ConsumerProofs {
  import opened Prelude
  import opened Consumer

  /** `inputs[i]` took the member from `states[i]` to `states[i + 1]` and gave `results[i]`. */
  datatype Run = Run(inputs: seq<Option<Body>>, states: seq<MemberState>, results: seq<Result<Action, string>>)

  predicate Matches(action: Action, body: Body) {
    match action
    case JoinGroup(_, _, _, _, _, _) => body.JoinGroupResponse?
    case SyncGroup(_, _, _, _, _, _) => body.SyncGroupResponse?
    case Heartbeat(_, _, _) => body.HeartbeatResponse?
  }

  /** The driver starts without an input, ends at the first error, and answers each request with its response. */
  predicate Follows(run: Run, i: nat)
    requires i < |run.inputs| == |run.results|
  {
    if i == 0 then run.inputs[0].None?
    else run.results[i - 1].Ok? && run.inputs[i].Some? && Matches(run.results[i - 1].value, run.inputs[i].value)
  }

  ghost predicate IsRun(env: Env, run: Run) {
    && |run.states| == |run.inputs| + 1 == |run.results| + 1
    && run.states[0] == Outsider(None, None, None)
    && forall i :: 0 <= i < |run.inputs| ==>
         && Follows(run, i)
         && Handled(run.states[i], run.inputs[i])
         && run.states[i + 1] == Transition(env, run.states[i], run.inputs[i])
         && run.results[i] == Emitted(env, run.states[i], run.inputs[i])
  }

  /** The counters after all of `inputs`. */
  function CountedAll(errors: map<i16, nat>, inputs: seq<Option<Body>>): map<i16, nat> {
    if inputs == [] then errors
    else
      var n := |inputs| - 1;
      Counted(CountedAll(errors, inputs[..n]), inputs[n])
  }

  /** The loop of `ConsumerGroupService::serve`, on the responses of a run. */
  method Drive(consumer: GroupConsumer, responses: seq<Body>,
               ghost run: Run) returns (results: seq<Result<Action, string>>)
    requires consumer.memberState == Outsider(None, None, None)
    requires IsRun(consumer.env, run) && |run.inputs| == |responses| + 1
    requires forall i :: 0 <= i < |responses| ==> run.inputs[i + 1] == Some(responses[i])
    modifies consumer
    ensures results == run.results
    ensures consumer.memberState == run.states[|run.inputs|]
    ensures consumer.errors == CountedAll(old(consumer.errors), run.inputs)
  {
    var input := None;
    results := [];
    var i := 0;
    assert Follows(run, 0);
    while i <= |responses|
      invariant 0 <= i <= |run.inputs|
      invariant i < |run.inputs| ==> input == run.inputs[i]
      invariant consumer.memberState == run.states[i]
      invariant results == run.results[..i]
      invariant consumer.errors == CountedAll(old(consumer.errors), run.inputs[..i])
    {
      var r := consumer.NextAction(input);
      results := results + [r];
      assert run.inputs[..i + 1][..i] == run.inputs[..i];
      if i < |responses| {
        input := Some(responses[i]);
      }
      i := i + 1;
    }
    assert run.inputs[..i] == run.inputs && run.results[..i] == run.results;
  }

  // ------------------------------------------------------------------ outstanding requests

  ghost predicate Outstanding(action: Action, s: MemberState) {
    match action
    case JoinGroup(_, _, _, _, _, _) => s.Outsider?
    case SyncGroup(_, generationId, memberId, _, _, _) =>
      !s.Outsider? && s.memberAssignment.None? && generationId == s.generationId && memberId == s.memberId
    case Heartbeat(_, generationId, memberId) =>
      !s.Outsider? && s.memberAssignment.Some? && generationId == s.generationId && memberId == s.memberId
  }

  lemma StepOutstanding(env: Env, s: MemberState, input: Option<Body>, last: Action)
    requires Handled(s, input) && Emitted(env, s, input).Ok?
    requires input.None? ==> s.Outsider?
    requires input.Some? ==> Outstanding(last, s) && Matches(last, input.value)
    ensures Outstanding(Emitted(env, s, input).value, Transition(env, s, input))
  {
  }

  /**
   In every run, a JoinGroup is outstanding exactly while the member is an outsider, a SyncGroup only
   while no assignment is installed, and a Heartbeat only while one is. A SyncGroup and a Heartbeat
   have the generation and the member id of the state.
   */
  lemma {:induction false} RunOutstanding(env: Env, run: Run, i: nat)
    requires IsRun(env, run) && i < |run.inputs| && run.results[i].Ok?
    ensures Outstanding(run.results[i].value, run.states[i + 1])
    ensures run.results[i].value.JoinGroup? <==> run.states[i + 1].Outsider?
  {
    assert Follows(run, i);
    if i > 0 {
      RunOutstanding(env, run, i - 1);
      StepOutstanding(env, run.states[i], run.inputs[i], run.results[i - 1].value);
    } else {
      StepOutstanding(env, run.states[0], None, Heartbeat("", 0, ""));
    }
  }

  // ------------------------------------------------------------------ the latest join

  predicate Joins(input: Option<Body>) {
    input.Some? && input.value.JoinGroupResponse? && input.value.errorCode == NO_ERROR
  }

  /** Input `j` is the latest successful join up to input `i`. */
  ghost predicate LatestJoin(run: Run, i: nat, j: nat)
    requires i < |run.inputs|
  {
    j <= i && Joins(run.inputs[j]) && forall k :: j < k <= i ==> !Joins(run.inputs[k])
  }

  lemma StepGeneration(env: Env, s: MemberState, input: Option<Body>)
    requires Handled(s, input)
    ensures
      var next := Transition(env, s, input);
      !next.Outsider? ==>
        if Joins(input) then next.generationId == input.value.generationId && next.memberId == input.value.memberId
        else !s.Outsider? && next.generationId == s.generationId && next.memberId == s.memberId
  {
  }

  /** A member that is not an outsider has the generation and the member id of the latest successful join. */
  lemma {:induction false} RunGeneration(env: Env, run: Run, i: nat) returns (j: nat)
    requires IsRun(env, run) && i < |run.inputs| && !run.states[i + 1].Outsider?
    ensures LatestJoin(run, i, j)
    ensures
      var s, join := run.states[i + 1], run.inputs[j].value;
      s.generationId == join.generationId && s.memberId == join.memberId
  {
    StepGeneration(env, run.states[i], run.inputs[i]);
    if Joins(run.inputs[i]) {
      j := i;
    } else {
      j := RunGeneration(env, run, i - 1);
    }
  }

  /** In every run, a SyncGroup and a Heartbeat have the generation and the member id of the latest successful join. */
  lemma RunCarriesLatestJoin(env: Env, run: Run, i: nat)
    requires IsRun(env, run) && i < |run.inputs| && run.results[i].Ok? && !run.results[i].value.JoinGroup?
    ensures exists j: nat :: LatestJoin(run, i, j)
                        && run.results[i].value.generationId == run.inputs[j].value.generationId
                        && run.results[i].value.memberId == run.inputs[j].value.memberId
  {
    RunOutstanding(env, run, i);
    var j := RunGeneration(env, run, i);
    assert LatestJoin(run, i, j);
  }

  /**
   In every run, a SyncGroup follows a successful join at once. It has the join's protocol, and the
   leader sends what its assignor assigns to the join's members while the others send nothing.
   */
  lemma RunSyncs(env: Env, run: Run, i: nat)
    requires IsRun(env, run) && i < |run.inputs| && run.results[i].Ok? && run.results[i].value.SyncGroup?
    ensures Joins(run.inputs[i])
    ensures
      var sync, join := run.results[i].value, run.inputs[i].value;
      && sync.groupId == env.groupId
      && sync.protocolType == join.protocolType && sync.protocolName == join.protocolName
      && (run.states[i + 1].Leader? <==> join.leader == join.memberId)
      && Ok(sync.assignments) == if run.states[i + 1].Leader? then env.assign(join.protocolName, join.members) else Ok([])
  {
    assert Follows(run, i);
  }

  // ------------------------------------------------------------------ claims

  /** The assignment that the input installs. */
  function Installs(env: Env, input: Option<Body>): Option<MemberAssignment> {
    if input.Some? && input.value.SyncGroupResponse? && input.value.errorCode == NO_ERROR then
      match env.decodeAssignment(input.value.assignment)
      case Ok(ma) => Some(ma)
      case Err(_) => None
    else None
  }

  /** The input takes an installed assignment away: a successful join, or an unknown member id. */
  predicate Revokes(input: Option<Body>) {
    Joins(input) || (input.Some? && input.value.HeartbeatResponse? && input.value.errorCode == UNKNOWN_MEMBER_ID)
  }

  /** Input `j` installed `ma`, and no input after it, up to `i`, took it away or installed another. */
  ghost predicate InstalledBy(env: Env, run: Run, i: nat, j: nat, ma: MemberAssignment)
    requires i < |run.inputs|
  {
    && j <= i && Installs(env, run.inputs[j]) == Some(ma)
    && forall k :: j < k <= i ==> !Revokes(run.inputs[k]) && Installs(env, run.inputs[k]).None?
  }

  lemma StepAssignment(env: Env, s: MemberState, input: Option<Body>)
    requires Handled(s, input)
    ensures Transition(env, s, input).memberAssignment
            == if Revokes(input) then None else if Installs(env, input).Some? then Installs(env, input) else s.memberAssignment
  {
  }

  /**
   In every run, the assignment of a member is the one that the last successful sync installed, unless it
   was taken away since.
   */
  lemma {:induction false} RunInstalled(env: Env, run: Run, i: nat, ma: MemberAssignment)
    requires IsRun(env, run) && i < |run.inputs|
    ensures run.states[i + 1].memberAssignment == Some(ma) <==> exists j: nat :: InstalledBy(env, run, i, j, ma)
  {
    StepAssignment(env, run.states[i], run.inputs[i]);
    if i > 0 {
      var h := i - 1;
      RunInstalled(env, run, h, ma);
      InstalledStep(env, run, h, i, ma);
    } else {
      assert Follows(run, 0);
    }
  }

  lemma InstalledStep(env: Env, run: Run, h: nat, i: nat, ma: MemberAssignment)
    requires i == h + 1 < |run.inputs|
    ensures (exists j: nat :: InstalledBy(env, run, i, j, ma)) <==>
            || Installs(env, run.inputs[i]) == Some(ma)
            || ((exists j: nat :: InstalledBy(env, run, h, j, ma)) && !Revokes(run.inputs[i]) && Installs(env, run.inputs[i]).None?)
  {
    if Installs(env, run.inputs[i]) == Some(ma) {
      assert InstalledBy(env, run, i, i, ma);
    }
    if j: nat :| InstalledBy(env, run, i, j, ma) {
      assert j < i ==> InstalledBy(env, run, h, j, ma);
    }
    if j: nat :| InstalledBy(env, run, h, j, ma) {
      assert !Revokes(run.inputs[i]) && Installs(env, run.inputs[i]).None? ==> InstalledBy(env, run, i, j, ma);
    }
  }

  function Owned(w: Wire): seq<TopicPartition> {
    if w.V0? then [] else w.owned
  }

  function VersionOf(w: Wire): i16 {
    match w
    case V0(_, _) => 0
    case V1(_, _, _) => 1
    case V2(_, _, _, _) => 2
    case V3(_, _, _, _, _) => 3
  }

  function GenerationOf(w: Wire): Option<i32> {
    if w.V0? || w.V1? then None else Some(w.generationId)
  }

  /**
   What an encoded subscription says of `generation` and `ma`. Version 0 has no owned partitions, and
   version 1 has no generation.
   */
  predicate WireClaims(env: Env, w: Wire, generation: Option<i32>, ma: Option<MemberAssignment>) {
    && VersionOf(w) == ClaimVersion(ma)
    && w.topics == env.topics && w.userData.None? && (w.V3? ==> w.rackId.None?)
    && Owned(w) == (if ClaimVersion(ma) == 0 then [] else ClaimedPartitions(ma))
    && GenerationOf(w) == if ClaimVersion(ma) < 2 then None else if generation.Some? then generation else Some(-1)
  }

  /** A join request offers every assignor, with the same claim for each. */
  ghost predicate Claims(env: Env, action: Action, generation: Option<i32>, member: Option<string>,
                         ma: Option<MemberAssignment>) {
    && action.JoinGroup?
    && action.groupId == env.groupId
    && action.sessionTimeoutMs == env.sessionTimeoutMs && action.rebalanceTimeoutMs == env.rebalanceTimeoutMs
    && action.memberId == OrEmpty(member)
    && |action.protocols| == |ASSIGNORS|
    && forall k :: 0 <= k < |ASSIGNORS| ==>
         && action.protocols[k].name == ASSIGNORS[k]
         && env.read(action.protocols[k].metadata).Some?
         && WireClaims(env, env.read(action.protocols[k].metadata).value, generation, ma)
  }

  lemma {:induction false} ProtocolsClaim(env: Env, names: seq<string>, generation: Option<i32>,
                                          ma: Option<MemberAssignment>)
    requires env.Lawful() && Encodable(ClaimVersion(ma)) && JoinProtocols(env, names, generation, ma).Ok?
    ensures
      var protocols := JoinProtocols(env, names, generation, ma).value;
      && |protocols| == |names|
      && forall k :: 0 <= k < |names| ==>
           && protocols[k].name == names[k]
           && env.read(protocols[k].metadata).Some?
           && WireClaims(env, env.read(protocols[k].metadata).value, generation, ma)
  {
    if names != [] {
      ProtocolsClaim(env, names[1..], generation, ma);
    }
  }

  lemma RequestClaims(env: Env, generation: Option<i32>, member: Option<string>, ma: Option<MemberAssignment>,
                      reason: string)
    requires env.Lawful() && Encodable(ClaimVersion(ma)) && JoinRequest(env, generation, member, ma, reason).Ok?
    ensures Claims(env, JoinRequest(env, generation, member, ma, reason).value, generation, member, ma)
  {
    ProtocolsClaim(env, ASSIGNORS, generation, ma);
  }

  /** A step that gives a join request claims what the state after it has. */
  lemma StepClaims(env: Env, s: MemberState, input: Option<Body>)
    requires env.Lawful() && Handled(s, input)
    requires Emitted(env, s, input).Ok? && Emitted(env, s, input).value.JoinGroup?
    ensures
      var next := Transition(env, s, input);
      next.Outsider? && Claims(env, Emitted(env, s, input).value, next.generation, next.member, next.memberAssignment)
  {
    var next := Transition(env, s, input);
    var reason := Emitted(env, s, input).value.reason;
    assert next.Outsider?;
    assert Emitted(env, s, input) == JoinRequest(env, next.generation, next.member, next.memberAssignment, reason);
    RequestClaims(env, next.generation, next.member, next.memberAssignment, reason);
  }

  /**
   In every run, a JoinGroup has the member id and the generation of the state, and it claims the
   partitions that the last successful sync installed, if they were not taken away since: all of
   them if that assignment has version 1 or above, and none if it has version 0.
   */
  lemma RunClaims(env: Env, run: Run, i: nat, j: nat, ma: MemberAssignment, k: nat)
    requires env.Lawful() && IsRun(env, run) && i < |run.inputs| && k < |ASSIGNORS|
    requires run.results[i].Ok? && run.results[i].value.JoinGroup?
    requires InstalledBy(env, run, i, j, ma)
    ensures Claims(env, run.results[i].value, run.states[i + 1].generation, run.states[i + 1].member, Some(ma))
    ensures
      var w := env.read(run.results[i].value.protocols[k].metadata).value;
      Owned(w) == ma.assignedPartitions <==> ma.version != 0 || ma.assignedPartitions == []
  {
    RunInstalled(env, run, i, ma);
    StepClaims(env, run.states[i], run.inputs[i]);
  }

  /** In every run, a JoinGroup with no assignment installed claims nothing. */
  lemma RunClaimsNothing(env: Env, run: Run, i: nat, k: nat)
    requires env.Lawful() && IsRun(env, run) && i < |run.inputs| && k < |ASSIGNORS|
    requires run.results[i].Ok? && run.results[i].value.JoinGroup?
    requires forall j: nat, ma :: !InstalledBy(env, run, i, j, ma)
    ensures Claims(env, run.results[i].value, run.states[i + 1].generation, run.states[i + 1].member, None)
    ensures Owned(env.read(run.results[i].value.protocols[k].metadata).value) == []
  {
    StepClaims(env, run.states[i], run.inputs[i]);
    if run.states[i + 1].memberAssignment.Some? {
      RunInstalled(env, run, i, run.states[i + 1].memberAssignment.value);
      assert false;
    }
  }

  /** In every run, a JoinGroup right after an unknown member id starts afresh. */
  lemma RunForgets(env: Env, run: Run, i: nat, k: nat)
    requires env.Lawful() && IsRun(env, run) && i < |run.inputs| && k < |ASSIGNORS|
    requires run.inputs[i] == Some(HeartbeatResponse(UNKNOWN_MEMBER_ID)) && run.results[i].Ok?
    ensures run.results[i].value.JoinGroup? && run.results[i].value.memberId == ""
    ensures |run.results[i].value.protocols| == |ASSIGNORS|
    ensures
      var w := env.read(run.results[i].value.protocols[k].metadata);
      w.Some? && Owned(w.value) == [] && GenerationOf(w.value) == Some(-1)
  {
    assert !run.states[i].Outsider?;
    StepClaims(env, run.states[i], run.inputs[i]);
  }

  // ------------------------------------------------------------------ whom a join request speaks for

  /** The input lets the member join again. */
  predicate Rejoins(input: Option<Body>) {
    || input.None?
    || (input.value.JoinGroupResponse? && input.value.errorCode in {NOT_COORDINATOR, MEMBER_ID_REQUIRED})
    || (input.value.SyncGroupResponse? && input.value.errorCode == REBALANCE_IN_PROGRESS)
    || (input.value.HeartbeatResponse? && input.value.errorCode in {UNKNOWN_MEMBER_ID, REBALANCE_IN_PROGRESS})
  }

  /** Every encoded subscription of the request has that generation, if its version has room for one. */
  ghost predicate SpeaksFor(env: Env, action: Action, member: string, generation: i32) {
    && action.JoinGroup? && action.memberId == member
    && |action.protocols| == |ASSIGNORS|
    && forall k :: 0 <= k < |ASSIGNORS| ==>
         && env.read(action.protocols[k].metadata).Some?
         && var w := env.read(action.protocols[k].metadata).value;
            GenerationOf(w) == if VersionOf(w) < 2 then None else Some(generation)
  }

  lemma ClaimsSpeaks(env: Env, action: Action, generation: Option<i32>, member: Option<string>,
                     ma: Option<MemberAssignment>)
    requires Claims(env, action, generation, member, ma)
    ensures SpeaksFor(env, action, if member.Some? then member.value else "", if generation.Some? then generation.value else -1)
  {
  }

  lemma RunJoinClaims(env: Env, run: Run, i: nat)
    requires env.Lawful() && IsRun(env, run) && i < |run.inputs| && Rejoins(run.inputs[i]) && run.results[i].Ok?
    ensures run.states[i + 1].Outsider?
    ensures
      var s := run.states[i + 1];
      SpeaksFor(env, run.results[i].value, if s.member.Some? then s.member.value else "",
                if s.generation.Some? then s.generation.value else -1)
  {
    StepClaims(env, run.states[i], run.inputs[i]);
    var s := run.states[i + 1];
    ClaimsSpeaks(env, run.results[i].value, s.generation, s.member, s.memberAssignment);
  }

  /** The first JoinGroup of a run has no member id yet, and no generation. */
  lemma RunJoinsFirst(env: Env, run: Run)
    requires env.Lawful() && IsRun(env, run) && |run.inputs| > 0 && run.results[0].Ok?
    ensures SpeaksFor(env, run.results[0].value, "", -1) && run.results[0].value.reason == "join"
  {
    assert Follows(run, 0);
    RunJoinClaims(env, run, 0);
  }

  /** After MEMBER_ID_REQUIRED, the JoinGroup has the member id and the generation that came with it. */
  lemma RunJoinsAsRequired(env: Env, run: Run, i: nat)
    requires env.Lawful() && IsRun(env, run) && i < |run.inputs| && run.results[i].Ok?
    requires run.inputs[i].Some? && run.inputs[i].value.JoinGroupResponse? && run.inputs[i].value.errorCode == MEMBER_ID_REQUIRED
    ensures SpeaksFor(env, run.results[i].value, run.inputs[i].value.memberId, run.inputs[i].value.generationId)
    ensures run.results[i].value.reason == "join member id required"
  {
    assert Handled(run.states[i], run.inputs[i]);
    RunJoinClaims(env, run, i);
  }

  /** After NOT_COORDINATOR, the JoinGroup is for whom the one before was for. */
  lemma RunJoinsAgain(env: Env, run: Run, i: nat)
    requires env.Lawful() && IsRun(env, run) && 0 < i < |run.inputs| && run.results[i].Ok?
    requires run.inputs[i].Some? && run.inputs[i].value.JoinGroupResponse? && run.inputs[i].value.errorCode == NOT_COORDINATOR
    ensures run.results[i - 1].Ok? && run.results[i - 1].value.JoinGroup?
    ensures run.results[i].value.JoinGroup? && run.results[i].value.reason == "join"
    ensures run.results[i].value == run.results[i - 1].value.(reason := "join")
  {
    assert Follows(run, i);
    var h := i - 1;
    assert Handled(run.states[i], run.inputs[i]) && Handled(run.states[h], run.inputs[h]);
    SameRequest(env, run.states[h], run.inputs[h]);
  }

  /** Asking again from the state after a join request gives the same request but for its reason. */
  lemma SameRequest(env: Env, s: MemberState, input: Option<Body>)
    requires Handled(s, input) && Emitted(env, s, input).Ok? && Emitted(env, s, input).value.JoinGroup?
    ensures
      var next := Transition(env, s, input);
      && next.Outsider? && Encodable(ClaimVersion(next.memberAssignment))
      && JoinRequest(env, next.generation, next.member, next.memberAssignment, "join")
         == Ok(Emitted(env, s, input).value.(reason := "join"))
  {
  }

  /**
   After a rebalance, the JoinGroup has the member id of the latest successful join. A heartbeat that reports the
   rebalance keeps its generation too, and a sync does not.
   */
  lemma RunJoinsAfterRebalance(env: Env, run: Run, i: nat) returns (j: nat)
    requires env.Lawful() && IsRun(env, run) && i < |run.inputs| && run.results[i].Ok?
    requires run.inputs[i].Some? && !run.inputs[i].value.JoinGroupResponse? && run.inputs[i].value.errorCode == REBALANCE_IN_PROGRESS
    ensures i > 0 && LatestJoin(run, i - 1, j)
    ensures
      var join := run.inputs[j].value;
      && SpeaksFor(env, run.results[i].value, join.memberId,
                   if run.inputs[i].value.HeartbeatResponse? then join.generationId else -1)
      && run.results[i].value.reason
         == if run.inputs[i].value.HeartbeatResponse? then "join after rebalance" else "join after sync with rebalance"
  {
    assert Handled(run.states[i], run.inputs[i]);
    assert Follows(run, i);
    j := RunGeneration(env, run, i - 1);
    RunJoinClaims(env, run, i);
  }

  // ------------------------------------------------------------------ which request comes next

  /** The only way for a join request to fail is that its subscription does not encode. */
  lemma {:induction false} ProtocolsFail(env: Env, names: seq<string>, generation: Option<i32>,
                                         ma: Option<MemberAssignment>)
    requires Encodable(ClaimVersion(ma)) && JoinProtocols(env, names, generation, ma).Err?
    ensures exists w :: WireClaims(env, w, generation, ma) && env.encode(w) == Err(JoinProtocols(env, names, generation, ma).error)
  {
    var generationId := if generation.Some? then generation else Some(-1);
    var subscription := Subscription(env.topics, None, Some(ClaimedPartitions(ma)), generationId, None);
    var w := ToWire(MemberMetadata(ClaimVersion(ma), subscription));
    assert WireClaims(env, w, generation, ma);
    if JoinProtocol(env, names[0], generation, ma).Ok? {
      ProtocolsFail(env, names[1..], generation, ma);
    }
  }

  /**
   What `input` calls for: the next request, or the error that stops it. The state after it is `next`, and `join` is
   the latest successful join.
   */
  ghost predicate CalledFor(env: Env, input: Option<Body>, next: MemberState, join: Option<Body>,
                            result: Result<Action, string>) {
    if Rejoins(input) then
      match result
      case Ok(action) => action.JoinGroup?
      case Err(e) =>
        next.Outsider? && exists w :: WireClaims(env, w, next.generation, next.memberAssignment) && env.encode(w) == Err(e)
    else if input.value.JoinGroupResponse? then
      var body := input.value;
      var shares := if body.leader == body.memberId then env.assign(body.protocolName, body.members) else Ok([]);
      match shares
      case Err(e) => result == Err(e)
      case Ok(assignments) =>
        result == Ok(SyncGroup(env.groupId, body.generationId, body.memberId, body.protocolType, body.protocolName, assignments))
    else
      && Joins(join)
      && var beat := Ok(Heartbeat(env.groupId, join.value.generationId, join.value.memberId));
         if input.value.SyncGroupResponse? && env.decodeAssignment(input.value.assignment).Err? then
           result == Err(env.decodeAssignment(input.value.assignment).error)
         else result == beat
  }

  lemma JoinFails(env: Env, generation: Option<i32>, member: Option<string>, ma: Option<MemberAssignment>,
                  reason: string)
    requires Encodable(ClaimVersion(ma)) && JoinRequest(env, generation, member, ma, reason).Err?
    ensures
      var e := JoinRequest(env, generation, member, ma, reason).error;
      exists w :: WireClaims(env, w, generation, ma) && env.encode(w) == Err(e)
  {
    ProtocolsFail(env, ASSIGNORS, generation, ma);
  }

  /** A step that lets the member join again. */
  lemma StepRejoins(env: Env, s: MemberState, input: Option<Body>, join: Option<Body>)
    requires Handled(s, input) && Rejoins(input)
    ensures CalledFor(env, input, Transition(env, s, input), join, Emitted(env, s, input))
  {
    var next, r := Transition(env, s, input), Emitted(env, s, input);
    if r.Err? {
      var reason :| r == JoinRequest(env, next.generation, next.member, next.memberAssignment, reason);
      JoinFails(env, next.generation, next.member, next.memberAssignment, reason);
    }
  }

  /**
   In every run, each response calls for one request. A successful join calls for a SyncGroup, with the assignor's
   result if the member leads; a successful sync or heartbeat calls for a Heartbeat for the latest successful join; all
   others call for a JoinGroup. There is an error only if the assignor fails, the assignment does not decode,
   or the subscription does not encode.
   */
  lemma RunCallsFor(env: Env, run: Run, i: nat) returns (j: nat)
    requires IsRun(env, run) && i < |run.inputs|
    ensures j < |run.inputs| && (!Rejoins(run.inputs[i]) ==> LatestJoin(run, i, j))
    ensures CalledFor(env, run.inputs[i], run.states[i + 1], run.inputs[j], run.results[i])
  {
    assert Handled(run.states[i], run.inputs[i]);
    assert Follows(run, i);
    j := i;
    if Rejoins(run.inputs[i]) {
      StepRejoins(env, run.states[i], run.inputs[i], run.inputs[i]);
    } else {
      j := RunGeneration(env, run, i);
      StepGeneration(env, run.states[i], run.inputs[i]);
    }
  }

  /** A response that the coordinator gives: a success with its assignment, or an error that the machine knows. */
  predicate Expected(body: Body) {
    match body
    case JoinGroupResponse(code, _, _, _, _, _, _) => code in {0, 16, 79}
    case SyncGroupResponse(code, assignment) => if assignment == [] then code == 27 else code == 0
    case HeartbeatResponse(code) => code in {0, 25, 27}
  }

  /** No run is stuck: the machine handles each such response to its last request, if the installed assignment has a known version. */
  lemma RunHandles(env: Env, run: Run, body: Body)
    requires IsRun(env, run) && run.inputs != []
    requires
      var n := |run.inputs|;
      && run.results[n - 1].Ok? && Matches(run.results[n - 1].value, body) && Expected(body)
      && (run.states[n].memberAssignment.Some? ==> 0 <= run.states[n].memberAssignment.value.version <= 3)
    ensures Handled(run.states[|run.inputs|], Some(body))
  {
    RunOutstanding(env, run, |run.inputs| - 1);
  }

  /** A join request with a version 0 assignment has no claim on its partitions and no generation, for any assignor. */
  lemma VersionZeroClaimsNothing(env: Env, generation: Option<i32>, member: Option<string>, ma: MemberAssignment,
                                 reason: string, k: nat)
    requires env.Lawful() && k < |ASSIGNORS| && ma.version == 0
    requires JoinRequest(env, generation, member, Some(ma), reason).Ok?
    ensures
      var a := JoinRequest(env, generation, member, Some(ma), reason).value;
      && |a.protocols| == |ASSIGNORS|
      && env.read(a.protocols[k].metadata).Some?
      && Owned(env.read(a.protocols[k].metadata).value) == []
      && GenerationOf(env.read(a.protocols[k].metadata).value) == None
  {
    RequestClaims(env, generation, member, Some(ma), reason);
  }

  // ------------------------------------------------------------------ counters

  const CODES := {NO_ERROR, NOT_COORDINATOR, UNKNOWN_MEMBER_ID, REBALANCE_IN_PROGRESS, MEMBER_ID_REQUIRED}

  function Get(errors: map<i16, nat>, code: i16): nat {
    if code in errors then errors[code] else 0
  }

  function Total(errors: map<i16, nat>): nat {
    Get(errors, NO_ERROR) + Get(errors, NOT_COORDINATOR) + Get(errors, UNKNOWN_MEMBER_ID)
    + Get(errors, REBALANCE_IN_PROGRESS) + Get(errors, MEMBER_ID_REQUIRED)
  }

  /** A handled response raises one counter by one, that of its error code, also when its assignment does not decode. */
  lemma StepCounts(env: Env, s: MemberState, input: Option<Body>, errors: map<i16, nat>)
    requires Handled(s, input) && errors.Keys <= CODES
    ensures Counted(errors, input).Keys <= CODES
    ensures Total(Counted(errors, input)) == Total(errors) + if input.Some? then 1 else 0
    ensures forall code :: Get(Counted(errors, input), code)
                           == Get(errors, code) + if input.Some? && input.value.errorCode == code then 1 else 0
  {
  }

  lemma StepTotal(env: Env, s: MemberState, input: Option<Body>, errors: map<i16, nat>)
    requires Handled(s, input) && errors.Keys <= CODES
    ensures Counted(errors, input).Keys <= CODES
    ensures Total(Counted(errors, input)) == Total(errors) + if input.Some? then 1 else 0
  {
    StepCounts(env, s, input, errors);
  }

  lemma RunInput(env: Env, run: Run, i: nat)
    requires IsRun(env, run) && i < |run.inputs|
    ensures Handled(run.states[i], run.inputs[i]) && (run.inputs[i].Some? <==> i > 0)
  {
    assert Follows(run, i);
  }

  lemma CountedAllSnoc(inputs: seq<Option<Body>>, n: nat)
    requires n < |inputs|
    ensures CountedAll(map[], inputs[..n + 1]) == Counted(CountedAll(map[], inputs[..n]), inputs[n])
  {
    assert inputs[..n + 1][..n] == inputs[..n];
  }

  /** In every run, the counters add up to the number of responses. */
  lemma {:induction false} RunCounts(env: Env, run: Run, n: nat)
    requires IsRun(env, run) && n <= |run.inputs|
    ensures CountedAll(map[], run.inputs[..n]).Keys <= CODES
    ensures Total(CountedAll(map[], run.inputs[..n])) == if n == 0 then 0 else n - 1
  {
    if n > 0 {
      var m := n - 1;
      RunCounts(env, run, m);
      RunInput(env, run, m);
      CountedAllSnoc(run.inputs, m);
      StepTotal(env, run.states[m], run.inputs[m], CountedAll(map[], run.inputs[..m]));
    }
  }
}
