/**
 A run of a group member that shows a lost claim (nisshi-sans-io/src/consumer.rs:584-651, 938-971): the member
 has a partition, rejoins after a rebalance, and does not say so.
 */
module ConsumerWitness {
  import opened Prelude
  import opened Consumer
  import opened ConsumerProofs

  const OWNED := [TopicPartition("orders", [0])]

  const ASSIGNMENT := MemberAssignment(0, OWNED, None)

  /** What the member sends before and after it has the assignment. */
  const FIRST := V3(["orders"], None, [], -1, None)
  const SECOND := V0(["orders"], None)

  function ExampleEnv(): Env {
    Env("group", ["orders"], 60_000, 10_000,
        (w: Wire) => if w == FIRST then Ok([3]) else if w == SECOND then Ok([0]) else Err("not in the example"),
        (bytes: Bytes) => if bytes == [3] then Some(FIRST) else if bytes == [0] then Some(SECOND) else None,
        (bytes: Bytes) => Ok(ASSIGNMENT),
        (name: Option<string>, members: seq<Member>) => Ok([]))
  }

  const JOIN := JoinGroupResponse(NO_ERROR, 1, None, None, "leader", "member", [])

  /** Join, sync, and a heartbeat that reports a rebalance. */
  function ExampleInputs(): seq<Option<Body>> {
    [None, Some(JOIN), Some(SyncGroupResponse(NO_ERROR, [1])), Some(HeartbeatResponse(REBALANCE_IN_PROGRESS))]
  }

  function ExampleStates(): seq<MemberState> {
    [Outsider(None, None, None), Outsider(None, None, None), Follower(1, "member", None),
     Follower(1, "member", Some(ASSIGNMENT)), Outsider(Some(1), Some("member"), Some(ASSIGNMENT))]
  }

  function ExampleRun(): Run {
    var states, inputs, env := ExampleStates(), ExampleInputs(), ExampleEnv();
    Run(inputs, states,
        [Emitted(env, states[0], inputs[0]), Emitted(env, states[1], inputs[1]), Emitted(env, states[2], inputs[2]),
         Emitted(env, states[3], inputs[3])])
  }

  lemma {:induction false} ProtocolsOk(names: seq<string>, generation: Option<i32>, ma: Option<MemberAssignment>)
    requires (generation.None? && ma.None?) || ma == Some(ASSIGNMENT)
    ensures JoinProtocols(ExampleEnv(), names, generation, ma).Ok?
  {
    if names != [] {
      ProtocolsOk(names[1..], generation, ma);
    }
  }

  lemma ExampleActions()
    ensures
      var results := ExampleRun().results;
      && (forall i :: 0 <= i < 4 ==> results[i].Ok?)
      && results[0].value.JoinGroup? && results[1].value.SyncGroup? && results[2].value.Heartbeat?
      && results[3].value.JoinGroup?
  {
    ProtocolsOk(ASSIGNORS, None, None);
    ProtocolsOk(ASSIGNORS, Some(1), Some(ASSIGNMENT));
  }

  lemma ExampleTransition(i: nat)
    requires i < 4
    ensures Handled(ExampleStates()[i], ExampleInputs()[i])
    ensures ExampleStates()[i + 1] == Transition(ExampleEnv(), ExampleStates()[i], ExampleInputs()[i])
  {
    assert i == 0 || i == 1 || i == 2 || i == 3;
  }

  lemma ExampleIsRun()
    ensures IsRun(ExampleEnv(), ExampleRun())
  {
    ExampleActions();
    var run := ExampleRun();
    forall i | 0 <= i < 4
      ensures Follows(run, i) && Handled(run.states[i], run.inputs[i])
      ensures run.states[i + 1] == Transition(ExampleEnv(), run.states[i], run.inputs[i])
      ensures run.results[i] == Emitted(ExampleEnv(), run.states[i], run.inputs[i])
    {
      ExampleTransition(i);
    }
  }

  /**
   There is a run of a member with a partition installed and not taken away since, whose JoinGroup claims
   nothing under any assignor.
   */
  lemma SomeClaimLost(k: nat) returns (env: Env, run: Run)
    requires k < |ASSIGNORS|
    ensures env.Lawful() && IsRun(env, run) && |run.inputs| == 4
    ensures InstalledBy(env, run, 3, 2, ASSIGNMENT) && ASSIGNMENT.assignedPartitions != []
    ensures run.results[3].Ok? && run.results[3].value.JoinGroup? && |run.results[3].value.protocols| == |ASSIGNORS|
    ensures
      var w := env.read(run.results[3].value.protocols[k].metadata);
      w.Some? && Owned(w.value) == []
  {
    env, run := ExampleEnv(), ExampleRun();
    ExampleActions();
    ExampleIsRun();
    RunClaims(env, run, 3, 2, ASSIGNMENT, k);
  }
}
