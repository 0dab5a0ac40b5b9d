/** The workflow service, statement by statement: each method is one call that nobody interferes
    with, proved to do what its awaits do back to back. */
module WorkflowCalls {
  import opened Wrappers
  import opened Sorting
  import opened Workflow
  import opened WorkflowRights

  /** 1, ..., |s| in some order, each once: as many numbers as there are places. */
  predicate NumbersThemAll(s: seq<int>) { forall k :: 1 <= k <= |s| ==> k in s }

  /** In ascending order the number k stands neither before place k nor after it. */
  lemma {:induction false} NotBefore(s: seq<int>, k: int) returns (p: nat)
    requires Ascending(s) && NumbersThemAll(s) && 1 <= k <= |s|
    ensures k - 1 <= p < |s| && s[p] == k
  {
    assert k in s;
    p :| 0 <= p < |s| && s[p] == k;
    if k > 1 {
      var q := NotBefore(s, k - 1);
    }
  }

  lemma {:induction false} NotAfter(s: seq<int>, k: int) returns (p: nat)
    requires Ascending(s) && NumbersThemAll(s) && 1 <= k <= |s|
    ensures p <= k - 1 && s[p] == k
    decreases |s| - k
  {
    assert k in s;
    p :| 0 <= p < |s| && s[p] == k;
    if k < |s| {
      var q := NotAfter(s, k + 1);
    }
  }

  lemma InPlace(s: seq<int>)
    requires Ascending(s)
    ensures NumbersThemAll(s) <==> forall i :: 0 <= i < |s| ==> s[i] == i + 1
  {
    if NumbersThemAll(s) {
      forall i | 0 <= i < |s| ensures s[i] == i + 1 {
        var p := NotBefore(s, i + 1);
        var q := NotAfter(s, i + 1);
      }
    } else if forall i :: 0 <= i < |s| ==> s[i] == i + 1 {
      forall k | 1 <= k <= |s| ensures k in s { assert s[k - 1] == k; }
    }
  }

  /** `assertTemplateStepsIntegrity`: the step numbers are 1, ..., n in some order, each once. */
  method AssertTemplateStepsIntegrity(sequences: seq<int>) returns (ok: bool)
    ensures ok <==> sequences != [] && NumbersThemAll(sequences)
  {
    if sequences == [] { return false; }
    var sorted := Sorted(sequences);
    InPlace(sorted);
    for index := 0 to |sorted|
      invariant forall i :: 0 <= i < index ==> sorted[i] == i + 1
    {
      if sorted[index] != index + 1 { return false; }
    }
    return true;
  }

  class WorkflowService {
    var instances: seq<Instance>
    var actions: seq<Action>

    constructor ()
      ensures View() == Flow([], []) && FlowSound(View())
    {
      instances, actions := [], [];
    }

    function View(): Flow
      reads this
    {
      Flow(instances, actions)
    }

    /** The template's steps come sorted by sequence. */
    method StartWorkflow(tenant: string, entity: string, steps: seq<StepRow>, user: UserId) returns (id: Option<nat>)
      requires forall i, j :: 0 <= i < j < |steps| ==> steps[i].sequence <= steps[j].sequence
      modifies this
      ensures View() == FinishOpening(old(View()), Opening(tenant, entity, steps, user, Fetched))
      ensures id.Some? <==>
        && |steps| >= 3 && (forall k :: 0 <= k < |steps| ==> steps[k].sequence == k + 1)
        && forall inst :: inst in old(instances) && inst.tenant == tenant && inst.entity == entity ==>
             inst.status in {Approved, Rejected, Cancelled}
      ensures id.Some? ==>
        && id.value == |old(instances)|
        && instances == old(instances) + [Instance(tenant, entity, steps, InProgress, 1, user)]
        && actions == old(actions) + [Action(id.value, 1, Submit, user, None)]
      ensures id.None? ==> View() == old(View())
    {
      LoneStart(View(), tenant, entity, steps, user);
      var sequences := seq(|steps|, i requires 0 <= i < |steps| => steps[i].sequence);
      var sound := AssertTemplateStepsIntegrity(sequences);
      IntegrityMeansContiguous(steps, sequences);
      if !sound || |steps| < MIN_APPROVAL_STEPS { return None; }
      for i := 0 to |instances|
        invariant forall inst :: inst in instances[..i] ==>
          !(inst.tenant == tenant && inst.entity == entity && (inst.status == InProgress || inst.status == OnHold))
      {
        assert instances[..i + 1] == instances[..i] + [instances[i]];
        if instances[i].tenant == tenant && instances[i].entity == entity
          && (instances[i].status == InProgress || instances[i].status == OnHold) {
          return None;
        }
      }
      assert instances[..|instances|] == instances;
      id := Some(|instances|);
      instances := instances + [Instance(tenant, entity, steps, InProgress, steps[0].sequence, user)];
      actions := actions + [Action(id.value, steps[0].sequence, Submit, user, None)];
    }

    /** The size of the set of users with an APPROVE action on the step. */
    method CountApprovals(i: nat, step: int) returns (unique: nat)
      ensures unique == |Approvers(actions, i, step)|
    {
      var users: set<UserId> := {};
      for k := 0 to |actions|
        invariant users == Approvers(actions[..k], i, step)
      {
        var a := actions[k];
        ApproversExtend(actions[..k], a, i, step);
        assert actions[..k + 1] == actions[..k] + [a];
        if a.instance == i && a.step == step && a.kind == ActionKind.Approve {
          users := users + {a.user};
        }
      }
      assert actions[..|actions|] == actions;
      return |users|;
    }

    method Approve(i: nat, user: UserId, tenant: Option<string>, role: Option<Role>) returns (approved: bool)
      requires FlowSound(View())
      modifies this
      ensures FlowSound(View()) && View() == Finish(old(View()), Call(Approving, i, user, tenant, Entered), role)
      ensures approved <==> role.Some? && ApprovalOpen(old(View()), i, user, tenant, role.value)
      ensures if approved then ApprovalMade(old(View()), View(), i, user, role.value) else View() == old(View())
    {
      hide FlowSound, Finish, Approvers, PassesApprover, FindStep;
      ghost var before := View();
      ghost var call := Call(Approving, i, user, tenant, Entered);
      LoneApproval(before, i, user, tenant, role);
      LoneApprovalExactly(before, i, user, tenant, role);
      if role.Some? { MayApproveExactly(before, i, user, tenant, role.value); }
      hide ApprovalOpen, ApprovalMade;
      FinishKeeps(before, call, role);
      if i >= |instances| || (tenant.Some? && tenant.value != instances[i].tenant) { return false; }
      var inst := instances[i];
      StepsNumbered(before, i);
      if inst.status != InProgress { return false; }
      var row := FindStep(inst.steps, inst.currentStep);
      var currentStep := row.value;
      if role.None? || !PassesApprover(currentStep, user, role.value) { return false; }
      if user in Approvers(actions, i, currentStep.sequence) { return false; }

      ghost var logged := Action(i, currentStep.sequence, ActionKind.Approve, user, Some(role.value));
      OneMoreApprover(actions, logged);
      actions := actions + [Action(i, currentStep.sequence, ActionKind.Approve, user, role)];
      var unique := CountApprovals(i, currentStep.sequence);
      approved := true;
      if unique >= currentStep.required {
        if currentStep.sequence == inst.steps[|inst.steps| - 1].sequence {
          instances := instances[i := inst.(status := Approved)];
        } else {
          instances := instances[i := inst.(currentStep := currentStep.sequence + 1)];
        }
      } else {
        assert instances[i := inst] == instances;
      }
    }

    method Reject(i: nat, user: UserId, tenant: Option<string>, role: Option<Role>) returns (rejected: bool)
      requires FlowSound(View())
      modifies this
      ensures FlowSound(View()) && View() == Finish(old(View()), Call(Rejecting, i, user, tenant, Entered), role)
      ensures rejected <==> DecisionOpen(old(View()), Rejecting, i, user, tenant, role)
      ensures if rejected then DecisionMade(old(View()), View(), Rejecting, i, user, role) else View() == old(View())
    {
      ghost var before := View();
      ghost var call := Call(Rejecting, i, user, tenant, Entered);
      FinishKeeps(before, call, role);
      LoneDecisionExactly(before, Rejecting, i, user, tenant, role);
      if i >= |instances| || (tenant.Some? && tenant.value != instances[i].tenant) { return false; }
      var inst := instances[i];
      if inst.status != InProgress { return false; }
      var row := FindStep(inst.steps, inst.currentStep);
      if row.None? { return false; }
      var currentStep := row.value;
      ghost var loaded := call.(phase := Loaded(inst.currentStep));
      FinishAfter(before, call, role, Moved(before, Some(Loaded(inst.currentStep))));
      if !currentStep.canReject || role.None? || !PassesApprover(currentStep, user, role.value) { return false; }

      actions := actions + [Action(i, currentStep.sequence, ActionKind.Reject, user, role)];
      ghost var logged := View();
      instances := instances[i := inst.(status := Rejected)];
      FinishAfter(before, loaded, role, Moved(before, Some(Cleared(inst.currentStep, role.value))));
      FinishAfter(before, call.(phase := Cleared(inst.currentStep, role.value)), role,
                  Moved(logged, Some(Logged(inst.currentStep))));
      FinishAfter(logged, call.(phase := Logged(inst.currentStep)), role, Moved(View(), None));
      return true;
    }
  }

  lemma ApproversExtend(actions: seq<Action>, a: Action, i: nat, step: int)
    ensures Approvers(actions + [a], i, step)
         == Approvers(actions, i, step)
            + if a.instance == i && a.step == step && a.kind == Approve then {a.user} else {}
  {
    forall b | b in actions ensures b in actions + [a] {}
    assert a in actions + [a];
  }

  lemma StepsNumbered(f: Flow, i: nat)
    requires FlowSound(f) && i < |f.instances|
    ensures var inst := f.instances[i];
      && 1 <= inst.currentStep <= |inst.steps|
      && FindStep(inst.steps, inst.currentStep) == Some(inst.steps[inst.currentStep - 1])
      && inst.steps[inst.currentStep - 1].sequence == inst.currentStep
      && inst.steps[|inst.steps| - 1].sequence == |inst.steps|
  {
    assert InstanceSound(f, i);
    FoundInPlace(f.instances[i].steps, f.instances[i].currentStep, 1);
  }

  lemma IntegrityMeansContiguous(steps: seq<StepRow>, sequences: seq<int>)
    requires |sequences| == |steps| && forall i :: 0 <= i < |steps| ==> sequences[i] == steps[i].sequence
    requires forall i, j :: 0 <= i < j < |steps| ==> steps[i].sequence <= steps[j].sequence
    ensures Contiguous(steps) <==> sequences != [] && NumbersThemAll(sequences)
  {
    InPlace(sequences);
  }

  lemma FinishKeeps(f: Flow, c: Call, user: Option<Role>)
    requires FlowSound(f) && CallSound(f, c)
    ensures FlowSound(Finish(f, c, user))
    decreases Rank(c.phase)
  {
    AdvanceKeeps(f, c, user);
    var m := Advance(f, c, user);
    if m.phase.Some? { FinishKeeps(m.flow, c.(phase := m.phase.value), user); }
  }
}
