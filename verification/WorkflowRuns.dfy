/** Runs of the workflow protocol: a call nobody interferes with inside a run, what stale approvals
    do to decided workflows, and two runs that end badly. */
module WorkflowRuns {
  import opened Wrappers
  import opened Workflow

  // ---- one call alone

  /** n awaits of call id, the user query always answered alike. */
  function Serve(id: nat, answer: Option<Role>, n: nat): (acts: seq<Act>)
    ensures |acts| == n && forall k :: 0 <= k < n ==> acts[k] == Proceed(id, answer)
  {
    seq(n, _ => Proceed(id, answer))
  }

  lemma OneMoreAct(acts: seq<Act>, act: Act)
    ensures Run(acts + [act]) == Step(Run(acts), act)
  {
    assert (acts + [act])[..|acts|] == acts;
  }

  lemma {:induction false} IdleServe(acts: seq<Act>, id: nat, answer: Option<Role>, n: nat)
    requires id !in Run(acts).calls
    ensures Run(acts + Serve(id, answer, n)) == Run(acts)
  {
    if n == 0 {
      assert acts + Serve(id, answer, 0) == acts;
    } else {
      IdleServe(acts, id, answer, n - 1);
      OneMoreAct(acts + Serve(id, answer, n - 1), Proceed(id, answer));
      assert acts + Serve(id, answer, n) == acts + Serve(id, answer, n - 1) + [Proceed(id, answer)];
    }
  }

  lemma AdvanceRanksDown(f: Flow, c: Call, user: Option<Role>)
    ensures Advance(f, c, user).phase.Some? ==> Rank(Advance(f, c, user).phase.value) < Rank(c.phase)
  {}

  lemma ServedOnce(acts: seq<Act>, id: nat, answer: Option<Role>)
    requires id in Run(acts).calls
    ensures var s := Run(acts);
      var m := Advance(s.flow, s.calls[id], answer);
      Run(acts + [Proceed(id, answer)]) == Floor(m.flow,
        if m.phase.Some? then s.calls[id := s.calls[id].(phase := m.phase.value)] else s.calls - {id}, s.openings)
  {
    hide Advance, Run;
    OneMoreAct(acts, Proceed(id, answer));
  }

  /** Served without interruption, a call does what its awaits do back to back. */
  lemma {:induction false} ServedAlone(acts: seq<Act>, id: nat, answer: Option<Role>, n: nat)
    requires id in Run(acts).calls && n > Rank(Run(acts).calls[id].phase)
    ensures var s := Run(acts);
      Run(acts + Serve(id, answer, n)) == Floor(Finish(s.flow, s.calls[id], answer), s.calls - {id}, s.openings)
    decreases n
  {
    hide Advance, Finish, Rank, Run;
    var s := Run(acts);
    var c := s.calls[id];
    var m := Advance(s.flow, c, answer);
    var next := acts + [Proceed(id, answer)];
    ServedOnce(acts, id, answer);
    FinishAfter(s.flow, c, answer, m);
    assert acts + Serve(id, answer, n) == next + Serve(id, answer, n - 1);
    if m.phase.None? {
      IdleServe(next, id, answer, n - 1);
    } else {
      AdvanceRanksDown(s.flow, c, answer);
      var later := c.(phase := m.phase.value);
      ServedAlone(next, id, answer, n - 1);
      assert s.calls[id := later] - {id} == s.calls - {id};
    }
  }

  /** A whole call: it arrives and is served. */
  function Alone(id: nat, kind: CallKind, i: nat, u: UserId, tenant: Option<string>, answer: Option<Role>): seq<Act> {
    [Arrive(id, kind, i, u, tenant)] + Serve(id, answer, 6)
  }

  lemma AloneFinishes(acts: seq<Act>, id: nat, kind: CallKind, i: nat, u: UserId, tenant: Option<string>,
                      answer: Option<Role>)
    requires id !in Run(acts).calls
    ensures var s := Run(acts);
      Run(acts + Alone(id, kind, i, u, tenant, answer))
        == Floor(Finish(s.flow, Call(kind, i, u, tenant, Entered), answer), s.calls, s.openings)
  {
    var s, arrive := Run(acts), Arrive(id, kind, i, u, tenant);
    OneMoreAct(acts, arrive);
    ServedAlone(acts + [arrive], id, answer, 6);
    assert acts + Alone(id, kind, i, u, tenant, answer) == acts + [arrive] + Serve(id, answer, 6);
    assert s.calls[id := Call(kind, i, u, tenant, Entered)] - {id} == s.calls;
  }

  /** A start and its awaits. */
  function Opens(id: nat, tenant: string, entity: string, steps: seq<StepRow>, u: UserId): seq<Act> {
    [StartCall(id, tenant, entity, steps, u), StartProceed(id), StartProceed(id), StartProceed(id)]
  }

  lemma OpensFirst(id: nat, tenant: string, entity: string, steps: seq<StepRow>, u: UserId)
    requires TemplateUsable(steps)
    ensures Run(Opens(id, tenant, entity, steps, u))
         == Floor(Flow([Instance(tenant, entity, steps, InProgress, 1, u)], [Action(0, 1, Submit, u, None)]),
                  map[], map[])
  {
    var acts := Opens(id, tenant, entity, steps, u);
    assert acts[..1] == [] + [acts[0]] && acts[..2] == acts[..1] + [acts[1]];
    assert acts[..3] == acts[..2] + [acts[2]] && acts == acts[..3] + [acts[3]];
    OneMoreAct([], acts[0]);
    OneMoreAct(acts[..1], acts[1]);
    OneMoreAct(acts[..2], acts[2]);
    OneMoreAct(acts[..3], acts[3]);
    var o := Opening(tenant, entity, steps, u, Fetched);
    assert Run(acts[..1]) == Floor(Flow([], []), map[], map[id := o]);
    assert Run(acts[..2]) == Floor(Flow([], []), map[], map[id := o.(phase := Vacant)]);
    var inst := Instance(tenant, entity, steps, InProgress, 1, u);
    assert [] + [inst] == [inst];
    assert Run(acts[..3])
        == Floor(Flow([inst], []), map[], map[id := o.(phase := Created(0))]);
    assert map[id := o.(phase := Created(0))] - {id} == map[];
  }

  /** What a lone return or rejection does that passes its checks. */
  function Decided(f: Flow, i: nat, u: UserId, role: Role, kind: ActionKind, status: Status): Flow
    requires i < |f.instances|
  {
    var inst := f.instances[i];
    Flow(f.instances[i := inst.(status := status)], f.actions + [Action(i, inst.currentStep, kind, u, Some(role))])
  }

  /** A lone return for changes or rejection by a user who may act puts the workflow on hold or
      rejects it, with one action. */
  lemma LoneDecision(f: Flow, kind: CallKind, i: nat, u: UserId, role: Role)
    requires FlowSound(f) && i < |f.instances| && f.instances[i].status == InProgress
    requires kind == Returning || kind == Rejecting
    requires 1 <= f.instances[i].currentStep <= |f.instances[i].steps|
    requires var row := f.instances[i].steps[f.instances[i].currentStep - 1];
      CanApproveStep(row, u, role) && (kind == Rejecting ==> row.canReject)
    ensures Finish(f, Call(kind, i, u, None, Entered), Some(role))
         == if kind == Returning then Decided(f, i, u, role, Return, OnHold)
            else Decided(f, i, u, role, Reject, Rejected)
  {
    var inst := f.instances[i];
    var k := inst.currentStep;
    InstanceOf(f, i);
    FoundInPlace(inst.steps, k, 1);
    var c := Call(kind, i, u, None, Entered);
    var f1 := Log(f, c, k, Some(role)).flow;
    hide FlowSound;
    FinishAfter(f, c, Some(role), Moved(f, Some(Loaded(k))));
    FinishAfter(f, c.(phase := Loaded(k)), Some(role), Moved(f, Some(Cleared(k, role))));
    FinishAfter(f, c.(phase := Cleared(k, role)), Some(role), Moved(f1, Some(Logged(k))));
    FinishAfter(f1, c.(phase := Logged(k)), Some(role), Conclude(f1, c.(phase := Logged(k)), k));
  }

  // ---- stale approvals

  /** The call is about to write APPROVED: it has counted enough approvers of the last step. */
  predicate ApprovesNow(s: Floor, act: Act, i: nat)
    requires i < |s.flow.instances|
  {
    && act.Proceed? && act.id in s.calls && s.calls[act.id].instance == i && s.calls[act.id].phase.Counted?
    && var c, steps := s.calls[act.id], s.flow.instances[i].steps;
       c.phase.step == |steps| > 0 && c.phase.approvals >= steps[|steps| - 1].required
  }

  lemma LastStepRow(s: Floor, id: nat)
    requires FloorSound(s) && id in s.calls && s.calls[id].phase.Counted?
    ensures var c := s.calls[id];
      && c.instance < |s.flow.instances|
      && var steps := s.flow.instances[c.instance].steps;
         && 1 <= c.phase.step <= |steps| && FindStep(steps, c.phase.step) == Some(steps[c.phase.step - 1])
         && steps[|steps| - 1].sequence == |steps|
  {
    var c := s.calls[id];
    assert CallSound(s.flow, c);
    InstanceOf(s.flow, c.instance);
    FoundInPlace(s.flow.instances[c.instance].steps, c.phase.step, 1);
  }

  lemma ActSteps(s: Floor, act: Act, i: nat)
    requires FloorSound(s) && i < |s.flow.instances| && !act.Proceed?
    ensures i < |Step(s, act).flow.instances| && Step(s, act).flow.instances[i] == s.flow.instances[i]
  {}

  /** The last write of an approval does not look at the status again: whatever the status is, be it
      REJECTED or CANCELLED since, an instance turns APPROVED exactly when a call writes that has
      counted enough approvers of its last step. */
  lemma TurnsApprovedExactly(s: Floor, act: Act, i: nat)
    requires FloorSound(s) && i < |s.flow.instances| && s.flow.instances[i].status != Approved
    ensures i < |Step(s, act).flow.instances|
    ensures Step(s, act).flow.instances[i].status == Approved <==> ApprovesNow(s, act, i)
  {
    hide FloorSound, FindStep, Approvers;
    if !act.Proceed? {
      ActSteps(s, act, i);
    } else if act.id in s.calls && s.calls[act.id].phase.Counted? {
      LastStepRow(s, act.id);
    }
  }

  /** The call is about to move the step: an approval that has counted enough approvers of an earlier
      step, or a resubmission. */
  predicate MovesNow(s: Floor, act: Act, i: nat)
    requires i < |s.flow.instances|
  {
    && act.Proceed? && act.id in s.calls && s.calls[act.id].instance == i
    && var c, inst := s.calls[act.id], s.flow.instances[i];
       || (&& c.phase.Counted? && 1 <= c.phase.step < |inst.steps| && c.phase.step + 1 != inst.currentStep
           && c.phase.approvals >= inst.steps[c.phase.step - 1].required)
       || (c.phase.Logged? && c.kind == Resubmitting && c.phase.step != inst.currentStep)
  }

  /** Nor does it look at the step again: an instance, decided or not, changes its step exactly when
      such a call writes. */
  lemma MovesStepExactly(s: Floor, act: Act, i: nat)
    requires FloorSound(s) && i < |s.flow.instances|
    ensures i < |Step(s, act).flow.instances|
    ensures Step(s, act).flow.instances[i].currentStep != s.flow.instances[i].currentStep <==> MovesNow(s, act, i)
  {
    hide FloorSound, FindStep, Approvers;
    if !act.Proceed? {
      ActSteps(s, act, i);
    } else if act.id in s.calls && s.calls[act.id].phase.Counted? {
      LastStepRow(s, act.id);
    }
  }

  // ---- over runs

  /** The call is about to write a status other than APPROVED. */
  predicate WritesStatus(s: Floor, act: Act, i: nat) {
    && act.Proceed? && act.id in s.calls && s.calls[act.id].instance == i
    && s.calls[act.id].phase.Logged? && s.calls[act.id].kind != Approving
  }

  lemma ApprovedByStep(s: Floor, act: Act, i: nat)
    requires FloorSound(s) && i < |s.flow.instances|
    ensures i < |Step(s, act).flow.instances|
    ensures Step(s, act).flow.instances[i].status == Approved <==>
      ApprovesNow(s, act, i) || (s.flow.instances[i].status == Approved && !WritesStatus(s, act, i))
  {
    hide FloorSound, FindStep, Approvers;
    if !act.Proceed? {
      ActSteps(s, act, i);
    } else if act.id in s.calls && s.calls[act.id].phase.Counted? {
      LastStepRow(s, act.id);
    }
  }

  /** The instance was REJECTED or CANCELLED after acts, and has not been in progress at any time since. */
  ghost predicate NotReopened(acts: seq<Act>, more: seq<Act>, i: nat)
    decreases |more|
  {
    var f := Run(acts + more).flow;
    && i < |f.instances| && f.instances[i].status != InProgress
    && if more == [] then f.instances[i].status == Rejected || f.instances[i].status == Cancelled
       else NotReopened(acts, more[..|more| - 1], i)
  }

  /** The call had read the instance, on its step, and was to approve it. */
  predicate HadRead(s: Floor, id: nat, i: nat, step: int) {
    && id in s.calls && s.calls[id].kind == Approving && s.calls[id].instance == i
    && s.calls[id].phase != Entered && s.calls[id].phase.step == step
  }

  lemma ReadKept(s: Floor, act: Act, id: nat, i: nat)
    requires i < |s.flow.instances| && s.flow.instances[i].status != InProgress
    requires id in Step(s, act).calls
    requires var c := Step(s, act).calls[id]; c.kind == Approving && c.instance == i && c.phase != Entered
    ensures HadRead(s, id, i, Step(s, act).calls[id].phase.step)
  {
    hide Approvers, FindStep;
  }

  /** Whoever is past reading a decided instance had read it before the decision. */
  lemma {:induction false} ReadBeforeDecision(acts: seq<Act>, more: seq<Act>, id: nat, i: nat, step: int)
    requires NotReopened(acts, more, i) && HadRead(Run(acts + more), id, i, step)
    ensures HadRead(Run(acts), id, i, step)
    decreases |more|
  {
    hide Run, Step;
    if more == [] {
      assert acts + more == acts;
    } else {
      var prefix, act := more[..|more| - 1], more[|more| - 1];
      assert acts + more == acts + prefix + [act];
      OneMoreAct(acts + prefix, act);
      StillNotReopened(acts, prefix, i);
      ReadKept(Run(acts + prefix), act, id, i);
      ReadBeforeDecision(acts, prefix, id, i, step);
    }
  }

  lemma StillNotReopened(acts: seq<Act>, more: seq<Act>, i: nat)
    requires NotReopened(acts, more, i)
    ensures i < |Run(acts + more).flow.instances| && Run(acts + more).flow.instances[i].status != InProgress
  {}

  /** Since the decision, an approval that had read the last step before it has written, and no other
      call has written a status after that. */
  ghost predicate StaleApprovalLast(acts: seq<Act>, more: seq<Act>, i: nat)
    decreases |more|
  {
    more != [] &&
      var prefix, act := more[..|more| - 1], more[|more| - 1];
      var s := Run(acts + prefix);
      && i < |s.flow.instances|
      && (|| (ApprovesNow(s, act, i) && HadRead(Run(acts), act.id, i, |s.flow.instances[i].steps|))
          || (StaleApprovalLast(acts, prefix, i) && !WritesStatus(s, act, i)))
  }

  /** Over every run: a workflow that was REJECTED or CANCELLED and has not been reopened since is
      APPROVED if and only if an approval that had read its last step before the decision wrote after
      it, and nothing has written a status since. */
  lemma {:induction false} DecidedEndsApprovedExactly(acts: seq<Act>, more: seq<Act>, i: nat)
    requires NotReopened(acts, more, i)
    ensures i < |Run(acts + more).flow.instances|
    ensures Run(acts + more).flow.instances[i].status == Approved <==> StaleApprovalLast(acts, more, i)
    decreases |more|
  {
    hide Run, Step, FloorSound;
    if more != [] {
      var prefix, act := more[..|more| - 1], more[|more| - 1];
      var s := Run(acts + prefix);
      assert acts + more == acts + prefix + [act];
      DecidedEndsApprovedExactly(acts, prefix, i);
      OneMoreAct(acts + prefix, act);
      RunKeeps(acts + prefix);
      ApprovedByStep(s, act, i);
      if ApprovesNow(s, act, i) {
        CountedApproves(s, act.id);
        ReadBeforeDecision(acts, prefix, act.id, i, |s.flow.instances[i].steps|);
      }
    }
  }

  lemma CountedApproves(s: Floor, id: nat)
    requires FloorSound(s) && id in s.calls && s.calls[id].phase.Counted?
    ensures s.calls[id].kind == Approving
  {
    assert CallSound(s.flow, s.calls[id]);
  }

  // ---- two runs

  const FIRST := StepRow(1, OneUser, None, Some("ann"), 1, true)
  const SECOND := StepRow(2, Dynamic, None, None, 1, true)
  const THIRD := StepRow(3, Dynamic, None, None, 1, true)
  const STEPS := [FIRST, SECOND, THIRD]

  const OPEN := Opens(0, "t", "plan", STEPS, "sue")
  const ANN := Alone(0, Approving, 0, "ann", None, Some(Planner))
  const BACK := Alone(0, Returning, 0, "bob", None, Some(Planner))
  const AGAIN := Alone(0, Resubmitting, 0, "sue", None, None)

  function One(status: Status, step: int): seq<Instance> { [Instance("t", "plan", STEPS, status, step, "sue")] }

  const SUBMITTED := Action(0, 1, Submit, "sue", None)
  const BY_ANN := Action(0, 1, Approve, "ann", Some(Planner))

  lemma Begun()
    ensures Run(OPEN) == Floor(Flow(One(InProgress, 1), [SUBMITTED]), map[], map[])
    ensures Run(OPEN + ANN) == Floor(Flow(One(InProgress, 2), [SUBMITTED, BY_ANN]), map[], map[])
  {
    var f := Flow(One(InProgress, 1), [SUBMITTED]);
    OpensFirst(0, "t", "plan", STEPS, "sue");
    RunKeeps(OPEN);
    LoneApproval(f, 0, "ann", None, Some(Planner));
    AloneFinishes(OPEN, 0, Approving, 0, "ann", None, Some(Planner));
    assert Approvers(f.actions, 0, 1) == {};
    assert MayApprove(f, 0, "ann", None, Planner);
    assert WithApproval(f, 0, "ann", Planner).instances == One(InProgress, 2);
    assert [SUBMITTED] + [BY_ANN] == [SUBMITTED, BY_ANN];
  }

  /** A workflow is started, approved by the one user its first step names, returned for changes and
      resubmitted: it is in progress on that step again, and nobody can approve it. */
  lemma ResubmittedRunIsStuck()
    ensures var s := Run(OPEN + ANN + BACK + AGAIN);
      s.flow.instances == One(InProgress, 1) && s.calls == map[] && Stuck(s.flow, 0)
  {
    hide Run, Finish, Alone, Opens;
    Begun();
    var f2 := Flow(One(InProgress, 2), [SUBMITTED, BY_ANN]);
    var f3 := Decided(f2, 0, "bob", Planner, Return, OnHold);
    RunKeeps(OPEN + ANN);
    LoneDecision(f2, Returning, 0, "bob", Planner);
    AloneFinishes(OPEN + ANN, 0, Returning, 0, "bob", None, Some(Planner));
    assert Run(OPEN + ANN + BACK) == Floor(f3, map[], map[]);
    assert f3.instances == One(OnHold, 2);
    RunKeeps(OPEN + ANN + BACK);
    LoneResubmission(f3, 0);
    AloneFinishes(OPEN + ANN + BACK, 0, Resubmitting, 0, "sue", None, None);
    ResubmissionIsStuckExactly(f3, 0);
    assert Resubmitted(f3, 0).instances == One(InProgress, 1);
  }

  // ---- a rejected workflow turned APPROVED

  const BOB := Alone(0, Approving, 0, "bob", None, Some(Planner))
  const SLOW := [Arrive(1, Approving, 0, "bob", None)] + Serve(1, Some(Planner), 5)
  const NO := Alone(0, Rejecting, 0, "cat", None, Some(Planner))
  const BY_BOB := Action(0, 2, Approve, "bob", Some(Planner))
  const BY_BOB_LAST := Action(0, 3, Approve, "bob", Some(Planner))
  const ACTIONS := [SUBMITTED, BY_ANN, BY_BOB]

  lemma SecondApproved()
    ensures Run(OPEN + ANN + BOB) == Floor(Flow(One(InProgress, 3), ACTIONS), map[], map[])
  {
    hide Run, Finish, Alone, Opens;
    Begun();
    var f := Flow(One(InProgress, 2), [SUBMITTED, BY_ANN]);
    RunKeeps(OPEN + ANN);
    LoneApproval(f, 0, "bob", None, Some(Planner));
    AloneFinishes(OPEN + ANN, 0, Approving, 0, "bob", None, Some(Planner));
    assert Approvers(f.actions, 0, 2) == {};
    assert MayApprove(f, 0, "bob", None, Planner);
    assert WithApproval(f, 0, "bob", Planner).instances == One(InProgress, 3);
    assert [SUBMITTED, BY_ANN] + [BY_BOB] == ACTIONS;
  }

  /** One await of a call inside a run. */
  lemma Goes(acts: seq<Act>, f: Flow, id: nat, c: Call, answer: Option<Role>, f': Flow, phase: Phase)
    requires Run(acts) == Floor(f, map[id := c], map[])
    requires Advance(f, c, answer) == Moved(f', Some(phase))
    ensures Run(acts + [Proceed(id, answer)]) == Floor(f', map[id := c.(phase := phase)], map[])
  {
    OneMoreAct(acts, Proceed(id, answer));
    assert map[id := c][id := c.(phase := phase)] == map[id := c.(phase := phase)];
  }

  /** The slow call has counted the approvals of the last step and has not written yet. */
  lemma SlowCounted()
    ensures Run(OPEN + ANN + BOB + SLOW)
         == Floor(Flow(One(InProgress, 3), ACTIONS + [BY_BOB_LAST]),
                  map[1 := Call(Approving, 0, "bob", None, Counted(3, 1))], map[])
  {
    SecondApproved();
    var acts, answer := OPEN + ANN + BOB, Some(Planner);
    var f, f' := Flow(One(InProgress, 3), ACTIONS), Flow(One(InProgress, 3), ACTIONS + [BY_BOB_LAST]);
    var c := Call(Approving, 0, "bob", None, Entered);
    var a1 := acts + [Arrive(1, Approving, 0, "bob", None)];
    var p := Proceed(1, answer);
    OneMoreAct(acts, Arrive(1, Approving, 0, "bob", None));
    hide Run;
    assert map[][1 := c] == map[1 := c];
    FoundInPlace(STEPS, 3, 1);
    assert Approvers(ACTIONS, 0, 3) == {};
    OneMoreApprover(ACTIONS, BY_BOB_LAST);
    assert a1 + Serve(1, answer, 5) == a1 + [p] + [p] + [p] + [p] + [p];
    hide Approvers, FindStep, Serve;
    Goes(a1, f, 1, c, answer, f, Loaded(3));
    Goes(a1 + [p], f, 1, c.(phase := Loaded(3)), answer, f, Cleared(3, Planner));
    Goes(a1 + [p] + [p], f, 1, c.(phase := Cleared(3, Planner)), answer, f, NotYet(3, Planner));
    Goes(a1 + [p] + [p] + [p], f, 1, c.(phase := NotYet(3, Planner)), answer, f', Logged(3));
    Goes(a1 + [p] + [p] + [p] + [p], f', 1, c.(phase := Logged(3)), answer, f', Counted(3, 1));
    assert acts + SLOW == a1 + Serve(1, answer, 5);
  }

  /** While an approval of the last step is between counting and writing, somebody else rejects the
      workflow, and the approval then writes APPROVED over it. */
  lemma RejectedTurnsApproved()
    ensures var acts := OPEN + ANN + BOB + SLOW + NO;
      && Run(acts).flow.instances == One(Rejected, 3)
      && Run(acts + [Proceed(1, Some(Planner))]).flow.instances == One(Approved, 3)
  {
    hide Run, Finish, Alone, Opens, Serve;
    SlowCounted();
    var acts := OPEN + ANN + BOB + SLOW;
    var f := Flow(One(InProgress, 3), ACTIONS + [BY_BOB_LAST]);
    RunKeeps(acts);
    LoneDecision(f, Rejecting, 0, "cat", Planner);
    AloneFinishes(acts, 0, Rejecting, 0, "cat", None, Some(Planner));
    assert Decided(f, 0, "cat", Planner, Reject, Rejected).instances == One(Rejected, 3);
    OneMoreAct(acts + NO, Proceed(1, Some(Planner)));
    FoundInPlace(STEPS, 3, 1);
  }
}
