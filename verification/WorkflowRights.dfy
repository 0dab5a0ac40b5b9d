/** Who may do what in an approval workflow, on the columns of its steps: for a call nobody
    interferes with, and for every action that any run logs. */
module WorkflowRights {
  import opened Wrappers
  import opened Workflow
  import opened WorkflowRuns

  /** What each kind of call asks of its user. */
  predicate Allowed(kind: CallKind, inst: Instance, step: int, user: UserId, role: Role)
    requires 1 <= step <= |inst.steps|
  {
    var row := inst.steps[step - 1];
    && (kind in {Approving, Rejecting, Returning} ==> Authorised(row, user, role))
    && (kind == Rejecting ==> row.canReject)
    && (kind == Returning && row.approverType == OneRole ==> row.approverRole.Some?)
    && (kind == Cancelling ==> inst.submittedBy == user || role == Admin)
  }

  lemma ClearExactly(f: Flow, c: Call, step: int, user: Option<Role>)
    requires c.instance < |f.instances| && TemplateUsable(f.instances[c.instance].steps)
    requires 1 <= step <= |f.instances[c.instance].steps|
    ensures Clear(f, c, step, user)
         == Moved(f, if user.Some? && Allowed(c.kind, f.instances[c.instance], step, c.user, user.value)
                     then Some(Cleared(step, user.value)) else None)
  {
    FoundInPlace(f.instances[c.instance].steps, step, 1);
  }

  // ---- a lone approval

  /** The instance is in progress and the tenant's, and the user is authorised on its current step and
      has not approved that step before. */
  ghost predicate ApprovalOpen(f: Flow, i: nat, u: UserId, tenant: Option<string>, role: Role) {
    && i < |f.instances|
    && var inst := f.instances[i];
       && inst.status == InProgress && (tenant.Some? ==> tenant == Some(inst.tenant))
       && 1 <= inst.currentStep <= |inst.steps|
       && Authorised(inst.steps[inst.currentStep - 1], u, role)
       && !HasApproved(f.actions, i, inst.currentStep, u)
  }

  /** One APPROVE action is logged on the current step. If with it as many users as the step asks for
      have approved, the next step is current or, on the last, the instance APPROVED; nothing else
      changes. */
  ghost predicate ApprovalMade(f: Flow, f': Flow, i: nat, u: UserId, role: Role)
    requires i < |f.instances| && 1 <= f.instances[i].currentStep <= |f.instances[i].steps|
  {
    var inst := f.instances[i];
    var k := inst.currentStep;
    && f'.actions == f.actions + [Action(i, k, Approve, u, Some(role))]
    && |f'.instances| == |f.instances|
    && (forall j :: 0 <= j < |f.instances| && j != i ==> f'.instances[j] == f.instances[j])
    && exists users ::
         ApprovedBy(f'.actions, i, k, users) && StepLeft(inst, f'.instances[i], |users| >= inst.steps[k - 1].required)
  }

  predicate StepLeft(inst: Instance, inst': Instance, enough: bool) {
    && inst' == inst.(status := inst'.status, currentStep := inst'.currentStep)
    && (enough && inst.currentStep == |inst.steps| ==> inst'.status == Approved)
    && (enough && inst.currentStep < |inst.steps| ==> inst'.currentStep == inst.currentStep + 1)
    && (!enough || inst.currentStep < |inst.steps| ==> inst'.status == inst.status)
    && (!enough || inst.currentStep == |inst.steps| ==> inst'.currentStep == inst.currentStep)
  }

  lemma MayApproveExactly(f: Flow, i: nat, u: UserId, tenant: Option<string>, role: Role)
    ensures MayApprove(f, i, u, tenant, role) <==> ApprovalOpen(f, i, u, tenant, role)
  {
    hide Approvers, HasApproved;
    if i < |f.instances| {
      ApproversExactly(f.actions, i, f.instances[i].currentStep);
    }
  }

  lemma WithApprovalExactly(f: Flow, i: nat, u: UserId, role: Role)
    requires i < |f.instances| && 1 <= f.instances[i].currentStep <= |f.instances[i].steps|
    requires u !in Approvers(f.actions, i, f.instances[i].currentStep)
    ensures ApprovalMade(f, WithApproval(f, i, u, role), i, u, role)
  {
    hide Approvers, ApprovedBy;
    var k := f.instances[i].currentStep;
    var a := Action(i, k, Approve, u, Some(role));
    OneMoreApprover(f.actions, a);
    ApproversExactly(f.actions + [a], i, k);
  }

  /** A lone approval goes through exactly where it is open to the user, and otherwise writes nothing. */
  lemma LoneApprovalExactly(f: Flow, i: nat, u: UserId, tenant: Option<string>, user: Option<Role>)
    requires FlowSound(f)
    ensures var f' := Finish(f, Call(Approving, i, u, tenant, Entered), user);
      if user.Some? && ApprovalOpen(f, i, u, tenant, user.value)
      then ApprovalMade(f, f', i, u, user.value) else f' == f
  {
    hide FlowSound, Finish, MayApprove, WithApproval, ApprovalOpen, ApprovalMade, Approvers;
    LoneApproval(f, i, u, tenant, user);
    if user.Some? {
      MayApproveExactly(f, i, u, tenant, user.value);
      if MayApprove(f, i, u, tenant, user.value) { ApprovalOpens(f, i, u, tenant, user.value); }
    }
  }

  lemma ApprovalOpens(f: Flow, i: nat, u: UserId, tenant: Option<string>, role: Role)
    requires MayApprove(f, i, u, tenant, role)
    ensures i < |f.instances| && 1 <= f.instances[i].currentStep <= |f.instances[i].steps|
    ensures ApprovalMade(f, WithApproval(f, i, u, role), i, u, role)
  {
    hide ApprovalMade, WithApproval, Approvers;
    WithApprovalExactly(f, i, u, role);
  }

  // ---- the other lone calls

  /** A rejection and a return need the instance in progress, a cancellation in progress or on hold, a
      resubmission on hold; a resubmission is its submitter's and asks no role. */
  predicate DecisionOpen(f: Flow, kind: CallKind, i: nat, u: UserId, tenant: Option<string>, user: Option<Role>) {
    && i < |f.instances|
    && var inst := f.instances[i];
       && (tenant.Some? ==> tenant == Some(inst.tenant)) && 1 <= inst.currentStep <= |inst.steps|
       && (kind in {Rejecting, Returning} ==> inst.status == InProgress)
       && (kind == Cancelling ==> inst.status == InProgress || inst.status == OnHold)
       && (if kind == Resubmitting then inst.status == OnHold && inst.submittedBy == u
           else user.Some? && Allowed(kind, inst, inst.currentStep, u, user.value))
  }

  /** One action is logged, and the instance rejected, on hold, cancelled, or in progress on its first
      step again; nothing else changes. */
  predicate DecisionMade(f: Flow, f': Flow, kind: CallKind, i: nat, u: UserId, user: Option<Role>)
    requires i < |f.instances|
  {
    var inst := f.instances[i];
    && |f'.instances| == |f.instances|
    && (forall j :: 0 <= j < |f.instances| && j != i ==> f'.instances[j] == f.instances[j])
    && match kind
       case Rejecting =>
         f'.instances[i] == inst.(status := Rejected)
         && f'.actions == f.actions + [Action(i, inst.currentStep, Reject, u, user)]
       case Returning =>
         f'.instances[i] == inst.(status := OnHold)
         && f'.actions == f.actions + [Action(i, inst.currentStep, Return, u, user)]
       case Cancelling =>
         f'.instances[i] == inst.(status := Cancelled)
         && f'.actions == f.actions + [Action(i, inst.currentStep, Reject, u, user)]
       case Resubmitting =>
         f'.instances[i] == inst.(status := InProgress, currentStep := 1)
         && f'.actions == f.actions + [Action(i, 1, Submit, u, None)]
       case Approving => false
  }

  lemma LoadExactly(f: Flow, c: Call)
    requires FlowSound(f) && c.kind != Approving
    ensures Load(f, c).phase.Some? <==>
      && c.instance < |f.instances|
      && var inst := f.instances[c.instance];
         && (c.tenant.Some? ==> c.tenant == Some(inst.tenant)) && Actionable(c.kind, inst, c.user)
    ensures Load(f, c).phase.Some? ==>
      Load(f, c) == Moved(f, Some(Loaded(if c.kind == Resubmitting then 1 else f.instances[c.instance].currentStep)))
    ensures Load(f, c).flow == f
  {
    if c.instance < |f.instances| {
      InstanceOf(f, c.instance);
      hide FlowSound;
      FoundInPlace(f.instances[c.instance].steps, f.instances[c.instance].currentStep, 1);
    }
  }

  /** A lone rejection, return, cancellation or resubmission goes through exactly where it is open to
      the user, and otherwise writes nothing. */
  lemma LoneDecisionExactly(f: Flow, kind: CallKind, i: nat, u: UserId, tenant: Option<string>, user: Option<Role>)
    requires FlowSound(f) && kind != Approving
    ensures var f' := Finish(f, Call(kind, i, u, tenant, Entered), user);
      if DecisionOpen(f, kind, i, u, tenant, user) then DecisionMade(f, f', kind, i, u, user) else f' == f
  {
    var c := Call(kind, i, u, tenant, Entered);
    LoadExactly(f, c);
    FinishAfter(f, c, user, Load(f, c));
    if Load(f, c).phase.Some? {
      InstanceOf(f, i);
      hide FlowSound, Load, Finish, Allowed;
      if kind == Resubmitting { ResubmissionFinishes(f, c, user); } else { DecisionFinishes(f, c, user); }
    }
  }

  lemma ResubmissionFinishes(f: Flow, c: Call, user: Option<Role>)
    requires c.kind == Resubmitting && c.instance < |f.instances|
    ensures DecisionMade(f, Finish(f, c.(phase := Loaded(1)), user), c.kind, c.instance, c.user, user)
  {
    hide Finish;
    var logged := Log(f, c, 1, None).flow;
    FinishAfter(f, c.(phase := Loaded(1)), user, Moved(logged, Some(Logged(1))));
    FinishAfter(logged, c.(phase := Logged(1)), user, Conclude(logged, c, 1));
  }

  lemma DecisionFinishes(f: Flow, c: Call, user: Option<Role>)
    requires c.kind != Approving && c.kind != Resubmitting && c.instance < |f.instances|
    requires TemplateUsable(f.instances[c.instance].steps)
    requires 1 <= f.instances[c.instance].currentStep <= |f.instances[c.instance].steps|
    ensures var inst := f.instances[c.instance];
      var f' := Finish(f, c.(phase := Loaded(inst.currentStep)), user);
      if user.Some? && Allowed(c.kind, inst, inst.currentStep, c.user, user.value)
      then DecisionMade(f, f', c.kind, c.instance, c.user, user) else f' == f
  {
    hide Finish, Clear, Allowed, TemplateUsable;
    var inst := f.instances[c.instance];
    var k := inst.currentStep;
    ClearExactly(f, c.(phase := Loaded(k)), k, user);
    FinishAfter(f, c.(phase := Loaded(k)), user, Clear(f, c.(phase := Loaded(k)), k, user));
    if user.Some? && Allowed(c.kind, inst, k, c.user, user.value) {
      var logged := Log(f, c, k, user).flow;
      FinishAfter(f, c.(phase := Cleared(k, user.value)), user, Moved(logged, Some(Logged(k))));
      FinishAfter(logged, c.(phase := Logged(k)), user, Conclude(logged, c, k));
    }
  }

  // ---- every action of every run

  /** At the k-th act a call of this kind, which had read that step as the current one, was told the
      user's role, and the role was allowed to do so. */
  ghost predicate AnsweredAt(acts: seq<Act>, k: nat, id: nat, kind: CallKind, a: Action) {
    && k < |acts| && a.role.Some? && acts[k] == Proceed(id, a.role)
    && var s := Run(acts[..k]);
       && id in s.calls && s.calls[id].kind == kind && s.calls[id].instance == a.instance
       && s.calls[id].user == a.user && s.calls[id].phase == Loaded(a.step)
       && a.instance < |s.flow.instances| && 1 <= a.step <= |s.flow.instances[a.instance].steps|
       && Allowed(kind, s.flow.instances[a.instance], a.step, a.user, a.role.value)
  }

  ghost predicate Answered(acts: seq<Act>, kind: CallKind, a: Action) {
    exists k: nat, id: nat :: AnsweredAt(acts, k, id, kind, a)
  }

  /** What the log says of calls of this kind. */
  function Logs(kind: CallKind): ActionKind {
    match kind
    case Approving => Approve
    case Rejecting => Reject
    case Returning => Return
    case Cancelling => Reject
    case Resubmitting => Submit
  }

  ghost predicate ByRight(acts: seq<Act>, a: Action) {
    a.kind != Submit ==> exists kind :: Logs(kind) == a.kind && Answered(acts, kind, a)
  }

  /** A call that has been let through was told the role it holds. */
  ghost predicate CallByRight(acts: seq<Act>, c: Call) {
    (c.phase.Cleared? || c.phase.NotYet?) && c.kind != Resubmitting ==>
      Answered(acts, c.kind, Action(c.instance, c.phase.step, Logs(c.kind), c.user, Some(c.phase.role)))
  }

  ghost predicate AllByRight(acts: seq<Act>, s: Floor) {
    && (forall a :: a in s.flow.actions ==> ByRight(acts, a))
    && (forall id :: id in s.calls ==> CallByRight(acts, s.calls[id]))
    && forall id :: id in s.calls && (s.calls[id].phase.Cleared? || s.calls[id].phase.NotYet?) ==>
         s.calls[id].kind != Resubmitting
  }

  lemma AnsweredStays(acts: seq<Act>, act: Act, kind: CallKind, a: Action)
    requires Answered(acts, kind, a)
    ensures Answered(acts + [act], kind, a)
  {
    hide Run, Allowed;
    var k: nat, id: nat :| AnsweredAt(acts, k, id, kind, a);
    assert (acts + [act])[..k] == acts[..k];
    assert AnsweredAt(acts + [act], k, id, kind, a);
  }

  lemma AllStay(acts: seq<Act>, act: Act)
    requires AllByRight(acts, Run(acts))
    ensures AllByRight(acts + [act], Run(acts))
  {
    hide Run, Answered;
    var s := Run(acts);
    forall a | a in s.flow.actions ensures ByRight(acts + [act], a) {
      assert ByRight(acts, a);
      if a.kind != Submit {
        var kind :| Logs(kind) == a.kind && Answered(acts, kind, a);
        AnsweredStays(acts, act, kind, a);
      }
    }
    forall id | id in s.calls ensures CallByRight(acts + [act], s.calls[id]) {
      var c := s.calls[id];
      assert CallByRight(acts, c);
      if (c.phase.Cleared? || c.phase.NotYet?) && c.kind != Resubmitting {
        AnsweredStays(acts, act, c.kind, Action(c.instance, c.phase.step, Logs(c.kind), c.user, Some(c.phase.role)));
      }
    }
  }

  /** What one await adds: at most one action, which the call's answer backs. */
  lemma AdvanceByRight(acts: seq<Act>, id: nat, answer: Option<Role>)
    requires var s := Run(acts);
      id in s.calls && FloorSound(s) && AllByRight(acts + [Proceed(id, answer)], s)
    ensures var s, more := Run(acts), acts + [Proceed(id, answer)];
      var c := s.calls[id];
      var m := Advance(s.flow, c, answer);
      && (forall a :: a in m.flow.actions ==> ByRight(more, a))
      && (m.phase.Some? ==> CallByRight(more, c.(phase := m.phase.value)))
      && (m.phase.Some? && (m.phase.value.Cleared? || m.phase.value.NotYet?) ==> c.kind != Resubmitting)
  {
    hide Run, FlowSound, Answered, Approvers;
    var s, more := Run(acts), acts + [Proceed(id, answer)];
    var c := s.calls[id];
    assert CallSound(s.flow, c);
    match c.phase
    case Entered =>
    case Loaded(step) => if c.kind != Resubmitting { ClearByRight(acts, id, answer); }
    case Cleared(step, role) => if c.kind != Approving { LogByRight(more, s.flow, c, step, role); }
    case NotYet(step, role) => LogByRight(more, s.flow, c, step, role);
    case Logged(step) =>
    case Counted(step, approvals) =>
  }

  lemma LogByRight(acts: seq<Act>, f: Flow, c: Call, step: int, role: Role)
    requires forall a :: a in f.actions ==> ByRight(acts, a)
    requires c.kind != Resubmitting && c.phase in {Cleared(step, role), NotYet(step, role)} && CallByRight(acts, c)
    ensures forall a :: a in Log(f, c, step, Some(role)).flow.actions ==> ByRight(acts, a)
  {
    hide Answered;
  }

  lemma ClearByRight(acts: seq<Act>, id: nat, answer: Option<Role>)
    requires var s := Run(acts);
      id in s.calls && FloorSound(s) && s.calls[id].phase.Loaded? && s.calls[id].kind != Resubmitting
    ensures var s := Run(acts);
      var c := s.calls[id];
      && c.instance < |s.flow.instances|
      && var m := Clear(s.flow, c, c.phase.step, answer);
         m.flow == s.flow
         && (m.phase.Some? ==> CallByRight(acts + [Proceed(id, answer)], c.(phase := m.phase.value)))
  {
    var s, act := Run(acts), Proceed(id, answer);
    var c := s.calls[id];
    assert CallSound(s.flow, c);
    InstanceOf(s.flow, c.instance);
    hide Run, FloorSound, CallSound, Clear, Allowed;
    var step := c.phase.step;
    ClearExactly(s.flow, c, step, answer);
    if answer.Some? && Allowed(c.kind, s.flow.instances[c.instance], step, c.user, answer.value) {
      assert (acts + [act])[..|acts|] == acts && (acts + [act])[|acts|] == act;
      assert AnsweredAt(acts + [act], |acts|, id, c.kind, Action(c.instance, step, Logs(c.kind), c.user, answer));
    }
  }

  lemma OpenByRight(acts: seq<Act>, f: Flow, o: Opening)
    requires forall a :: a in f.actions ==> ByRight(acts, a)
    ensures forall a :: a in Open(f, o).flow.actions ==> ByRight(acts, a)
  {
    hide Answered, Occupied, TemplateUsable;
  }

  lemma ActByRight(acts: seq<Act>, act: Act)
    requires FloorSound(Run(acts)) && AllByRight(acts, Run(acts))
    ensures AllByRight(acts + [act], Step(Run(acts), act))
  {
    AllStay(acts, act);
    var s := Run(acts);
    if act.Proceed? && act.id in s.calls { AdvanceByRight(acts, act.id, act.answer); }
    if act.StartProceed? && act.id in s.openings { OpenByRight(acts + [act], s.flow, s.openings[act.id]); }
    hide Run, Advance, Open, ByRight, FloorSound;
  }

  lemma {:induction false} RunByRight(acts: seq<Act>)
    ensures AllByRight(acts, Run(acts))
  {
    if acts != [] {
      var before := acts[..|acts| - 1];
      RunByRight(before);
      RunKeeps(before);
      hide Run;
      ActByRight(before, acts[|acts| - 1]);
      OneMoreAct(before, acts[|acts| - 1]);
      assert acts == before + [acts[|acts| - 1]];
    }
  }

  /** However calls interleave, every action in the log but a SUBMIT was made by a call that was told
      the role of its user, and on the columns of the step it acts on that role may do this. */
  lemma LoggedByRight(acts: seq<Act>, a: Action)
    requires a in Run(acts).flow.actions
    ensures a.kind == Approve ==> Answered(acts, Approving, a)
    ensures a.kind == Return ==> Answered(acts, Returning, a)
    ensures a.kind == Reject ==> Answered(acts, Rejecting, a) || Answered(acts, Cancelling, a)
  {
    RunByRight(acts);
    hide Run, Answered;
    assert ByRight(acts, a);
  }
}
