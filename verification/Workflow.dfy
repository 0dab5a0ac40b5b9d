/** The approval workflow as a concurrent protocol: every await of a call is a step of its own,
    and any number of calls are in flight on what they read earlier. Templates do not change. */
module Workflow {
  import opened Wrappers

  type UserId = string

  datatype Role = SuperAdmin | Admin | Planner | ForecastPlanner | Finance | Viewer | ForecastViewer

  datatype ApproverType = OneUser | OneRole | Manager | Dynamic

  datatype StepRow = StepRow(
    sequence: int, approverType: ApproverType, approverRole: Option<Role>, approverUser: Option<UserId>,
    required: int, canReject: bool)

  datatype Status = InProgress | Approved | Rejected | Cancelled | OnHold

  datatype Instance = Instance(
    tenant: string, entity: string, steps: seq<StepRow>, status: Status, currentStep: int, submittedBy: UserId)

  datatype ActionKind = Submit | Approve | Reject | Return

  /** `role` is a history column: the role the user was seen to have. */
  datatype Action = Action(instance: nat, step: int, kind: ActionKind, user: UserId, role: Option<Role>)

  /** The instance table and the append-only action log. */
  datatype Flow = Flow(instances: seq<Instance>, actions: seq<Action>)

  const MIN_APPROVAL_STEPS := 3

  /** `assertApprover`, once the user's row is found. */
  predicate PassesApprover(step: StepRow, user: UserId, role: Role) {
    match step.approverType
    case OneUser => step.approverUser == Some(user)
    case OneRole => step.approverRole.None? || step.approverRole.value == role
    case Manager => role == Admin
    case Dynamic => role != Viewer
  }

  /** The stricter test behind a return for changes: a role step without a role admits nobody. */
  predicate CanApproveStep(step: StepRow, user: UserId, role: Role) {
    PassesApprover(step, user, role) && (step.approverType == OneRole ==> step.approverRole.Some?)
  }

  function FindStep(steps: seq<StepRow>, sequence: int): (found: Option<StepRow>)
    ensures found.Some? ==> found.value in steps && found.value.sequence == sequence
    ensures found.None? ==> forall s :: s in steps ==> s.sequence != sequence
  {
    if steps == [] then None
    else if steps[0].sequence == sequence then Some(steps[0])
    else FindStep(steps[1..], sequence)
  }

  /** Steps in ascending order are numbered 1, 2, ... */
  predicate Contiguous(steps: seq<StepRow>) {
    steps != [] && forall i :: 0 <= i < |steps| ==> steps[i].sequence == i + 1
  }

  /** The distinct users with an APPROVE action on the step. */
  function Approvers(actions: seq<Action>, i: nat, step: int): set<UserId> {
    set a | a in actions && a.instance == i && a.step == step && a.kind == Approve :: a.user
  }

  // ---- one await of a call

  datatype CallKind = Approving | Rejecting | Returning | Cancelling | Resubmitting

  /** How far a call has got, with what it has read so far. */
  datatype Phase =
    | Entered
    | Loaded(step: int)                // instance and template read
    | Cleared(step: int, role: Role)   // the user may act on the step
    | NotYet(step: int, role: Role)    // and has not approved it
    | Logged(step: int)                // action written
    | Counted(step: int, approvals: nat)

  /** `tenant` is the tenant filter, where the caller gives one. */
  datatype Call = Call(kind: CallKind, instance: nat, user: UserId, tenant: Option<string>, phase: Phase)

  /** What an await leaves: the tables, and the call's next phase unless it returned or threw. */
  datatype Moved = Moved(flow: Flow, phase: Option<Phase>)

  /** The status a call of this kind insists on when it reads the instance. */
  predicate Actionable(kind: CallKind, inst: Instance, user: UserId) {
    match kind
    case Cancelling => inst.status == InProgress || inst.status == OnHold
    case Resubmitting => inst.status == OnHold && inst.submittedBy == user
    case _ => inst.status == InProgress
  }

  /** Read the instance with its template. */
  function Load(f: Flow, c: Call): Moved {
    if c.instance >= |f.instances| then Moved(f, None)
    else
      var inst := f.instances[c.instance];
      if (c.tenant.Some? && c.tenant.value != inst.tenant) || !Actionable(c.kind, inst, c.user) then Moved(f, None)
      else if FindStep(inst.steps, inst.currentStep).None? then Moved(f, None)
      else Moved(f, Some(Loaded(if c.kind == Resubmitting then inst.steps[0].sequence else inst.currentStep)))
  }

  /** Look the user up and check that it may act on the step; a resubmission does not. */
  function Clear(f: Flow, c: Call, step: int, user: Option<Role>): Moved
    requires c.instance < |f.instances|
  {
    var inst := f.instances[c.instance];
    var row := FindStep(inst.steps, step);
    if row.None? || user.None? then Moved(f, None)
    else
      var cleared := match c.kind
        case Approving => PassesApprover(row.value, c.user, user.value)
        case Rejecting => row.value.canReject && PassesApprover(row.value, c.user, user.value)
        case Returning => CanApproveStep(row.value, c.user, user.value)
        case Cancelling => inst.submittedBy == c.user || user.value == Admin
        case Resubmitting => true;
      Moved(f, if cleared then Some(Cleared(step, user.value)) else None)
  }

  function Log(f: Flow, c: Call, step: int, role: Option<Role>): Moved {
    var kind := match c.kind
      case Approving => Approve
      case Rejecting => Reject
      case Returning => Return
      case Cancelling => Reject
      case Resubmitting => Submit;
    Moved(f.(actions := f.actions + [Action(c.instance, step, kind, c.user, role)]), Some(Logged(step)))
  }

  function Update(f: Flow, i: nat, inst: Instance): Moved
    requires i < |f.instances|
  {
    Moved(f.(instances := f.instances[i := inst]), None)
  }

  /** The last write of a call that is not an approval: it does not look at the status again. */
  function Conclude(f: Flow, c: Call, step: int): Moved
    requires c.instance < |f.instances|
  {
    var inst := f.instances[c.instance];
    match c.kind
    case Rejecting => Update(f, c.instance, inst.(status := Rejected))
    case Returning => Update(f, c.instance, inst.(status := OnHold))
    case Cancelling => Update(f, c.instance, inst.(status := Cancelled))
    case _ => Update(f, c.instance, inst.(status := InProgress, currentStep := step))
  }

  /** The last write of an approval, on what it counted. */
  function Promote(f: Flow, c: Call, step: int, approvals: nat): Moved
    requires c.instance < |f.instances|
  {
    var inst := f.instances[c.instance];
    var row := FindStep(inst.steps, step);
    if row.None? || approvals < row.value.required then Moved(f, None)
    else if step == inst.steps[|inst.steps| - 1].sequence then Update(f, c.instance, inst.(status := Approved))
    else Update(f, c.instance, inst.(currentStep := step + 1))
  }

  /** The write after the action: an approval counts the approvers first. */
  function AfterLog(f: Flow, c: Call, step: int): Moved {
    if c.instance >= |f.instances| then Moved(f, None)
    else if c.kind != Approving then Conclude(f, c, step)
    else Moved(f, Some(Counted(step, |Approvers(f.actions, c.instance, step)|)))
  }

  /** Nobody approves a step twice. */
  function AfterClear(f: Flow, c: Call, step: int, role: Role): Moved {
    if c.kind != Approving then Log(f, c, step, Some(role))
    else if c.user in Approvers(f.actions, c.instance, step) then Moved(f, None)
    else Moved(f, Some(NotYet(step, role)))
  }

  /** The next await of a call. `user` is the answer to the user query, where the await is that. */
  function Advance(f: Flow, c: Call, user: Option<Role>): Moved {
    match c.phase
    case Entered => Load(f, c)
    case Loaded(step) =>
      if c.kind == Resubmitting then Log(f, c, step, None)
      else if c.instance < |f.instances| then Clear(f, c, step, user) else Moved(f, None)
    case Cleared(step, role) => AfterClear(f, c, step, role)
    case NotYet(step, role) => Log(f, c, step, Some(role))
    case Logged(step) => AfterLog(f, c, step)
    case Counted(step, approvals) =>
      if c.instance < |f.instances| then Promote(f, c, step, approvals) else Moved(f, None)
  }

  // ---- starting a workflow

  datatype OpeningPhase = Fetched | Vacant | Created(instance: nat)

  datatype Opening = Opening(tenant: string, entity: string, steps: seq<StepRow>, user: UserId, phase: OpeningPhase)

  /** The checks on the template, which comes sorted by sequence. */
  predicate TemplateUsable(steps: seq<StepRow>) { Contiguous(steps) && |steps| >= MIN_APPROVAL_STEPS }

  predicate Occupied(f: Flow, tenant: string, entity: string) {
    exists inst :: inst in f.instances && inst.tenant == tenant && inst.entity == entity
      && (inst.status == InProgress || inst.status == OnHold)
  }

  datatype Opened = Opened(flow: Flow, phase: Option<OpeningPhase>)

  /** The next await of `startWorkflow`. */
  function Open(f: Flow, o: Opening): Opened {
    match o.phase
    case Fetched =>
      Opened(f, if TemplateUsable(o.steps) && !Occupied(f, o.tenant, o.entity) then Some(Vacant) else None)
    case Vacant =>
      if !TemplateUsable(o.steps) then Opened(f, None)
      else Opened(f.(instances := f.instances
               + [Instance(o.tenant, o.entity, o.steps, InProgress, o.steps[0].sequence, o.user)]),
             Some(Created(|f.instances|)))
    case Created(i) =>
      if o.steps == [] then Opened(f, None)
      else Opened(f.(actions := f.actions + [Action(i, o.steps[0].sequence, Submit, o.user, None)]), None)
  }

  // ---- any number of calls in flight

  datatype Floor = Floor(flow: Flow, calls: map<nat, Call>, openings: map<nat, Opening>)

  datatype Act =
    | Arrive(id: nat, kind: CallKind, instance: nat, user: UserId, tenant: Option<string>)
    | Proceed(id: nat, answer: Option<Role>)
    | StartCall(id: nat, owner: string, entity: string, steps: seq<StepRow>, submitter: UserId)
    | StartProceed(id: nat)
    | Drop(id: nat)   // the process dies between two awaits

  function Step(s: Floor, act: Act): Floor {
    match act
    case Arrive(id, kind, instance, user, tenant) =>
      if id in s.calls then s else s.(calls := s.calls[id := Call(kind, instance, user, tenant, Entered)])
    case Proceed(id, answer) =>
      if id !in s.calls then s
      else
        var m := Advance(s.flow, s.calls[id], answer);
        var calls := if m.phase.Some? then s.calls[id := s.calls[id].(phase := m.phase.value)] else s.calls - {id};
        Floor(m.flow, calls, s.openings)
    case StartCall(id, owner, entity, steps, submitter) =>
      if id in s.openings then s
      else s.(openings := s.openings[id := Opening(owner, entity, steps, submitter, Fetched)])
    case StartProceed(id) =>
      if id !in s.openings then s
      else
        var m := Open(s.flow, s.openings[id]);
        var openings :=
          if m.phase.Some? then s.openings[id := s.openings[id].(phase := m.phase.value)] else s.openings - {id};
        Floor(m.flow, s.calls, openings)
    case Drop(id) => Floor(s.flow, s.calls - {id}, s.openings - {id})
  }

  function Run(acts: seq<Act>): Floor {
    if acts == [] then Floor(Flow([], []), map[], map[])
    else Step(Run(acts[..|acts| - 1]), acts[|acts| - 1])
  }

  // ---- what every await keeps

  function Needed(required: int): int { if required < 1 then 1 else required }

  /** The step has as many distinct approvers logged as it needs, and at least one. */
  ghost predicate Satisfied(f: Flow, i: nat, step: int)
    requires i < |f.instances| && 1 <= step <= |f.instances[i].steps|
  {
    |Approvers(f.actions, i, step)| >= Needed(f.instances[i].steps[step - 1].required)
  }

  /** Every step before this one is satisfied. */
  ghost predicate Reached(f: Flow, i: nat, step: int) {
    && i < |f.instances| && 1 <= step <= |f.instances[i].steps| + 1
    && forall k :: 1 <= k < step ==> Satisfied(f, i, k)
  }

  ghost predicate InstanceSound(f: Flow, i: nat)
    requires i < |f.instances|
  {
    var inst := f.instances[i];
    && TemplateUsable(inst.steps) && 1 <= inst.currentStep <= |inst.steps|
    && Reached(f, i, inst.currentStep)
    && (inst.status == Approved ==> Reached(f, i, |inst.steps| + 1))
  }

  /** An APPROVE action was logged by a user who passed the approver check of its step. */
  ghost predicate ActionSound(f: Flow, a: Action) {
    a.kind == Approve ==>
      && a.instance < |f.instances| && 1 <= a.step <= |f.instances[a.instance].steps| && a.role.Some?
      && PassesApprover(f.instances[a.instance].steps[a.step - 1], a.user, a.role.value)
  }

  ghost predicate FlowSound(f: Flow) {
    && (forall i :: 0 <= i < |f.instances| ==> InstanceSound(f, i))
    && (forall a :: a in f.actions ==> ActionSound(f, a))
  }

  ghost predicate OnStep(f: Flow, i: nat, step: int) {
    i < |f.instances| && 1 <= step <= |f.instances[i].steps| && Reached(f, i, step)
  }

  /** What an in-flight call has read still supports what it is about to write. */
  ghost predicate CallSound(f: Flow, c: Call) {
    match c.phase
    case Entered => true
    case Loaded(step) => OnStep(f, c.instance, step)
    case Cleared(step, role) =>
      OnStep(f, c.instance, step)
      && (c.kind == Approving ==> PassesApprover(f.instances[c.instance].steps[step - 1], c.user, role))
    case NotYet(step, role) =>
      c.kind == Approving && OnStep(f, c.instance, step)
      && PassesApprover(f.instances[c.instance].steps[step - 1], c.user, role)
    case Logged(step) =>
      OnStep(f, c.instance, step) && (c.kind == Approving ==> c.user in Approvers(f.actions, c.instance, step))
    case Counted(step, approvals) =>
      c.kind == Approving && OnStep(f, c.instance, step)
      && c.user in Approvers(f.actions, c.instance, step) && approvals <= |Approvers(f.actions, c.instance, step)|
  }

  ghost predicate FloorSound(s: Floor) {
    FlowSound(s.flow) && forall id :: id in s.calls ==> CallSound(s.flow, s.calls[id])
  }

  /** How the tables may change: instances keep their templates and the log grows. */
  ghost predicate Grows(f: Flow, f': Flow) {
    && |f.instances| <= |f'.instances| && f.actions <= f'.actions
    && forall i :: 0 <= i < |f.instances| ==> f'.instances[i].steps == f.instances[i].steps
  }

  lemma ApproversGrow(actions: seq<Action>, actions': seq<Action>, i: nat, step: int)
    requires actions <= actions'
    ensures Approvers(actions, i, step) <= Approvers(actions', i, step)
    ensures |Approvers(actions, i, step)| <= |Approvers(actions', i, step)|
  {
    forall a | a in actions ensures a in actions' {}
    SubsetSize(Approvers(actions, i, step), Approvers(actions', i, step));
  }

  lemma {:induction false} SubsetSize<T>(a: set<T>, b: set<T>)
    requires a <= b
    ensures |a| <= |b|
  {
    if a != {} {
      var x :| x in a;
      SubsetSize(a - {x}, b - {x});
    }
  }

  lemma ReachedStays(f: Flow, f': Flow, i: nat, step: int)
    requires Reached(f, i, step) && Grows(f, f')
    ensures Reached(f', i, step)
  {
    forall k | 1 <= k < step ensures Satisfied(f', i, k) {
      assert Satisfied(f, i, k);
      ApproversGrow(f.actions, f'.actions, i, k);
    }
  }

  lemma CallStays(f: Flow, f': Flow, c: Call)
    requires CallSound(f, c) && Grows(f, f')
    ensures CallSound(f', c)
  {
    match c.phase
    case Entered =>
    case _ =>
      ReachedStays(f, f', c.instance, c.phase.step);
      ApproversGrow(f.actions, f'.actions, c.instance, c.phase.step);
  }

  lemma InstanceStays(f: Flow, f': Flow, i: nat)
    requires i < |f.instances| && InstanceSound(f, i) && Grows(f, f') && f'.instances[i] == f.instances[i]
    ensures InstanceSound(f', i)
  {
    ReachedStays(f, f', i, f.instances[i].currentStep);
    if f.instances[i].status == Approved { ReachedStays(f, f', i, |f.instances[i].steps| + 1); }
  }

  /** Contiguous steps are found at their own number. */
  lemma {:induction false} FoundInPlace(steps: seq<StepRow>, sequence: int, first: int)
    requires forall i :: 0 <= i < |steps| ==> steps[i].sequence == first + i
    ensures FindStep(steps, sequence)
         == if first <= sequence < first + |steps| then Some(steps[sequence - first]) else None
  {
    if steps != [] && steps[0].sequence != sequence {
      FoundInPlace(steps[1..], sequence, first + 1);
    }
  }

  lemma LogKeeps(f: Flow, a: Action)
    requires FlowSound(f) && ActionSound(f, a)
    ensures FlowSound(f.(actions := f.actions + [a])) && Grows(f, f.(actions := f.actions + [a]))
  {
    var f' := f.(actions := f.actions + [a]);
    hide InstanceSound;
    forall i | 0 <= i < |f'.instances| ensures InstanceSound(f', i) { InstanceStays(f, f', i); }
    forall b | b in f'.actions ensures ActionSound(f', b) {
      assert b != a ==> b in f.actions;
    }
  }

  lemma UpdateKeeps(f: Flow, i: nat, inst: Instance)
    requires FlowSound(f) && i < |f.instances| && inst.steps == f.instances[i].steps
    requires 1 <= inst.currentStep <= |inst.steps| && Reached(f, i, inst.currentStep)
    requires inst.status == Approved ==> Reached(f, i, |inst.steps| + 1)
    ensures FlowSound(f.(instances := f.instances[i := inst])) && Grows(f, f.(instances := f.instances[i := inst]))
  {
    var f' := f.(instances := f.instances[i := inst]);
    assert InstanceSound(f, i);
    forall j | 0 <= j < |f'.instances| ensures InstanceSound(f', j) {
      if j == i {
        ReachedStays(f, f', i, inst.currentStep);
        if inst.status == Approved { ReachedStays(f, f', i, |inst.steps| + 1); }
      } else {
        InstanceStays(f, f', j);
      }
    }
    forall a | a in f'.actions ensures ActionSound(f', a) { assert ActionSound(f, a); }
  }

  lemma LoadKeeps(f: Flow, c: Call)
    requires FlowSound(f)
    ensures var m := Load(f, c);
      m.flow == f && (m.phase.Some? ==> CallSound(f, c.(phase := m.phase.value)))
  {
    if c.instance < |f.instances| {
      assert InstanceSound(f, c.instance);
      FoundInPlace(f.instances[c.instance].steps, f.instances[c.instance].currentStep, 1);
    }
  }

  lemma ClearKeeps(f: Flow, c: Call, user: Option<Role>)
    requires FlowSound(f) && CallSound(f, c) && c.phase.Loaded?
    ensures var m := Clear(f, c, c.phase.step, user);
      m.flow == f && (m.phase.Some? ==> CallSound(f, c.(phase := m.phase.value)))
  {
    assert InstanceSound(f, c.instance);
    FoundInPlace(f.instances[c.instance].steps, c.phase.step, 1);
  }

  lemma LogCallKeeps(f: Flow, c: Call)
    requires FlowSound(f) && CallSound(f, c)
    requires c.phase.NotYet? || (c.phase.Cleared? && c.kind != Approving) || (c.phase.Loaded? && c.kind == Resubmitting)
    ensures var m := Log(f, c, c.phase.step, if c.phase.Loaded? then None else Some(c.phase.role));
      FlowSound(m.flow) && Grows(f, m.flow) && m.phase.Some? && CallSound(m.flow, c.(phase := m.phase.value))
  {
    var m := Log(f, c, c.phase.step, if c.phase.Loaded? then None else Some(c.phase.role));
    var a := m.flow.actions[|f.actions|];
    LogKeeps(f, a);
    CallStays(f, m.flow, c);
    assert a in m.flow.actions;
  }

  lemma PromoteKeeps(f: Flow, c: Call)
    requires FlowSound(f) && CallSound(f, c) && c.phase.Counted?
    ensures var m := Promote(f, c, c.phase.step, c.phase.approvals);
      FlowSound(m.flow) && Grows(f, m.flow) && m.phase.None?
  {
    var i, step := c.instance, c.phase.step;
    var inst := f.instances[i];
    assert InstanceSound(f, i);
    FoundInPlace(inst.steps, step, 1);
    if c.phase.approvals >= inst.steps[step - 1].required {
      assert Satisfied(f, i, step) by { MembersCount(Approvers(f.actions, i, step), c.user); }
      assert Reached(f, i, step + 1);
      if step == |inst.steps| {
        UpdateKeeps(f, i, inst.(status := Approved));
      } else {
        UpdateKeeps(f, i, inst.(currentStep := step + 1));
      }
    }
  }

  lemma MembersCount<T>(s: set<T>, x: T)
    requires x in s
    ensures |s| >= 1
  {}

  lemma ConcludeKeeps(f: Flow, c: Call)
    requires FlowSound(f) && CallSound(f, c) && c.phase.Logged? && c.kind != Approving
    ensures var m := Conclude(f, c, c.phase.step);
      FlowSound(m.flow) && Grows(f, m.flow) && m.phase.None?
  {
    assert InstanceSound(f, c.instance);
    var inst := f.instances[c.instance];
    match c.kind
    case Rejecting => UpdateKeeps(f, c.instance, inst.(status := Rejected));
    case Returning => UpdateKeeps(f, c.instance, inst.(status := OnHold));
    case Cancelling => UpdateKeeps(f, c.instance, inst.(status := Cancelled));
    case Resubmitting => UpdateKeeps(f, c.instance, inst.(status := InProgress, currentStep := c.phase.step));
  }

  lemma AdvanceKeeps(f: Flow, c: Call, user: Option<Role>)
    requires FlowSound(f) && CallSound(f, c)
    ensures var m := Advance(f, c, user);
      FlowSound(m.flow) && Grows(f, m.flow) && (m.phase.Some? ==> CallSound(m.flow, c.(phase := m.phase.value)))
  {
    hide FlowSound;
    match c.phase
    case Entered => LoadKeeps(f, c);
    case Loaded(step) => if c.kind == Resubmitting { LogCallKeeps(f, c); } else { ClearKeeps(f, c, user); }
    case Cleared(step, role) => if c.kind != Approving { LogCallKeeps(f, c); }
    case NotYet(step, role) => LogCallKeeps(f, c);
    case Logged(step) => if c.kind != Approving { ConcludeKeeps(f, c); }
    case Counted(step, approvals) => PromoteKeeps(f, c);
  }

  lemma OpenKeeps(f: Flow, o: Opening)
    requires FlowSound(f)
    ensures FlowSound(Open(f, o).flow) && Grows(f, Open(f, o).flow)
  {
    match o.phase
    case Fetched =>
    case Created(i) =>
      if o.steps != [] { LogKeeps(f, Action(i, o.steps[0].sequence, Submit, o.user, None)); }
    case Vacant =>
      var f' := Open(f, o).flow;
      forall i | 0 <= i < |f.instances| ensures InstanceSound(f', i) {
        assert InstanceSound(f, i);
        InstanceStays(f, f', i);
      }
      forall a | a in f'.actions ensures ActionSound(f', a) { assert ActionSound(f, a); }
  }

  lemma StepKeeps(s: Floor, act: Act)
    requires FloorSound(s)
    ensures FloorSound(Step(s, act))
  {
    hide FlowSound, CallSound, Grows, Advance, Open;
    match act
    case Arrive(_, _, _, _, _) => FreshCallSound(s, act);
    case Proceed(id, answer) =>
      if id in s.calls {
        AdvanceKeeps(s.flow, s.calls[id], answer);
        forall other | other in s.calls ensures CallSound(Step(s, act).flow, s.calls[other]) {
          CallStays(s.flow, Step(s, act).flow, s.calls[other]);
        }
      }
    case StartProceed(id) =>
      if id in s.openings {
        OpenKeeps(s.flow, s.openings[id]);
        forall other | other in s.calls ensures CallSound(Step(s, act).flow, s.calls[other]) {
          CallStays(s.flow, Step(s, act).flow, s.calls[other]);
        }
      }
    case _ =>
  }

  lemma FreshCallSound(s: Floor, act: Act)
    requires FloorSound(s) && act.Arrive?
    ensures FloorSound(Step(s, act))
  {}

  lemma {:induction false} RunKeeps(acts: seq<Act>)
    ensures FloorSound(Run(acts))
  {
    if acts != [] {
      RunKeeps(acts[..|acts| - 1]);
      StepKeeps(Run(acts[..|acts| - 1]), acts[|acts| - 1]);
    }
  }

  // ---- what APPROVED means

  /** The named user on a USER step, the role of a ROLE step that has one, ADMIN on a MANAGER step,
      anybody but a VIEWER on a DYNAMIC one. */
  predicate Authorised(row: StepRow, user: UserId, role: Role) {
    && (row.approverType == OneUser ==> row.approverUser == Some(user))
    && (row.approverType == OneRole && row.approverRole.Some? ==> row.approverRole == Some(role))
    && (row.approverType == Manager ==> role == Admin)
    && (row.approverType == Dynamic ==> role != Viewer)
  }

  /** users are the distinct users with an APPROVE action on the step. */
  ghost predicate ApprovedBy(actions: seq<Action>, i: nat, step: int, users: set<UserId>) {
    forall u :: u in users <==> HasApproved(actions, i, step, u)
  }

  ghost predicate HasApproved(actions: seq<Action>, i: nat, step: int, u: UserId) {
    exists role :: Action(i, step, Approve, u, role) in actions
  }

  lemma ApproversExactly(actions: seq<Action>, i: nat, step: int)
    ensures ApprovedBy(actions, i, step, Approvers(actions, i, step))
    ensures forall u :: u in Approvers(actions, i, step) <==> HasApproved(actions, i, step, u)
  {
    forall u ensures u in Approvers(actions, i, step) <==> HasApproved(actions, i, step, u) {
      if u in Approvers(actions, i, step) {
        var a :| a in actions && a.instance == i && a.step == step && a.kind == Approve && a.user == u;
        assert a == Action(i, step, Approve, u, a.role);
      }
    }
  }

  /** The log holds an approval of the step by u, made with a role that passed the step's check. */
  ghost predicate VouchedFor(f: Flow, i: nat, step: int, u: UserId)
    requires i < |f.instances| && 1 <= step <= |f.instances[i].steps|
  {
    exists a | a in f.actions ::
      (a.instance == i && a.step == step && a.user == u && a.kind == Approve
       && a.role.Some? && Authorised(f.instances[i].steps[step - 1], u, a.role.value))
  }

  lemma ApproversVouched(f: Flow, i: nat, step: int, u: UserId)
    requires FlowSound(f) && i < |f.instances| && 1 <= step <= |f.instances[i].steps|
    requires u in Approvers(f.actions, i, step)
    ensures VouchedFor(f, i, step, u)
  {
    var a :| a in f.actions && a.instance == i && a.step == step && a.kind == Approve && a.user == u;
    assert ActionSound(f, a);
  }

  /** However the awaits of any number of callers interleave, an APPROVED instance has, for every
      step of its template, as many distinct approvers in the log as the step needs and at least
      one, and every approval of it is by whom the step's columns let approve it. */
  lemma ApprovedMeansEveryStep(acts: seq<Act>, i: nat, step: int)
    requires var f := Run(acts).flow;
      i < |f.instances| && f.instances[i].status == Approved && 1 <= step <= |f.instances[i].steps|
    ensures var f := Run(acts).flow;
      var row := f.instances[i].steps[step - 1];
      && |f.instances[i].steps| >= 3 && row.sequence == step
      && EnoughApproved(f, i, step)
      && forall a :: a in f.actions && a.instance == i && a.step == step && a.kind == Approve ==>
           && (row.approverType == OneRole && row.approverRole.Some? ==> a.role == row.approverRole)
           && (row.approverType == OneUser ==> row.approverUser == Some(a.user))
           && (row.approverType == Manager ==> a.role == Some(Admin))
           && (row.approverType == Dynamic ==> a.role.Some? && a.role != Some(Viewer))
  {
    RunKeeps(acts);
    var f := Run(acts).flow;
    assert InstanceSound(f, i);
    SatisfiedIsEnough(f, i, step);
    forall a | a in f.actions && a.instance == i && a.step == step && a.kind == Approve ensures ActionSound(f, a) {}
  }

  /** At least one user has approved the step, and as many distinct ones as it asks for. */
  ghost predicate EnoughApproved(f: Flow, i: nat, step: int)
    requires i < |f.instances| && 1 <= step <= |f.instances[i].steps|
  {
    exists users :: users != {} && |users| >= f.instances[i].steps[step - 1].required
      && ApprovedBy(f.actions, i, step, users)
  }

  lemma SatisfiedIsEnough(f: Flow, i: nat, step: int)
    requires i < |f.instances| && 1 <= step <= |f.instances[i].steps| && Satisfied(f, i, step)
    ensures EnoughApproved(f, i, step)
  {
    ApproversExactly(f.actions, i, step);
    hide Approvers, ApprovedBy;
    assert Approvers(f.actions, i, step) != {};
  }

  /** A step is never current before every earlier one is satisfied, in any status. */
  lemma CurrentStepIsReached(acts: seq<Act>, i: nat, step: int)
    requires var f := Run(acts).flow; i < |f.instances| && 1 <= step < f.instances[i].currentStep
    ensures step <= |Run(acts).flow.instances[i].steps| && EnoughApproved(Run(acts).flow, i, step)
  {
    RunKeeps(acts);
    assert InstanceSound(Run(acts).flow, i);
    SatisfiedIsEnough(Run(acts).flow, i, step);
  }

  // ---- a call nobody interferes with

  function Rank(phase: Phase): nat {
    match phase
    case Entered => 5
    case Loaded(_) => 4
    case Cleared(_, _) => 3
    case NotYet(_, _) => 2
    case Logged(_) => 1
    case Counted(_, _) => 0
  }

  /** The rest of a call's awaits, back to back. */
  function Finish(f: Flow, c: Call, user: Option<Role>): Flow
    decreases Rank(c.phase)
  {
    var m := Advance(f, c, user);
    if m.phase.None? then m.flow else Finish(m.flow, c.(phase := m.phase.value), user)
  }

  /** The user may approve the instance's current step, and has not. */
  predicate MayApprove(f: Flow, i: nat, u: UserId, tenant: Option<string>, role: Role) {
    && i < |f.instances|
    && var inst := f.instances[i];
       && (tenant.None? || tenant.value == inst.tenant) && inst.status == InProgress
       && 1 <= inst.currentStep <= |inst.steps|
       && PassesApprover(inst.steps[inst.currentStep - 1], u, role)
       && u !in Approvers(f.actions, i, inst.currentStep)
  }

  /** An approval logged as the call's own: the step is left when the approvers, the caller
      included, are as many as it asks for. */
  function WithApproval(f: Flow, i: nat, u: UserId, role: Role): Flow
    requires i < |f.instances| && 1 <= f.instances[i].currentStep <= |f.instances[i].steps|
  {
    var inst := f.instances[i];
    var k := inst.currentStep;
    var actions := f.actions + [Action(i, k, Approve, u, Some(role))];
    var enough := |Approvers(f.actions, i, k)| + 1 >= inst.steps[k - 1].required;
    var inst' := if !enough then inst
      else if k == |inst.steps| then inst.(status := Approved)
      else inst.(currentStep := k + 1);
    Flow(f.instances[i := inst'], actions)
  }

  lemma OneMoreApprover(actions: seq<Action>, a: Action)
    requires a.kind == Approve && a.user !in Approvers(actions, a.instance, a.step)
    ensures Approvers(actions + [a], a.instance, a.step) == Approvers(actions, a.instance, a.step) + {a.user}
  {
    forall b | b in actions ensures b in actions + [a] {}
    assert a in actions + [a];
  }

  /** What a lone approval does, exactly: it counts when the user may approve and has not, and
      otherwise nothing is written. */
  lemma LoneApproval(f: Flow, i: nat, u: UserId, tenant: Option<string>, user: Option<Role>)
    requires FlowSound(f)
    ensures var c := Call(Approving, i, u, tenant, Entered);
      Finish(f, c, user)
        == if user.Some? && MayApprove(f, i, u, tenant, user.value) then WithApproval(f, i, u, user.value) else f
  {
    if i < |f.instances| {
      var inst := f.instances[i];
      assert InstanceSound(f, i);
      FoundInPlace(inst.steps, inst.currentStep, 1);
      var c := Call(Approving, i, u, tenant, Entered);
      var loaded := c.(phase := Loaded(inst.currentStep));
      if Load(f, c).phase.Some? && user.Some? && Clear(f, loaded, inst.currentStep, user).phase.Some? {
        var cleared := c.(phase := Cleared(inst.currentStep, user.value));
        assert Finish(f, c, user) == Finish(f, loaded, user) == Finish(f, cleared, user);
        if u !in Approvers(f.actions, i, inst.currentStep) { LoneApprovalCounts(f, i, u, tenant, user.value); }
      }
    }
  }

  /** One await off the front of a call. */
  lemma FinishAfter(f: Flow, c: Call, user: Option<Role>, m: Moved)
    requires Advance(f, c, user) == m
    ensures Finish(f, c, user) == if m.phase.None? then m.flow else Finish(m.flow, c.(phase := m.phase.value), user)
  {}

  lemma PromotionOutcome(f: Flow, i: nat, a: Action, c: Call)
    requires FlowSound(f) && i < |f.instances| && f.instances[i].currentStep == a.step
    requires a.instance == i == c.instance && a.kind == Approve && a.role.Some?
    requires a.user !in Approvers(f.actions, i, a.step)
    requires c.phase == Counted(a.step, |Approvers(f.actions, i, a.step)| + 1)
    requires 1 <= a.step <= |f.instances[i].steps|
    ensures Promote(f.(actions := f.actions + [a]), c, a.step, c.phase.approvals)
         == Moved(WithApproval(f, i, a.user, a.role.value), None)
  {
    var inst := f.instances[i];
    assert InstanceSound(f, i);
    FoundInPlace(inst.steps, a.step, 1);
    assert f.instances[i := inst] == f.instances;
  }

  lemma LoneApprovalCounts(f: Flow, i: nat, u: UserId, tenant: Option<string>, role: Role)
    requires FlowSound(f) && MayApprove(f, i, u, tenant, role)
    ensures Finish(f, Call(Approving, i, u, tenant, Cleared(f.instances[i].currentStep, role)), Some(role))
         == WithApproval(f, i, u, role)
  {
    hide FlowSound, Approvers, WithApproval;
    var k := f.instances[i].currentStep;
    var a := Action(i, k, Approve, u, Some(role));
    var f1 := f.(actions := f.actions + [a]);
    var n := |Approvers(f.actions, i, k)| + 1;
    OneMoreApprover(f.actions, a);
    var c := Call(Approving, i, u, tenant, Cleared(k, role));
    FinishAfter(f, c, Some(role), Moved(f, Some(NotYet(k, role))));
    FinishAfter(f, c.(phase := NotYet(k, role)), Some(role), Moved(f1, Some(Logged(k))));
    FinishAfter(f1, c.(phase := Logged(k)), Some(role), Moved(f1, Some(Counted(k, n))));
    PromotionOutcome(f, i, a, c.(phase := Counted(k, n)));
    FinishAfter(f1, c.(phase := Counted(k, n)), Some(role), Moved(WithApproval(f, i, u, role), None));
  }

  // ---- when nobody can approve any more

  /** No lone approval by anyone has any effect. */
  ghost predicate Stuck(f: Flow, i: nat) {
    forall u: UserId, tenant: Option<string>, user: Option<Role> ::
      Finish(f, Call(Approving, i, u, tenant, Entered), user) == f
  }

  lemma {:induction false} LongestName(names: set<UserId>) returns (n: nat)
    ensures forall u :: u in names ==> |u| < n
    decreases |names|
  {
    if names == {} {
      n := 0;
    } else {
      var u :| u in names;
      n := LongestName(names - {u});
      n := if |u| < n then n else |u| + 1;
    }
  }

  lemma NewUser(names: set<UserId>) returns (u: UserId)
    ensures u !in names
  {
    var n := LongestName(names);
    u := seq(n, _ => 'u');
  }

  /** Somebody may approve the step and has not, unless it is one user's and that user has, or it
      names none. */
  lemma SomebodyMayApprove(f: Flow, i: nat) returns (u: UserId, role: Role)
    requires FlowSound(f) && i < |f.instances| && f.instances[i].status == InProgress
    requires 1 <= f.instances[i].currentStep <= |f.instances[i].steps|
    requires var row := f.instances[i].steps[f.instances[i].currentStep - 1];
      row.approverType == OneUser ==>
        row.approverUser.Some? && row.approverUser.value !in Approvers(f.actions, i, f.instances[i].currentStep)
    ensures MayApprove(f, i, u, None, role)
  {
    var row := f.instances[i].steps[f.instances[i].currentStep - 1];
    role := if row.approverType == OneRole && row.approverRole.Some? then row.approverRole.value else Admin;
    if row.approverType == OneUser {
      u := row.approverUser.value;
    } else {
      u := NewUser(Approvers(f.actions, i, f.instances[i].currentStep));
    }
  }

  /** The current step of a workflow in progress can never be approved by anyone exactly if it is one
      user's and names no user or one who has approved it before. */
  lemma StuckExactly(f: Flow, i: nat)
    requires FlowSound(f) && i < |f.instances| && f.instances[i].status == InProgress
    ensures 1 <= f.instances[i].currentStep <= |f.instances[i].steps|
    ensures var row := f.instances[i].steps[f.instances[i].currentStep - 1];
      Stuck(f, i) <==>
        && row.approverType == OneUser
        && (row.approverUser.None? || row.approverUser.value in Approvers(f.actions, i, f.instances[i].currentStep))
  {
    hide FlowSound, Approvers, Finish;
    InstanceOf(f, i);
    var k := f.instances[i].currentStep;
    var row := f.instances[i].steps[k - 1];
    if row.approverType == OneUser
       && (row.approverUser.None? || row.approverUser.value in Approvers(f.actions, i, k)) {
      forall u, tenant, user ensures Finish(f, Call(Approving, i, u, tenant, Entered), user) == f {
        LoneApproval(f, i, u, tenant, user);
      }
    } else {
      var u, role := SomebodyMayApprove(f, i);
      LoneApproval(f, i, u, None, Some(role));
      assert |WithApproval(f, i, u, role).actions| == |f.actions| + 1;
    }
  }

  lemma InstanceOf(f: Flow, i: nat)
    requires FlowSound(f) && i < |f.instances|
    ensures 1 <= f.instances[i].currentStep <= |f.instances[i].steps| && TemplateUsable(f.instances[i].steps)
  {
    assert InstanceSound(f, i);
  }

  /** What a resubmission leaves: the first step again, and the log as it was but for the SUBMIT. */
  function Resubmitted(f: Flow, i: nat): Flow
    requires i < |f.instances|
  {
    var inst := f.instances[i];
    Flow(f.instances[i := inst.(status := InProgress, currentStep := 1)],
         f.actions + [Action(i, 1, Submit, inst.submittedBy, None)])
  }

  lemma LoneResubmission(f: Flow, i: nat)
    requires FlowSound(f) && i < |f.instances| && f.instances[i].status == OnHold
    ensures Finish(f, Call(Resubmitting, i, f.instances[i].submittedBy, None, Entered), None) == Resubmitted(f, i)
    ensures FlowSound(Resubmitted(f, i))
  {
    var inst := f.instances[i];
    InstanceOf(f, i);
    FoundInPlace(inst.steps, inst.currentStep, 1);
    FoundInPlace(inst.steps, 1, 1);
    var f1 := f.(actions := f.actions + [Action(i, 1, Submit, inst.submittedBy, None)]);
    var f2 := f1.(instances := f1.instances[i := inst.(status := InProgress, currentStep := 1)]);
    var c := Call(Resubmitting, i, inst.submittedBy, None, Entered);
    hide FlowSound;
    FinishAfter(f, c, None, Moved(f, Some(Loaded(1))));
    FinishAfter(f, c.(phase := Loaded(1)), None, Moved(f1, Some(Logged(1))));
    FinishAfter(f1, c.(phase := Logged(1)), None, Moved(f2, None));
    LogKeeps(f, Action(i, 1, Submit, inst.submittedBy, None));
    UpdateKeeps(f1, i, inst.(status := InProgress, currentStep := 1));
  }

  /** A resubmission keeps the action log. So it leaves a workflow that nobody can approve exactly if
      the first step is one user's who is not named or has approved it; and so always if that step
      had been left before. */
  lemma ResubmissionIsStuckExactly(f: Flow, i: nat)
    requires FlowSound(f) && i < |f.instances| && f.instances[i].status == OnHold
    ensures |f.instances[i].steps| > 0
    ensures var row := f.instances[i].steps[0];
      Stuck(Resubmitted(f, i), i) <==>
        && row.approverType == OneUser
        && (row.approverUser.None? || row.approverUser.value in Approvers(f.actions, i, 1))
    ensures f.instances[i].currentStep > 1 && f.instances[i].steps[0].approverType == OneUser ==>
      Stuck(Resubmitted(f, i), i)
  {
    var inst, f' := f.instances[i], Resubmitted(f, i);
    InstanceOf(f, i);
    LoneResubmission(f, i);
    StuckExactly(f', i);
    assert Approvers(f'.actions, i, 1) == Approvers(f.actions, i, 1);
    if inst.currentStep > 1 && inst.steps[0].approverType == OneUser {
      assert InstanceSound(f, i);
      assert Satisfied(f, i, 1);
      if inst.steps[0].approverUser.Some? {
        SoleApprover(f, i, inst.steps[0].approverUser.value);
      }
    }
  }

  /** Whoever approved a step with one named approver is that approver. */
  lemma SoleApprover(f: Flow, i: nat, approver: UserId)
    requires FlowSound(f) && i < |f.instances| && |f.instances[i].steps| > 0 && Satisfied(f, i, 1)
    requires f.instances[i].steps[0].approverType == OneUser && f.instances[i].steps[0].approverUser == Some(approver)
    ensures approver in Approvers(f.actions, i, 1)
  {
    assert Approvers(f.actions, i, 1) != {};
    var u :| u in Approvers(f.actions, i, 1);
    ApproversVouched(f, i, 1, u);
  }

  /** `ensureApproved`: the entity's latest instance, if that is APPROVED. */
  function EnsureApproved(instances: seq<Instance>, tenant: string, entity: string): Option<nat> {
    if instances == [] then None
    else
      var n := |instances| - 1;
      if instances[n].tenant != tenant || instances[n].entity != entity
      then EnsureApproved(instances[..n], tenant, entity)
      else if instances[n].status == Approved then Some(n) else None
  }

  /** That instance is APPROVED and no later one is the entity's. */
  lemma {:induction false} EnsuredIsApproved(instances: seq<Instance>, tenant: string, entity: string, i: nat)
    ensures EnsureApproved(instances, tenant, entity) == Some(i) <==>
      && i < |instances| && instances[i].status == Approved
      && instances[i].tenant == tenant && instances[i].entity == entity
      && forall j :: i < j < |instances| ==> instances[j].tenant != tenant || instances[j].entity != entity
  {
    if instances != [] {
      var n := |instances| - 1;
      if instances[n].tenant != tenant || instances[n].entity != entity {
        EnsuredIsApproved(instances[..n], tenant, entity, i);
      }
    }
  }

  /** An entity that passes `ensureApproved` has every step of its latest workflow satisfied. */
  lemma EnsuredMeansEveryStep(acts: seq<Act>, tenant: string, entity: string, step: int)
    requires EnsureApproved(Run(acts).flow.instances, tenant, entity).Some?
    ensures var f := Run(acts).flow;
      var i := EnsureApproved(f.instances, tenant, entity).value;
      i < |f.instances| && (1 <= step <= |f.instances[i].steps| ==> EnoughApproved(f, i, step))
  {
    var f := Run(acts).flow;
    var i := EnsureApproved(f.instances, tenant, entity).value;
    EnsuredIsApproved(f.instances, tenant, entity, i);
    if 1 <= step <= |f.instances[i].steps| { ApprovedMeansEveryStep(acts, i, step); }
  }

  /** The rest of a start's awaits, back to back. */
  function FinishOpening(f: Flow, o: Opening): Flow
    decreases match o.phase case Fetched => 2 case Vacant => 1 case Created(_) => 0
  {
    var m := Open(f, o);
    if m.phase.None? then m.flow else FinishOpening(m.flow, o.(phase := m.phase.value))
  }

  lemma OpenAfter(f: Flow, o: Opening, m: Opened)
    requires Open(f, o) == m
    ensures FinishOpening(f, o) == if m.phase.None? then m.flow else FinishOpening(m.flow, o.(phase := m.phase.value))
  {}

  /** What a lone start does: one instance on its first step and one SUBMIT action, or nothing. */
  lemma LoneStart(f: Flow, tenant: string, entity: string, steps: seq<StepRow>, user: UserId)
    ensures FinishOpening(f, Opening(tenant, entity, steps, user, Fetched))
         == if TemplateUsable(steps) && !Occupied(f, tenant, entity)
            then Flow(f.instances + [Instance(tenant, entity, steps, InProgress, 1, user)],
                      f.actions + [Action(|f.instances|, 1, Submit, user, None)])
            else f
  {
    var o := Opening(tenant, entity, steps, user, Fetched);
    if TemplateUsable(steps) && !Occupied(f, tenant, entity) {
      var f1 := f.(instances := f.instances + [Instance(tenant, entity, steps, InProgress, 1, user)]);
      var f2 := f1.(actions := f.actions + [Action(|f.instances|, 1, Submit, user, None)]);
      OpenAfter(f, o, Opened(f, Some(Vacant)));
      OpenAfter(f, o.(phase := Vacant), Opened(f1, Some(Created(|f.instances|))));
      OpenAfter(f1, o.(phase := Created(|f.instances|)), Opened(f2, None));
    } else {
      OpenAfter(f, o, Opened(f, None));
    }
  }
}
