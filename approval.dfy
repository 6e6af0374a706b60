/**
 * The approval workflow engine: workflow templates with ordered stage
 * templates, workflow instances that materialise their stages one order
 * index at a time, per-user assignments, and the append-only action log.
 *
 * This module holds the values and the pure rules (template lookup, next
 * stage selection, the ALL / ANY / QUORUM decision); the stateful manager is
 * in module ApprovalEngine.
 */
module Approval {
  import opened Common

  type UserId = nat
  type RoleId = nat

  /** The approvable record: its content type and primary key. */
  datatype Target = Target(contentType: nat, objectId: nat)

  datatype Policy = All | Any | Quorum

  datatype StageTemplate = StageTemplate(
    orderIndex: int,
    policy: Policy,
    quorumCount: Option<int>,
    requiredRole: Option<RoleId>,
    allowReject: bool,
    allowDelegate: bool)

  datatype WorkflowTemplate = WorkflowTemplate(
    contentType: nat,
    version: int,
    isActive: bool,
    stages: seq<StageTemplate>)

  datatype WorkflowStatus = Pending | InProgress | Approved | Rejected | Cancelled
  {
    /** "pending" and "in_progress" instances are live; the other three are terminal. */
    predicate IsLive() { Pending? || InProgress? }
  }

  datatype StageStatus = Active | Completed | Skipped | Cancelled

  datatype StageInstance = StageInstance(template: StageTemplate, status: StageStatus)

  datatype Instance = Instance(
    target: Target,
    template: WorkflowTemplate,
    status: WorkflowStatus,
    current: Option<StageTemplate>,   // current_stage_template
    finished: bool,                   // finished_at is set
    stages: seq<StageInstance>)       // stage instances of this workflow, in creation order

  /** Identifies stage instance `index` of workflow instance `workflow`. */
  datatype StageRef = StageRef(workflow: nat, index: nat)

  datatype AssignmentStatus = Pending | Approved | Rejected | Delegated

  datatype Assignment = Assignment(
    id: nat,
    stage: StageRef,
    user: UserId,
    role: Option<RoleId>,             // role snapshot taken when the assignment is created
    status: AssignmentStatus)

  datatype ActionKind = Approve | Reject | Delegate | Comment

  /** The comment stored with an action: the caller's text or one of the engine's own messages. */
  datatype Note =
    | NoComment
    | Text(text: string)
    | AutoSkipped                     // "Stage auto-skipped: no eligible approvers"
    | WorkflowRejected                // "Workflow rejected"
    | DelegatedTo(user: UserId)       // "Delegated to <user>"
    | CancelledBecause(reason: string) // "Workflow cancelled. Reason: <reason>"

  /** One row of the audit log; `user == None` is the system user. */
  datatype Action = Action(
    stage: StageRef,
    user: Option<UserId>,
    assignment: Option<nat>,
    kind: ActionKind,
    comment: Note,
    triggersCompletion: bool)

  datatype Delegation = Delegation(fromUser: UserId, toUser: UserId, stage: StageRef, active: bool)

  /** Calls of the approvable record's hooks, recorded in the order the engine makes them. */
  datatype Hook =
    | ApprovalStarted(workflow: nat)
    | StageApprovedHook(stage: StageRef)
    | FullyApproved(workflow: nat)
    | RejectedHook(workflow: nat, stage: StageRef)
    | CancelledHook(workflow: nat, reason: Option<string>)

  datatype Decision = StillPending | StageApproved | StageRejected

  datatype Error =
    | NoActiveTemplate
    | InvalidQuorumCount
    | WorkflowAlreadyInProgress
    | NoInstanceToCancel
    | NoWorkflowInstance
    | NoActiveStage
    | NoAssignmentInStage
    | InvalidAction
    | RejectionNotAllowed
    | DelegationNotAllowed
    | AlreadyDecided
    | DelegateTargetRequired
    | DelegatorHasNoAssignment
    | AssignmentAlreadyProcessed
    | TargetAlreadyInvolved

  // ---------------------------------------------------------------------
  // Templates
  // ---------------------------------------------------------------------

  /** The most recent (highest version) active template for a content type. */
  function FindTemplate(ts: seq<WorkflowTemplate>, contentType: nat): (r: Option<WorkflowTemplate>)
    ensures r.None? <==> forall i :: 0 <= i < |ts| ==> !(ts[i].isActive && ts[i].contentType == contentType)
    ensures r.Some? ==> r.value in ts && r.value.isActive && r.value.contentType == contentType
    ensures r.Some? ==> forall i :: 0 <= i < |ts| && ts[i].isActive && ts[i].contentType == contentType ==>
                          ts[i].version <= r.value.version
  {
    if ts == [] then None
    else
      var rest := FindTemplate(ts[1..], contentType);
      if ts[0].isActive && ts[0].contentType == contentType && (rest.None? || rest.value.version <= ts[0].version)
      then Some(ts[0])
      else rest
  }

  /** A QUORUM stage with a nonzero quorum_count below 1 is rejected; 0 counts as unset. */
  predicate TemplateIsValid(t: WorkflowTemplate)
  {
    forall i :: 0 <= i < |t.stages| && t.stages[i].policy == Quorum && t.stages[i].quorumCount.Some? ==>
      !(t.stages[i].quorumCount.value != 0 && t.stages[i].quorumCount.value < 1)
  }

  // ---------------------------------------------------------------------
  // Choosing the next stage
  // ---------------------------------------------------------------------

  /** `k` lies above `bound`; no bound means every order index qualifies. */
  predicate Above(k: int, bound: Option<int>)
  {
    bound.None? || k > bound.value
  }

  /** Smallest order index of a stage template strictly above `bound`. */
  function MinOrderAbove(ts: seq<StageTemplate>, bound: Option<int>): (r: Option<int>)
    ensures r.None? <==> forall i :: 0 <= i < |ts| ==> !Above(ts[i].orderIndex, bound)
    ensures r.Some? ==> Above(r.value, bound) && exists i :: 0 <= i < |ts| && ts[i].orderIndex == r.value
    ensures r.Some? ==> forall i :: 0 <= i < |ts| && Above(ts[i].orderIndex, bound) ==> r.value <= ts[i].orderIndex
  {
    if ts == [] then None
    else
      var rest := MinOrderAbove(ts[1..], bound);
      if Above(ts[0].orderIndex, bound) && (rest.None? || ts[0].orderIndex <= rest.value)
      then Some(ts[0].orderIndex)
      else rest
  }

  /** Number of stage templates whose order index lies above `bound`. */
  function CountAbove(ts: seq<StageTemplate>, bound: Option<int>): nat
  {
    if ts == [] then 0
    else (if Above(ts[0].orderIndex, bound) then 1 else 0) + CountAbove(ts[1..], bound)
  }

  /** Raising the bound to an order index that lies above it and occurs in the template leaves fewer stages ahead. */
  lemma {:induction false} CountAboveDecreases(ts: seq<StageTemplate>, bound: Option<int>, k: int)
    requires Above(k, bound)
    requires exists i :: 0 <= i < |ts| && ts[i].orderIndex == k
    ensures CountAbove(ts, Some(k)) < CountAbove(ts, bound)
  {
    if ts[0].orderIndex != k {
      var i :| 0 <= i < |ts| && ts[i].orderIndex == k;
      assert ts[1..][i - 1].orderIndex == k;
      CountAboveDecreases(ts[1..], bound, k);
    } else {
      CountAboveNotIncreasing(ts[1..], bound, k);
    }
  }

  lemma {:induction false} CountAboveNotIncreasing(ts: seq<StageTemplate>, bound: Option<int>, k: int)
    requires Above(k, bound)
    ensures CountAbove(ts, Some(k)) <= CountAbove(ts, bound)
  {
    if ts != [] {
      CountAboveNotIncreasing(ts[1..], bound, k);
    }
  }

  /** The stage templates at order index `k`, in template order. */
  function StagesAt(ts: seq<StageTemplate>, k: int): (r: seq<StageTemplate>)
    ensures forall x :: x in r ==> x in ts && x.orderIndex == k
    ensures (exists i :: 0 <= i < |ts| && ts[i].orderIndex == k) ==> r != []
  {
    if ts == [] then []
    else (if ts[0].orderIndex == k then [ts[0]] else []) + StagesAt(ts[1..], k)
  }

  /** Order index of the most recently created stage instance. */
  function LastOrder(stages: seq<StageInstance>): Option<int>
  {
    if stages == [] then None else Some(stages[|stages| - 1].template.orderIndex)
  }

  /** Order index of the stage instance created just before stage `j`. */
  function PrevOrder(stages: seq<StageInstance>, j: nat): Option<int>
    requires j <= |stages|
  {
    if j == 0 then None else Some(stages[j - 1].template.orderIndex)
  }

  /** Index of the first ACTIVE stage instance. */
  function FirstActive(stages: seq<StageInstance>): (r: Option<nat>)
    ensures r.Some? ==> r.value < |stages| && stages[r.value].status == Active
    ensures r.Some? ==> forall j :: 0 <= j < r.value ==> stages[j].status != Active
    ensures r.None? ==> forall j :: 0 <= j < |stages| ==> stages[j].status != Active
  {
    if stages == [] then None
    else if stages[0].status == Active then Some(0)
    else
      var rest := FirstActive(stages[1..]);
      if rest.Some? then Some(rest.value + 1) else None
  }

  predicate IsDone(s: StageInstance)
  {
    s.status == Completed || s.status == Skipped
  }

  /** Largest order index among completed or skipped stage instances. */
  function MaxDoneOrder(stages: seq<StageInstance>): (r: Option<int>)
    ensures r.None? <==> forall j :: 0 <= j < |stages| ==> !IsDone(stages[j])
    ensures r.Some? ==> exists j :: 0 <= j < |stages| && IsDone(stages[j]) && stages[j].template.orderIndex == r.value
    ensures r.Some? ==> forall j :: 0 <= j < |stages| && IsDone(stages[j]) ==> stages[j].template.orderIndex <= r.value
  {
    if stages == [] then None
    else
      var init := stages[..|stages| - 1];
      var last := stages[|stages| - 1];
      var rest := MaxDoneOrder(init);
      assert forall j :: 0 <= j < |init| ==> init[j] == stages[j];
      if IsDone(last) && (rest.None? || rest.value < last.template.orderIndex)
      then Some(last.template.orderIndex)
      else rest
  }

  /**
   * The order index to activate next: after the active stage if there is
   * one, else after the highest completed or skipped stage, else the first
   * order index of the template; None when no stage template is left.
   */
  function FindNextOrderIndex(ts: seq<StageTemplate>, stages: seq<StageInstance>): Option<int>
  {
    var active := FirstActive(stages);
    if active.None? then
      var done := MaxDoneOrder(stages);
      if done.Some? then MinOrderAbove(ts, done) else MinOrderAbove(ts, None)
    else
      MinOrderAbove(ts, Some(stages[active.value].template.orderIndex))
  }

  /**
   * Shape of the stage instances of one workflow: created in strictly
   * increasing order index, only the newest may be ACTIVE, a live workflow
   * has no cancelled stage and a finished one no active stage.
   */
  ghost predicate StagesWellFormed(inst: Instance)
  {
    && (forall j, k :: 0 <= j < k < |inst.stages| ==>
          inst.stages[j].template.orderIndex < inst.stages[k].template.orderIndex)
    && (forall j :: 0 <= j < |inst.stages| - 1 ==> inst.stages[j].status != Active)
    && (inst.status.IsLive() ==> forall j :: 0 <= j < |inst.stages| ==> inst.stages[j].status != StageStatus.Cancelled)
    && (!inst.status.IsLive() ==> forall j :: 0 <= j < |inst.stages| ==> inst.stages[j].status != Active)
  }

  /** In a live, well-formed workflow the next order index is the smallest one above the newest stage. */
  lemma NextOrderFollowsLastStage(inst: Instance)
    requires StagesWellFormed(inst) && inst.status.IsLive()
    ensures FindNextOrderIndex(inst.template.stages, inst.stages) == MinOrderAbove(inst.template.stages, LastOrder(inst.stages))
  {
    var stages := inst.stages;
    if FirstActive(stages).None? && stages != [] {
      var n := |stages| - 1;
      assert IsDone(stages[n]);
      var done := MaxDoneOrder(stages);
      assert done.Some?;
      var j :| 0 <= j < |stages| && IsDone(stages[j]) && stages[j].template.orderIndex == done.value;
      assert j == n;
    } else if FirstActive(stages).None? {
      assert MaxDoneOrder(stages) == None;
    }
  }

  // ---------------------------------------------------------------------
  // Stage decision
  // ---------------------------------------------------------------------

  /** Quorum used when quorum_count is unset (or 0): max(1, n // 2 + 1), a strict majority. */
  function DefaultQuorum(total: nat): (q: int)
    ensures q >= 1 && 2 * q > total
    ensures total >= 1 ==> q <= total
  {
    Max(1, total / 2 + 1)
  }

  function EffectiveQuorum(t: StageTemplate, total: nat): int
  {
    if t.quorumCount.Some? && t.quorumCount.value != 0 then t.quorumCount.value else DefaultQuorum(total)
  }

  predicate IsRejectOn(a: Action, s: StageRef)
  {
    a.stage == s && a.kind == Reject
  }

  predicate IsApprovalOn(a: Action, s: StageRef)
  {
    a.stage == s && a.kind == Approve && a.assignment.Some?
  }

  predicate HasReject(actions: seq<Action>, s: StageRef)
  {
    exists i :: 0 <= i < |actions| && IsRejectOn(actions[i], s)
  }

  /** Distinct assignment ids named by APPROVE actions on the stage. */
  function ApprovedIds(actions: seq<Action>, s: StageRef): set<nat>
  {
    set i | 0 <= i < |actions| && IsApprovalOn(actions[i], s) :: actions[i].assignment.value
  }

  /** Ids of all assignments of the stage, delegated ones included. */
  function AssignedIds(assignments: seq<Assignment>, s: StageRef): set<nat>
  {
    set i | 0 <= i < |assignments| && assignments[i].stage == s :: assignments[i].id
  }

  /**
   * The outcome of a stage: a REJECT action on a stage that allows
   * rejection wins; otherwise the stage policy decides from the assignments
   * that have an APPROVE action.
   */
  function StageDecision(t: StageTemplate, s: StageRef, assignments: seq<Assignment>, actions: seq<Action>): (d: Decision)
    ensures d == StageRejected <==> t.allowReject && HasReject(actions, s)
  {
    var approved := ApprovedIds(actions, s);
    var assignedIds := AssignedIds(assignments, s);
    if t.allowReject && HasReject(actions, s) then StageRejected
    else
      match t.policy
      case All =>
        if approved == assignedIds then StageApproved else StillPending
      case Any =>
        if |approved| >= 1 then StageApproved else StillPending
      case Quorum =>
        if |approved| >= EffectiveQuorum(t, |assignedIds|) then StageApproved else StillPending
  }

  /** Under ANY, one APPROVE action on the stage decides it, unless a rejection wins. */
  lemma DecisionUnderAny(t: StageTemplate, s: StageRef, assignments: seq<Assignment>, actions: seq<Action>)
    requires t.policy == Any && !(t.allowReject && HasReject(actions, s))
    ensures StageDecision(t, s, assignments, actions) == StageApproved <==>
            exists i :: 0 <= i < |actions| && IsApprovalOn(actions[i], s)
  {
    var approved := ApprovedIds(actions, s);
    if exists i :: 0 <= i < |actions| && IsApprovalOn(actions[i], s) {
      var i :| 0 <= i < |actions| && IsApprovalOn(actions[i], s);
      assert actions[i].assignment.value in approved;
    } else {
      assert approved == {};
    }
  }

  /**
   * Under ALL, the stage is approved exactly when every assignment of the
   * stage, delegated ones included, is named by an APPROVE action and every
   * APPROVE action names an assignment of the stage.
   */
  lemma DecisionUnderAll(t: StageTemplate, s: StageRef, assignments: seq<Assignment>, actions: seq<Action>)
    requires t.policy == All && !(t.allowReject && HasReject(actions, s))
    ensures StageDecision(t, s, assignments, actions) == StageApproved <==>
      (forall i :: 0 <= i < |assignments| && assignments[i].stage == s ==>
         exists k :: 0 <= k < |actions| && IsApprovalOn(actions[k], s) && actions[k].assignment.value == assignments[i].id)
      && (forall k :: 0 <= k < |actions| && IsApprovalOn(actions[k], s) ==>
         exists i :: 0 <= i < |assignments| && assignments[i].stage == s && assignments[i].id == actions[k].assignment.value)
  {
    var approved := ApprovedIds(actions, s);
    var assignedIds := AssignedIds(assignments, s);
    if approved == assignedIds {
      forall i | 0 <= i < |assignments| && assignments[i].stage == s
        ensures exists k :: 0 <= k < |actions| && IsApprovalOn(actions[k], s) && actions[k].assignment.value == assignments[i].id
      {
        assert assignments[i].id in assignedIds;
      }
      forall k | 0 <= k < |actions| && IsApprovalOn(actions[k], s)
        ensures exists i :: 0 <= i < |assignments| && assignments[i].stage == s && assignments[i].id == actions[k].assignment.value
      {
        assert actions[k].assignment.value in approved;
      }
    } else if exists x :: x in assignedIds && x !in approved {
      var x :| x in assignedIds && x !in approved;
      var i :| 0 <= i < |assignments| && assignments[i].stage == s && assignments[i].id == x;
      assert !exists k :: 0 <= k < |actions| && IsApprovalOn(actions[k], s) && actions[k].assignment.value == assignments[i].id;
    } else {
      var x :| x in approved && x !in assignedIds;
      var k :| 0 <= k < |actions| && IsApprovalOn(actions[k], s) && actions[k].assignment.value == x;
      assert !exists i :: 0 <= i < |assignments| && assignments[i].stage == s && assignments[i].id == actions[k].assignment.value;
    }
  }

  /**
   * Under QUORUM with quorum_count unset (or 0) the stage needs a strict
   * majority of its assignments to approve; with a nonzero quorum_count it
   * needs that many approving assignments.
   */
  lemma DecisionUnderQuorum(t: StageTemplate, s: StageRef, assignments: seq<Assignment>, actions: seq<Action>)
    requires t.policy == Quorum && !(t.allowReject && HasReject(actions, s))
    ensures (t.quorumCount.None? || t.quorumCount == Some(0)) ==>
      (StageDecision(t, s, assignments, actions) == StageApproved <==>
       2 * |ApprovedIds(actions, s)| > |AssignedIds(assignments, s)|)
    ensures t.quorumCount.Some? && t.quorumCount.value != 0 ==>
      (StageDecision(t, s, assignments, actions) == StageApproved <==>
       |ApprovedIds(actions, s)| >= t.quorumCount.value)
  {
    var n := |AssignedIds(assignments, s)|;
    var a := |ApprovedIds(actions, s)|;
    if t.quorumCount.None? || t.quorumCount == Some(0) {
      assert EffectiveQuorum(t, n) == Max(1, n / 2 + 1);
      assert a >= Max(1, n / 2 + 1) <==> 2 * a > n;
    }
  }

  lemma SubsetCardinality<T>(a: set<T>, b: set<T>)
    requires a <= b
    ensures |a| <= |b|
  {
    assert b == a + (b - a);
  }

  lemma ApprovedIdsAppend(actions: seq<Action>, a: Action, s: StageRef)
    ensures ApprovedIds(actions + [a], s) ==
            ApprovedIds(actions, s) + (if IsApprovalOn(a, s) then {a.assignment.value} else {})
    ensures HasReject(actions + [a], s) == (HasReject(actions, s) || IsRejectOn(a, s))
  {
    var acts := actions + [a];
    assert forall i :: 0 <= i < |actions| ==> acts[i] == actions[i];
    assert acts[|actions|] == a;
    if IsRejectOn(a, s) {
      assert IsRejectOn(acts[|actions|], s);
    }
  }

  /** A COMMENT action never changes a stage's outcome. */
  lemma CommentKeepsDecision(t: StageTemplate, s: StageRef, assignments: seq<Assignment>, actions: seq<Action>, a: Action)
    requires a.kind == Comment
    ensures StageDecision(t, s, assignments, actions + [a]) == StageDecision(t, s, assignments, actions)
  {
    ApprovedIdsAppend(actions, a, s);
  }

  /**
   * Approvals only help: once a stage is approved, one more APPROVE action
   * naming an assignment of that stage leaves it approved.
   */
  lemma ApprovalIsMonotone(t: StageTemplate, s: StageRef, assignments: seq<Assignment>, actions: seq<Action>, a: Action)
    requires StageDecision(t, s, assignments, actions) == StageApproved
    requires a.kind == Approve && a.assignment.Some? && a.assignment.value in AssignedIds(assignments, s)
    ensures StageDecision(t, s, assignments, actions + [a]) == StageApproved
  {
    ApprovedIdsAppend(actions, a, s);
    var before := ApprovedIds(actions, s);
    var after := ApprovedIds(actions + [a], s);
    SubsetCardinality(before, after);
  }

  /** Under ALL, an assignment of the stage with no APPROVE action (a delegator's, say) keeps the stage open. */
  lemma AllWaitsForEveryAssignment(t: StageTemplate, s: StageRef, assignments: seq<Assignment>, actions: seq<Action>, i: nat)
    requires t.policy == All
    requires i < |assignments| && assignments[i].stage == s
    requires forall k :: 0 <= k < |actions| && IsApprovalOn(actions[k], s) ==> actions[k].assignment.value != assignments[i].id
    ensures StageDecision(t, s, assignments, actions) != StageApproved
  {
    assert assignments[i].id in AssignedIds(assignments, s);
    assert assignments[i].id !in ApprovedIds(actions, s);
  }

  /** Changing only an assignment's status leaves the stage's assignment ids, and so its outcome, as they were. */
  lemma StatusChangeKeepsDecision(t: StageTemplate, s: StageRef, assignments: seq<Assignment>, actions: seq<Action>, i: nat, st: AssignmentStatus)
    requires i < |assignments|
    ensures StageDecision(t, s, assignments[i := assignments[i].(status := st)], actions) == StageDecision(t, s, assignments, actions)
  {
    var updated := assignments[i := assignments[i].(status := st)];
    assert forall k :: 0 <= k < |assignments| ==> updated[k].stage == assignments[k].stage && updated[k].id == assignments[k].id;
    assert AssignedIds(updated, s) == AssignedIds(assignments, s);
  }

  // ---------------------------------------------------------------------
  // Lookups
  // ---------------------------------------------------------------------

  /**
   * The most recently started instance for a target (optionally only a
   * live one): instances are appended in start order.
   */
  function LatestInstance(instances: seq<Instance>, target: Target, liveOnly: bool): (r: Option<nat>)
    ensures r.Some? ==> r.value < |instances| && instances[r.value].target == target
    ensures r.Some? && liveOnly ==> instances[r.value].status.IsLive()
    ensures r.Some? ==> forall w :: r.value < w < |instances| ==>
              !(instances[w].target == target && (!liveOnly || instances[w].status.IsLive()))
    ensures r.None? ==> forall w :: 0 <= w < |instances| ==>
              !(instances[w].target == target && (!liveOnly || instances[w].status.IsLive()))
  {
    if instances == [] then None
    else
      var n := |instances| - 1;
      if instances[n].target == target && (!liveOnly || instances[n].status.IsLive()) then Some(n)
      else
        var rest := LatestInstance(instances[..n], target, liveOnly);
        assert forall w :: 0 <= w < n ==> instances[..n][w] == instances[w];
        rest
  }

  /** Index of the first assignment of `user` in stage `s` (assignments are kept in creation order). */
  function FirstAssignment(assignments: seq<Assignment>, s: StageRef, user: UserId): (r: Option<nat>)
    ensures r.Some? ==> r.value < |assignments| && assignments[r.value].stage == s && assignments[r.value].user == user
    ensures r.Some? ==> forall i :: 0 <= i < r.value ==> !(assignments[i].stage == s && assignments[i].user == user)
    ensures r.None? ==> forall i :: 0 <= i < |assignments| ==> !(assignments[i].stage == s && assignments[i].user == user)
  {
    if assignments == [] then None
    else if assignments[0].stage == s && assignments[0].user == user then Some(0)
    else
      var rest := FirstAssignment(assignments[1..], s, user);
      if rest.Some? then Some(rest.value + 1) else None
  }

  /** The user already logged an APPROVE or REJECT on the stage. */
  predicate HasDecisionBy(actions: seq<Action>, s: StageRef, user: UserId)
  {
    exists i :: 0 <= i < |actions| && actions[i].stage == s && actions[i].user == Some(user)
                && (actions[i].kind == Approve || actions[i].kind == Reject)
  }

  function ParseAction(name: string): (r: Option<ActionKind>)
    ensures r.Some? <==> name in {"approve", "reject", "delegate", "comment"}
  {
    if name == "approve" then Some(Approve)
    else if name == "reject" then Some(Reject)
    else if name == "delegate" then Some(Delegate)
    else if name == "comment" then Some(Comment)
    else None
  }

  /** What a validated action applies to. */
  datatype Checked = Checked(workflow: nat, stage: StageRef, assignment: nat, kind: ActionKind)

  /**
   * The checks process_action makes before it changes anything, in the
   * order it makes them.
   */
  function CheckAction(instances: seq<Instance>, assignments: seq<Assignment>, actions: seq<Action>,
                       target: Target, user: UserId, action: string, targetUser: Option<UserId>): (r: Result<Checked, Error>)
    ensures LatestInstance(instances, target, true).None? ==> r == Failure(NoWorkflowInstance)
    ensures r.Success? ==>
      && Some(r.value.workflow) == LatestInstance(instances, target, true)
      && r.value.stage == StageRef(r.value.workflow, r.value.stage.index)
      && Some(r.value.stage.index) == FirstActive(instances[r.value.workflow].stages)
      && r.value.assignment < |assignments|
      && assignments[r.value.assignment].stage == r.value.stage
      && assignments[r.value.assignment].user == user
      && Some(r.value.kind) == ParseAction(action)
      && ((r.value.kind == Approve || r.value.kind == Reject) ==> !HasDecisionBy(actions, r.value.stage, user))
      && (r.value.kind == Reject ==> instances[r.value.workflow].stages[r.value.stage.index].template.allowReject)
      && (r.value.kind == Delegate ==>
            instances[r.value.workflow].stages[r.value.stage.index].template.allowDelegate && targetUser.Some?)
    ensures r.Failure? && LatestInstance(instances, target, true).Some? &&
            FirstActive(instances[LatestInstance(instances, target, true).value].stages).Some? ==>
      var w := LatestInstance(instances, target, true).value;
      var s := StageRef(w, FirstActive(instances[w].stages).value);
      FirstAssignment(assignments, s, user).None? || ParseAction(action).None?
      || (ParseAction(action) == Some(Reject) && !instances[w].stages[s.index].template.allowReject)
      || (ParseAction(action) == Some(Delegate) && (!instances[w].stages[s.index].template.allowDelegate || targetUser.None?))
      || (ParseAction(action) in {Some(Approve), Some(Reject)} && HasDecisionBy(actions, s, user))
  {
    match LatestInstance(instances, target, true)
    case None => Failure(NoWorkflowInstance)
    case Some(w) =>
      match FirstActive(instances[w].stages)
      case None => Failure(NoActiveStage)
      case Some(j) =>
        var s := StageRef(w, j);
        var t := instances[w].stages[j].template;
        match FirstAssignment(assignments, s, user)
        case None => Failure(NoAssignmentInStage)
        case Some(ai) =>
          match ParseAction(action)
          case None => Failure(InvalidAction)
          case Some(kind) =>
            if kind == Reject && !t.allowReject then Failure(RejectionNotAllowed)
            else if kind == Delegate && !t.allowDelegate then Failure(DelegationNotAllowed)
            else if (kind == Approve || kind == Reject) && HasDecisionBy(actions, s, user) then Failure(AlreadyDecided)
            else if kind == Delegate && targetUser.None? then Failure(DelegateTargetRequired)
            else Success(Checked(w, s, ai, kind))
  }

  /** Users eligible for a stage: those holding the required role, or every user when no role is required. */
  function Eligible(directory: map<UserId, Option<RoleId>>, role: Option<RoleId>): (users: set<UserId>)
    ensures forall u :: u in users <==> u in directory && (role.None? || directory[u] == role)
  {
    set u | u in directory && (role.None? || directory[u] == role)
  }

  function RoleOf(directory: map<UserId, Option<RoleId>>, u: UserId): Option<RoleId>
  {
    if u in directory then directory[u] else None
  }

  /** The caller's comment, or the engine's default when it is missing or empty. */
  function CommentOr(comment: Option<string>, default: Note): (n: Note)
    ensures comment.Some? && comment.value != "" ==> n == Text(comment.value)
    ensures (comment.None? || comment.value == "") ==> n == default
  {
    if comment.Some? && comment.value != "" then Text(comment.value) else default
  }

  function AsNote(comment: Option<string>): Note
  {
    if comment.Some? then Text(comment.value) else NoComment
  }

  /** Deletes the PENDING assignments of stage `s`; everything else is kept in order. */
  function RemovePending(assignments: seq<Assignment>, s: StageRef): (r: seq<Assignment>)
    ensures forall a :: a in r <==> a in assignments && !(a.stage == s && a.status == AssignmentStatus.Pending)
    ensures |r| <= |assignments|
  {
    if assignments == [] then []
    else
      var rest := RemovePending(assignments[1..], s);
      if assignments[0].stage == s && assignments[0].status == AssignmentStatus.Pending then rest
      else [assignments[0]] + rest
  }

  /** Marks the delegations of the given stages inactive. */
  function DeactivateDelegations(ds: seq<Delegation>, stages: set<StageRef>): (r: seq<Delegation>)
    ensures |r| == |ds|
    ensures forall i :: 0 <= i < |ds| ==> r[i] == (if ds[i].stage in stages then ds[i].(active := false) else ds[i])
  {
    if ds == [] then []
    else [if ds[0].stage in stages then ds[0].(active := false) else ds[0]] + DeactivateDelegations(ds[1..], stages)
  }

  /** Sets every ACTIVE stage instance to CANCELLED. */
  function CancelActiveStages(stages: seq<StageInstance>): (r: seq<StageInstance>)
    ensures |r| == |stages|
    ensures forall j :: 0 <= j < |stages| ==>
      r[j] == (if stages[j].status == Active then stages[j].(status := StageStatus.Cancelled) else stages[j])
  {
    if stages == [] then []
    else [if stages[0].status == Active then stages[0].(status := StageStatus.Cancelled) else stages[0]]
         + CancelActiveStages(stages[1..])
  }

  /** At most one live workflow instance per target. */
  ghost predicate OneLivePerTarget(instances: seq<Instance>)
  {
    forall v, w :: 0 <= v < w < |instances| && instances[v].target == instances[w].target ==>
      !(instances[v].status.IsLive() && instances[w].status.IsLive())
  }

  /** Only the most recently started instance of a target may be live. */
  ghost predicate OnlyLatestMayBeLive(instances: seq<Instance>)
  {
    forall v, w :: 0 <= v < w < |instances| && instances[v].target == instances[w].target ==>
      !instances[v].status.IsLive()
  }

  lemma OnlyLatestGivesOneLive(instances: seq<Instance>)
    requires OnlyLatestMayBeLive(instances)
    ensures OneLivePerTarget(instances)
  {
  }

  /** A workflow awaiting this user: IN_PROGRESS with the user's PENDING assignment in an ACTIVE stage. */
  predicate PendingFor(instances: seq<Instance>, assignments: seq<Assignment>, w: nat, user: UserId)
    requires w < |instances|
  {
    instances[w].status == InProgress && HasPendingIn(instances, assignments, w, user)
  }

  /**
   * The outcome of the active stage of the target's live workflow: the
   * lookup fails when the target has no live workflow, and a workflow with
   * no active stage is still pending.
   */
  function CheckFinishedStage(instances: seq<Instance>, assignments: seq<Assignment>, actions: seq<Action>,
                              target: Target): (r: Result<Decision, Error>)
    ensures r.Failure? <==> LatestInstance(instances, target, true).None?
    ensures r.Failure? ==> r.error == NoWorkflowInstance
    ensures r.Success? ==>
      var w := LatestInstance(instances, target, true).value;
      match FirstActive(instances[w].stages)
      case None => r.value == StillPending
      case Some(j) =>
        var t := instances[w].stages[j].template;
        && r.value == StageDecision(t, StageRef(w, j), assignments, actions)
        && (r.value == StageRejected <==> t.allowReject && HasReject(actions, StageRef(w, j)))
  {
    match LatestInstance(instances, target, true)
    case None => Failure(NoWorkflowInstance)
    case Some(w) =>
      match FirstActive(instances[w].stages)
      case None => Success(StillPending)
      case Some(j) => Success(StageDecision(instances[w].stages[j].template, StageRef(w, j), assignments, actions))
  }

  /** is_workflow_finished: whether the target's most recent instance (of any status) is terminal, and its status. */
  function IsWorkflowFinished(instances: seq<Instance>, target: Target): (r: (bool, Option<WorkflowStatus>))
    ensures r.1.None? <==> LatestInstance(instances, target, false).None?
    ensures r.0 <==> r.1.Some? && !r.1.value.IsLive()
    ensures r.1.Some? ==> r.1.value == instances[LatestInstance(instances, target, false).value].status
  {
    match LatestInstance(instances, target, false)
    case None => (false, None)
    case Some(w) => (!instances[w].status.IsLive(), Some(instances[w].status))
  }

  /** Whether the user has a PENDING assignment in an ACTIVE stage of workflow `w`; a loop-free search. */
  predicate HasPendingIn(instances: seq<Instance>, assignments: seq<Assignment>, w: nat, user: UserId)
    requires w < |instances|
  {
    exists i :: 0 <= i < |assignments| && assignments[i].user == user
      && assignments[i].status == AssignmentStatus.Pending
      && assignments[i].stage.workflow == w
      && assignments[i].stage.index < |instances[w].stages|
      && instances[w].stages[assignments[i].stage.index].status == Active
  }

  /**
   * get_user_pending_approvals: the IN_PROGRESS workflows among the first
   * `n` instances in which the user holds a PENDING assignment of an
   * ACTIVE stage, each listed once, in store order.
   */
  function UserPendingApprovals(instances: seq<Instance>, assignments: seq<Assignment>, user: UserId, n: nat): (ids: seq<nat>)
    requires n <= |instances|
    ensures forall w: nat :: w in ids <==> w < n && PendingFor(instances, assignments, w, user)
    ensures forall i, k :: 0 <= i < k < |ids| ==> ids[i] < ids[k]
  {
    if n == 0 then []
    else
      var rest := UserPendingApprovals(instances, assignments, user, n - 1);
      assert forall i :: 0 <= i < |rest| ==> rest[i] in rest && rest[i] < n - 1;
      if instances[n - 1].status == InProgress && HasPendingIn(instances, assignments, n - 1, user)
      then rest + [n - 1] else rest
  }

  /**
   * The checks `delegate` makes, in order: the stage must allow delegation,
   * the delegator must hold an assignment in it that is still PENDING, and
   * the target must hold none. On success the result is the delegator's
   * assignment.
   */
  function CheckDelegation(instances: seq<Instance>, assignments: seq<Assignment>, s: StageRef,
                           fromUser: UserId, toUser: UserId): (r: Result<nat, Error>)
    requires s.workflow < |instances| && s.index < |instances[s.workflow].stages|
    ensures r.Success? <==>
      && instances[s.workflow].stages[s.index].template.allowDelegate
      && FirstAssignment(assignments, s, fromUser).Some?
      && assignments[FirstAssignment(assignments, s, fromUser).value].status == AssignmentStatus.Pending
      && FirstAssignment(assignments, s, toUser).None?
    ensures r.Success? ==> Some(r.value) == FirstAssignment(assignments, s, fromUser)
    ensures !instances[s.workflow].stages[s.index].template.allowDelegate ==> r == Failure(DelegationNotAllowed)
    ensures r.Success? ==> fromUser != toUser
  {
    if !instances[s.workflow].stages[s.index].template.allowDelegate then Failure(DelegationNotAllowed)
    else
      match FirstAssignment(assignments, s, fromUser)
      case None => Failure(DelegatorHasNoAssignment)
      case Some(fa) =>
        if assignments[fa].status != AssignmentStatus.Pending then Failure(AssignmentAlreadyProcessed)
        else if FirstAssignment(assignments, s, toUser).Some? then Failure(TargetAlreadyInvolved)
        else Success(fa)
  }

  /** A REJECT action on a stage that allows rejection decides the stage as rejected, whatever its policy. */
  lemma RejectionWins(t: StageTemplate, s: StageRef, assignments: seq<Assignment>, actions: seq<Action>, a: Action)
    requires t.allowReject && IsRejectOn(a, s)
    ensures StageDecision(t, s, assignments, actions + [a]) == StageRejected
  {
    ApprovedIdsAppend(actions, a, s);
  }
}
