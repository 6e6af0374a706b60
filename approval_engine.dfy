/**
 * ApprovalManager: the stateful workflow engine. The store of instances,
 * assignments, actions and delegations is held in memory; each public
 * operation is one atomic step. The role resolver is the `directory`
 * parameter (user -> role) and the approvable record's hooks are recorded
 * as `hooks` events.
 */
module ApprovalEngine {
  import opened Common
  import opened Approval

  /**
   * The stage instances appended by one activation: each sits at the smallest
   * order index above its predecessor, a stage is auto-skipped exactly when
   * nobody is eligible for it, every new stage but the newest was skipped,
   * and the workflow is either APPROVED (no stage template left) or
   * IN_PROGRESS with its newest stage active.
   */
  ghost predicate Advanced(before: seq<StageInstance>, inst: Instance, directory: map<UserId, Option<RoleId>>)
  {
    && before <= inst.stages
    && (forall j :: |before| <= j < |inst.stages| ==> Opened(inst, j, directory))
    && (forall j :: |before| <= j < |inst.stages| - 1 ==> inst.stages[j].status == Skipped)
    && (inst.status.Approved? || inst.status == InProgress)
    && (inst.status.Approved? ==>
          inst.finished && inst.current.None? && MinOrderAbove(inst.template.stages, LastOrder(inst.stages)).None?
          && forall j :: |before| <= j < |inst.stages| ==> inst.stages[j].status == Skipped)
    && (inst.status == InProgress ==>
          |inst.stages| > |before| && inst.stages[|inst.stages| - 1].status == Active
          && inst.current == Some(inst.stages[|inst.stages| - 1].template))
  }

  /**
   * Stage instance `j` was opened at the smallest order index above its
   * predecessor, from a template stage, and was auto-skipped exactly when
   * nobody was eligible for it.
   */
  ghost predicate Opened(inst: Instance, j: nat, directory: map<UserId, Option<RoleId>>)
    requires j < |inst.stages|
  {
    && Some(inst.stages[j].template.orderIndex) == MinOrderAbove(inst.template.stages, PrevOrder(inst.stages, j))
    && inst.stages[j].template in inst.template.stages
    && (inst.stages[j].status == Skipped <==> Eligible(directory, inst.stages[j].template.requiredRole) == {})
    && (inst.stages[j].status == Skipped || inst.stages[j].status == Active)
  }

  /** `after` extends `before` with one PENDING assignment of stage `s` for each user in `users`. */
  ghost predicate AddsAssignments(before: seq<Assignment>, after: seq<Assignment>, s: StageRef,
                                  users: set<UserId>, directory: map<UserId, Option<RoleId>>)
  {
    && before <= after
    && (forall i :: |before| <= i < |after| ==>
          after[i].stage == s && after[i].status == AssignmentStatus.Pending
          && after[i].user in users && after[i].role == RoleOf(directory, after[i].user))
    && (forall u :: u in users ==> exists i :: |before| <= i < |after| && after[i].user == u)
    && (forall i, k :: |before| <= i < k < |after| ==> after[i].user != after[k].user)
  }

  /** The audit entries for the stages auto-skipped from stage `from` on. */
  function SkipActions(w: nat, stages: seq<StageInstance>, from: nat): seq<Action>
    decreases |stages| - from
  {
    if from >= |stages| then []
    else (if stages[from].status == Skipped then [Action(StageRef(w, from), None, None, Comment, AutoSkipped, true)] else [])
         + SkipActions(w, stages, from + 1)
  }

  /** Refs of the ACTIVE stage instances of workflow `w`. */
  function ActiveRefs(w: nat, stages: seq<StageInstance>): set<StageRef>
  {
    set j | 0 <= j < |stages| && stages[j].status == Active :: StageRef(w, j)
  }

  function CancelReason(reason: Option<string>): string
  {
    if reason.Some? && reason.value != "" then reason.value else "No reason provided"
  }

  function StatusAfter(kind: ActionKind, a: Assignment): Assignment
  {
    if kind == Approve then a.(status := AssignmentStatus.Approved)
    else if kind == Reject then a.(status := AssignmentStatus.Rejected)
    else a
  }

  /** Every workflow instance is well formed, and only a target's most recent instance may be live. */
  ghost predicate StoreValid(instances: seq<Instance>)
  {
    && (forall w :: 0 <= w < |instances| ==> StagesWellFormed(instances[w]))
    && OnlyLatestMayBeLive(instances)
  }

  /** Updating an instance in place keeps the store valid if it stays well formed and does not come back to life. */
  lemma ReplaceKeepsStore(instances: seq<Instance>, w: nat, inst: Instance)
    requires StoreValid(instances) && w < |instances| && StagesWellFormed(inst)
    requires inst.target == instances[w].target
    requires inst.status.IsLive() ==> instances[w].status.IsLive()
    ensures StoreValid(instances[w := inst])
  {
    var after := instances[w := inst];
    forall v, u | 0 <= v < u < |after| && after[v].target == after[u].target
      ensures !after[v].status.IsLive()
    {
      assert instances[v].target == instances[u].target;
    }
  }

  /** Appending an instance for a target with no live instance keeps the store valid. */
  lemma AppendKeepsStore(instances: seq<Instance>, inst: Instance)
    requires StoreValid(instances) && StagesWellFormed(inst)
    requires LatestInstance(instances, inst.target, true).None?
    ensures StoreValid(instances + [inst])
  {
    var after := instances + [inst];
    forall v, u | 0 <= v < u < |after| && after[v].target == after[u].target
      ensures !after[v].status.IsLive()
    {
      if u < |instances| {
        assert instances[v].target == instances[u].target;
      } else {
        assert instances[v].target == inst.target;
      }
    }
  }

  /** A stage appended above the newest one to a live instance with no active stage keeps it well formed. */
  lemma OpenedIsWellFormed(inst: Instance, st: StageTemplate, status: StageStatus)
    requires StagesWellFormed(inst) && inst.status.IsLive() && FirstActive(inst.stages).None?
    requires Above(st.orderIndex, LastOrder(inst.stages)) && status != StageStatus.Cancelled
    ensures StagesWellFormed(inst.(stages := inst.stages + [StageInstance(st, status)], status := InProgress, current := Some(st)))
  {
    var after := inst.stages + [StageInstance(st, status)];
    forall j, k | 0 <= j < k < |after|
      ensures after[j].template.orderIndex < after[k].template.orderIndex
    {
      if k == |inst.stages| && j < k - 1 {
        assert inst.stages[j].template.orderIndex < inst.stages[k - 1].template.orderIndex;
      }
    }
  }

  /** Workflow instances that are finished are never changed again, and none is removed. */
  ghost predicate FrozenTerminal(before: seq<Instance>, after: seq<Instance>)
  {
    && |before| <= |after|
    && forall v :: 0 <= v < |before| && !before[v].status.IsLive() ==> after[v] == before[v]
  }

  class ApprovalManager {
    const templates: seq<WorkflowTemplate>
    var instances: seq<Instance>
    var assignments: seq<Assignment>
    var nextAssignmentId: nat
    var actions: seq<Action>
    var delegations: seq<Delegation>
    var hooks: seq<Hook>

    ghost predicate Valid()
      reads this
    {
      && StoreValid(instances)
      && (forall i :: 0 <= i < |assignments| ==> assignments[i].id < nextAssignmentId)
    }

    constructor (templates: seq<WorkflowTemplate>)
      ensures Valid() && this.templates == templates
      ensures instances == [] && assignments == [] && actions == [] && delegations == [] && hooks == []
    {
      this.templates := templates;
      instances := [];
      assignments := [];
      nextAssignmentId := 1;
      actions := [];
      delegations := [];
      hooks := [];
    }

    /** Creates a PENDING instance from the most recent active template; no stage is created yet. */
    method CreateInstance(target: Target) returns (r: Result<nat, Error>)
      requires Valid() && LatestInstance(instances, target, true).None?
      modifies this
      ensures Valid()
      ensures var t := FindTemplate(templates, target.contentType);
        && (t.None? ==> r == Failure(NoActiveTemplate) && unchanged(this))
        && (t.Some? && !TemplateIsValid(t.value) ==> r == Failure(InvalidQuorumCount) && unchanged(this))
        && (t.Some? && TemplateIsValid(t.value) ==>
              r == Success(old(|instances|))
              && instances == old(instances) + [Instance(target, t.value, WorkflowStatus.Pending, None, false, [])]
              && assignments == old(assignments) && nextAssignmentId == old(nextAssignmentId)
              && actions == old(actions) && delegations == old(delegations) && hooks == old(hooks))
    {
      var t := FindTemplate(templates, target.contentType);
      if t.None? {
        return Failure(NoActiveTemplate);
      }
      if !TemplateIsValid(t.value) {
        return Failure(InvalidQuorumCount);
      }
      AppendKeepsStore(instances, Instance(target, t.value, WorkflowStatus.Pending, None, false, []));
      instances := instances + [Instance(target, t.value, WorkflowStatus.Pending, None, false, [])];
      r := Success(|instances| - 1);
    }

    /** Creates one PENDING assignment of stage `s` per user, with the user's role as snapshot. */
    method CreateAssignments(s: StageRef, users: set<UserId>, directory: map<UserId, Option<RoleId>>)
      requires Valid()
      modifies this
      ensures Valid()
      ensures AddsAssignments(old(assignments), assignments, s, users, directory)
      ensures nextAssignmentId >= old(nextAssignmentId)
      ensures instances == old(instances) && actions == old(actions)
      ensures delegations == old(delegations) && hooks == old(hooks)
    {
      var remaining := users;
      ghost var start := assignments;
      assert users - remaining == {};
      while remaining != {}
        invariant remaining <= users
        invariant Valid()
        invariant instances == old(instances) && actions == old(actions)
        invariant delegations == old(delegations) && hooks == old(hooks)
        invariant nextAssignmentId >= old(nextAssignmentId)
        invariant AddsAssignments(start, assignments, s, users - remaining, directory)
        decreases remaining
      {
        var u :| u in remaining;
        ghost var before := assignments;
        ghost var was := remaining;
        assignments := assignments + [Assignment(nextAssignmentId, s, u, RoleOf(directory, u), AssignmentStatus.Pending)];
        nextAssignmentId := nextAssignmentId + 1;
        remaining := remaining - {u};
        AddsOneAssignment(start, before, assignments, s, users - was, u, directory);
        assert (users - was) + {u} == users - remaining;
      }
      assert users - remaining == users;
    }

    /**
     * Creates the stage instance for template `st` as ACTIVE, assigns it to
     * the eligible users and auto-skips it when there are none; the workflow
     * becomes IN_PROGRESS with `st` as its current stage template.
     */
    method OpenStage(w: nat, st: StageTemplate, directory: map<UserId, Option<RoleId>>) returns (skipped: bool)
      requires Valid() && w < |instances| && instances[w].status.IsLive()
      requires FirstActive(instances[w].stages).None?
      requires Above(st.orderIndex, LastOrder(instances[w].stages))
      modifies this
      ensures Valid()
      ensures skipped <==> Eligible(directory, st.requiredRole) == {}
      ensures |instances| == old(|instances|)
      ensures forall v :: 0 <= v < |instances| && v != w ==> instances[v] == old(instances[v])
      ensures instances[w] == old(instances[w]).(
                stages := old(instances[w].stages) + [StageInstance(st, if skipped then Skipped else Active)],
                status := InProgress, current := Some(st))
      ensures delegations == old(delegations) && hooks == old(hooks) && nextAssignmentId >= old(nextAssignmentId)
      ensures actions == old(actions) +
                (if skipped then [Action(StageRef(w, |old(instances[w].stages)|), None, None, Comment, AutoSkipped, true)] else [])
      ensures AddsAssignments(old(assignments), assignments, StageRef(w, |old(instances[w].stages)|),
                              Eligible(directory, st.requiredRole), directory)
    {
      var inst := instances[w];
      var s := StageRef(w, |inst.stages|);
      var users := Eligible(directory, st.requiredRole);
      skipped := users == {};
      var active := inst.(stages := inst.stages + [StageInstance(st, Active)], status := InProgress, current := Some(st));
      OpenedIsWellFormed(inst, st, Active);
      ReplaceKeepsStore(instances, w, active);
      instances := instances[w := active];
      CreateAssignments(s, users, directory);
      if skipped {
        var skippedInst := active.(stages := inst.stages + [StageInstance(st, Skipped)]);
        OpenedIsWellFormed(inst, st, Skipped);
        ReplaceKeepsStore(old(instances), w, skippedInst);
        instances := instances[w := skippedInst];
        actions := actions + [Action(s, None, None, Comment, AutoSkipped, true)];
      }
    }

    /** No stage template is left: the workflow is APPROVED, finished, with no current stage. */
    method MarkApproved(w: nat)
      requires Valid() && w < |instances| && instances[w].status.IsLive()
      requires FirstActive(instances[w].stages).None?
      modifies this
      ensures Valid()
      ensures instances == old(instances)[w := old(instances[w]).(status := WorkflowStatus.Approved, finished := true, current := None)]
      ensures hooks == old(hooks) + [FullyApproved(w)]
      ensures assignments == old(assignments) && actions == old(actions)
      ensures delegations == old(delegations) && nextAssignmentId == old(nextAssignmentId)
    {
      var inst := instances[w].(status := WorkflowStatus.Approved, finished := true, current := None);
      ReplaceKeepsStore(instances, w, inst);
      instances := instances[w := inst];
      hooks := hooks + [FullyApproved(w)];
    }

    /**
     * Activates the next stage of workflow `w`: the stage template at the
     * smallest order index above the newest stage instance. A stage nobody
     * is eligible for is auto-skipped and activation goes on; when no stage
     * template is left the workflow is APPROVED. Finished workflows are
     * left alone.
     */
    method ActivateNext(w: nat, directory: map<UserId, Option<RoleId>>)
      requires Valid() && w < |instances|
      requires FirstActive(instances[w].stages).None?
      modifies this
      decreases CountAbove(instances[w].template.stages, LastOrder(instances[w].stages)), 1
      ensures Valid()
      ensures |instances| == old(|instances|)
      ensures forall v :: 0 <= v < |instances| && v != w ==> instances[v] == old(instances[v])
      ensures delegations == old(delegations)
      ensures !old(instances[w].status.IsLive()) ==> unchanged(this)
      ensures old(instances[w].status.IsLive()) ==>
        Activation(w, old(instances[w]), instances[w], old(actions), actions, old(hooks), hooks,
                   old(assignments), assignments, directory)
    {
      var inst := instances[w];
      if !inst.status.IsLive() {
        return;
      }
      NextOrderFollowsLastStage(inst);
      var next := FindNextOrderIndex(inst.template.stages, inst.stages);
      var candidates := if next.Some? then StagesAt(inst.template.stages, next.value) else [];
      if candidates == [] {
        ActivationApproved(w, inst, actions, hooks, assignments, directory);
        MarkApproved(w);
        return;
      }
      OpenAndContinue(w, candidates[0], directory);
    }

    /**
     * Opens stage template `st`, the first at the next order index, and
     * continues the activation when it was auto-skipped.
     */
    method OpenAndContinue(w: nat, st: StageTemplate, directory: map<UserId, Option<RoleId>>)
      requires Valid() && w < |instances| && instances[w].status.IsLive()
      requires FirstActive(instances[w].stages).None?
      requires var next := MinOrderAbove(instances[w].template.stages, LastOrder(instances[w].stages));
        next.Some? && st in StagesAt(instances[w].template.stages, next.value)
      modifies this
      decreases CountAbove(instances[w].template.stages, LastOrder(instances[w].stages)), 0
      ensures Valid()
      ensures |instances| == old(|instances|)
      ensures forall v :: 0 <= v < |instances| && v != w ==> instances[v] == old(instances[v])
      ensures delegations == old(delegations)
      ensures Activation(w, old(instances[w]), instances[w], old(actions), actions, old(hooks), hooks,
                         old(assignments), assignments, directory)
    {
      var inst := instances[w];
      var skipped := OpenStage(w, st, directory);
      OpenedStage(w, inst, st, skipped, instances[w], directory);
      if skipped {
        CountAboveDecreases(inst.template.stages, LastOrder(inst.stages), st.orderIndex);
        ghost var mid := instances[w];
        ghost var actions1 := actions;
        ghost var assignments1 := assignments;
        NoUsersNoAssignments(old(assignments), assignments1, StageRef(w, |inst.stages|), directory);
        ActivateNext(w, directory);
        ActivationAfterSkip(w, inst, mid, instances[w], old(actions), actions1, actions, old(hooks), hooks,
                            old(assignments), assignments, directory);
      } else {
        ActivationActive(w, inst, instances[w], old(actions), actions, old(hooks), old(assignments), assignments, directory);
      }
    }

    /**
     * Closes the active stage of workflow `w` with `outcome`. The stage
     * becomes COMPLETED whatever the outcome, its delegations are
     * deactivated and its PENDING assignments deleted; a rejection also ends
     * the workflow as REJECTED and logs a system REJECT action.
     */
    method CompleteStage(w: nat, outcome: Decision, comment: Option<string>)
      requires Valid() && w < |instances| && instances[w].status.IsLive()
      requires FirstActive(instances[w].stages).Some? && outcome != StillPending
      modifies this
      ensures Valid()
      ensures |instances| == old(|instances|)
      ensures forall v :: 0 <= v < |instances| && v != w ==> instances[v] == old(instances[v])
      ensures var s := StageRef(w, FirstActive(old(instances[w].stages)).value);
        && assignments == RemovePending(old(assignments), s)
        && delegations == DeactivateDelegations(old(delegations), {s})
        && nextAssignmentId == old(nextAssignmentId)
        && (outcome == StageApproved ==>
              instances[w] == Closed(old(instances[w]))
              && actions == old(actions) && hooks == old(hooks) + [StageApprovedHook(s)]
              && FirstActive(instances[w].stages).None?)
        && (outcome == StageRejected ==>
              instances[w] == Closed(old(instances[w])).(status := WorkflowStatus.Rejected, finished := true, current := None)
              && actions == old(actions) + [SystemReject(s, comment)]
              && hooks == old(hooks) + [RejectedHook(w, s)])
    {
      var inst := instances[w];
      var j := FirstActive(inst.stages).value;
      var s := StageRef(w, j);
      ClosedIsWellFormed(inst);
      var remaining := RemovePending(assignments, s);
      assert forall i :: 0 <= i < |remaining| ==> remaining[i] in assignments;
      delegations, assignments := DeactivateDelegations(delegations, {s}), remaining;
      if outcome == StageRejected {
        var closed := Closed(inst).(status := WorkflowStatus.Rejected, finished := true, current := None);
        ReplaceKeepsStore(instances, w, closed);
        instances, actions, hooks := instances[w := closed], actions + [SystemReject(s, comment)], hooks + [RejectedHook(w, s)];
      } else {
        ReplaceKeepsStore(instances, w, Closed(inst));
        instances, hooks := instances[w := Closed(inst)], hooks + [StageApprovedHook(s)];
      }
    }

    /**
     * Delegates `fromUser`'s PENDING assignment in stage `s` to `toUser`:
     * the delegation is recorded, `toUser` receives a new PENDING
     * assignment, the original becomes DELEGATED and exactly one DELEGATE
     * action is logged. Any failed check changes nothing.
     */
    method Delegate(fromUser: UserId, toUser: UserId, s: StageRef, comment: Option<string>,
                    directory: map<UserId, Option<RoleId>>) returns (r: Result<nat, Error>)
      requires Valid() && s.workflow < |instances| && s.index < |instances[s.workflow].stages|
      modifies this
      ensures Valid()
      ensures var d := CheckDelegation(old(instances), old(assignments), s, fromUser, toUser);
        && (d.Failure? ==> r == Failure(d.error) && unchanged(this))
        && (d.Success? ==> r == Success(old(|delegations|)) && Delegated(fromUser, toUser, s, comment, directory, d.value))
    {
      var d := CheckDelegation(instances, assignments, s, fromUser, toUser);
      if d.Failure? {
        return Failure(d.error);
      }
      var fa := d.value;
      var fromId := assignments[fa].id;
      delegations := delegations + [Delegation(fromUser, toUser, s, true)];
      assignments := assignments[fa := assignments[fa].(status := AssignmentStatus.Delegated)]
                     + [Assignment(nextAssignmentId, s, toUser, RoleOf(directory, toUser), AssignmentStatus.Pending)];
      nextAssignmentId := nextAssignmentId + 1;
      actions := actions + [Action(s, Some(fromUser), Some(fromId), ActionKind.Delegate, CommentOr(comment, DelegatedTo(toUser)), false)];
      r := Success(|delegations| - 1);
    }

    /**
     * The effect of an allowed delegation of `fromUser`'s assignment `fa`:
     * the delegation is recorded, the assignment becomes DELEGATED, `toUser`
     * receives a new PENDING assignment and one DELEGATE action is logged.
     */
    twostate predicate Delegated(fromUser: UserId, toUser: UserId, s: StageRef, comment: Option<string>,
                                 directory: map<UserId, Option<RoleId>>, fa: nat)
      reads this
    {
      && fa < old(|assignments|)
      && delegations == old(delegations) + [Delegation(fromUser, toUser, s, true)]
      && assignments == old(assignments)[fa := old(assignments[fa]).(status := AssignmentStatus.Delegated)]
                        + [Assignment(old(nextAssignmentId), s, toUser, RoleOf(directory, toUser), AssignmentStatus.Pending)]
      && nextAssignmentId == old(nextAssignmentId) + 1
      && actions == old(actions) + [Action(s, Some(fromUser), Some(old(assignments[fa].id)), ActionKind.Delegate,
                                           CommentOr(comment, DelegatedTo(toUser)), false)]
      && instances == old(instances) && hooks == old(hooks)
    }

    /**
     * Cancels the target's most recent workflow. A finished one is returned
     * as it is; otherwise its ACTIVE stages become CANCELLED, their
     * delegations are deactivated, the workflow becomes CANCELLED and, if a
     * stage was active, a system comment records the reason.
     */
    method CancelWorkflow(target: Target, reason: Option<string>) returns (r: Result<nat, Error>)
      requires Valid()
      modifies this
      ensures Valid()
      ensures FrozenTerminal(old(instances), instances)
      ensures r.Success? ==> LatestInstance(instances, target, true).None?
      ensures r.Success? ==> Some(r.value) == LatestInstance(old(instances), target, false) && r.value < |instances|
      ensures r.Success? ==>
        instances[r.value].status ==
          (if old(instances[r.value].status.IsLive()) then WorkflowStatus.Cancelled else old(instances[r.value].status))
      ensures var l := LatestInstance(old(instances), target, false);
        && (l.None? ==> r == Failure(NoInstanceToCancel) && unchanged(this))
        && (l.Some? && !old(instances[l.value].status.IsLive()) ==> r == Success(l.value) && unchanged(this))
        && (l.Some? && old(instances[l.value].status.IsLive()) ==>
              var w := l.value;
              var inst := old(instances[w]);
              && r == Success(w)
              && instances == old(instances)[w := CancelledInstance(inst)]
              && delegations == DeactivateDelegations(old(delegations), ActiveRefs(w, inst.stages))
              && actions == old(actions) + CancelNote(w, inst.stages, reason)
              && hooks == old(hooks) + [CancelledHook(w, reason)]
              && assignments == old(assignments) && nextAssignmentId == old(nextAssignmentId))
    {
      var l := LatestInstance(instances, target, false);
      if l.None? {
        NoInstanceNoLive(instances, target);
        return Failure(NoInstanceToCancel);
      }
      var w := l.value;
      var inst := instances[w];
      if !inst.status.IsLive() {
        LatestTerminalNoLive(instances, target);
        return Success(w);
      }
      var cancelled := CancelledInstance(inst);
      CancelledIsWellFormed(inst);
      ReplaceKeepsStore(instances, w, cancelled);
      SameTargetsSameLatest(instances, w, cancelled, target);
      instances := instances[w := cancelled];
      delegations := DeactivateDelegations(delegations, ActiveRefs(w, inst.stages));
      actions := actions + CancelNote(w, inst.stages, reason);
      hooks := hooks + [CancelledHook(w, reason)];
      LatestTerminalNoLive(instances, target);
      r := Success(w);
    }

    /**
     * Starts the approval workflow of `target`: refused while the target
     * has a PENDING or IN_PROGRESS instance; otherwise a new instance is
     * created from the current template, its first stage is activated and
     * the approval-started hook is called.
     */
    method StartWorkflow(target: Target, directory: map<UserId, Option<RoleId>>) returns (r: Result<nat, Error>)
      requires Valid()
      modifies this
      ensures Valid()
      ensures FrozenTerminal(old(instances), instances)
      ensures delegations == old(delegations)
      ensures LatestInstance(old(instances), target, true).Some? ==>
                r == Failure(WorkflowAlreadyInProgress) && unchanged(this)
      ensures LatestInstance(old(instances), target, true).None? ==>
        var t := FindTemplate(templates, target.contentType);
        && (t.None? ==> r == Failure(NoActiveTemplate) && unchanged(this))
        && (t.Some? && !TemplateIsValid(t.value) ==> r == Failure(InvalidQuorumCount) && unchanged(this))
        && (t.Some? && TemplateIsValid(t.value) ==>
              && r == Success(old(|instances|))
              && Started(target, t.value, old(instances), instances, old(actions), actions, old(hooks), hooks,
                         old(assignments), assignments, directory))
    {
      if LatestInstance(instances, target, true).Some? {
        return Failure(WorkflowAlreadyInProgress);
      }
      r := CreateInstance(target);
      if r.Failure? {
        return;
      }
      var w := r.value;
      ActivateNext(w, directory);
      hooks := hooks + [ApprovalStarted(w)];
    }

    /**
     * Cancels the target's current workflow (there must be one) and starts a
     * fresh one. The cancellation stays in effect when the start fails; the
     * start succeeds exactly when the content type has a valid active
     * template, since the cancellation leaves no live workflow behind.
     */
    method RestartWorkflow(target: Target, directory: map<UserId, Option<RoleId>>) returns (r: Result<nat, Error>)
      requires Valid()
      modifies this
      ensures Valid()
      ensures FrozenTerminal(old(instances), instances)
      ensures LatestInstance(old(instances), target, false).None? ==> r == Failure(NoInstanceToCancel) && unchanged(this)
      ensures LatestInstance(old(instances), target, false).Some? ==>
        var l := LatestInstance(old(instances), target, false).value;
        var inst := old(instances[l]);
        var live := inst.status.IsLive();
        var t := FindTemplate(templates, target.contentType);
        var instances1 := if live then old(instances)[l := CancelledInstance(inst)] else old(instances);
        var actions1 := old(actions) + (if live then CancelNote(l, inst.stages, Some(RestartReason)) else []);
        var hooks1 := old(hooks) + (if live then [CancelledHook(l, Some(RestartReason))] else []);
        && delegations == (if live then DeactivateDelegations(old(delegations), ActiveRefs(l, inst.stages)) else old(delegations))
        && (r.Success? <==> t.Some? && TemplateIsValid(t.value))
        && (t.None? ==> r == Failure(NoActiveTemplate))
        && (t.Some? && !TemplateIsValid(t.value) ==> r == Failure(InvalidQuorumCount))
        && (r.Failure? ==> instances == instances1 && actions == actions1 && hooks == hooks1
                           && assignments == old(assignments))
        && (r.Success? ==>
              && r.value == old(|instances|)
              && Started(target, t.value, instances1, instances, actions1, actions, hooks1, hooks,
                         old(assignments), assignments, directory))
    {
      var c := CancelWorkflow(target, Some(RestartReason));
      if c.Failure? {
        return Failure(c.error);
      }
      r := StartWorkflow(target, directory);
    }

    /**
     * Records `user`'s action on the active stage of the target's live
     * workflow. After the checks of `CheckAction`, a DELEGATE goes to
     * `Delegate`; any other action is logged, an APPROVE or REJECT sets the
     * user's assignment status, and the stage is re-evaluated: a decided
     * stage is closed, and an approved one activates the next stage.
     */
    method ProcessAction(target: Target, user: UserId, action: string, comment: Option<string>,
                         targetUser: Option<UserId>, directory: map<UserId, Option<RoleId>>) returns (r: Result<nat, Error>)
      requires Valid()
      modifies this
      ensures Valid()
      ensures FrozenTerminal(old(instances), instances)
      ensures var c := CheckAction(old(instances), old(assignments), old(actions), target, user, action, targetUser);
        && (c.Failure? ==> r == Failure(c.error) && unchanged(this))
        && (c.Success? && c.value.kind == ActionKind.Delegate ==>
              var d := CheckDelegation(old(instances), old(assignments), c.value.stage, user, targetUser.value);
              && (d.Failure? ==> r == Failure(d.error) && unchanged(this))
              && (d.Success? ==> r == Success(c.value.workflow)
                                 && Delegated(user, targetUser.value, c.value.stage, comment, directory, d.value)))
        && (c.Success? && c.value.kind != ActionKind.Delegate ==>
              r == Success(c.value.workflow) && Recorded(c.value, user, comment, directory))
    {
      var c := CheckAction(instances, assignments, actions, target, user, action, targetUser);
      if c.Failure? {
        return Failure(c.error);
      }
      var w := c.value.workflow;
      var s := c.value.stage;
      if c.value.kind == ActionKind.Delegate {
        var d := Delegate(user, targetUser.value, s, comment, directory);
        if d.Failure? {
          return Failure(d.error);
        }
        return Success(w);
      }
      RecordAction(c.value, user, comment, directory);
      r := Success(w);
    }

    /**
     * The effect of a validated APPROVE, REJECT or COMMENT: the action is
     * logged; the stage, re-evaluated with the user's assignment status
     * updated, stays open, is closed as rejected (ending the workflow), or
     * is closed as approved and the next stage activated.
     */
    twostate predicate Recorded(c: Checked, user: UserId, comment: Option<string>, directory: map<UserId, Option<RoleId>>)
      reads this
    {
      var w := c.workflow;
      var s := c.stage;
      && w < old(|instances|) && s.index < |old(instances[w].stages)| && c.assignment < old(|assignments|)
      && w < |instances| && |instances| == old(|instances|)
      && (forall v :: 0 <= v < |instances| && v != w ==> instances[v] == old(instances[v]))
      && var logged := Logged(c, old(assignments), user, comment);
         var decision := StageDecision(old(instances[w].stages[s.index].template), s, old(assignments), old(actions) + [logged]);
         var marked := old(assignments)[c.assignment := StatusAfter(c.kind, old(assignments[c.assignment]))];
         && |actions| > old(|actions|) && actions[..old(|actions|) + 1] == old(actions) + [logged]
         && (decision == StillPending ==>
               instances == old(instances) && assignments == marked && delegations == old(delegations)
               && actions == old(actions) + [logged] && hooks == old(hooks))
         && (decision != StillPending ==> delegations == DeactivateDelegations(old(delegations), {s}))
         && (decision == StageRejected ==>
               instances[w] == Closed(old(instances[w])).(status := WorkflowStatus.Rejected, finished := true, current := None)
               && assignments == RemovePending(marked, s)
               && actions == old(actions) + [logged, SystemReject(s, comment)]
               && hooks == old(hooks) + [RejectedHook(w, s)])
         && (decision == StageApproved ==>
               Activation(w, Closed(old(instances[w])), instances[w],
                          old(actions) + [logged], actions, old(hooks) + [StageApprovedHook(s)], hooks,
                          RemovePending(marked, s), assignments, directory))
    }

    method RecordAction(c: Checked, user: UserId, comment: Option<string>, directory: map<UserId, Option<RoleId>>)
      requires Valid() && c.workflow < |instances| && instances[c.workflow].status.IsLive()
      requires c.stage == StageRef(c.workflow, c.stage.index)
      requires Some(c.stage.index) == FirstActive(instances[c.workflow].stages)
      requires c.assignment < |assignments| && assignments[c.assignment].stage == c.stage
      requires c.kind != ActionKind.Delegate
      modifies this
      ensures Valid()
      ensures FrozenTerminal(old(instances), instances)
      ensures Recorded(c, user, comment, directory)
    {
      var w := c.workflow;
      var s := c.stage;
      ghost var t := instances[w].stages[s.index].template;
      ghost var before := assignments;
      var logged := Logged(c, assignments, user, comment);
      LogAction(logged, c.assignment, c.kind);
      StatusChangeKeepsDecision(t, s, before, actions, c.assignment, StatusAfter(c.kind, before[c.assignment]).status);
      ghost var marked := assignments;
      ghost var logs := actions;
      ghost var decision := StageDecision(t, s, marked, logs);
      assert decision == StageDecision(t, s, before, old(actions) + [logged]);
      assert instances[w].stages[s.index].template == t && FirstActive(instances[w].stages) == Some(s.index);
      EvaluateStage(w, comment, directory);
      assert actions[..|logs|] == logs;
    }

    /** Appends `logged` to the audit log and applies an APPROVE or REJECT to assignment `ai`. */
    method LogAction(logged: Action, ai: nat, kind: ActionKind)
      requires Valid() && ai < |assignments|
      modifies this
      ensures Valid()
      ensures actions == old(actions) + [logged]
      ensures assignments == old(assignments)[ai := StatusAfter(kind, old(assignments[ai]))]
      ensures instances == old(instances) && hooks == old(hooks) && delegations == old(delegations)
      ensures nextAssignmentId == old(nextAssignmentId)
    {
      actions := actions + [logged];
      if kind == Approve || kind == Reject {
        assignments := assignments[ai := StatusAfter(kind, assignments[ai])];
      }
    }

    /**
     * check_finished_stage followed by its consequences: the active stage
     * of workflow `w` is decided from the current assignments and log; a
     * decided stage is closed, and an approved one activates the next.
     */
    method EvaluateStage(w: nat, comment: Option<string>, directory: map<UserId, Option<RoleId>>)
      requires Valid() && w < |instances| && instances[w].status.IsLive()
      requires FirstActive(instances[w].stages).Some?
      modifies this
      ensures Valid()
      ensures FrozenTerminal(old(instances), instances)
      ensures var j := FirstActive(old(instances[w].stages)).value;
        var s := StageRef(w, j);
        var decision := StageDecision(old(instances[w].stages[j].template), s, old(assignments), old(actions));
        && |instances| == old(|instances|)
        && (forall v :: 0 <= v < |instances| && v != w ==> instances[v] == old(instances[v]))
        && (decision == StillPending ==>
              instances == old(instances) && assignments == old(assignments)
              && actions == old(actions) && hooks == old(hooks) && delegations == old(delegations))
        && (decision != StillPending ==> delegations == DeactivateDelegations(old(delegations), {s}))
        && (decision == StageRejected ==>
              instances[w] == Closed(old(instances[w])).(status := WorkflowStatus.Rejected, finished := true, current := None)
              && assignments == RemovePending(old(assignments), s)
              && actions == old(actions) + [SystemReject(s, comment)]
              && hooks == old(hooks) + [RejectedHook(w, s)])
        && (decision == StageApproved ==>
              Activation(w, Closed(old(instances[w])), instances[w],
                         old(actions), actions, old(hooks) + [StageApprovedHook(s)], hooks,
                         RemovePending(old(assignments), s), assignments, directory))
    {
      var j := FirstActive(instances[w].stages).value;
      var decision := StageDecision(instances[w].stages[j].template, StageRef(w, j), assignments, actions);
      if decision != StillPending {
        CompleteStage(w, decision, comment);
        if decision == StageApproved {
          ActivateNext(w, directory);
        }
      }
    }
  }

  /** The system REJECT action logged when a stage is closed as rejected. */
  function SystemReject(s: StageRef, comment: Option<string>): Action
  {
    Action(s, None, None, Reject, CommentOr(comment, WorkflowRejected), true)
  }

  /** The log entry for a validated APPROVE, REJECT or COMMENT by `user`. */
  function Logged(c: Checked, assignments: seq<Assignment>, user: UserId, comment: Option<string>): Action
    requires c.assignment < |assignments|
  {
    Action(c.stage, Some(user), Some(assignments[c.assignment].id), c.kind, AsNote(comment), false)
  }

  /** The active stage (the newest stage instance) marked COMPLETED. */
  function Closed(inst: Instance): (r: Instance)
    ensures r.target == inst.target && r.template == inst.template && r.status == inst.status
    ensures |r.stages| == |inst.stages|
  {
    match FirstActive(inst.stages)
    case None => inst
    case Some(j) => inst.(stages := inst.stages[j := inst.stages[j].(status := Completed)])
  }

  /** A cancelled workflow: its ACTIVE stages become CANCELLED and it is finished with no current stage. */
  function CancelledInstance(inst: Instance): Instance
  {
    inst.(stages := CancelActiveStages(inst.stages), status := WorkflowStatus.Cancelled, finished := true, current := None)
  }

  /** The reason `restart_workflow` gives when it cancels. */
  const RestartReason: string := "Restarted by system/user"

  /** The system comment logged when a workflow with an active stage is cancelled. */
  function CancelNote(w: nat, stages: seq<StageInstance>, reason: Option<string>): seq<Action>
  {
    match FirstActive(stages)
    case None => []
    case Some(j) => [Action(StageRef(w, j), None, None, Comment, CancelledBecause(CancelReason(reason)), false)]
  }

  lemma ClosedIsWellFormed(inst: Instance)
    requires StagesWellFormed(inst) && FirstActive(inst.stages).Some?
    ensures StagesWellFormed(Closed(inst)) && FirstActive(Closed(inst).stages).None?
    ensures StagesWellFormed(Closed(inst).(status := WorkflowStatus.Rejected, finished := true, current := None))
  {
    var j := FirstActive(inst.stages).value;
    assert j == |inst.stages| - 1;
    var r := Closed(inst).stages;
    assert forall k :: 0 <= k < |r| ==> r[k].status != Active;
  }

  lemma CancelledIsWellFormed(inst: Instance)
    requires StagesWellFormed(inst)
    ensures StagesWellFormed(CancelledInstance(inst))
  {
  }

  lemma NoInstanceNoLive(instances: seq<Instance>, target: Target)
    requires LatestInstance(instances, target, false).None?
    ensures LatestInstance(instances, target, true).None?
  {
  }

  /** The most recent instance of a target, whatever its status, depends only on the instances' targets. */
  lemma SameTargetsSameLatest(instances: seq<Instance>, w: nat, inst: Instance, target: Target)
    requires w < |instances| && inst.target == instances[w].target
    ensures LatestInstance(instances[w := inst], target, false) == LatestInstance(instances, target, false)
  {
    var after := instances[w := inst];
    var a := LatestInstance(after, target, false);
    var b := LatestInstance(instances, target, false);
    if a.Some? {
      assert instances[a.value].target == target;
    }
    if b.Some? {
      assert after[b.value].target == target;
    }
  }

  /** When a target's most recent instance is finished, none of its instances is live. */
  lemma LatestTerminalNoLive(instances: seq<Instance>, target: Target)
    requires StoreValid(instances)
    requires var l := LatestInstance(instances, target, false); l.Some? && !instances[l.value].status.IsLive()
    ensures LatestInstance(instances, target, true).None?
  {
    var l := LatestInstance(instances, target, false).value;
    forall v | 0 <= v < |instances| && instances[v].target == target
      ensures !instances[v].status.IsLive()
    {
      if v < l {
        assert instances[v].target == instances[l].target;
      }
    }
  }

  /**
   * `start_workflow` created workflow `|i0|` for `target` from template `t`
   * and activated it: the store `i0` gained exactly that instance, the
   * activation extended the log, the assignments and the hook events, and
   * the approval-started hook was called last.
   */
  ghost predicate Started(target: Target, t: WorkflowTemplate, i0: seq<Instance>, i1: seq<Instance>,
                          a0: seq<Action>, a1: seq<Action>, h0: seq<Hook>, h1: seq<Hook>,
                          asg0: seq<Assignment>, asg1: seq<Assignment>, directory: map<UserId, Option<RoleId>>)
  {
    var w := |i0|;
    && |i1| == w + 1 && i1[..w] == i0
    && i1[w].target == target && (i1[w].status == InProgress || i1[w].status.Approved?)
    && |h1| > |h0| && h1[|h1| - 1] == ApprovalStarted(w)
    && Activation(w, Instance(target, t, WorkflowStatus.Pending, None, false, []), i1[w],
                  a0, a1, h0, h1[..|h1| - 1], asg0, asg1, directory)
  }

  /**
   * One activation of workflow `w` took instance `before` to `after` and
   * extended the audit trail, the hook events and the assignments
   * accordingly: one AUTO-SKIPPED comment per skipped stage, the
   * fully-approved hook exactly when the workflow ended APPROVED, and the
   * assignments of the newly active stage.
   */
  ghost predicate Activation(w: nat, before: Instance, after: Instance,
                             actions0: seq<Action>, actions1: seq<Action>, hooks0: seq<Hook>, hooks1: seq<Hook>,
                             asg0: seq<Assignment>, asg1: seq<Assignment>, directory: map<UserId, Option<RoleId>>)
  {
    && after.target == before.target && after.template == before.template
    && Advanced(before.stages, after, directory)
    && actions1 == actions0 + SkipActions(w, after.stages, |before.stages|)
    && hooks1 == hooks0 + (if after.status.Approved? then [FullyApproved(w)] else [])
    && (after.status.Approved? ==> asg1 == asg0)
    && (after.status == InProgress ==>
          AddsAssignments(asg0, asg1, StageRef(w, |after.stages| - 1),
                          Eligible(directory, after.stages[|after.stages| - 1].template.requiredRole), directory))
  }

  lemma ActivationApproved(w: nat, inst: Instance, actions: seq<Action>, hooks: seq<Hook>, asg: seq<Assignment>,
                           directory: map<UserId, Option<RoleId>>)
    requires inst.status.IsLive() && FirstActive(inst.stages).None?
    requires MinOrderAbove(inst.template.stages, LastOrder(inst.stages)).None?
    requires StagesWellFormed(inst)
    ensures var after := inst.(status := WorkflowStatus.Approved, finished := true, current := None);
      && Activation(w, inst, after, actions, actions, hooks, hooks + [FullyApproved(w)], asg, asg, directory)
      && StagesWellFormed(after)
  {
    var after := inst.(status := WorkflowStatus.Approved, finished := true, current := None);
    assert SkipActions(w, after.stages, |inst.stages|) == [];
  }

  /** The stage opened by `OpenStage` sits at the next order index. */
  lemma OpenedStage(w: nat, inst: Instance, st: StageTemplate, skipped: bool, after: Instance,
                    directory: map<UserId, Option<RoleId>>)
    requires StagesWellFormed(inst) && inst.status.IsLive()
    requires var next := MinOrderAbove(inst.template.stages, LastOrder(inst.stages));
      next.Some? && st in StagesAt(inst.template.stages, next.value)
    requires skipped <==> Eligible(directory, st.requiredRole) == {}
    requires after == inst.(stages := inst.stages + [StageInstance(st, if skipped then Skipped else Active)],
                            status := InProgress, current := Some(st))
    ensures Opened(after, |inst.stages|, directory)
    ensures after.template == inst.template && after.target == inst.target
    ensures Above(st.orderIndex, LastOrder(inst.stages)) && st in inst.template.stages
  {
    var j := |inst.stages|;
    assert after.stages[j].template == st;
    assert PrevOrder(after.stages, j) == LastOrder(inst.stages);
  }

  /** A new assignment belongs to one of the users it was created for. */
  lemma NewAssignmentUser(before: seq<Assignment>, after: seq<Assignment>, s: StageRef, users: set<UserId>,
                          directory: map<UserId, Option<RoleId>>, i: nat)
    requires AddsAssignments(before, after, s, users, directory) && |before| <= i < |after|
    ensures after[i].user in users
  {
  }

  /** With nobody eligible, a stage gets no assignments. */
  lemma NoUsersNoAssignments(before: seq<Assignment>, after: seq<Assignment>, s: StageRef,
                             directory: map<UserId, Option<RoleId>>)
    requires AddsAssignments(before, after, s, {}, directory)
    ensures after == before
  {
    if |after| > |before| {
      NewAssignmentUser(before, after, s, {}, directory, |before|);
      assert false;
    }
  }

  lemma ActivationActive(w: nat, inst: Instance, after: Instance, actions0: seq<Action>, actions1: seq<Action>,
                         hooks: seq<Hook>, asg0: seq<Assignment>, asg1: seq<Assignment>,
                         directory: map<UserId, Option<RoleId>>)
    requires |after.stages| == |inst.stages| + 1 && inst.stages <= after.stages
    requires after.target == inst.target && after.template == inst.template
    requires Opened(after, |inst.stages|, directory)
    requires after.stages[|inst.stages|].status == Active
    requires after.status == InProgress && after.current == Some(after.stages[|inst.stages|].template)
    requires actions1 == actions0
    requires AddsAssignments(asg0, asg1, StageRef(w, |inst.stages|),
                             Eligible(directory, after.stages[|inst.stages|].template.requiredRole), directory)
    ensures Activation(w, inst, after, actions0, actions1, hooks, hooks, asg0, asg1, directory)
  {
    SkipActionsUnfold(w, after.stages, |inst.stages|);
  }

  /** An auto-skipped stage followed by a further activation is itself an activation. */
  lemma ActivationAfterSkip(w: nat, inst: Instance, mid: Instance, final: Instance,
                            actions0: seq<Action>, actions1: seq<Action>, actions2: seq<Action>,
                            hooks0: seq<Hook>, hooks2: seq<Hook>,
                            asg0: seq<Assignment>, asg2: seq<Assignment>, directory: map<UserId, Option<RoleId>>)
    requires |mid.stages| == |inst.stages| + 1 && inst.stages <= mid.stages
    requires mid.target == inst.target && mid.template == inst.template
    requires mid.stages[|inst.stages|].status == Skipped
    requires Eligible(directory, mid.stages[|inst.stages|].template.requiredRole) == {}
    requires Opened(mid, |inst.stages|, directory)
    requires final.template == mid.template
    requires actions1 == actions0 + [Action(StageRef(w, |inst.stages|), None, None, Comment, AutoSkipped, true)]
    requires Activation(w, mid, final, actions1, actions2, hooks0, hooks2, asg0, asg2, directory)
    ensures Activation(w, inst, final, actions0, actions2, hooks0, hooks2, asg0, asg2, directory)
  {
    var n := |inst.stages|;
    AdvancedAfterSkip(inst.stages, mid, final, directory);
    assert final.stages[n] == mid.stages[n];
    SkipActionsUnfold(w, final.stages, n);
  }

  lemma AddsOneAssignment(start: seq<Assignment>, before: seq<Assignment>, after: seq<Assignment>, s: StageRef,
                          done: set<UserId>, u: UserId, directory: map<UserId, Option<RoleId>>)
    requires AddsAssignments(start, before, s, done, directory) && u !in done
    requires |after| == |before| + 1 && before <= after
    requires after[|before|].stage == s && after[|before|].user == u && after[|before|].role == RoleOf(directory, u)
    requires after[|before|].status == AssignmentStatus.Pending
    ensures AddsAssignments(start, after, s, done + {u}, directory)
  {
    forall v | v in done + {u}
      ensures exists i :: |start| <= i < |after| && after[i].user == v
    {
      if v == u {
        assert after[|before|].user == v;
      } else {
        var i :| |start| <= i < |before| && before[i].user == v;
        assert after[i].user == v;
      }
    }
  }

  lemma SkipActionsUnfold(w: nat, stages: seq<StageInstance>, j: nat)
    requires j < |stages|
    ensures SkipActions(w, stages, j) ==
      (if stages[j].status == Skipped then [Action(StageRef(w, j), None, None, Comment, AutoSkipped, true)] else [])
      + SkipActions(w, stages, j + 1)
    ensures j + 1 == |stages| ==> SkipActions(w, stages, j + 1) == []
  {
  }

  /** One auto-skipped stage followed by a further activation is itself an activation. */
  lemma AdvancedAfterSkip(before: seq<StageInstance>, mid: Instance, final: Instance, directory: map<UserId, Option<RoleId>>)
    requires |mid.stages| == |before| + 1 && before <= mid.stages
    requires mid.stages[|before|].status == Skipped
    requires Eligible(directory, mid.stages[|before|].template.requiredRole) == {}
    requires Opened(mid, |before|, directory)
    requires Advanced(mid.stages, final, directory) && final.template == mid.template
    ensures Advanced(before, final, directory)
  {
    var n := |before|;
    assert final.stages[n] == mid.stages[n];
    assert PrevOrder(final.stages, n) == PrevOrder(mid.stages, n);
    assert Opened(final, n, directory);
  }
}
