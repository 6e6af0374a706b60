# LightERP business rules in Dafny

This project models the business rules of the LightERP backend, a Django ERP with finance,
procurement and HR modules, and proves properties of them. Each Dafny module follows one
source file:

| module | file | what it models |
|---|---|---|
| `Approval`, `ApprovalEngine` | approval.dfy, approval_engine.dfy | the generic approval workflow engine (`ApprovalManager`): templates and their ordered stages, workflow instances, assignments, actions, delegations, quorum rules, cancel and restart |
| `Budget` | budget.dfy | budget headers and their lifecycle, the per-segment budget amounts (committed, encumbered, actual, adjustment), and the budget check with its control levels |
| `GeneralLedger` | gl.dfy | segments and their parent hierarchy, segment combinations, journal entries and lines, balancing and posting |
| `Receiving` | receiving.dfy | goods receipts (GRN) against purchase-order lines: quantity and tolerance checks, totals, GRN numbering, PO completion status |
| `Payments` | payments.dfy | the payment workflow (draft, pending approval, approved, rejected, voided, posted) and payment allocations to invoices |
| `PurchaseRequisition` | pr.dfy | purchase requisitions: number generation, items, totals, status predicates, cancellation and conversion to PO |
| `StatementImport` | statement_import.dfy | the bank statement importer: column detection, amount parsing, transaction type, row validation and totals |
| `JobStructures` | hr_jobs.dfy | the `clean()` validation of grades, grade rates, positions and jobs |
| `GradeService` | grade_service.dfy | the grade service: grade sequence numbers, grade create, update and deactivate, grade rates and rate types |
| `InvoiceSerializers` | invoice.dfy | validation of the nested journal entry and items of AP, AR and one-time-supplier invoices, and the DRAFT-only invoice update |
| `PaymentSerializers` | payment_serializers.dfy | the payment create validation, payment plans and installments, and the payment field update |
| `PurchaseOrderSerializers` | po_serializers.dfy | the PO create serializer: manual lines, lines converted from PR items, and the PR items' converted quantity |
| `FixedAssets` | fixed_assets.dfy | asset books, their field validation, one book per asset, and straight-line monthly depreciation |
| `Rounding` | rounding.dfy | Decimal's `quantize` with its default half-even rounding, used for depreciation and for amounts stored in two-decimal `DecimalField`s (PR item totals, GRN line totals) |
| `Common`, `Text` | common.dfy, text.dfy | `Result` and `Option`, sums, and the string helpers the other modules share |

Decimal amounts are integers in minor units, with the scale stated at the head of each module
(cents for most amounts, units of 0.00001 for journal lines, and 0.0001 for invoice amounts).
Database tables are sequences or maps held in the fields of a class (`ApprovalManager`,
`Ledger`, `GradeStore`, `PrItemTable`) or passed as parameters. Row ids are positions or map
keys. Model objects whose methods change their own fields are classes with those fields
(`Payment`, `BudgetHeader`, `BudgetAmount`, `GoodsReceipt`, `Requisition`, `Invoice`,
`StatementImporter`). Validators and pure computations are functions over datatypes. Errors
are `Failure` values where the source raises `ValidationError` or returns an error.

## Model

| member | source | states |
|---|---|---|
| Approval.FindTemplate | core/approval/managers.py:132-137 | The template found is an active template of the content type, and the latest of them; none is found exactly when no active template exists. |
| Approval.MinOrderAbove | core/approval/managers.py:425-466 | The next order index is the smallest stage order index above the bound; there is none exactly when no stage lies above it. |
| Approval.NextOrderFollowsLastStage | core/approval/managers.py:425-466 | `_get_next_stage_order` returns the smallest template order index above the highest order reached by a finished stage. |
| Approval.StagesAt | core/approval/managers.py:351-353 | Every template returned sits at the requested order index, and some template is returned whenever one exists at that index. |
| Approval.FirstActive | core/approval/managers.py:481-490 | The stage chosen is ACTIVE with no ACTIVE stage before it; none is chosen exactly when no stage is active. |
| Approval.MaxDoneOrder | core/approval/managers.py:436-448 | The result is the highest order index among completed or skipped stages, and it is absent exactly when no stage is done. |
| Approval.DefaultQuorum | core/approval/managers.py:527 | The default quorum is a strict majority, at least one, and never more than the assignment count. |
| Approval.StageDecision | core/approval/managers.py:499-537 | A stage is rejected exactly when its template allows rejection and some reject action exists on it. |
| Approval.DecisionUnderAny | core/approval/managers.py:522-524 | Under ANY policy a stage without rejection is approved exactly when at least one assigned user approved. |
| Approval.DecisionUnderAll | core/approval/managers.py:516-520 | Under ALL policy a stage without rejection is approved exactly when every assigned user has approved. |
| Approval.DecisionUnderQuorum | core/approval/managers.py:525-528 | Under QUORUM policy the stage is approved when the distinct approvers reach the quorum count, or a strict majority when no count is set. |
| Approval.RejectionWins | core/approval/managers.py:500-506 | Once a rejection is recorded on a stage that allows it, the stage is rejected whatever other actions were taken. |
| Approval.CommentKeepsDecision | core/approval/managers.py:509-528 | Adding a comment never changes a stage's decision. |
| Approval.ApprovalIsMonotone | core/approval/managers.py:509-528 | An approved stage stays approved when a further approval is added. |
| Approval.AllWaitsForEveryAssignment | core/approval/managers.py:516-520 | Under ALL policy a stage with an assigned user who has not approved is not approved. |
| Approval.StatusChangeKeepsDecision | core/approval/managers.py:509-528 | The decision reads actions only, so changing an assignment's status leaves it unchanged. |
| Approval.LatestInstance | core/approval/managers.py:790-815 | The instance found belongs to the target, is live when only live ones are wanted, and no later instance of the target qualifies; none is found exactly when none qualifies. |
| Approval.OnlyLatestGivesOneLive | core/approval/managers.py:165-172 | A store in which only the newest instance of each target can be live has at most one live instance per target. |
| Approval.FirstAssignment | core/approval/managers.py:643-646 | The assignment found is the user's first on that stage; none is found exactly when the user has no assignment there. |
| Approval.ParseAction | core/approval/managers.py:649-657 | An action name is accepted exactly when it is approve, reject, delegate or comment. |
| Approval.CheckAction | core/approval/managers.py:618-683 | An action is refused without a live workflow, active stage or assignment, for an invalid name, a reject or delegate the stage forbids, a repeated decision, or a delegation without target; an accepted action refers to the active stage and the user's assignment. |
| Approval.Eligible | core/approval/managers.py:273-304 | The eligible users are exactly the users of the directory holding the stage's required role, or all of them when no role is required. |
| Approval.CommentOr | core/approval/managers.py:686-698 | A non-empty comment is kept; a missing or empty comment is replaced by the default text. |
| Approval.RemovePending | core/approval/managers.py:556-573 | Exactly the PENDING assignments of the decided stage are removed; all others are kept. |
| Approval.DeactivateDelegations | core/approval/managers.py:227-241 | Delegations on the cancelled stages become inactive; all others are unchanged. |
| Approval.CancelActiveStages | core/approval/managers.py:227-241 | Every ACTIVE stage becomes CANCELLED and every other stage is kept as it was. |
| Approval.CheckFinishedStage | core/approval/managers.py:469-537 | Fails with `NoWorkflowInstance` exactly when the target has no live workflow. With no active stage the stage is still pending; otherwise the outcome is `StageDecision` of the active stage: rejected exactly when the stage allows rejection and holds a reject action, else approved or pending as its policy decides. |
| Approval.IsWorkflowFinished | core/approval/managers.py:835-861 | A workflow is finished exactly when the target's latest instance exists and is no longer live; the status returned is that instance's status. |
| Approval.UserPendingApprovals | core/approval/managers.py:818-832 | The ids returned, in increasing order, are exactly the IN_PROGRESS workflows in which the user holds a pending assignment on the active stage. |
| Approval.CheckDelegation | core/approval/managers.py:730-747 | A delegation is allowed exactly when the stage allows it, the delegator holds a pending assignment there and the delegate is someone else; the assignment returned is the delegator's. |
| ApprovalEngine.LatestTerminalNoLive | core/approval/managers.py:165-172 | In a valid store, when the target's latest instance is finished the target has no live instance. |
| ApprovalEngine.ApprovalManager.constructor | core/approval/managers.py:90-129 | An engine starts valid with the given templates and no instances, assignments, actions or delegations. |
| ApprovalEngine.ApprovalManager.CreateInstance | core/approval/managers.py:90-129 | Fails without an active template or with an invalid quorum count; otherwise appends one PENDING instance of the template for the target. |
| ApprovalEngine.ApprovalManager.CreateAssignments | core/approval/managers.py:273-304 | Adds exactly one PENDING assignment per eligible user of the stage, keeps the earlier assignments, and changes nothing else. |
| ApprovalEngine.ApprovalManager.OpenStage | core/approval/managers.py:375-407 | Appends the stage instance: skipped, with a system comment, exactly when nobody is eligible; otherwise ACTIVE with its assignments. No other instance changes. |
| ApprovalEngine.ApprovalManager.MarkApproved | core/approval/managers.py:336-349 | The workflow becomes APPROVED and finished with no current stage, and the fully-approved hook is recorded. |
| ApprovalEngine.ApprovalManager.ActivateNext | core/approval/managers.py:307-422 | A finished workflow is unchanged. A live one opens the stages at the next order index and skips the stages nobody can act on; it ends APPROVED when no stage is left, or stays IN_PROGRESS with its newest stage active. |
| ApprovalEngine.ApprovalManager.OpenAndContinue | core/approval/managers.py:375-420 | Opening a stage and continuing past skipped ones satisfies the same activation relation as `ActivateNext`. |
| ApprovalEngine.ApprovalManager.CompleteStage | core/approval/managers.py:539-611 | The active stage is closed with the decision; a rejection ends the workflow REJECTED, an approval activates the next stage, and the stage's pending assignments are removed. |
| ApprovalEngine.ApprovalManager.Delegate | core/approval/managers.py:720-786 | A refused delegation changes nothing. An allowed one returns the new delegation's index, records the delegation, marks the delegator's assignment DELEGATED, adds a pending assignment for the delegate and logs one DELEGATE action; instances and hooks are unchanged. |
| ApprovalEngine.ApprovalManager.CancelWorkflow | core/approval/managers.py:200-266 | No instance gives an error. A finished instance is returned unchanged. A live one gets its active stages cancelled, their delegations deactivated and status CANCELLED, after which the target has no live workflow. Finished instances never change. |
| ApprovalEngine.ApprovalManager.StartWorkflow | core/approval/managers.py:150-184 | Refused and unchanged while the target has a live workflow, or when no valid template exists. Otherwise a new instance is activated and ends IN_PROGRESS or APPROVED, and the started hook is recorded. |
| ApprovalEngine.ApprovalManager.RestartWorkflow | core/approval/managers.py:187-197 | Without an instance it fails with `NoInstanceToCancel` and nothing changes. Otherwise the latest instance is cancelled as `CancelWorkflow` does, and the restart succeeds exactly when an active, valid template exists: the new instance is returned and activated as `StartWorkflow` promises. A missing or invalid template is reported and the cancellation stays. |
| ApprovalEngine.ApprovalManager.ProcessAction | core/approval/managers.py:618-715 | A refused action changes nothing. A delegation is checked by `CheckDelegation` and leaves the state `Delegate` promises. Any other action is logged first; the stage then stays open, or closes REJECTED (pending assignments removed, delegations deactivated, a system REJECT action logged, the rejected hook recorded), or closes APPROVED and activates the next stage. Other workflows are unchanged. |
| ApprovalEngine.ApprovalManager.RecordAction | core/approval/managers.py:686-708 | Leaves the engine in the state `ProcessAction` promises for a non-delegation: the user's action is logged, the stage is re-decided, a rejection ends the workflow with the system REJECT action and the rejected hook, and other workflows are unchanged. |
| ApprovalEngine.ApprovalManager.LogAction | core/approval/managers.py:686-698 | The action is appended to the log and the acting assignment gets the status of its action; nothing else changes. |
| ApprovalEngine.ApprovalManager.EvaluateStage | core/approval/managers.py:701-708 | A pending stage leaves the workflow as it was. A decided stage has its delegations deactivated; a rejection ends the workflow REJECTED, removes the pending assignments and logs the system REJECT action and the rejected hook, and an approval activates the next stage. Other workflows are unchanged. |
| Budget.Rank | Finance/budget_control/models.py:478 | The priority table's rank is between 0 and 4 and is 4 exactly for ABSOLUTE. |
| Budget.StrictestIndex | Finance/budget_control/models.py:464-480 | Picks the first level of highest rank. |
| Budget.StrictestControlLevel | Finance/budget_control/models.py:464-480 | The strictest level is one of the levels and ranks at least as high as every other; with no levels it is NONE. |
| Budget.ExceededVerdict | Finance/budget_control/models.py:446-456 | An over-budget transaction is blocked exactly when the strictest level is ABSOLUTE. The source's table also blocks TRACK; see Findings. |
| Budget.CheckFundsAvailable | Finance/budget_control/models.py:776-800 | Reports the available amount and the shortage: sufficient exactly when available covers the request, and available plus shortage always covers it. |
| Budget.ShortageIsLeastTopUp | Finance/budget_control/models.py:791-800 | The shortage reported is the smallest top-up that makes the funds sufficient. |
| Budget.EffectiveControlLevel | Finance/budget_control/models.py:564-569 | A segment's own control level overrides the header's default. |
| Budget.Applicable | Finance/budget_control/models.py:252-271 | The applicable segment values are exactly the active ones whose segment is among the transaction's segments. |
| Budget.LevelsOf | Finance/budget_control/models.py:405-428 | Each applicable segment contributes its effective control level. |
| Budget.ViolationsOf | Finance/budget_control/models.py:405-428 | There are no violations exactly when every applicable segment has funds for the request; each violation has a positive shortage. |
| Budget.FirstUnfunded | Finance/budget_control/models.py:405-407 | Finds the first applicable segment without a budget amount, which makes the check raise. |
| Budget.EvaluateRefusesIffShortAndAbsolute | Finance/budget_control/models.py:437-461 | With every applicable segment funded, a transaction is refused exactly when some segment is short of funds and some segment is ABSOLUTE. |
| Budget.CheckDecidesByAbsolute | Finance/budget_control/models.py:361-461 | A date outside the budget period is refused; no applicable segment means allowed at NONE; otherwise refused exactly when some segment is short and some is ABSOLUTE. |
| Budget.BudgetHeader.constructor | Finance/budget_control/models.py:85-101 | A new header is an inactive DRAFT with the given period, default level and segment values. |
| Budget.BudgetHeader.CanActivate | Finance/budget_control/models.py:129-148 | Activation is allowed exactly for a DRAFT header with segment values and budget amounts; ACTIVE and CLOSED headers get their own errors. |
| Budget.BudgetHeader.Activate | Finance/budget_control/models.py:150-170 | Succeeds exactly when `CanActivate` allows it, and then the header is ACTIVE; a refusal changes nothing. |
| Budget.BudgetHeader.Close | Finance/budget_control/models.py:172-181 | The header becomes CLOSED and inactive, and can no longer be activated. |
| Budget.BudgetHeader.Deactivate | Finance/budget_control/models.py:183-189 | The header returns to an inactive DRAFT that can be activated again when it has amounts. |
| Budget.BudgetHeader.CanDelete | Finance/budget_control/models.py:191-208 | Only a DRAFT header without budget amounts can be deleted. |
| Budget.BudgetHeader.IsDateInRange | Finance/budget_control/models.py:210-221 | A date is in range exactly when it lies between the start and end dates, both included. |
| Budget.BudgetHeader.CheckBudgetForSegments | Finance/budget_control/models.py:361-461 | Returns the budget verdict of the header's data, with ABSOLUTE as the only blocking level; its meaning is `CheckDecidesByAbsolute`. |
| Budget.EvaluateSegments | Finance/budget_control/models.py:405-461 | The loop over the applicable segments raises at the first one without a budget amount, and otherwise yields the verdict `Evaluate` gives with the corrected ranking: allowed when no segment is short, else decided by the strictest level. |
| Budget.CanConsume | Finance/budget_control/models.py:802-825 | Consumption is allowed exactly for a positive amount on an active header within the available funds. |
| Budget.BudgetAmount.constructor | Finance/budget_control/models.py:650-683 | A new budget amount holds the original budget with nothing committed, encumbered, consumed or adjusted. |
| Budget.BudgetAmount.ConsumeCommitment | Finance/budget_control/models.py:827-846 | Refused exactly when `CanConsume` refuses, and then unchanged; otherwise commitment grows by the amount and availability shrinks by it, never below zero. Buckets stay non-negative. |
| Budget.BudgetAmount.ReleaseCommitment | Finance/budget_control/models.py:848-866 | Refused exactly when more than the committed amount is released; otherwise commitment shrinks by the amount. |
| Budget.BudgetAmount.ConsumeEncumbrance | Finance/budget_control/models.py:870-899 | Moves an amount from commitment to encumbrance without changing availability, or encumbers new funds under the consumption rule. Buckets stay non-negative. |
| Budget.BudgetAmount.ReleaseEncumbrance | Finance/budget_control/models.py:901-921 | Refused exactly when more than the encumbered amount is released; otherwise encumbrance shrinks by the amount. |
| Budget.BudgetAmount.ConsumeActual | Finance/budget_control/models.py:923-951 | Moves an amount from encumbrance to actual without changing availability, or consumes new funds under the consumption rule. |
| Budget.BudgetAmount.ReverseActual | Finance/budget_control/models.py:953-973 | Refused exactly when more than the actual amount is reversed; otherwise actual shrinks by the amount. |
| Budget.BudgetAmount.AdjustBudget | Finance/budget_control/models.py:975-993 | The adjustment raises the total budget and the available amount by the same amount. |
| Budget.TrackBudgetBlocksAsWritten | Finance/budget_control/models.py:446-480 | With the source's priority table, an over-budget transaction on a TRACK budget is blocked; with TRACK ranked as intended it passes as exceeded-and-tracked. |
| Budget.TrackRanksBelowNoneAsWritten | Finance/budget_control/models.py:464-480 | The source's table ranks TRACK below NONE. |
| GeneralLedger.FindSegment | Finance/GL/models.py:201-211 | Finds the first segment of the type with that code, and finds none exactly when none exists. |
| GeneralLedger.AncestryIsParentChain | Finance/GL/models.py:214-227 | Each step of a segment's path is the parent of the next step and the path ends at the segment itself; when the walk ends within the fuel, the path starts at a root, a segment whose parent is missing or unknown. |
| GeneralLedger.WalkUp | Finance/GL/models.py:214-227 | The parent walk loop produces the segment's ancestry, root first. |
| GeneralLedger.Join | Finance/GL/models.py:227 | Joining a single part yields that part. |
| GeneralLedger.Children | Finance/GL/models.py:234-238 | Returns exactly the segments of the same type whose parent code is the given code. |
| GeneralLedger.Descendants | Finance/GL/models.py:234-253 | Contains every direct child, and every segment collected has its parent among the root and the collected segments; `DescendantsAreBelow` gives the exact set. |
| GeneralLedger.DescendantsAreBelow | Finance/GL/models.py:234-253 | A segment is collected exactly when it lies below the code within the fuel's number of levels: a child of it, or below one of its children one level less deep. |
| GeneralLedger.ExpandIsBelow | Finance/GL/models.py:240-253 | Expanding a list of children collects exactly those children and the segments below them, one level less deep. |
| GeneralLedger.FindCombination | Finance/GL/models.py:443-489 | Finds the first stored combination with the same segment pairs and no others; none is found exactly when none exists, and the empty list finds nothing. |
| GeneralLedger.ProblemFrom | Finance/GL/models.py:518-552 | Reports no problem exactly when every pair names a known segment type, each type once, with an existing segment of that type and code. |
| GeneralLedger.FindAfterAppend | Finance/GL/models.py:599-607 | A combination just appended, with no earlier match, is the one found next time. |
| GeneralLedger.LinesOf | Finance/GL/models.py:832-868 | Returns exactly the lines of the entry. |
| GeneralLedger.TotalsFollowOwnLines | Finance/GL/models.py:832-868 | An entry's debit and credit totals depend on its own lines only. |
| GeneralLedger.NoLinesIsBalanced | Finance/GL/models.py:870-897 | An entry without lines has zero totals, is balanced, and has zero difference. |
| GeneralLedger.OtherLineKeepsTotals | Finance/GL/models.py:832-868 | A line of another entry does not change this entry's totals. |
| GeneralLedger.WithoutLinesOf | Finance/GL/models.py:716-727 | Deleting an entry removes exactly its lines. |
| GeneralLedger.WithoutRowsOf | Finance/GL/models.py:716-727 | Deleting an entry removes exactly its ledger rows. |
| GeneralLedger.DeleteKeepsPosted | Finance/GL/models.py:716-727 | Deleting an unposted entry leaves every posted entry and its lines as they were. |
| GeneralLedger.Ledger.constructor | Finance/GL/models.py:130-190 | A ledger starts valid, holding the given segment types and segments and no combinations, entries, lines or rows. |
| GeneralLedger.Ledger.FullPath | Finance/GL/models.py:214-227 | The full path is the ancestry of the segment joined by " > ". |
| GeneralLedger.Ledger.DeleteSegment | Finance/GL/models.py:306-333 | A segment with children or used in transactions is kept and nothing changes. Otherwise that segment is removed, and the cascade deletes its detail rows, so its pair leaves every combination; the combinations journal lines reference stay as they were. |
| GeneralLedger.WithoutPair | Finance/GL/models.py:628-631 | A combination keeps exactly its details other than the deleted segment's pair. |
| GeneralLedger.CascadeSparesReferenced | Finance/GL/models.py:254-333 | When no journal line uses the segment, the cascade leaves every referenced combination intact, and no list holding the deleted pair finds a combination afterwards. |
| GeneralLedger.Ledger.ChangeCombination | Finance/GL/models.py:396-420 | A saved combination cannot be changed or deleted. |
| GeneralLedger.Ledger.CreateCombination | Finance/GL/models.py:491-568 | Succeeds exactly for a well-formed pair list and appends it, returning its id; otherwise reports the first problem and changes nothing. |
| GeneralLedger.Ledger.GetCombinationId | Finance/GL/models.py:570-607 | Returns the existing combination's id, or creates it; either way the id found afterwards is the one returned, and earlier combinations are kept. |
| GeneralLedger.Ledger.AddEntry | Finance/GL/models.py:693-714 | Adds the entry under a fresh id; posted entries and their lines do not change. |
| GeneralLedger.Ledger.UpdateEntry | Finance/GL/models.py:704-714 | A posted entry is refused and kept; an unposted one is replaced. |
| GeneralLedger.Ledger.DeleteEntry | Finance/GL/models.py:716-727 | A posted entry is refused. An unposted one is removed with its lines and rows, and posted entries do not change. |
| GeneralLedger.Ledger.Post | Finance/GL/models.py:899-952 | Refused exactly when the entry is already posted or unbalanced. Otherwise the entry is marked posted and one ledger row is added. |
| GeneralLedger.Ledger.AddLine | Finance/GL/models.py:966-989 | A line is added exactly when its entry is not posted. |
| GeneralLedger.Ledger.UpdateLine | Finance/GL/models.py:966-989 | A line is replaced exactly when neither its old nor its new entry is posted. |
| GeneralLedger.Ledger.DeleteLine | Finance/GL/models.py:991-1001 | A line is removed exactly when its entry is not posted. |
| Receiving.CumulativeReceipt | procurement/receiving/models.py:485-493 | A new line adds its quantity to what was received; a re-saved line replaces its previously saved quantity. |
| Receiving.ValidateQuantity | procurement/receiving/models.py:471-522 | A non-gift line needs a positive quantity. Partial receiving may not exceed the ordered quantity in total. Full receiving must land within the tolerance band. |
| Receiving.ToleranceBand | procurement/receiving/models.py:504-522 | With a 10% tolerance on 100 ordered units, full receipts of 90 and 110 pass and 89 and 111 are refused; a partial receipt of 100 passes and 100.001 is refused. |
| Receiving.LinesTotalNonNegative | procurement/receiving/models.py:127-131 | A receipt of non-negative lines has a non-negative total. |
| Receiving.LinesTotalReplace | procurement/receiving/models.py:127-131 | Replacing a line changes the total by the difference of the two line totals. |
| Receiving.ReceiptPercentage | procurement/receiving/models.py:524-528 | The percentage is received over ordered times 100, and 0 for gifts or nothing ordered. |
| Receiving.IsPartialReceipt | procurement/receiving/models.py:530-534 | A non-gift line is partial exactly when less than ordered was received. |
| Receiving.PopulateFromPoLine | procurement/receiving/models.py:448-469 | Copies item, ordered quantity and price from the PO line. A zero or missing quantity defaults to the remaining quantity. The line total is quantity times price, rounded half-even to the cent. |
| Receiving.LineTotal | procurement/receiving/models.py:408-413 | The stored line total, a two-decimal field, is the cent nearest to quantity received times price, ties going to the even cent. |
| Receiving.CountsPartition | procurement/receiving/models.py:154-167 | Fully and partially received lines never add up to more than all lines. |
| Receiving.PoCompletionStatus | procurement/receiving/models.py:154-167 | Fully received, partially received and pending lines add up to the line count, and the percentage is the share fully received. |
| Receiving.GrnNumber | procurement/receiving/models.py:302-306 | A GRN number starts with "GRN-". |
| Receiving.GrnNumberSequence | procurement/receiving/models.py:302-306 | The number part of a GRN number reads back as the id after the last one. |
| Receiving.GrnNumberYear | procurement/receiving/models.py:302-306 | After "GRN-" the number carries the receipt year, which reads back as that year, followed by a dash. |
| Receiving.GoodsReceipt.constructor | procurement/receiving/models.py:22-77 | A new receipt has no number, no lines and a zero total. |
| Receiving.GoodsReceipt.ValidateAgainstPo | procurement/receiving/models.py:133-141 | A receipt is valid exactly when its type and supplier match the PO's. |
| Receiving.GoodsReceipt.CalculateTotal | procurement/receiving/models.py:127-131 | The stored total becomes the sum of the line totals. |
| Receiving.GoodsReceipt.Save | procurement/receiving/models.py:300-324 | A receipt without a number is numbered from the year and the last id, and an existing number is kept. The PO check decides, and on success the total is recalculated. |
| Receiving.GoodsReceipt.SaveLine | procurement/receiving/models.py:436-556 | A line failing the quantity check changes nothing; so does a quantity-valid line whose line number another line of the receipt already has (the unique (goods_receipt, line_number) constraint), refused as a duplicate. Distinct line numbers stay distinct. An accepted line is stored with its line total rounded half-even to the cent, the receipt total becomes the sum of the stored line totals, and a non-gift PO line records the receipt. |
| Payments.DeleteImpliesModify | Finance/payments/models.py:428-434 | A deletable payment is modifiable; a posted one is neither; only REJECTED payments are modifiable without being deletable. |
| Payments.PostVoidExclusive | Finance/payments/models.py:343-399 | No payment can be both posted and voided next, and a voided payment can do nothing more. |
| Payments.TotalSettlement | Finance/payments/models.py:966-973 | The settlement is the allocation plus its discount and write-off, and so is at least the allocation. |
| Payments.FullyAllocatedMeans | Finance/payments/models.py:411-424 | A payment is fully allocated exactly when its allocations cover its amount; without allocations all of it is unallocated. |
| Payments.AllocateLowersUnallocated | Finance/payments/models.py:411-424 | Each new allocation lowers the unallocated amount by exactly its amount. |
| Payments.TotalAllocatedPositive | Finance/payments/models.py:411-424 | Positive allocations total at least one cent each. |
| Payments.CheckDirection | Finance/payments/models.py:628-636 | A customer payment must be incoming and a supplier payment outgoing. |
| Payments.CleanAllocation | Finance/payments/models.py:984-1020 | An allocation is accepted exactly when it is positive, matches the payment's direction and invoice type, and its settlement fits the invoice balance (plus its own earlier amount when re-saved). |
| Payments.ResaveUnchanged | Finance/payments/models.py:984-1020 | Re-saving an unchanged valid allocation is accepted. |
| Payments.NewAllocationWithinBalance | Finance/payments/models.py:984-1020 | An accepted new allocation never settles more than the invoice's balance due. |
| Payments.Payment.constructor | Finance/payments/models.py:138-150 | A new payment is a valid, unposted DRAFT without allocations. |
| Payments.Payment.SubmitForApproval | Finance/payments/models.py:245-293 | Succeeds exactly for an unposted DRAFT payment with a positive amount, a date and allocations; it then becomes PENDING_APPROVAL. A DRAFT missing any of the three reports which are missing, and a refusal leaves the status. |
| Payments.Payment.Approve | Finance/payments/models.py:295-307 | Only a pending payment is approved. |
| Payments.Payment.Reject | Finance/payments/models.py:309-325 | A pending payment is rejected with a non-empty reason, which is stored; a missing reason is refused. |
| Payments.Payment.RevertToDraft | Finance/payments/models.py:327-339 | A rejected payment returns to DRAFT with its reason cleared. |
| Payments.Payment.Post | Finance/payments/models.py:343-364 | Only an approved, unposted payment with a positive amount is posted, dated today. |
| Payments.Payment.Void | Finance/payments/models.py:380-399 | Only a payment allowed to void becomes VOIDED; the posting stays as it was. |
| Payments.Payment.UnallocatedAmount | Finance/payments/models.py:418-420 | The unallocated and the allocated amounts add up to the payment amount. |
| PurchaseRequisition.Prefix | procurement/PR/models.py:686-691 | Every PR number prefix starts with "PR". |
| PurchaseRequisition.FormatNumberSuffix | procurement/PR/models.py:708 | A formatted number reads back as the number it was made from. |
| PurchaseRequisition.GreatestWithPrefixIsGreatest | procurement/PR/models.py:694-696 | The number found is the greatest, in string order, of the numbers with that prefix. |
| PurchaseRequisition.NextPrNumberAsWritten | procurement/PR/models.py:682-708 | The source's next number carries the type's prefix. |
| PurchaseRequisition.PrNumberRepeatsAsWritten | procurement/PR/models.py:693-708 | Once PR-CAT-1000000 exists, the source proposes PR-CAT-1000000 again. |
| PurchaseRequisition.MaxSuffix | procurement/PR/models.py:694-708 | The largest numeric suffix among the numbers with the prefix. |
| PurchaseRequisition.NextPrNumberIsFresh | procurement/PR/models.py:682-708 | The next number carries a numeric suffix above every existing one, so it is not already taken. |
| PurchaseRequisition.FillFromCatalog | procurement/PR/models.py:1205-1212 | A catalog item fills in only an empty name or description, and a zero price only when it has a price itself; everything else is kept. |
| PurchaseRequisition.PrepareItemAsWritten | procurement/PR/models.py:1199-1212 | The source computes the rounded total from the price before the catalog fill-in; it is current only when the fill-in does not change the price. |
| PurchaseRequisition.ItemTotalStaleAsWritten | procurement/PR/models.py:1199-1212 | A catalog item with price 10.00 and quantity 2 is saved with a total of 0. |
| PurchaseRequisition.PrepareItem | procurement/PR/models.py:1199-1212 | After the fill-in, the item's total is quantity times the filled-in price, rounded half-even to the cent. |
| PurchaseRequisition.ItemTotal | procurement/PR/models.py:1156-1161 | The stored item total, a two-decimal field, is the cent nearest to quantity times price, ties going to the even cent. |
| PurchaseRequisition.ItemTotalRoundsHalfEven | procurement/PR/models.py:1199-1201 | 0.50 × 0.01 is stored as 0.00, 1.50 × 0.01 as 0.02, and 2.00 × 10.00 as 20.00. |
| PurchaseRequisition.AssignLineNumber | procurement/PR/models.py:1214-1219 | A line number above 1 is kept; otherwise the item is numbered after every stored item. |
| PurchaseRequisition.ResavedFirstLineMoves | procurement/PR/models.py:1214-1219 | A stored item with line number 1 is renumbered when it is saved again. |
| PurchaseRequisition.CleanItem | procurement/PR/models.py:1234-1244 | An item is valid exactly with a positive quantity, a non-negative price and, on a catalog PR, a catalog item. |
| PurchaseRequisition.ItemsTotalIsPriced | procurement/PR/models.py:710-725 | When every item's total is current, the PR total is the sum of the items' quantity times price, each rounded half-even to the cent. |
| PurchaseRequisition.CountConverted | procurement/PR/models.py:761-775 | Counts the converted items: all of them exactly when every item is converted, none exactly when none is. |
| PurchaseRequisition.CancellationNotes | procurement/PR/models.py:813-817 | A non-empty reason is appended to the notes after a blank line, or becomes the notes; an empty reason leaves them. |
| PurchaseRequisition.Requisition.constructor | procurement/PR/models.py:600-630 | A new requisition is an unnumbered DRAFT with no items and a zero total. |
| PurchaseRequisition.Requisition.GeneratePrNumber | procurement/PR/models.py:682-708 | An existing number is kept. Otherwise the number is the corrected next number, not already taken. |
| PurchaseRequisition.Requisition.CalculateTotals | procurement/PR/models.py:710-725 | The total becomes the sum of the stored (rounded) item totals, which is the sum of the rounded priced totals when the item totals are current. |
| PurchaseRequisition.Requisition.IsApproved | procurement/PR/models.py:727-729 | True exactly for APPROVED. |
| PurchaseRequisition.Requisition.IsRejected | procurement/PR/models.py:731-733 | True exactly for REJECTED. |
| PurchaseRequisition.Requisition.IsCancelled | procurement/PR/models.py:735-737 | True exactly for CANCELLED. |
| PurchaseRequisition.Requisition.CanBeEdited | procurement/PR/models.py:739-749 | Editable exactly as DRAFT or REJECTED. |
| PurchaseRequisition.Requisition.CanBeApproved | procurement/PR/models.py:743-745 | Approvable exactly while PENDING_APPROVAL. |
| PurchaseRequisition.Requisition.CanBeCancelled | procurement/PR/models.py:751-753 | Cancellable unless already cancelled or converted to PO. |
| PurchaseRequisition.Requisition.Cancel | procurement/PR/models.py:804-820 | Succeeds exactly when cancellation is allowed; the PR becomes CANCELLED with the reason in its notes, and can then no longer be edited, approved or cancelled. A refusal changes nothing. |
| PurchaseRequisition.Requisition.MarkAsConvertedToPo | procurement/PR/models.py:755-778 | Only an approved PR with items. It becomes CONVERTED_TO_PO exactly when every item is converted, and otherwise stays APPROVED. |
| PurchaseRequisition.Requisition.IsPartiallyConverted | procurement/PR/models.py:789-797 | Partially converted exactly when not fully converted and some item is converted. |
| PurchaseRequisition.Requisition.CanBeConverted | procurement/PR/models.py:1268-1275 | An item can be converted exactly when the PR is approved and the item not yet converted. |
| PurchaseRequisition.Requisition.SaveItem | procurement/PR/models.py:1188-1225 | A line number another item of the PR already has is refused with nothing changed, which is the unique (pr, line_number) constraint. Otherwise the item is stored with its catalog fill-in, its assigned line number and the corrected total (see Findings) rounded to the cent. The PR total is then recalculated from the stored totals, and distinct line numbers stay distinct. |
| PurchaseRequisition.Requisition.DeleteItem | procurement/PR/models.py:1227-1232 | The item is removed and the PR total recalculated. |
| PurchaseRequisition.Requisition.MarkItemConverted | procurement/PR/models.py:1260-1265 | Only that item becomes converted, and it can no longer be converted. |
| StatementImport.Normalize | Finance/cash_management/services/statement_import.py:141-164 | A normalised column name has no underscores or spaces. |
| StatementImport.FindColumn | Finance/cash_management/services/statement_import.py:141-164 | Finds the first column matching one of the field's aliases; none is found exactly when no column matches. |
| StatementImport.SeparatorIgnored | Finance/cash_management/services/statement_import.py:141-164 | Column matching ignores spaces and underscores. |
| StatementImport.CaseIgnored | Finance/cash_management/services/statement_import.py:141-164 | Column matching ignores letter case. |
| StatementImport.NormalizeSeparators | Finance/cash_management/services/statement_import.py:224-244 | The last separator is the decimal point. A lone comma is a decimal comma when two digits follow it, and a thousands separator otherwise. No comma remains. |
| StatementImport.ParseDecimal | Finance/cash_management/services/statement_import.py:194-252 | An empty or missing cell has no amount. A parsed amount comes from a plain decimal literal: the cell without currency symbols and spaces, parentheses read as a minus sign, separators normalised. |
| StatementImport.PlainDigits | Finance/cash_management/services/statement_import.py:359 | `int` reads a run of digits as its value. |
| StatementImport.PlusDigits | Finance/cash_management/services/statement_import.py:359 | A plus sign before digits leaves their value. |
| StatementImport.MinusDigits | Finance/cash_management/services/statement_import.py:359 | A minus sign before digits negates their value. |
| StatementImport.IntLiteralReadsBack | Finance/cash_management/services/statement_import.py:359 | `int` reads back the decimal text of every natural number. |
| StatementImport.IntLiteralRefuses | Finance/cash_management/services/statement_import.py:359 | `int` raises on "abc", "1.5", the empty text and a lone "-". |
| StatementImport.IntLiteralSigned | Finance/cash_management/services/statement_import.py:359 | `int` reads "+7" as 7 and "-12" as -12. |
| StatementImport.IntLiteralIgnoresSpace | Finance/cash_management/services/statement_import.py:359 | `int` reads a number with whitespace on both sides as the number alone. |
| StatementImport.IntLiteralSpaced | Finance/cash_management/services/statement_import.py:359 | Digits between a no-break space and a newline read as their value, since Python's whitespace includes U+00A0. |
| StatementImport.ParenthesesNegate | Finance/cash_management/services/statement_import.py:210-219 | An amount in parentheses is the negation of the amount inside. |
| StatementImport.UsGrouping | Finance/cash_management/services/statement_import.py:224-246 | "1,234.56" reads as 1234.56. |
| StatementImport.EuropeanGrouping | Finance/cash_management/services/statement_import.py:224-246 | "1.234,56" reads as 1234.56. |
| StatementImport.LoneCommaDecimal | Finance/cash_management/services/statement_import.py:224-246 | "12,34" reads as 12.34. |
| StatementImport.LoneCommaThousands | Finance/cash_management/services/statement_import.py:224-246 | "1,234" reads as 1234. |
| StatementImport.NegativeGrouped | Finance/cash_management/services/statement_import.py:210-246 | "(1,234.56)" reads as -1234.56. |
| StatementImport.OrElse | Finance/cash_management/services/statement_import.py:268-273 | Python's `a or b`: a truthy value is kept, otherwise the fallback is used. |
| StatementImport.DetermineTransactionType | Finance/cash_management/services/statement_import.py:254-298 | A recognised type column decides: a debit exactly when it says a debit word, taking the amount column or else the debit (or credit) column. Otherwise a truthy debit gives a debit with that amount, and then a truthy credit a credit. Failing both, there is a type exactly when the amount is truthy: a negative amount is a debit of its magnitude, a positive one a credit. |
| StatementImport.MapColumns | Finance/cash_management/services/statement_import.py:320-325 | Each of the eleven fields is mapped to the column `FindColumn` finds for its aliases, and every mapped column exists. |
| StatementImport.MissingRequired | Finance/cash_management/services/statement_import.py:327-341 | Reports missing columns exactly when the date or the description column is not found. |
| StatementImport.RowOutcome | Finance/cash_management/services/statement_import.py:343-395 | A row raises exactly when its line-number cell is present and `int` refuses it. Otherwise it is skipped exactly when it has no type or a falsy amount, invalid exactly when its date or description is missing (those are its errors), and else valid: the line carries the row's type, amount, dates (the value date defaulting to the transaction date), description, reference, balance, payee, line number and spreadsheet row number. |
| StatementImport.Outcomes | Finance/cash_management/services/statement_import.py:343-411 | There is one outcome per row, each well formed for its position. |
| StatementImport.MinDate | Finance/cash_management/services/statement_import.py:413-423 | The opening date is the earliest transaction date. |
| StatementImport.MaxDate | Finance/cash_management/services/statement_import.py:413-423 | The closing date is the latest transaction date. |
| StatementImport.ReadRows | Finance/cash_management/services/statement_import.py:343-411 | The row loop stops at the first row whose line number `int` refuses and reports it. Up to there it collects exactly the valid lines, the invalid-row count and the row-tagged errors of the rows' outcomes, and totals the debits and the credits. |
| StatementImport.FirstUnreadable | Finance/cash_management/services/statement_import.py:343-359 | Finds the first row, from a position on, whose line number `int` refuses; none is found exactly when every later row is readable. |
| StatementImport.NextRow | Finance/cash_management/services/statement_import.py:343-411 | A row that does not raise appends its outcome: its line to the valid lines, or one to the invalid count and its errors, tagged with its row number, to the error list. The first raising row stays the same. |
| StatementImport.Tally | Finance/cash_management/services/statement_import.py:385-411 | A valid line is kept and added to the total of its own type; an invalid row is counted and its errors tagged with its row number; a skipped row changes nothing. |
| StatementImport.AppendOutcome | Finance/cash_management/services/statement_import.py:400-411 | Each row adds its line to the valid lines, or its errors, tagged with its row number, to the error list. |
| StatementImport.AppendLine | Finance/cash_management/services/statement_import.py:400-411 | A line adds its amount to the total of its own type only. |
| StatementImport.StatementImporter.constructor | Finance/cash_management/services/statement_import.py:84-98 | A new importer holds the columns and rows, no errors, and the column map. |
| StatementImport.StatementImporter.ParseData | Finance/cash_management/services/statement_import.py:300-425 | Missing required columns give only those errors. Otherwise the rows' errors are appended, and it fails with the spreadsheet row number exactly when some line-number cell is not an integer. On success the result holds the valid lines, the row counts and the debit and credit totals, and a period, from the earliest to the latest date, exactly when some line is valid. |
| StatementImport.StatementImporter.PreviewImport | Finance/cash_management/services/statement_import.py:520-550 | A read error gives a failure with that error. A line number that `int` refuses raises, with its row number, and gives no preview. Otherwise the preview is the first ten valid lines, and success means no errors. |
| JobStructures.CleanGrade | HR/work_structures/models/job_structures.py:90-126 | A grade is valid exactly when its organisation is a business group active today, its sequence is positive, and its name is an active GRADE_NAME lookup; a non-positive sequence is reported as such whenever the organisation is usable. |
| JobStructures.CleanGradeRate | HR/work_structures/models/job_structures.py:222-245 | A rate is valid exactly when it is either a fixed amount or a full range with minimum at most maximum, with non-negative amounts; mixing or omitting both kinds has its own error. |
| JobStructures.CheckLookups | HR/work_structures/models/job_structures.py:522-543 | Lookups pass exactly when each is of the right type and active. |
| JobStructures.CleanPosition | HR/work_structures/models/job_structures.py:460-543 | A position is valid exactly when its organisation is a usable business group that its job, grade and location belong to, its FTE lies between 0.1 and 1.5, its head count is positive, and its lookups pass. |
| JobStructures.FteBounds | HR/work_structures/models/job_structures.py:507-514 | FTE 0.1 and 1.5 are accepted; 0.09 and 1.51 are refused. |
| JobStructures.CleanJob | HR/work_structures/models/job_structures.py:672-730 | A job is valid exactly when its business group is usable, its category and title are active lookups of the right type, its responsibilities are a list of strings, and its description is not blank. A non-string responsibility is reported at its first index. |
| JobStructures.BlankDescriptionRefused | HR/work_structures/models/job_structures.py:713-730 | A description of blanks only is refused. |
| GradeService.MaxSequence | HR/work_structures/services/grade_service.py:149-165 | The highest sequence among the organisation's counted grades, absent exactly when there are none. |
| GradeService.NextSequenceAsWritten | HR/work_structures/services/grade_service.py:149-165 | The source's next sequence lies above every active grade's sequence of the organisation. |
| GradeService.NextSequencePositive | HR/work_structures/services/grade_service.py:149-165 | The next sequence is at least 1. |
| GradeService.NextFreeSequenceIsFree | HR/work_structures/services/grade_service.py:149-165 | The corrected next sequence is taken by no grade of the organisation, active or not. |
| GradeService.NextSequenceReusesRetired | HR/work_structures/services/grade_service.py:149-165 | With an inactive grade at sequence 2, the source proposes 2 again. |
| GradeService.ApplyRateUpdate | HR/work_structures/services/grade_service.py:473-484 | A fixed amount replaces the range. Range bounds replace the fixed amount. Omitted bounds are kept. |
| GradeService.SwitchToFixed | HR/work_structures/services/grade_service.py:473-484 | Switching any rate to a non-negative fixed amount gives a valid rate. |
| GradeService.SwitchToRange | HR/work_structures/services/grade_service.py:473-484 | Switching a rate to a full range gives a valid rate exactly when the range is ordered and non-negative. |
| GradeService.HalfRangeRefused | HR/work_structures/services/grade_service.py:473-484 | Switching a fixed rate to a minimum only leaves it without a maximum and is refused. |
| GradeService.GradeStore.Create | HR/work_structures/services/grade_service.py:169-226 | Refused for a missing or non-root organisation, a name that is not an active GRADE_NAME, a non-positive sequence, or a sequence taken by an active grade. Otherwise an active grade is appended. The next free sequence with a free name always succeeds for a root organisation active today |
| GradeService.GradeStore.Update | HR/work_structures/services/grade_service.py:228-283 | A missing or inactive grade is refused. A new sequence or name must not be taken by another grade. Only the supplied fields change. |
| GradeService.GradeStore.Deactivate | HR/work_structures/services/grade_service.py:285-344 | Succeeds exactly for an active grade used by no position, job or assignment, and then only its active flag is cleared. |
| GradeService.GradeStore.CreateGradeRate | HR/work_structures/services/grade_service.py:381-436 | Refused for an inactive grade, an unknown rate type, an invalid rate, or a rate of the same grade and type already active on the start date (today by default). Otherwise the rate is added from that date |
| GradeService.GradeStore.UpdateGradeRate | HR/work_structures/services/grade_service.py:438-498 | No rate active today gives RateNotFound and several give MultipleRates. With a new start date on which a version of the grade and rate type already starts, the update is refused. Otherwise the active version is updated by `UpdateVersion`: corrected in place without a new start date, or ended the day before a fresh version with the updated fields that starts on the new date. A refusal changes nothing. |
| GradeService.ActiveKeys | HR/work_structures/services/grade_service.py:450-459 | The versions found are exactly the stored rates of the grade and rate type active on the day. |
| GradeService.NewVersionTakesOver | HR/work_structures/services/grade_service.py:484-492 | With a new start date, a fresh version with the updated amounts and the same grade and rate type is active on that day, the old version no longer is but keeps its start and amounts, and no other version changes. |
| GradeService.CorrectionInPlace | HR/work_structures/services/grade_service.py:484-492 | Without a new start date the active version keeps its key, start date, grade and rate type and takes the updated amounts, and no other version changes. |
| GradeService.GradeStore.DeleteGradeRate | HR/work_structures/services/grade_service.py:500-511 | The rate is removed, and success reports that it existed. |
| GradeService.GradeStore.CreateRateType | HR/work_structures/services/grade_service.py:97-112 | Refused exactly when the code is taken, blank, or longer than 50 characters, each with its own error; otherwise the rate type is added under a fresh key. |
| GradeService.GradeStore.UpdateRateType | HR/work_structures/services/grade_service.py:114-133 | An unknown rate type or a code taken by another is refused; otherwise the supplied fields change. |
| GradeService.GradeStore.DeleteRateType | HR/work_structures/services/grade_service.py:135-147 | Deleted exactly when it exists and no rate uses it. |
| InvoiceSerializers.TypeTotalsCover | Finance/Invoice/serializers.py:94-117 | The debit and credit totals add up to the sum of all line amounts. |
| InvoiceSerializers.ValidateLines | Finance/Invoice/serializers.py:94-117 | Lines pass exactly when there are at least two and debits and credits agree within 0.01; no lines and a single line get their own errors. |
| InvoiceSerializers.LinesOrderIrrelevant | Finance/Invoice/serializers.py:94-117 | The order of the lines does not change the verdict. |
| InvoiceSerializers.PairAccepted | Finance/Invoice/serializers.py:94-117 | One debit and one credit pass exactly when they differ by at most 0.01. |
| InvoiceSerializers.AddMatchingPair | Finance/Invoice/serializers.py:94-117 | Adding a debit and a credit of the same amount keeps balanced lines balanced. |
| InvoiceSerializers.ValidateSegments | Finance/Invoice/serializers.py:66-70 | A line's segments pass exactly when there is at least one. |
| InvoiceSerializers.ValidateEntry | Finance/Invoice/serializers.py:57-117 | A journal entry passes exactly when its lines are balanced, every amount is at least zero and every line has segments; a negative amount is reported as such. |
| InvoiceSerializers.LineTotal | Finance/Invoice/serializers.py:147-151 | A line total is zero exactly when quantity or price is zero, and a whole quantity gives at least the price. |
| InvoiceSerializers.ItemsOrderIrrelevant | Finance/Invoice/serializers.py:1117-1134 | The order of the items does not change the subtotal. |
| InvoiceSerializers.ItemsTotalBounds | Finance/Invoice/serializers.py:1117-1134 | With non-negative lines, each line's total is at most the subtotal. |
| InvoiceSerializers.ValidateItems | Finance/Invoice/serializers.py:241-245 | Items pass exactly when there is at least one. |
| InvoiceSerializers.ValidateOneTimeSupplier | Finance/Invoice/serializers.py:675-685 | Passes exactly when a non-zero supplier id or a non-empty supplier name is given. |
| InvoiceSerializers.CheckUpdatable | Finance/Invoice/serializers.py:913-929 | Only a DRAFT invoice whose GL entry is not posted may be updated. |
| InvoiceSerializers.AccumulateSubtotal | Finance/Invoice/serializers.py:1117-1134 | The loop's subtotal is the sum of the item totals. |
| InvoiceSerializers.Invoice.Update | Finance/Invoice/serializers.py:931-1045 | Succeeds exactly for a valid entry on an updatable invoice, except a one-time-supplier update that clears the supplier; a refusal changes nothing. Supplied fields replace stored ones. New items recompute the subtotal and total; the statuses never change. A supplied journal entry becomes the invoice's entry as a new, unposted one. |
| InvoiceSerializers.Invoice.UpdateParty | Finance/Invoice/serializers.py:1245-1276 | AP and AR updates set the supplier or customer. A one-time-supplier update switches to another supplier or edits the current one's details. |
| InvoiceSerializers.Invoice.UpdateFields | Finance/Invoice/serializers.py:1085-1184 | Supplied header fields replace stored ones; subtotal, total and the status fields are never taken from the request. |
| InvoiceSerializers.Invoice.ReplaceItems | Finance/Invoice/serializers.py:1117-1134 | New items replace the old ones, the subtotal becomes their total and the total adds the tax; without new items both totals are kept. |
| PaymentSerializers.Elements | Finance/payments/serializers.py:377-389 | The set of a list's values. |
| PaymentSerializers.DistinctIffNoCollapse | Finance/payments/serializers.py:377-389 | A list has no repeats exactly when its set is as long as the list. |
| PaymentSerializers.FirstBadAllocation | Finance/payments/serializers.py:134-148 | Finds an allocation naming an unknown invoice or less than 0.01; none exactly when all are fine. |
| PaymentSerializers.FirstForeignInvoice | Finance/payments/serializers.py:391-420 | Finds an allocated invoice of another partner or currency; none exactly when all match. |
| PaymentSerializers.NoRepeatedInvoice | Finance/payments/serializers.py:377-389 | The size comparison passes exactly when no invoice is allocated twice. |
| PaymentSerializers.CheckGlEntry | Finance/payments/serializers.py:108-132 | The nested GL entry passes exactly with non-negative amounts, segments on every line, and balance; an accepted entry has no negative amount. |
| PaymentSerializers.ValidateCreate | Finance/payments/serializers.py:345-422 | A create request is accepted exactly when it is valid. The partner and currency must be known, the allocations distinct and each at least 0.01 on an invoice of that partner and currency, and the GL entry well formed and in the same currency. |
| PaymentSerializers.ValidateInstallments | Finance/payments/serializers.py:923-944 | An empty list gets its own error; an accepted list is returned unchanged. |
| PaymentSerializers.InstallmentNumbering | Finance/payments/serializers.py:923-944 | Installments pass exactly when there is at least one and they are numbered 1 to n without repeats. |
| PaymentSerializers.ValidatePlan | Finance/payments/serializers.py:946-961 | A plan passes exactly when its total and amounts are at least 0.01, it is numbered 1 to n, and its amounts sum to the total within 0.01. |
| PaymentSerializers.AcceptedPlanShape | Finance/payments/serializers.py:946-961 | An accepted plan is numbered 1 to n and has at most one installment per cent of its total, plus one. |
| PaymentSerializers.ValidatePlanStatus | Finance/payments/serializers.py:1004-1013 | The only status a plan may be given by hand is CANCELLED. |
| PaymentSerializers.ValidateInstallmentUpdate | Finance/payments/serializers.py:757-765 | An installment that has received payment cannot be modified. |
| PaymentSerializers.UpdatePayment | Finance/payments/serializers.py:506-519 | Each supplied field replaces the stored one, and all other fields, including amount, posting and allocations, are kept. |
| PurchaseOrderSerializers.ValidateQuantity | procurement/po/serializers.py:99-103 | A quantity passes exactly when it is positive. |
| PurchaseOrderSerializers.ValidateManualLine | procurement/po/serializers.py:80-103 | Among the modelled fields, a manual line passes exactly with a known type, a line number of at least 1, a positive quantity and a non-negative price. |
| PurchaseOrderSerializers.ValidateFromPr | procurement/po/serializers.py:129-169 | A PR item entry passes exactly when the item exists, its PR is approved, something remains to convert and the quantity does not exceed it. The conversion uses the requested or remaining quantity. |
| PurchaseOrderSerializers.ApplyAllAdds | procurement/po/serializers.py:369-373 | Each PR item's converted quantity grows by the total requested for it. |
| PurchaseOrderSerializers.ValidateEntriesAsWritten | procurement/po/serializers.py:129-169 | The source's check of each entry against the stored rows: accepted exactly when every entry passes alone, each conversion being that entry's own (`AsWrittenAcceptsEach`). |
| PurchaseOrderSerializers.ValidateEntries | procurement/po/serializers.py:129-169 | Accepted entries keep their PR item, unit price and type, with a positive quantity; `ValidateEntriesChained` states that they are accepted exactly when each passes against the rows after the earlier entries' conversions. |
| PurchaseOrderSerializers.ValidateEntriesChained | procurement/po/serializers.py:129-169 | Entries are accepted with given conversions exactly when each conversion is what its entry yields against the rows as the earlier conversions leave them. |
| PurchaseOrderSerializers.ValidateEntriesStep | procurement/po/serializers.py:129-169 | An entry that fails against the rows left by the accepted earlier entries makes the whole list fail with its error. |
| PurchaseOrderSerializers.AsWrittenAcceptsEach | procurement/po/serializers.py:129-169 | The source's check accepts the entries exactly when every entry passes alone against the stored rows. |
| PurchaseOrderSerializers.ValidatedWithinQuantity | procurement/po/serializers.py:129-169 | After accepted entries, no PR item is converted beyond its quantity. |
| PurchaseOrderSerializers.FirstManualError | procurement/po/serializers.py:80-103 | The error reported is that of the first manual line that fails, and there is none exactly when every line passes. |
| PurchaseOrderSerializers.ValidateRequest | procurement/po/serializers.py:249-301 | A failing manual line is reported with its own error. Among the modelled fields, a request is accepted exactly when its type is listed, every manual line passes (line number at least 1, non-negative price), the PR entries pass in sequence, exactly one of the two item lists is given, the supplier and currency exist, and every line and PR item has the request's type. |
| PurchaseOrderSerializers.LinesFromPr | procurement/po/serializers.py:355-366 | Each conversion becomes a PO line numbered in order, with its quantity, price and PR item. |
| PurchaseOrderSerializers.ManualPoLines | procurement/po/serializers.py:329-342 | Each manual line becomes a PO line with its own number, quantity and price. |
| PurchaseOrderSerializers.LinesMatchRequested | procurement/po/serializers.py:355-373 | The PO's quantity for a PR item is the total requested for it. |
| PurchaseOrderSerializers.PrItemTable.Create | procurement/po/serializers.py:303-383 | A manual PO gets its lines and no source PRs. A PO from PRs gets one line per conversion, links its source PRs, and each PR item records what was converted. |
| PurchaseOrderSerializers.PrItemTable.CreateAsWritten | procurement/po/serializers.py:350-373 | The source's save writes each entry's stale item row, so a repeated item records only its last entry. |
| PurchaseOrderSerializers.ConversionTracksLines | procurement/po/serializers.py:350-373 | With the corrected validation, each PR item's recorded conversion equals its quantity on the PO. |
| PurchaseOrderSerializers.RepeatedEntryPassesAsWritten | procurement/po/serializers.py:129-169 | An entry taking the whole remaining quantity passes twice in the source's validation. |
| PurchaseOrderSerializers.RepeatedEntrySavedOnceAsWritten | procurement/po/serializers.py:350-373 | Then the PO holds twice the quantity while the PR item records it once. |
| PurchaseOrderSerializers.RepeatedFullEntryRefused | procurement/po/serializers.py:129-169 | With the corrected validation, the second such entry is refused as nothing remaining. |
| PurchaseOrderSerializers.ExampleEntryAccepted | procurement/po/serializers.py:153-162 | A PR item with 10 units remaining converts all 10, both when the quantity is given and when it is omitted and defaults to the remaining quantity. |
| FixedAssets.ValidateFields | Finance/fixed_assets/models.py:342-349 | A book passes exactly with non-negative cost, salvage and remaining life and a useful life of at least one month. |
| Rounding.RoundHalfEven | Finance/fixed_assets/models.py:370-372 | The result is the integer nearest the quotient, a tie going to the even neighbour. |
| Rounding.RoundingIsUnique | Finance/fixed_assets/models.py:370-372 | That rounding is unique. |
| Rounding.ExactQuotientKept | Finance/fixed_assets/models.py:370-372 | An exact quotient is not changed by rounding. |
| FixedAssets.MonthlyDepreciation | Finance/fixed_assets/models.py:366-372 | Zero for a fully depreciated book or no useful life; otherwise the depreciable amount over the months, rounded half-even to the cent. |
| FixedAssets.StraightLine | Finance/fixed_assets/models.py:366-372 | Over the useful life, the charge is the depreciable amount to within half a cent a month. It is never negative when salvage does not exceed cost, and exact when the months divide the amount. |
| FixedAssets.FullyDepreciatedChargesNothing | Finance/fixed_assets/models.py:367-368 | A fully depreciated book is charged nothing. |
| FixedAssets.AddBook | Finance/fixed_assets/models.py:359 | Through full_clean and then save, a book is added exactly when its fields pass and its (asset, book) pair is free. |
| FixedAssets.AddBookKeepsOnePerAsset | Finance/fixed_assets/models.py:359 | Adding books this way keeps one book per asset and depreciation book. |

## Left out

- Persistence: the Django ORM, querysets, `select_related`, signals and migrations. Tables are sequences and maps in memory, and ids are positions or map keys.
- Concurrency: `transaction.atomic` and `select_for_update` are modelled as sequential steps on one state.
- The approval engine's role resolver, user model and role lookups are the `directory` parameter, mapping users to their role.
- The approval engine's callbacks on the approved object (`on_approval_started`, `on_stage_approved`, `on_fully_approved`, `on_rejected`, `on_cancelled`) are recorded as hook events, not executed.
- Timestamps, `timezone.now()`, the request user and the system user are parameters or are left out. "Today" is a `today` parameter where a rule depends on it.
- Parallel stage groups in approval templates: order indices are taken as unique within a template, so each order index has a single stage.
- ApprovalEngine.ApprovalManager.CreateInstance requires that the target have no live instance, which holds at its only caller, `StartWorkflow`.
- GL `find_combination` is modelled by its meaning (same pair count and every pair present) rather than by the ORM query that implements it.
- GL `full_path` and `get_all_children` walk parent links with a fuel of the segment count. Cyclic parent links, which loop forever in Python, end at that bound here.
- GL journal-entry filters (`filter_by_segment` and its variants) and `__str__` displays are queries without business rules.
- The statement importer's file reading (pandas, CSV and Excel) is replaced by columns and rows given as strings. Date parsing is the `parseDate` parameter. `import_statement`'s database writes are not part of this model.
- Floating-point output: the budget violation dictionaries' floats, conversion-progress percentages and receipt percentages are kept as exact amounts or fractions.
- The Decimal context's 28-digit intermediate rounding in depreciation is not modelled; for the amounts involved it cannot change the half-even result.
- Payment `save()` field reflection, `_create_gl_entries`, `_update_invoice_payment_statuses`, `allocate_to_invoice`, and `PaymentCreateSerializer.create` with `_create_gl_entry` are record-keeping writes that are not modelled.
- The Payment access guards are not modelled: `PaymentManager.create` and `bulk_create` always raise `PermissionDenied` (Finance/payments/models.py:55-66), `Payment.save` raises it unless the caller is a `StandardInvoicePayment` or `_allow_direct_save` is set (178-190), and `Payment.delete` always raises it (205-212). The model's payments are the ones that went through the child payment type.
- PaymentSerializers.UpdatePayment requires that the supplied status not be VOIDED, since the serializer's status choices exclude it. It models the evidently intended update, with the request's `approval_status` written to the payment's `status`: as written, `update` (Finance/payments/serializers.py:512-514) reads `instance.approval_status`, which the Payment model does not define (its field is `status`, models.py:138), so the source raises `AttributeError` on every update. The `instance.save()` access guard above is not modelled either.
- The PO models' `populate_from_pr_item` and `calculate_totals` are not part of this model. A line's quantity is the quantity converted and its price the `unit_price` given in the request's entry.
- The `quantity_converted` database rounding is not modelled; quantities are exact.
- Receiving.GoodsReceipt.SaveLine: `record_receipt` belongs to the PO models, which are not part of this model. It is taken to add the received quantity to the PO line and never to refuse. Its PO status change (PARTIALLY_RECEIVED or RECEIVED), its refusals (receiving more than is outstanding, a PO that is not approved) and the PO line's fully-received flag are not modelled.
- Receiving.PopulateFromPoLine: the line total is the stored, cent-rounded value; between `calculate_line_total` and the save the source briefly holds the exact product in memory, which no rule reads.
- PurchaseOrderSerializers.ValidateManualLine: of the serializer's field declarations only line type, line number, quantity and price are modelled. The `item_name` presence and 255-character limit, `unit_of_measure_id` at least 1, and the `max_digits`/`decimal_places` bounds on quantity and price (procurement/po/serializers.py:85-91) are not.
- PurchaseOrderSerializers.ValidateRequest: besides the manual-line fields above, only the type, supplier, currency and item-list rules are modelled; the `receiver_email` format check (procurement/po/serializers.py:236) and the other field declarations are not.
- Text.IsSpace, Text.Upper, Text.Lower: `IsSpace` is Python's whitespace set in full, but `Upper` and `Lower` change the ASCII letters only; Python's Unicode case mappings (for example `"é".upper()`) are not modelled.
- StatementImport.ParseDecimal: only plain decimal literals (sign, digits, one point) are read; the exponent, underscore, `Infinity` and `NaN` forms that Python's `Decimal` also accepts are read as no amount.
- StatementImport.IntLiteral: `int` is modelled on text with ASCII digits; underscores between digits and non-ASCII digits, which Python also accepts, are refused, and numeric cells that pandas delivers as floats (where `int(1.5)` truncates) are not modelled.
- GradeService.GradeStore.UpdateGradeRate: `VersionedMixin.update_version` is not part of this model; its new-version and correction behaviour is taken from the docstrings at grade_service.py:440-443 and 484-486, and `GradeRate.clean` is not re-run on the updated amounts.
- FixedAssets.AddBook: models a book created through `full_clean` and then `save`, as a model serializer does; a plain `save()` skips the field validators and would store a book that fails them, which is not modelled.
- The catalog item model is not part of this model. Whether a catalog item has a `price` attribute, which the fill-in tests with `hasattr`, is given by an optional price.
- The receiving tolerance helpers `get_max_receivable` and `get_min_receivable` belong to the PO models, which are not part of this model. The tolerance is modelled as the percent band around the ordered quantity that they compute.
- The PR and goods-receipt budget hooks (commitment and actual updates) go to the budget module and are not chained here.
- Views, permissions, the HR position and job services, and the list and detail serializers are out of scope.

## Findings

| source | as written | input that shows it | evidently intended | confidence | as-written member | corrected member |
|---|---|---|---|---|---|---|
| Finance/budget_control/models.py:464-480 | The priority table only knows 'TRACK_ONLY', but headers use 'TRACK' (lines 49-51). TRACK therefore ranks 0, below NONE, and an over-budget TRACK check falls into the blocking branch. | A TRACK header with one segment of 100 available and a request of 150 | TRACK ranks between NONE and ABSOLUTE, and an over-budget TRACK budget is allowed with a warning | not executed | Budget.TrackBudgetBlocksAsWritten | Budget.CheckDecidesByAbsolute |
| procurement/PR/models.py:693-708 | The next number is taken from the greatest existing PR number in string order, so PR-CAT-999999 sorts after PR-CAT-1000000. | Existing numbers PR-CAT-999999 and PR-CAT-1000000 | The next number is above the largest numeric suffix and not already taken | not executed | PurchaseRequisition.PrNumberRepeatsAsWritten | PurchaseRequisition.NextPrNumberIsFresh |
| procurement/PR/models.py:1199-1212 | The item total is computed before the catalog item fills in a zero price. | A catalog item that has a price of 10.00, with quantity 2 and no price given | The total is quantity times the filled-in price | not executed | PurchaseRequisition.ItemTotalStaleAsWritten | PurchaseRequisition.PrepareItem |
| HR/work_structures/services/grade_service.py:149-165 | The next sequence ignores inactive grades, but the unique constraint (job_structures.py:73-76) covers them too. | An active grade at sequence 1 and an inactive grade at sequence 2 in one organisation | The next sequence is above every grade of the organisation, active or not | not executed | GradeService.NextSequenceReusesRetired | GradeService.NextFreeSequenceIsFree |
| procurement/po/serializers.py:129-169 | Each PR item entry is checked against the stored remaining quantity only, so the same item can be listed twice. The PO then holds twice the quantity, but the item records it once (lines 350-373). | One PR item listed twice, each entry taking its whole remaining quantity | The later entry is checked against what earlier entries took, so the PO never exceeds the PR item | not executed | PurchaseOrderSerializers.RepeatedEntrySavedOnceAsWritten | PurchaseOrderSerializers.RepeatedFullEntryRefused |
