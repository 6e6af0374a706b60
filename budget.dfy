/**
 * Budget control: the budget header lifecycle (DRAFT -> ACTIVE -> CLOSED), the
 * budget check over the segments of a transaction with its control-level lattice,
 * and the per-segment budget amount with its committed / encumbered / actual buckets.
 * Amounts are integers in minor units (two decimal places); dates are day numbers.
 */
module Budget {
  import opened Common

  /** Control levels. `Track` is the header's spelling, `TrackOnly` the segment override's. */
  datatype Level = NoControl | Track | TrackOnly | Advisory | Absolute

  /**
   * How levels are ranked. `AsWritten` is the priority table of the code, which knows
   * TRACK_ONLY but not TRACK (so TRACK ranks 0, below NONE); `Corrected` ranks TRACK
   * with TRACK_ONLY.
   */
  datatype Ranking = AsWritten | Corrected

  function Rank(l: Level, ranking: Ranking): (r: int)
    ensures 0 <= r <= 4
    ensures r == 4 <==> l == Absolute
  {
    match l
    case Absolute => 4
    case Advisory => 3
    case TrackOnly => 2
    case NoControl => 1
    case Track => if ranking == AsWritten then 0 else 2
  }

  /** The position of the first element of highest rank in a non-empty list. */
  function StrictestIndex(levels: seq<Level>, ranking: Ranking): (k: nat)
    requires levels != []
    ensures k < |levels|
    ensures forall j :: 0 <= j < |levels| ==> Rank(levels[j], ranking) <= Rank(levels[k], ranking)
    ensures forall j :: 0 <= j < k ==> Rank(levels[j], ranking) < Rank(levels[k], ranking)
  {
    if |levels| == 1 then 0
    else
      var m := StrictestIndex(levels[..|levels| - 1], ranking);
      if Rank(levels[|levels| - 1], ranking) > Rank(levels[m], ranking) then |levels| - 1 else m
  }

  /**
   * The strictest control level of a list: NONE for the empty list, otherwise the
   * first element of highest rank (Python's `max` keeps the first maximal element).
   */
  function StrictestControlLevel(levels: seq<Level>, ranking: Ranking): (r: Level)
    ensures levels == [] ==> r == NoControl
    ensures levels != [] ==> r in levels
    ensures forall i :: 0 <= i < |levels| ==> Rank(levels[i], ranking) <= Rank(r, ranking)
  {
    if levels == [] then NoControl else levels[StrictestIndex(levels, ranking)]
  }

  /** Why a budget check came out as it did (the code's messages). */
  datatype Reason =
    | OutsidePeriod
    | NoControlDefined
    | Passed
    | ExceededNoControl
    | ExceededTracked
    | ExceededAdvisory
    | Blocked

  /** The verdict once violations exist, from the strictest level. */
  function ExceededVerdict(strictest: Level, ranking: Ranking): (v: (bool, Reason))
    ensures v.1 == Blocked <==> !v.0
    ensures ranking == Corrected ==> (v.0 <==> strictest != Absolute)
    ensures ranking == AsWritten ==> (v.0 <==> strictest !in {Absolute, Track})
  {
    match strictest
    case NoControl => (true, ExceededNoControl)
    case TrackOnly => (true, ExceededTracked)
    case Track => if ranking == Corrected then (true, ExceededTracked) else (false, Blocked)
    case Advisory => (true, ExceededAdvisory)
    case Absolute => (false, Blocked)
  }

  /** The funds of one budget amount record. */
  datatype Funds = Funds(original: int, adjustment: int, committed: int, encumbered: int, actual: int)
  {
    function TotalBudget(): int { original + adjustment }

    /** Available = original + adjustment - committed - encumbered - actual. */
    function Available(): int { TotalBudget() - committed - encumbered - actual }

    function ConsumedTotal(): int { committed + encumbered + actual }

    /** No bucket is negative. */
    predicate BucketsNonNegative() { committed >= 0 && encumbered >= 0 && actual >= 0 }
  }

  /** The answer of check_funds_available. */
  datatype FundsCheck = FundsCheck(sufficient: bool, available: int, requested: int, shortage: int)

  function CheckFundsAvailable(f: Funds, amount: int): (c: FundsCheck)
    ensures c.available == f.Available() && c.requested == amount
    ensures c.sufficient <==> c.shortage == 0
    ensures c.shortage >= 0 && c.available + c.shortage >= amount
    ensures c.sufficient <==> f.Available() >= amount
  {
    var available := f.Available();
    FundsCheck(available >= amount, available, amount, Max(0, amount - available))
  }

  /** The shortage is the least top-up that makes the request fit. */
  lemma ShortageIsLeastTopUp(f: Funds, amount: int, topUp: int)
    requires topUp >= 0 && f.Available() + topUp >= amount
    ensures CheckFundsAvailable(f, amount).shortage <= topUp
  {
  }

  /** A budget segment value: a segment, an optional control-level override, and its amount if any. */
  datatype SegmentValue = SegmentValue(segment: nat, level: Option<Level>, active: bool, amount: Option<Funds>)

  /** The override if set, otherwise the header's default level. */
  function EffectiveControlLevel(v: SegmentValue, default: Level): (l: Level)
    ensures v.level.Some? ==> l == v.level.value
    ensures v.level.None? ==> l == default
  {
    if v.level.Some? then v.level.value else default
  }

  /** The active segment values whose segment occurs in the transaction, in stored order. */
  function Applicable(values: seq<SegmentValue>, segments: seq<nat>): (app: seq<SegmentValue>)
    ensures |app| <= |values|
    ensures forall v :: v in app <==> v in values && v.active && v.segment in segments
  {
    if values == [] then []
    else
      var rest := Applicable(values[..|values| - 1], segments);
      var v := values[|values| - 1];
      assert forall u :: u in values <==> u in values[..|values| - 1] || u == v;
      if v.active && v.segment in segments then rest + [v] else rest
  }

  /** One over-budget segment found by the check. */
  datatype Violation = Violation(segment: nat, level: Level, available: int, requested: int, shortage: int)

  datatype BudgetCheck = BudgetCheck(allowed: bool, level: Level, violations: seq<Violation>, reason: Reason)

  datatype CheckError = MissingBudgetAmount(segment: nat)

  predicate AllFunded(app: seq<SegmentValue>)
  {
    forall i :: 0 <= i < |app| ==> app[i].amount.Some?
  }

  function LevelsOf(app: seq<SegmentValue>, default: Level): (ls: seq<Level>)
    ensures |ls| == |app|
    ensures forall i :: 0 <= i < |app| ==> ls[i] == EffectiveControlLevel(app[i], default)
  {
    if app == [] then [] else LevelsOf(app[..|app| - 1], default) + [EffectiveControlLevel(app[|app| - 1], default)]
  }

  function ViolationOf(v: SegmentValue, default: Level, amount: int): Violation
    requires v.amount.Some?
  {
    var c := CheckFundsAvailable(v.amount.value, amount);
    Violation(v.segment, EffectiveControlLevel(v, default), c.available, amount, c.shortage)
  }

  /** The violations of the applicable segments, one per segment whose funds do not cover `amount`. */
  function ViolationsOf(app: seq<SegmentValue>, default: Level, amount: int): (vs: seq<Violation>)
    requires AllFunded(app)
    ensures |vs| <= |app|
    ensures forall k :: 0 <= k < |vs| ==> vs[k].shortage > 0 && vs[k].available < amount
    ensures vs == [] <==> forall i :: 0 <= i < |app| ==> app[i].amount.value.Available() >= amount
  {
    if app == [] then []
    else
      var rest := ViolationsOf(app[..|app| - 1], default, amount);
      var v := app[|app| - 1];
      if CheckFundsAvailable(v.amount.value, amount).sufficient then rest else rest + [ViolationOf(v, default, amount)]
  }

  /** The first applicable segment without a budget amount, if any. */
  function FirstUnfunded(app: seq<SegmentValue>): (k: nat)
    ensures k <= |app|
    ensures forall i :: 0 <= i < k ==> app[i].amount.Some?
    ensures k < |app| ==> app[k].amount.None?
  {
    if app == [] || app[0].amount.None? then 0 else 1 + FirstUnfunded(app[1..])
  }

  /**
   * The verdict over the applicable segments (non-empty): a segment without a budget
   * amount raises; otherwise the strictest level decides whether violations block.
   */
  function Evaluate(app: seq<SegmentValue>, default: Level, amount: int, ranking: Ranking): Result<BudgetCheck, CheckError>
    requires app != []
  {
    var k := FirstUnfunded(app);
    if k < |app| then Failure(MissingBudgetAmount(app[k].segment))
    else
      var strictest := StrictestControlLevel(LevelsOf(app, default), ranking);
      var vs := ViolationsOf(app, default, amount);
      if vs == [] then Success(BudgetCheck(true, strictest, [], Passed))
      else
        var v := ExceededVerdict(strictest, ranking);
        Success(BudgetCheck(v.0, strictest, vs, v.1))
  }

  /**
   * check_budget_for_segments as a function of the header's data: outside the period it is
   * refused at ABSOLUTE; with no applicable segment it is allowed at NONE; otherwise the
   * applicable segments are evaluated.
   */
  function BudgetCheckOf(values: seq<SegmentValue>, default: Level, start: int, end: int,
                         segments: seq<nat>, amount: int, date: int, ranking: Ranking): Result<BudgetCheck, CheckError>
  {
    if !(start <= date <= end) then Success(BudgetCheck(false, Absolute, [], OutsidePeriod))
    else
      var app := Applicable(values, segments);
      if app == [] then Success(BudgetCheck(true, NoControl, [], NoControlDefined))
      else Evaluate(app, default, amount, ranking)
  }

  /** One more funded segment adds its level, and its violation when it is short of funds. */
  lemma ScanStep(app: seq<SegmentValue>, i: nat, default: Level, amount: int)
    requires i < |app| && AllFunded(app[..i]) && app[i].amount.Some?
    ensures AllFunded(app[..i + 1])
    ensures LevelsOf(app[..i + 1], default) == LevelsOf(app[..i], default) + [EffectiveControlLevel(app[i], default)]
    ensures ViolationsOf(app[..i + 1], default, amount) ==
      ViolationsOf(app[..i], default, amount) +
      (if CheckFundsAvailable(app[i].amount.value, amount).sufficient then [] else [ViolationOf(app[i], default, amount)])
  {
    assert app[..i + 1][..i] == app[..i];
  }

  /** The first unfunded segment is the one after a funded prefix, or none when the prefix is all. */
  lemma FirstUnfundedAt(app: seq<SegmentValue>, i: nat)
    requires i <= |app| && AllFunded(app[..i]) && (i < |app| ==> app[i].amount.None?)
    ensures FirstUnfunded(app) == i
  {
    assert forall j :: 0 <= j < i ==> app[..i][j] == app[j];
  }

  /** The loop of check_budget_for_segments over the applicable segments, with the corrected ranking. */
  method EvaluateSegments(app: seq<SegmentValue>, defaultLevel: Level, amount: int) returns (r: Result<BudgetCheck, CheckError>)
    requires app != []
    ensures r == Evaluate(app, defaultLevel, amount, Corrected)
  {
    var violations: seq<Violation> := [];
    var levels: seq<Level> := [];
    var i := 0;
    while i < |app|
      invariant 0 <= i <= |app|
      invariant AllFunded(app[..i])
      invariant levels == LevelsOf(app[..i], defaultLevel)
      invariant violations == ViolationsOf(app[..i], defaultLevel, amount)
    {
      var v := app[i];
      if v.amount.None? {
        FirstUnfundedAt(app, i);
        return Failure(MissingBudgetAmount(v.segment));
      }
      ScanStep(app, i, defaultLevel, amount);
      var level := EffectiveControlLevel(v, defaultLevel);
      levels := levels + [level];
      var check := CheckFundsAvailable(v.amount.value, amount);
      if !check.sufficient {
        violations := violations + [Violation(v.segment, level, check.available, amount, check.shortage)];
      }
      assert violations == ViolationsOf(app[..i + 1], defaultLevel, amount);
      i := i + 1;
    }
    assert app[..i] == app;
    FirstUnfundedAt(app, i);
    var strictest := StrictestControlLevel(levels, Corrected);
    if violations == [] {
      return Success(BudgetCheck(true, strictest, [], Passed));
    }
    var verdict := ExceededVerdict(strictest, Corrected);
    r := Success(BudgetCheck(verdict.0, strictest, violations, verdict.1));
  }

  /**
   * With the corrected ranking, funded segments are refused exactly when some segment is
   * short of funds and some segment is ABSOLUTE.
   */
  lemma EvaluateRefusesIffShortAndAbsolute(app: seq<SegmentValue>, default: Level, amount: int)
    requires app != [] && AllFunded(app)
    ensures var r := Evaluate(app, default, amount, Corrected);
      r.Success? &&
      (!r.value.allowed <==>
         (exists i :: 0 <= i < |app| && app[i].amount.value.Available() < amount) &&
         (exists i :: 0 <= i < |app| && EffectiveControlLevel(app[i], default) == Absolute))
  {
    var ls := LevelsOf(app, default);
    var strictest := StrictestControlLevel(ls, Corrected);
    if exists i :: 0 <= i < |app| && EffectiveControlLevel(app[i], default) == Absolute {
      var i :| 0 <= i < |app| && EffectiveControlLevel(app[i], default) == Absolute;
      assert Rank(ls[i], Corrected) == 4;
    }
    if strictest == Absolute {
      var i :| 0 <= i < |ls| && ls[i] == strictest;
    }
  }

  /**
   * The promised behaviour of the corrected check: a date outside [start, end] is refused,
   * no applicable segment means allowed at NONE, and otherwise the transaction is refused
   * exactly when some applicable segment is short of funds and some is ABSOLUTE.
   */
  lemma CheckDecidesByAbsolute(values: seq<SegmentValue>, default: Level, start: int, end: int,
                               segments: seq<nat>, amount: int, date: int)
    ensures var r := BudgetCheckOf(values, default, start, end, segments, amount, date, Corrected);
      var app := Applicable(values, segments);
      && (!(start <= date <= end) ==> r.Success? && !r.value.allowed)
      && (start <= date <= end && app == [] ==> r == Success(BudgetCheck(true, NoControl, [], NoControlDefined)))
      && (start <= date <= end && AllFunded(app) ==>
            r.Success? &&
            (!r.value.allowed <==>
               (exists i :: 0 <= i < |app| && app[i].amount.value.Available() < amount) &&
               (exists i :: 0 <= i < |app| && EffectiveControlLevel(app[i], default) == Absolute)))
  {
    var app := Applicable(values, segments);
    if start <= date <= end && app != [] && AllFunded(app) {
      EvaluateRefusesIffShortAndAbsolute(app, default, amount);
    }
  }

  /** The header's lifecycle states. */
  datatype BudgetStatus = Draft | Active | Closed

  datatype ActivationError = AlreadyActive | ClosedBudget | NoSegmentValues | NoBudgetAmounts

  datatype DeletionError = DeleteActive | DeleteClosed | HasBudgetAmounts

  predicate HasAmounts(values: seq<SegmentValue>)
  {
    exists i :: 0 <= i < |values| && values[i].amount.Some?
  }

  class BudgetHeader {
    var status: BudgetStatus
    var isActive: bool
    var start: int
    var end: int
    var defaultLevel: Level
    var segmentValues: seq<SegmentValue>

    constructor (start: int, end: int, defaultLevel: Level, segmentValues: seq<SegmentValue>)
      ensures this.status.Draft? && !this.isActive
      ensures this.start == start && this.end == end
      ensures this.defaultLevel == defaultLevel && this.segmentValues == segmentValues
    {
      this.status := Draft;
      this.isActive := false;
      this.start := start;
      this.end := end;
      this.defaultLevel := defaultLevel;
      this.segmentValues := segmentValues;
    }

    /** can_activate: the first failing condition, in the code's order. */
    function CanActivate(): (r: Result<(), ActivationError>)
      reads this
      ensures r.Success? <==> status.Draft? && segmentValues != [] && HasAmounts(segmentValues)
      ensures status.Active? ==> r == Failure(AlreadyActive)
      ensures status.Closed? ==> r == Failure(ClosedBudget)
    {
      if status.Active? then Failure(AlreadyActive)
      else if status.Closed? then Failure(ClosedBudget)
      else if segmentValues == [] then Failure(NoSegmentValues)
      else if !HasAmounts(segmentValues) then Failure(NoBudgetAmounts)
      else Success(())
    }

    method Activate() returns (r: Result<(), ActivationError>)
      modifies this
      ensures r == old(CanActivate())
      ensures r.Failure? ==> status == old(status) && isActive == old(isActive)
      ensures r.Success? ==> status.Active? && isActive
      ensures start == old(start) && end == old(end) && defaultLevel == old(defaultLevel)
      ensures segmentValues == old(segmentValues)
    {
      r := CanActivate();
      if r.Success? {
        status := Active;
        isActive := true;
      }
    }

    /** Closing is unconditional; a closed budget can never be activated again. */
    method Close()
      modifies this
      ensures status.Closed? && !isActive && CanActivate() == Failure(ClosedBudget)
      ensures start == old(start) && end == old(end) && defaultLevel == old(defaultLevel)
      ensures segmentValues == old(segmentValues)
    {
      status := Closed;
      isActive := false;
    }

    /** Deactivation returns the budget to DRAFT, from which it may be activated again. */
    method Deactivate()
      modifies this
      ensures status.Draft? && !isActive
      ensures CanActivate().Success? <==> segmentValues != [] && HasAmounts(segmentValues)
      ensures start == old(start) && end == old(end) && defaultLevel == old(defaultLevel)
      ensures segmentValues == old(segmentValues)
    {
      isActive := false;
      status := Draft;
    }

    function CanDelete(): (r: Result<(), DeletionError>)
      reads this
      ensures r.Success? <==> status.Draft? && !HasAmounts(segmentValues)
      ensures status.Active? ==> r == Failure(DeleteActive)
    {
      if status.Active? then Failure(DeleteActive)
      else if status.Closed? then Failure(DeleteClosed)
      else if HasAmounts(segmentValues) then Failure(HasBudgetAmounts)
      else Success(())
    }

    function IsDateInRange(date: int): (b: bool)
      reads this
      ensures b <==> start <= date && date <= end
      ensures b ==> start <= end
    {
      start <= date <= end
    }

    /**
     * check_budget_for_segments: walks the applicable segment values collecting their
     * effective levels and the violations; uses the corrected ranking (see Findings).
     */
    method CheckBudgetForSegments(segments: seq<nat>, amount: int, date: int) returns (r: Result<BudgetCheck, CheckError>)
      ensures r == BudgetCheckOf(segmentValues, defaultLevel, start, end, segments, amount, date, Corrected)
    {
      if !IsDateInRange(date) {
        return Success(BudgetCheck(false, Absolute, [], OutsidePeriod));
      }
      var app := Applicable(segmentValues, segments);
      if app == [] {
        return Success(BudgetCheck(true, NoControl, [], NoControlDefined));
      }
      r := EvaluateSegments(app, defaultLevel, amount);
    }
  }

  /** Why an amount cannot be consumed. */
  datatype ConsumeError = NonPositiveAmount | BudgetInactive | Insufficient(available: int, requested: int)

  /** Why an amount cannot be released, moved or reversed: it exceeds the bucket. */
  datatype ReleaseError = ExceedsBucket(amount: int, bucket: int)

  datatype BudgetError = CannotConsume(reason: ConsumeError) | CannotRelease(excess: ReleaseError)

  /** can_consume, in the code's order of checks. */
  function CanConsume(f: Funds, headerActive: bool, amount: int): (r: Result<(), ConsumeError>)
    ensures r.Success? <==> amount > 0 && headerActive && f.Available() >= amount
    ensures amount <= 0 ==> r == Failure(NonPositiveAmount)
  {
    if amount <= 0 then Failure(NonPositiveAmount)
    else if !headerActive then Failure(BudgetInactive)
    else if f.Available() < amount then Failure(Insufficient(f.Available(), amount))
    else Success(())
  }

  class BudgetAmount {
    const header: BudgetHeader
    var original: int
    var adjustment: int
    var committed: int
    var encumbered: int
    var actual: int

    constructor (header: BudgetHeader, original: int)
      ensures this.header == header
      ensures Figures() == Funds(original, 0, 0, 0, 0)
    {
      this.header := header;
      this.original := original;
      adjustment := 0;
      committed := 0;
      encumbered := 0;
      actual := 0;
    }

    function Figures(): Funds
      reads this
    {
      Funds(original, adjustment, committed, encumbered, actual)
    }

    /** Stage 1: a PR commits budget. Raises, changing nothing, unless can_consume allows it. */
    method ConsumeCommitment(amount: int) returns (r: Result<(), BudgetError>)
      modifies this
      ensures r.Failure? <==> CanConsume(old(Figures()), header.isActive, amount).Failure?
      ensures r.Failure? ==> Figures() == old(Figures())
      ensures r.Success? ==> Figures() == old(Figures()).(committed := old(committed) + amount)
      ensures r.Success? ==> Figures().Available() == old(Figures().Available()) - amount >= 0
      ensures old(Figures().BucketsNonNegative()) ==> Figures().BucketsNonNegative()
    {
      var can := CanConsume(Figures(), header.isActive, amount);
      if can.Failure? {
        return Failure(CannotConsume(can.error));
      }
      committed := committed + amount;
      r := Success(());
    }

    /** Releases a commitment (PR cancelled or converted); never more than is committed. */
    method ReleaseCommitment(amount: int) returns (r: Result<(), BudgetError>)
      modifies this
      ensures r.Failure? <==> amount > old(committed)
      ensures r.Failure? ==> Figures() == old(Figures())
      ensures r.Success? ==> Figures() == old(Figures()).(committed := old(committed) - amount)
      ensures old(Figures().BucketsNonNegative()) ==> Figures().BucketsNonNegative()
    {
      if amount > committed {
        return Failure(CannotRelease(ExceedsBucket(amount, committed)));
      }
      committed := committed - amount;
      r := Success(());
    }

    /**
     * Stage 2: a PO encumbers budget. With `releaseCommitment` the amount moves from the
     * committed bucket (available is unchanged); without it, it is consumed directly.
     */
    method ConsumeEncumbrance(amount: int, releaseCommitment: bool) returns (r: Result<(), BudgetError>)
      modifies this
      ensures releaseCommitment ==> (r.Failure? <==> amount > old(committed))
      ensures !releaseCommitment ==> (r.Failure? <==> CanConsume(old(Figures()), header.isActive, amount).Failure?)
      ensures r.Failure? ==> Figures() == old(Figures())
      ensures r.Success? && releaseCommitment ==>
        Figures() == old(Figures()).(committed := old(committed) - amount, encumbered := old(encumbered) + amount)
      ensures r.Success? && releaseCommitment ==> Figures().Available() == old(Figures().Available())
      ensures r.Success? && !releaseCommitment ==>
        Figures() == old(Figures()).(encumbered := old(encumbered) + amount)
      ensures old(Figures().BucketsNonNegative()) && amount >= 0 ==> Figures().BucketsNonNegative()
    {
      if releaseCommitment {
        if amount > committed {
          return Failure(CannotRelease(ExceedsBucket(amount, committed)));
        }
        committed := committed - amount;
      } else {
        var can := CanConsume(Figures(), header.isActive, amount);
        if can.Failure? {
          return Failure(CannotConsume(can.error));
        }
      }
      encumbered := encumbered + amount;
      r := Success(());
    }

    method ReleaseEncumbrance(amount: int) returns (r: Result<(), BudgetError>)
      modifies this
      ensures r.Failure? <==> amount > old(encumbered)
      ensures r.Failure? ==> Figures() == old(Figures())
      ensures r.Success? ==> Figures() == old(Figures()).(encumbered := old(encumbered) - amount)
      ensures old(Figures().BucketsNonNegative()) ==> Figures().BucketsNonNegative()
    {
      if amount > encumbered {
        return Failure(CannotRelease(ExceedsBucket(amount, encumbered)));
      }
      encumbered := encumbered - amount;
      r := Success(());
    }

    /**
     * Stage 3: an invoice records actual spending. With `releaseEncumbrance` the amount
     * moves from the encumbered bucket; without it, it is consumed directly.
     */
    method ConsumeActual(amount: int, releaseEncumbrance: bool) returns (r: Result<(), BudgetError>)
      modifies this
      ensures releaseEncumbrance ==> (r.Failure? <==> amount > old(encumbered))
      ensures !releaseEncumbrance ==> (r.Failure? <==> CanConsume(old(Figures()), header.isActive, amount).Failure?)
      ensures r.Failure? ==> Figures() == old(Figures())
      ensures r.Success? && releaseEncumbrance ==>
        Figures() == old(Figures()).(encumbered := old(encumbered) - amount, actual := old(actual) + amount)
      ensures r.Success? && releaseEncumbrance ==> Figures().Available() == old(Figures().Available())
      ensures r.Success? && !releaseEncumbrance ==> Figures() == old(Figures()).(actual := old(actual) + amount)
      ensures old(Figures().BucketsNonNegative()) && amount >= 0 ==> Figures().BucketsNonNegative()
    {
      if releaseEncumbrance {
        if amount > encumbered {
          return Failure(CannotRelease(ExceedsBucket(amount, encumbered)));
        }
        encumbered := encumbered - amount;
      } else {
        var can := CanConsume(Figures(), header.isActive, amount);
        if can.Failure? {
          return Failure(CannotConsume(can.error));
        }
      }
      actual := actual + amount;
      r := Success(());
    }

    /** Reverses actual spending (credit memo); never more than is recorded. */
    method ReverseActual(amount: int) returns (r: Result<(), BudgetError>)
      modifies this
      ensures r.Failure? <==> amount > old(actual)
      ensures r.Failure? ==> Figures() == old(Figures())
      ensures r.Success? ==> Figures() == old(Figures()).(actual := old(actual) - amount)
      ensures old(Figures().BucketsNonNegative()) ==> Figures().BucketsNonNegative()
    {
      if amount > actual {
        return Failure(CannotRelease(ExceedsBucket(amount, actual)));
      }
      actual := actual - amount;
      r := Success(());
    }

    /** Adds a (possibly negative) adjustment and returns the new total budget. */
    method AdjustBudget(adjustmentAmount: int) returns (total: int)
      modifies this
      ensures Figures() == old(Figures()).(adjustment := old(adjustment) + adjustmentAmount)
      ensures total == Figures().TotalBudget() == old(Figures().TotalBudget()) + adjustmentAmount
      ensures Figures().Available() == old(Figures().Available()) + adjustmentAmount
    {
      adjustment := adjustment + adjustmentAmount;
      total := Figures().TotalBudget();
    }
  }

  /** Finding: under the code's priority table a TRACK budget blocks an over-budget transaction. */
  lemma TrackBudgetBlocksAsWritten()
    ensures var values := [SegmentValue(7, None, true, Some(Funds(100, 0, 0, 0, 0)))];
      && BudgetCheckOf(values, Track, 0, 10, [7], 150, 5, AsWritten) == Success(BudgetCheck(false, Track, [Violation(7, Track, 100, 150, 50)], Blocked))
      && BudgetCheckOf(values, Track, 0, 10, [7], 150, 5, Corrected) == Success(BudgetCheck(true, Track, [Violation(7, Track, 100, 150, 50)], ExceededTracked))
  {
    var values := [SegmentValue(7, None, true, Some(Funds(100, 0, 0, 0, 0)))];
    assert values[..0] == [];
    assert Applicable(values, [7]) == values;
    assert LevelsOf(values, Track) == [Track];
    assert ViolationsOf(values, Track, 150) == [Violation(7, Track, 100, 150, 50)];
  }

  /** Under the code's table TRACK also ranks below NONE, so it loses to NONE. */
  lemma TrackRanksBelowNoneAsWritten()
    ensures StrictestControlLevel([Track, NoControl], AsWritten) == NoControl
    ensures StrictestControlLevel([Track, NoControl], Corrected) == Track
  {
    assert [Track, NoControl][..1] == [Track];
  }
}
