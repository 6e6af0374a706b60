/**
 * The clean() validators of the HR job structures: grades, grade rates, positions and jobs.
 * Each validator reports the first rule a record breaks, in the order the checks are made,
 * or nothing when the record is acceptable.
 */
module JobStructures {
  import opened Common
  import opened Text

  /** An organization as the validators see it; "active today" is read from the clock by the caller. */
  datatype Organization = Organization(id: nat, isBusinessGroup: bool, versioned: bool, activeToday: bool)

  /** A lookup value: the name of its lookup type and whether it is active. */
  datatype Lookup = Lookup(typeName: string, isActive: bool)

  const GradeNameType := "GRADE_NAME"
  const JobCategoryType := "JOB_CATEGORY"
  const JobTitleType := "JOB_TITLE"

  /** An organization a record may belong to: a business group that is active today when versioned. */
  predicate UsableGroup(o: Organization)
  {
    o.isBusinessGroup && (o.versioned ==> o.activeToday)
  }

  // ---------------------------------------------------------------------------------------
  // Grade.

  datatype Grade = Grade(organization: Option<Organization>, sequence: Option<int>, gradeName: Option<Lookup>)

  datatype GradeError = NotBusinessGroup | OrganizationInactive | SequenceNotPositive | NotGradeName | GradeNameInactive

  predicate GradeValid(g: Grade)
  {
    (g.organization.Some? ==> UsableGroup(g.organization.value))
    && (g.sequence.Some? ==> g.sequence.value > 0)
    && (g.gradeName.Some? ==> g.gradeName.value.typeName == GradeNameType && g.gradeName.value.isActive)
  }

  /** Grade.clean: a root organization active today, a positive sequence, an active GRADE_NAME lookup. */
  function CleanGrade(g: Grade): (r: Option<GradeError>)
    ensures r.None? <==> GradeValid(g)
    ensures r == Some(SequenceNotPositive) <==>
      (g.organization.Some? ==> UsableGroup(g.organization.value)) && g.sequence.Some? && g.sequence.value <= 0
  {
    if g.organization.Some? && !g.organization.value.isBusinessGroup then Some(NotBusinessGroup)
    else if g.organization.Some? && g.organization.value.versioned && !g.organization.value.activeToday then Some(OrganizationInactive)
    else if g.sequence.Some? && g.sequence.value <= 0 then Some(SequenceNotPositive)
    else if g.gradeName.Some? && g.gradeName.value.typeName != GradeNameType then Some(NotGradeName)
    else if g.gradeName.Some? && !g.gradeName.value.isActive then Some(GradeNameInactive)
    else None
  }

  // ---------------------------------------------------------------------------------------
  // Grade rate. Amounts are in cents (two decimal places).

  datatype GradeRate = GradeRate(minAmount: Option<int>, maxAmount: Option<int>, fixedAmount: Option<int>)

  datatype RateError = BothKinds | MissingBound | NegativeBound | MinAboveMax | NegativeFixed | NoAmount

  /** A rate is either a fixed non-negative amount, or a range 0 <= min <= max with both bounds. */
  predicate RateWellFormed(r: GradeRate)
  {
    || (r.fixedAmount.Some? && r.fixedAmount.value >= 0 && r.minAmount.None? && r.maxAmount.None?)
    || (r.fixedAmount.None? && r.minAmount.Some? && r.maxAmount.Some?
        && 0 <= r.minAmount.value <= r.maxAmount.value)
  }

  /** GradeRate.clean. */
  function CleanGradeRate(r: GradeRate): (e: Option<RateError>)
    ensures e.None? <==> RateWellFormed(r)
    ensures (r.minAmount.Some? || r.maxAmount.Some?) && r.fixedAmount.Some? <==> e == Some(BothKinds)
    ensures r.minAmount.None? && r.maxAmount.None? && r.fixedAmount.None? <==> e == Some(NoAmount)
  {
    var hasRange := r.minAmount.Some? || r.maxAmount.Some?;
    var hasFixed := r.fixedAmount.Some?;
    if hasRange && hasFixed then Some(BothKinds)
    else if hasRange && (r.minAmount.None? || r.maxAmount.None?) then Some(MissingBound)
    else if hasRange && (r.minAmount.value < 0 || r.maxAmount.value < 0) then Some(NegativeBound)
    else if hasRange && r.minAmount.value > r.maxAmount.value then Some(MinAboveMax)
    else if hasFixed && r.fixedAmount.value < 0 then Some(NegativeFixed)
    else if !hasRange && !hasFixed then Some(NoAmount)
    else None
  }

  // ---------------------------------------------------------------------------------------
  // Position.

  /** One of the lookup fields of a position, with the lookup type it must have. */
  datatype LookupField = LookupField(value: Option<Lookup>, expectedType: string)

  /**
   * A position: its business group (the root of its organization), the business groups of its
   * job, grade and location, its full-time equivalent and head count, and its lookup fields.
   */
  datatype Position = Position(
    businessGroup: Option<Organization>,
    jobGroup: Option<nat>,
    gradeGroup: Option<nat>,
    locationGroup: Option<nat>,
    fte: Option<real>,
    headCount: Option<int>,
    lookups: seq<LookupField>)

  datatype PositionError =
    | GroupNotBusinessGroup | GroupInactive | JobOutsideGroup | GradeOutsideGroup | LocationOutsideGroup
    | FteOutOfRange | HeadCountNotPositive | WrongLookupType(field: nat) | LookupInactive(field: nat)

  predicate LookupOk(f: LookupField)
  {
    f.value.Some? ==> f.value.value.typeName == f.expectedType && f.value.value.isActive
  }

  /** The first lookup field that is set to a value of the wrong type or an inactive value. */
  function CheckLookups(fields: seq<LookupField>, from: nat): (e: Option<PositionError>)
    requires from <= |fields|
    ensures e.None? <==> forall k :: from <= k < |fields| ==> LookupOk(fields[k])
    ensures e.Some? ==> e.value.WrongLookupType? || e.value.LookupInactive?
    decreases |fields| - from
  {
    if from == |fields| then None
    else
      var f := fields[from];
      if f.value.Some? && f.value.value.typeName != f.expectedType then Some(WrongLookupType(from))
      else if f.value.Some? && !f.value.value.isActive then Some(LookupInactive(from))
      else CheckLookups(fields, from + 1)
  }

  predicate FteInRange(fte: real)
  {
    0.1 <= fte <= 1.5
  }

  predicate PositionValid(p: Position)
  {
    (p.businessGroup.Some? ==>
      var bg := p.businessGroup.value;
      UsableGroup(bg)
      && (p.jobGroup.Some? ==> p.jobGroup.value == bg.id)
      && (p.gradeGroup.Some? ==> p.gradeGroup.value == bg.id)
      && (p.locationGroup.Some? ==> p.locationGroup.value == bg.id))
    && (p.fte.Some? ==> FteInRange(p.fte.value))
    && (p.headCount.Some? ==> p.headCount.value > 0)
    && forall k :: 0 <= k < |p.lookups| ==> LookupOk(p.lookups[k])
  }

  /** Position.clean. */
  function CleanPosition(p: Position): (e: Option<PositionError>)
    ensures e.None? <==> PositionValid(p)
    ensures e == Some(FteOutOfRange) ==> p.fte.Some? && !FteInRange(p.fte.value)
    ensures e == Some(HeadCountNotPositive) ==> p.headCount.Some? && p.headCount.value <= 0
  {
    var bg := p.businessGroup;
    if bg.Some? && !bg.value.isBusinessGroup then Some(GroupNotBusinessGroup)
    else if bg.Some? && bg.value.versioned && !bg.value.activeToday then Some(GroupInactive)
    else if bg.Some? && p.jobGroup.Some? && p.jobGroup.value != bg.value.id then Some(JobOutsideGroup)
    else if bg.Some? && p.gradeGroup.Some? && p.gradeGroup.value != bg.value.id then Some(GradeOutsideGroup)
    else if bg.Some? && p.locationGroup.Some? && p.locationGroup.value != bg.value.id then Some(LocationOutsideGroup)
    else if p.fte.Some? && (p.fte.value < 0.1 || p.fte.value > 1.5) then Some(FteOutOfRange)
    else if p.headCount.Some? && p.headCount.value <= 0 then Some(HeadCountNotPositive)
    else CheckLookups(p.lookups, 0)
  }

  /** The boundary values of the FTE range are accepted; anything beyond them is refused. */
  lemma FteBounds(p: Position)
    requires p.businessGroup.None? && p.headCount.None? && p.lookups == []
    ensures p.fte == Some(0.1) || p.fte == Some(1.5) ==> CleanPosition(p).None?
    ensures p.fte == Some(0.09) || p.fte == Some(1.51) ==> CleanPosition(p) == Some(FteOutOfRange)
  {
  }

  // ---------------------------------------------------------------------------------------
  // Job.

  /** A JSON value as stored in the responsibilities field, as far as the check distinguishes it. */
  datatype Json = JString(s: string) | JList(items: seq<Json>) | JOther

  datatype Job = Job(
    businessGroup: Option<Organization>,
    category: Option<Lookup>,
    title: Option<Lookup>,
    responsibilities: Option<Json>,
    description: Option<string>)

  datatype JobError =
    | JobGroupNotBusinessGroup | JobGroupInactive | NotJobCategory | CategoryInactive | NotJobTitle | TitleInactive
    | ResponsibilitiesNotList | ResponsibilityNotString(index: nat) | DescriptionEmpty

  /** The index of the first item that is not a string, if any. */
  function FirstNonString(items: seq<Json>, from: nat): (r: Option<nat>)
    requires from <= |items|
    ensures r.None? <==> forall k :: from <= k < |items| ==> items[k].JString?
    ensures r.Some? ==>
      && from <= r.value < |items| && !items[r.value].JString?
      && forall k :: from <= k < r.value ==> items[k].JString?
    decreases |items| - from
  {
    if from == |items| then None
    else if !items[from].JString? then Some(from)
    else FirstNonString(items, from + 1)
  }

  predicate ResponsibilitiesOk(r: Option<Json>)
  {
    r.Some? ==> r.value.JList? && forall k :: 0 <= k < |r.value.items| ==> r.value.items[k].JString?
  }

  predicate JobValid(j: Job)
  {
    (j.businessGroup.Some? ==> UsableGroup(j.businessGroup.value))
    && (j.category.Some? ==> j.category.value.typeName == JobCategoryType && j.category.value.isActive)
    && (j.title.Some? ==> j.title.value.typeName == JobTitleType && j.title.value.isActive)
    && ResponsibilitiesOk(j.responsibilities)
    && j.description.Some? && Strip(j.description.value) != ""
  }

  /** Job.clean. */
  function CleanJob(j: Job): (e: Option<JobError>)
    ensures e.None? <==> JobValid(j)
    ensures e.Some? && e.value.ResponsibilityNotString? ==>
      j.responsibilities.Some? && j.responsibilities.value.JList?
      && var items := j.responsibilities.value.items;
      e.value.index < |items| && !items[e.value.index].JString?
      && forall k :: 0 <= k < e.value.index ==> items[k].JString?
  {
    var bg := j.businessGroup;
    if bg.Some? && !bg.value.isBusinessGroup then Some(JobGroupNotBusinessGroup)
    else if bg.Some? && bg.value.versioned && !bg.value.activeToday then Some(JobGroupInactive)
    else if j.category.Some? && j.category.value.typeName != JobCategoryType then Some(NotJobCategory)
    else if j.category.Some? && !j.category.value.isActive then Some(CategoryInactive)
    else if j.title.Some? && j.title.value.typeName != JobTitleType then Some(NotJobTitle)
    else if j.title.Some? && !j.title.value.isActive then Some(TitleInactive)
    else if j.responsibilities.Some? && !j.responsibilities.value.JList? then Some(ResponsibilitiesNotList)
    else if j.responsibilities.Some? && FirstNonString(j.responsibilities.value.items, 0).Some? then
      Some(ResponsibilityNotString(FirstNonString(j.responsibilities.value.items, 0).value))
    else if j.description.None? || Strip(j.description.value) == "" then Some(DescriptionEmpty)
    else None
  }

  /** A description of blanks only is refused like a missing one. */
  lemma BlankDescriptionRefused(j: Job, blanks: string)
    requires forall i :: 0 <= i < |blanks| ==> IsSpace(blanks[i])
    requires j.description == Some(blanks)
    ensures CleanJob(j).Some?
  {
    assert Strip(blanks) == "" by { BlanksStrip(blanks); }
  }

  lemma {:induction false} BlanksStrip(s: string)
    requires forall i :: 0 <= i < |s| ==> IsSpace(s[i])
    ensures Strip(s) == ""
  {

  }
}
