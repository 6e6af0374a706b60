/**
 * The grade service of the HR work structures: sequencing grades inside a business group,
 * creating, updating and deactivating grades, grade rates and grade rate types.
 *
 * The database tables the service reads and writes are the fields of a GradeStore: grades are
 * soft-deleted (kept with active = false), grade rates and rate types are deleted outright.
 * The database constraints of the grade tables are part of the store's invariant, Valid().
 */
module GradeService {
  import opened Common
  import opened JobStructures

  /** A stored grade row; its primary key is its index in the table. */
  datatype StoredGrade = StoredGrade(org: nat, sequence: int, name: nat, active: bool)

  /** A stored grade rate version: amounts in cents, dates as day numbers, end inclusive. */
  datatype StoredRate = StoredRate(grade: nat, rateType: nat, amounts: GradeRate, currency: Option<nat>,
                                   start: int, end: Option<int>)

  datatype RateType = RateType(code: string, description: string)

  /** The amounts and currency an update_grade_rate request may supply. */
  datatype RateUpdate = RateUpdate(min: Option<int>, max: Option<int>, fixed: Option<int>, currency: Option<nat>)

  datatype ServiceError =
    | OrganizationNotFound | NotRootOrganization
    | NameNotFound | NameNotGradeName | NameInactive
    | SequenceTooSmall | DuplicateSequence
    | Invalid(gradeError: GradeError) | ConstraintViolated
    | GradeNotFound
    | UsedByPositions(positions: nat) | UsedByJobs(jobs: nat) | UsedByAssignments(assignments: nat)
    | RateTypeNotFound | RateExists | RateInvalid(rateError: RateError) | RateNotFound | MultipleRates
    | RateTypeCodeExists | RateTypeCodeInvalid | RateTypeInUse

  // ---------------------------------------------------------------------------------------
  // Sequencing.

  /** Whether a grade takes part in the maximum: it belongs to org, and is active unless inactive rows count. */
  predicate Counted(g: StoredGrade, org: nat, withInactive: bool)
  {
    g.org == org && (withInactive || g.active)
  }

  /** The aggregate Max('sequence') over the counted grades of org; None on an empty selection. */
  function MaxSequence(gs: seq<StoredGrade>, org: nat, withInactive: bool): (m: Option<int>)
    ensures m.None? <==> forall i :: 0 <= i < |gs| ==> !Counted(gs[i], org, withInactive)
    ensures m.Some? ==> forall i :: 0 <= i < |gs| && Counted(gs[i], org, withInactive) ==> gs[i].sequence <= m.value
    ensures m.Some? ==> exists i :: 0 <= i < |gs| && Counted(gs[i], org, withInactive) && gs[i].sequence == m.value
    decreases |gs|
  {
    if gs == [] then None
    else
      var rest := MaxSequence(gs[..|gs| - 1], org, withInactive);
      var g := gs[|gs| - 1];
      if !Counted(g, org, withInactive) then rest
      else if rest.None? then Some(g.sequence)
      else Some(Max(rest.value, g.sequence))
  }

  /** `(max_sequence or 0) + 1`: a Python None or 0 both read as 0. */
  function MaxPlusOne(m: Option<int>): int
  {
    if m.None? then 1 else m.value + 1
  }

  /**
   * get_next_sequence as written: one more than the largest sequence among the ACTIVE grades
   * of the organization, or 1 when it has none. Gaps left by lower sequences are not reused.
   */
  function NextSequenceAsWritten(gs: seq<StoredGrade>, org: nat): (n: int)
    ensures forall i :: 0 <= i < |gs| && gs[i].org == org && gs[i].active ==> gs[i].sequence < n
    ensures n == 1 || exists i :: 0 <= i < |gs| && gs[i].org == org && gs[i].active && gs[i].sequence == n - 1
  {
    MaxPlusOne(MaxSequence(gs, org, false))
  }

  /**
   * The next sequence the grade table will accept: one more than the largest sequence among ALL
   * grades of the organization, since the unique constraint on (organization, sequence) also
   * covers deactivated rows.
   */
  function NextFreeSequence(gs: seq<StoredGrade>, org: nat): (n: int)
    ensures forall i :: 0 <= i < |gs| && gs[i].org == org ==> gs[i].sequence < n
    ensures n == 1 || exists i :: 0 <= i < |gs| && gs[i].org == org && gs[i].sequence == n - 1
  {
    MaxPlusOne(MaxSequence(gs, org, true))
  }

  /** Some grade of org other than row `except` has sequence s (active ones only when activeOnly). */
  predicate SequenceTaken(gs: seq<StoredGrade>, org: nat, s: int, except: int, activeOnly: bool)
  {
    exists i :: 0 <= i < |gs| && i != except && gs[i].org == org && gs[i].sequence == s && (gs[i].active || !activeOnly)
  }

  /** Some grade of org other than row `except` has grade name `name` (of any status). */
  predicate NameTaken(gs: seq<StoredGrade>, org: nat, name: nat, except: int)
  {
    exists i :: 0 <= i < |gs| && i != except && gs[i].org == org && gs[i].name == name
  }

  /** The constraints of the grade table: positive sequences, (org, sequence) and (org, name) unique. */
  predicate GradesValid(gs: seq<StoredGrade>)
  {
    && (forall i :: 0 <= i < |gs| ==> gs[i].sequence > 0)
    && (forall i, j :: 0 <= i < j < |gs| && gs[i].org == gs[j].org ==>
          gs[i].sequence != gs[j].sequence && gs[i].name != gs[j].name)
  }

  /** On a valid table every next sequence is at least 1. */
  lemma {:induction false} NextSequencePositive(gs: seq<StoredGrade>, org: nat)
    requires GradesValid(gs)
    ensures NextSequenceAsWritten(gs, org) >= 1
    ensures NextFreeSequence(gs, org) >= 1
  {
    var m := MaxSequence(gs, org, false);
    if m.Some? {
      var i :| 0 <= i < |gs| && Counted(gs[i], org, false) && gs[i].sequence == m.value;
    }
    var m' := MaxSequence(gs, org, true);
    if m'.Some? {
      var i :| 0 <= i < |gs| && Counted(gs[i], org, true) && gs[i].sequence == m'.value;
    }
  }

  /** The corrected next sequence is never held by any grade of the organization, active or not. */
  lemma NextFreeSequenceIsFree(gs: seq<StoredGrade>, org: nat)
    ensures !SequenceTaken(gs, org, NextFreeSequence(gs, org), -1, false)
    ensures !SequenceTaken(gs, org, NextFreeSequence(gs, org), -1, true)
  {
  }

  /**
   * As written, get_next_sequence can hand out a sequence a deactivated grade still holds:
   * with grade 1 active and grade 2 deactivated, it answers 2, which the unique constraint refuses.
   */
  lemma NextSequenceReusesRetired()
    ensures var gs := [StoredGrade(7, 1, 100, true), StoredGrade(7, 2, 101, false)];
      && GradesValid(gs)
      && NextSequenceAsWritten(gs, 7) == 2
      && !SequenceTaken(gs, 7, 2, -1, true)
      && SequenceTaken(gs, 7, 2, -1, false)
  {
    var gs := [StoredGrade(7, 1, 100, true), StoredGrade(7, 2, 101, false)];
    assert gs[..1] == [gs[0]];
    assert NextSequenceAsWritten(gs, 7) == 2;
    assert gs[1].org == 7 && gs[1].sequence == 2;
  }

  // ---------------------------------------------------------------------------------------
  // Grade rates.

  /** A rate version is active on day d when d lies within its effective dates. */
  predicate ActiveOn(r: StoredRate, d: int)
  {
    r.start <= d && (r.end.None? || d <= r.end.value)
  }

  /**
   * The field updates of update_grade_rate: supplied values replace the stored ones; supplying
   * a fixed amount clears the bounds not supplied, supplying a bound clears the fixed amount
   * when it is not supplied.
   */
  function ApplyRateUpdate(a: GradeRate, u: RateUpdate): (b: GradeRate)
    ensures u.fixed.Some? ==> b == GradeRate(u.min, u.max, u.fixed)
    ensures u.min.Some? || u.max.Some? ==> b.fixedAmount == u.fixed
    ensures u.min.Some? ==> b.minAmount == u.min
    ensures u.max.Some? ==> b.maxAmount == u.max
    ensures u.fixed.None? && u.min.None? ==> b.minAmount == a.minAmount
    ensures u.fixed.None? && u.max.None? ==> b.maxAmount == a.maxAmount
    ensures u.fixed.None? && u.min.None? && u.max.None? ==> b == a
  {
    var min := if u.min.Some? then u.min else if u.fixed.Some? then None else a.minAmount;
    var max := if u.max.Some? then u.max else if u.fixed.Some? then None else a.maxAmount;
    var fixed := if u.fixed.Some? then u.fixed else if u.min.Some? || u.max.Some? then None else a.fixedAmount;
    GradeRate(min, max, fixed)
  }

  /** Switching a range rate to a fixed amount yields a rate GradeRate.clean accepts when the amount is not negative. */
  lemma SwitchToFixed(a: GradeRate, f: int, c: Option<nat>)
    requires f >= 0
    ensures CleanGradeRate(ApplyRateUpdate(a, RateUpdate(None, None, Some(f), c))).None?
  {
  }

  /** Switching a fixed rate to a range yields a rate GradeRate.clean accepts when 0 <= min <= max. */
  lemma SwitchToRange(a: GradeRate, lo: int, hi: int, c: Option<nat>)
    ensures CleanGradeRate(ApplyRateUpdate(a, RateUpdate(Some(lo), Some(hi), None, c))).None? <==> 0 <= lo <= hi
  {
  }

  /** Supplying only the lower bound of a former fixed rate leaves a rate GradeRate.clean refuses. */
  lemma HalfRangeRefused(a: GradeRate, lo: int, c: Option<nat>)
    requires a.maxAmount.None?
    ensures CleanGradeRate(ApplyRateUpdate(a, RateUpdate(Some(lo), None, None, c))) == Some(MissingBound)
  {
  }

  /** Rate version k belongs to this grade and rate type and is active on day d. */
  predicate ActiveVersion(rates: map<nat, StoredRate>, grade: nat, rateType: nat, d: int, k: nat)
  {
    k in rates && rates[k].grade == grade && rates[k].rateType == rateType && ActiveOn(rates[k], d)
  }

  /** The versions of this grade and rate type active on day d. */
  function ActiveKeys(rates: map<nat, StoredRate>, grade: nat, rateType: nat, d: int): (ks: set<nat>)
    ensures forall k :: k in ks <==> ActiveVersion(rates, grade, rateType, d, k)
  {
    set k | k in rates && ActiveVersion(rates, grade, rateType, d, k)
  }

  /** The element of a one-element set. */
  function OnlyKey(ks: set<nat>): (k: nat)
    requires |ks| == 1
    ensures ks == {k}
  {
    var k :| k in ks;
    assert |ks - {k}| == 0;
    k
  }

  /** Some version of this grade and rate type starts on day d. */
  predicate VersionStarts(rates: map<nat, StoredRate>, grade: nat, rateType: nat, d: int)
  {
    exists k :: k in rates && rates[k].grade == grade && rates[k].rateType == rateType && rates[k].start == d
  }

  /**
   * The rate table after update_version on version k. Without a new start date the version is
   * corrected in place (a new end date replaces its own); with one, version k ends the day
   * before and a new version `newKey`, with the updated fields, starts on it.
   */
  function UpdateVersion(rates: map<nat, StoredRate>, k: nat, u: RateUpdate, newStart: Option<int>,
                         newEnd: Option<int>, newKey: nat): map<nat, StoredRate>
    requires k in rates
  {
    var cur := rates[k];
    var amounts := ApplyRateUpdate(cur.amounts, u);
    var currency := if u.currency.Some? then u.currency else cur.currency;
    if newStart.None? then rates[k := cur.(amounts := amounts, currency := currency, end := Pick(newEnd, cur.end))]
    else rates[k := cur.(end := Some(newStart.value - 1))][newKey := StoredRate(cur.grade, cur.rateType, amounts, currency, newStart.value, newEnd)]
  }

  function Pick<T>(supplied: Option<T>, stored: Option<T>): Option<T>
  {
    if supplied.Some? then supplied else stored
  }

  /** Some rate of this grade and type other than key `except` is active on day d. */
  predicate RateActive(rates: map<nat, StoredRate>, grade: nat, rateType: nat, d: int)
  {
    exists k :: k in rates && rates[k].grade == grade && rates[k].rateType == rateType && ActiveOn(rates[k], d)
  }

  /** The grade rate table: its foreign keys resolve and (grade, rate type, start) is unique. */
  predicate RatesValid(gs: seq<StoredGrade>, rates: map<nat, StoredRate>, types: map<nat, RateType>)
  {
    && (forall k :: k in rates ==> rates[k].grade < |gs| && rates[k].rateType in types)
    && (forall k, l :: k in rates && l in rates && k != l ==>
          !(rates[k].grade == rates[l].grade && rates[k].rateType == rates[l].rateType && rates[k].start == rates[l].start))
  }

  /** Rate type codes are unique, as the service keeps them. */
  predicate TypesValid(types: map<nat, RateType>)
  {
    forall a, b :: a in types && b in types && a != b ==> types[a].code != types[b].code
  }

  /** The rate type code column: not blank and at most 50 characters. */
  predicate CodeFits(code: string)
  {
    code != [] && |code| <= 50
  }

  predicate CodeTaken(types: map<nat, RateType>, code: string, except: int)
  {
    exists a :: a in types && a != except && types[a].code == code
  }

  predicate TypeUsed(rates: map<nat, StoredRate>, t: nat)
  {
    exists k :: k in rates && rates[k].rateType == t
  }

  /** The organization found active today is a root organization (business group). */
  predicate RootOrganization(org: Option<Organization>)
  {
    org.Some? && org.value.isBusinessGroup
  }

  /** The grade name lookup exists, is of type GRADE_NAME and is active. */
  predicate GradeNameOk(name: Option<Lookup>)
  {
    name.Some? && name.value.typeName == GradeNameType && name.value.isActive
  }

  // ---------------------------------------------------------------------------------------
  // The store.

  class GradeStore {
    var grades: seq<StoredGrade>
    var rates: map<nat, StoredRate>
    var rateTypes: map<nat, RateType>
    var nextRate: nat
    var nextType: nat

    predicate Valid()
      reads this
    {
      && GradesValid(grades)
      && RatesValid(grades, rates, rateTypes)
      && TypesValid(rateTypes)
      && (forall k :: k in rates ==> k < nextRate)
      && (forall a :: a in rateTypes ==> a < nextType)
    }

    constructor ()
      ensures Valid()
      ensures grades == [] && rates == map[] && rateTypes == map[]
    {
      grades, rates, rateTypes := [], map[], map[];
      nextRate, nextType := 0, 0;
    }

    /**
     * GradeService.create: the organization (found active today, or None) must be a business
     * group, the name lookup an active GRADE_NAME, the sequence positive and not used by an
     * active grade of the organization; full_clean then applies Grade.clean and the table's
     * unique constraints. Returns the new grade's key.
     */
    method Create(org: Option<Organization>, nameId: nat, name: Option<Lookup>, sequence: int)
      returns (r: Result<nat, ServiceError>)
      requires Valid()
      modifies this
      ensures Valid()
      ensures rates == old(rates) && rateTypes == old(rateTypes)
      ensures r.Success? ==> (
        && RootOrganization(org)
        && r.value == |old(grades)|
        && grades == old(grades) + [StoredGrade(org.value.id, sequence, nameId, true)])
      ensures r.Failure? ==> grades == old(grades)
      ensures r.Success? ==> (
        && RootOrganization(org) && GradeNameOk(name) && sequence > 0
        && !SequenceTaken(old(grades), org.value.id, sequence, -1, false))
      ensures org.None? <==> r == Failure(OrganizationNotFound)
      ensures RootOrganization(org) && GradeNameOk(name) ==> (
        && (r == Failure(SequenceTooSmall) <==> sequence <= 0)
        && (r == Failure(DuplicateSequence) <==> sequence > 0 && SequenceTaken(old(grades), org.value.id, sequence, -1, true)))
      ensures (
        && RootOrganization(org) && (org.value.versioned ==> org.value.activeToday) && GradeNameOk(name)
        && sequence == NextFreeSequence(old(grades), org.value.id) && !NameTaken(old(grades), org.value.id, nameId, -1)
      ) ==> r.Success?
    {
      if org.None? { return Failure(OrganizationNotFound); }
      var o := org.value;
      NextSequencePositive(grades, o.id);
      NextFreeSequenceIsFree(grades, o.id);
      if !o.isBusinessGroup { return Failure(NotRootOrganization); }
      if name.None? { return Failure(NameNotFound); }
      if name.value.typeName != GradeNameType { return Failure(NameNotGradeName); }
      if !name.value.isActive { return Failure(NameInactive); }
      if sequence <= 0 { return Failure(SequenceTooSmall); }
      if SequenceTaken(grades, o.id, sequence, -1, true) { return Failure(DuplicateSequence); }
      var e := CleanGrade(Grade(Some(o), Some(sequence), name));
      if e.Some? { return Failure(Invalid(e.value)); }
      if SequenceTaken(grades, o.id, sequence, -1, false) || NameTaken(grades, o.id, nameId, -1) {
        return Failure(ConstraintViolated);
      }
      var g := StoredGrade(o.id, sequence, nameId, true);
      AppendGradeValid(grades, g);
      grades := grades + [g];
      r := Success(|grades| - 1);
    }

    /**
     * GradeService.update: the grade must be active; a supplied name must be an active
     * GRADE_NAME lookup, a supplied sequence positive and unused by the OTHER active grades of
     * the organization; the table's unique constraints then exclude the row itself.
     */
    method Update(id: nat, nameId: Option<nat>, name: Option<Lookup>, sequence: Option<int>)
      returns (r: Result<(), ServiceError>)
      requires Valid()
      modifies this
      ensures Valid()
      ensures rates == old(rates) && rateTypes == old(rateTypes)
      ensures r.Failure? ==> grades == old(grades)
      ensures r.Success? ==> (
        && id < |old(grades)| && old(grades)[id].active
        && grades == old(grades)[id := old(grades)[id].(
             sequence := if sequence.Some? then sequence.value else old(grades)[id].sequence,
             name := if nameId.Some? then nameId.value else old(grades)[id].name)])
      ensures !(id < |old(grades)| && old(grades)[id].active) <==> r == Failure(GradeNotFound)
      ensures r.Success? && sequence.Some? ==>
        sequence.value > 0 && !SequenceTaken(old(grades), old(grades)[id].org, sequence.value, id, false)
      ensures id < |old(grades)| && old(grades)[id].active && nameId.None? && sequence.Some? ==>
        (r == Failure(DuplicateSequence) <==>
          sequence.value > 0 && SequenceTaken(old(grades), old(grades)[id].org, sequence.value, id, true))
      ensures (
        && id < |old(grades)| && old(grades)[id].active && nameId.None? && sequence.Some?
        && sequence.value == old(grades)[id].sequence
      ) ==> r.Success?
    {
      if !(id < |grades| && grades[id].active) { return Failure(GradeNotFound); }
      var g := grades[id];
      var newName := g.name;
      if nameId.Some? {
        if name.None? { return Failure(NameNotFound); }
        if name.value.typeName != GradeNameType { return Failure(NameNotGradeName); }
        if !name.value.isActive { return Failure(NameInactive); }
        newName := nameId.value;
      }
      var newSequence := g.sequence;
      if sequence.Some? {
        if sequence.value <= 0 { return Failure(SequenceTooSmall); }
        if SequenceTaken(grades, g.org, sequence.value, id, true) { return Failure(DuplicateSequence); }
        newSequence := sequence.value;
      }
      if SequenceTaken(grades, g.org, newSequence, id, false) || NameTaken(grades, g.org, newName, id) {
        if nameId.None? && sequence.Some? && sequence.value == g.sequence {
          SelfNotTaken(grades, id);
        }
        return Failure(ConstraintViolated);
      }
      var g' := g.(sequence := newSequence, name := newName);
      ReplaceGradeValid(grades, id, g');
      grades := grades[id := g'];
      r := Success(());
    }

    /**
     * GradeService.deactivate: refused while positions, jobs or assignments active today use the
     * grade (their counts are supplied by the caller); otherwise the grade is soft-deleted.
     */
    method Deactivate(id: nat, positions: nat, jobs: nat, assignments: nat) returns (r: Result<(), ServiceError>)
      requires Valid()
      modifies this
      ensures Valid()
      ensures rates == old(rates) && rateTypes == old(rateTypes)
      ensures r.Success? <==> id < |old(grades)| && old(grades)[id].active && positions == 0 && jobs == 0 && assignments == 0
      ensures r.Success? ==> grades == old(grades)[id := old(grades)[id].(active := false)]
      ensures r.Failure? ==> grades == old(grades)
      ensures id < |old(grades)| && old(grades)[id].active && positions > 0 ==> r == Failure(UsedByPositions(positions))
    {
      if !(id < |grades| && grades[id].active) { return Failure(GradeNotFound); }
      if positions > 0 { return Failure(UsedByPositions(positions)); }
      if jobs > 0 { return Failure(UsedByJobs(jobs)); }
      if assignments > 0 { return Failure(UsedByAssignments(assignments)); }
      ReplaceGradeValid(grades, id, grades[id].(active := false));
      grades := grades[id := grades[id].(active := false)];
      r := Success(());
    }

    /**
     * GradeService.create_grade_rate: the grade must be active and the rate type exist; no rate of
     * the same grade and type may be active on the effective start (today when none is given);
     * full_clean then applies GradeRate.clean and the unique (grade, type, start) constraint.
     */
    method CreateGradeRate(grade: nat, rateType: nat, amounts: GradeRate, currency: Option<nat>,
                           start: Option<int>, end: Option<int>, today: int)
      returns (r: Result<nat, ServiceError>)
      requires Valid()
      modifies this
      ensures Valid()
      ensures grades == old(grades) && rateTypes == old(rateTypes)
      ensures r.Failure? ==> rates == old(rates)
      ensures var s := if start.Some? then start.value else today;
        r.Success? ==> (
          && r.value !in old(rates)
          && rates == old(rates)[r.value := StoredRate(grade, rateType, amounts, currency, s, end)]
          && grade < |grades| && grades[grade].active && RateWellFormed(amounts)
          && !RateActive(old(rates), grade, rateType, s))
      ensures var s := if start.Some? then start.value else today;
        grade < |grades| && grades[grade].active && rateType in rateTypes ==>
          (r == Failure(RateExists) <==> RateActive(old(rates), grade, rateType, s))
    {
      if !(grade < |grades| && grades[grade].active) { return Failure(GradeNotFound); }
      if rateType !in rateTypes { return Failure(RateTypeNotFound); }
      var s := if start.Some? then start.value else today;
      if RateActive(rates, grade, rateType, s) { return Failure(RateExists); }
      var e := CleanGradeRate(amounts);
      if e.Some? { return Failure(RateInvalid(e.value)); }
      if exists k :: k in rates && rates[k].grade == grade && rates[k].rateType == rateType && rates[k].start == s {
        return Failure(ConstraintViolated);
      }
      var k := nextRate;
      rates := rates[k := StoredRate(grade, rateType, amounts, currency, s, end)];
      nextRate := nextRate + 1;
      r := Success(k);
    }

    /**
     * GradeService.update_grade_rate: the single version of (grade, rate type) active today is
     * found (none, or more than one, is an error: the lookup's `get` raises on both) and
     * update_version applies the field updates of ApplyRateUpdate and a supplied currency.
     * Without a new start date the version is corrected in place; with one, a new version
     * starting then is added and the current one ends the day before, which the unique
     * (grade, type, start) constraint refuses when a version already starts on that day.
     */
    method UpdateGradeRate(grade: nat, rateType: nat, u: RateUpdate, newStart: Option<int>, newEnd: Option<int>,
                           today: int) returns (r: Result<nat, ServiceError>)
      requires Valid()
      modifies this
      ensures Valid()
      ensures grades == old(grades) && rateTypes == old(rateTypes)
      ensures r.Failure? ==> rates == old(rates)
      ensures ActiveKeys(old(rates), grade, rateType, today) == {} <==> r == Failure(RateNotFound)
      ensures |ActiveKeys(old(rates), grade, rateType, today)| > 1 <==> r == Failure(MultipleRates)
      ensures |ActiveKeys(old(rates), grade, rateType, today)| == 1 ==>
        (r == Failure(ConstraintViolated) <==> newStart.Some? && VersionStarts(old(rates), grade, rateType, newStart.value))
      ensures r.Success? ==> exists k: nat ::
        && ActiveKeys(old(rates), grade, rateType, today) == {k}
        && r.value == (if newStart.None? then k else old(nextRate))
        && rates == UpdateVersion(old(rates), k, u, newStart, newEnd, old(nextRate))
      ensures r.Success? && newStart.Some? ==> r.value !in old(rates) && rates[r.value].start == newStart.value
    {
      var found := ActiveKeys(rates, grade, rateType, today);
      if |found| == 0 {
        return Failure(RateNotFound);
      }
      if |found| > 1 {
        return Failure(MultipleRates);
      }
      var k := OnlyKey(found);
      if newStart.Some? && VersionStarts(rates, grade, rateType, newStart.value) {
        return Failure(ConstraintViolated);
      }
      var after := UpdateVersion(rates, k, u, newStart, newEnd, nextRate);
      RetouchRateValid(grades, rates, rateTypes, k, after[k]);
      if newStart.Some? {
        AddVersionValid(grades, rates[k := after[k]], rateTypes, nextRate, after[nextRate]);
        rates, r := after, Success(nextRate);
        nextRate := nextRate + 1;
      } else {
        rates, r := after, Success(k);
      }
    }

    /** GradeService.delete_grade_rate: the version is removed; an unknown key is an error. */
    method DeleteGradeRate(id: nat) returns (r: Result<(), ServiceError>)
      requires Valid()
      modifies this
      ensures Valid()
      ensures grades == old(grades) && rateTypes == old(rateTypes)
      ensures r.Success? <==> id in old(rates)
      ensures rates == old(rates) - {id}
    {
      if id !in rates { return Failure(RateNotFound); }
      rates := rates - {id};
      r := Success(());
    }

    /**
     * GradeService.create_grade_rate_type: the code must not be in use already; full_clean then
     * refuses a blank code or one longer than the column's 50 characters.
     */
    method CreateRateType(code: string, description: string) returns (r: Result<nat, ServiceError>)
      requires Valid()
      modifies this
      ensures Valid()
      ensures grades == old(grades) && rates == old(rates)
      ensures r.Failure? <==> CodeTaken(old(rateTypes), code, -1) || !CodeFits(code)
      ensures CodeTaken(old(rateTypes), code, -1) ==> r == Failure(RateTypeCodeExists)
      ensures !CodeTaken(old(rateTypes), code, -1) && !CodeFits(code) ==> r == Failure(RateTypeCodeInvalid)
      ensures r.Failure? ==> rateTypes == old(rateTypes)
      ensures r.Success? ==> r.value !in old(rateTypes) && rateTypes == old(rateTypes)[r.value := RateType(code, description)]
    {
      if CodeTaken(rateTypes, code, -1) { return Failure(RateTypeCodeExists); }
      if !CodeFits(code) { return Failure(RateTypeCodeInvalid); }
      var k := nextType;
      rateTypes := rateTypes[k := RateType(code, description)];
      nextType := nextType + 1;
      r := Success(k);
    }

    /**
     * GradeService.update_grade_rate_type: a non-empty new code that differs from the current one
     * must not be used by another type; a supplied description replaces the old one.
     */
    method UpdateRateType(id: nat, code: string, description: Option<string>) returns (r: Result<(), ServiceError>)
      requires Valid()
      modifies this
      ensures Valid()
      ensures grades == old(grades) && rates == old(rates)
      ensures r.Failure? ==> rateTypes == old(rateTypes)
      ensures id !in old(rateTypes) <==> r == Failure(RateTypeNotFound)
      ensures id in old(rateTypes) ==>
        (r == Failure(RateTypeCodeExists) <==> code != [] && code != old(rateTypes)[id].code && CodeTaken(old(rateTypes), code, id))
      ensures r.Success? ==> rateTypes == old(rateTypes)[id := RateType(
        if code != [] then code else old(rateTypes)[id].code,
        if description.Some? then description.value else old(rateTypes)[id].description)]
    {
      if id !in rateTypes { return Failure(RateTypeNotFound); }
      var t := rateTypes[id];
      if code != [] && code != t.code {
        if CodeTaken(rateTypes, code, id) { return Failure(RateTypeCodeExists); }
        t := t.(code := code);
      }
      if description.Some? {
        t := t.(description := description.value);
      }
      rateTypes := rateTypes[id := t];
      r := Success(());
    }

    /** GradeService.delete_grade_rate_type: refused while a grade rate uses the type. */
    method DeleteRateType(id: nat) returns (r: Result<(), ServiceError>)
      requires Valid()
      modifies this
      ensures Valid()
      ensures grades == old(grades) && rates == old(rates)
      ensures r.Success? <==> id in old(rateTypes) && !TypeUsed(old(rates), id)
      ensures r.Success? ==> rateTypes == old(rateTypes) - {id}
      ensures r.Failure? ==> rateTypes == old(rateTypes)
    {
      if id !in rateTypes { return Failure(RateTypeNotFound); }
      if TypeUsed(rates, id) { return Failure(RateTypeInUse); }
      rateTypes := rateTypes - {id};
      r := Success(());
    }
  }

  // ---------------------------------------------------------------------------------------
  // Preservation of the table constraints.

  lemma AppendGradeValid(gs: seq<StoredGrade>, g: StoredGrade)
    requires GradesValid(gs) && g.sequence > 0
    requires !SequenceTaken(gs, g.org, g.sequence, -1, false) && !NameTaken(gs, g.org, g.name, -1)
    ensures GradesValid(gs + [g])
  {
    var gs' := gs + [g];
    forall i, j | 0 <= i < j < |gs'| && gs'[i].org == gs'[j].org
      ensures gs'[i].sequence != gs'[j].sequence && gs'[i].name != gs'[j].name
    {
      if j == |gs| {
        assert gs'[i] == gs[i];
      }
    }
  }

  lemma ReplaceGradeValid(gs: seq<StoredGrade>, id: nat, g: StoredGrade)
    requires GradesValid(gs) && id < |gs| && g.sequence > 0
    requires !SequenceTaken(gs, g.org, g.sequence, id, false) && !NameTaken(gs, g.org, g.name, id)
    ensures GradesValid(gs[id := g])
  {
    var gs' := gs[id := g];
    forall i, j | 0 <= i < j < |gs'| && gs'[i].org == gs'[j].org
      ensures gs'[i].sequence != gs'[j].sequence && gs'[i].name != gs'[j].name
    {
      if i == id {
        assert gs'[j] == gs[j];
      } else if j == id {
        assert gs'[i] == gs[i];
      }
    }
  }

  /** Changing a rate's amounts or currency keeps the rate table's constraints. */
  lemma RetouchRateValid(gs: seq<StoredGrade>, rates: map<nat, StoredRate>, types: map<nat, RateType>, k: nat, r: StoredRate)
    requires RatesValid(gs, rates, types) && k in rates
    requires r.grade == rates[k].grade && r.rateType == rates[k].rateType && r.start == rates[k].start
    ensures RatesValid(gs, rates[k := r], types)
  {
  }

  /**
   * A new version from day d takes over from version k: the new version, carrying the updated
   * amounts, is active on d and k is not, and no other version changes.
   */
  lemma NewVersionTakesOver(rates: map<nat, StoredRate>, k: nat, u: RateUpdate, d: int, newEnd: Option<int>, newKey: nat)
    requires k in rates && newKey !in rates && (newEnd.None? || d <= newEnd.value)
    ensures var after := UpdateVersion(rates, k, u, Some(d), newEnd, newKey);
      && after.Keys == rates.Keys + {newKey}
      && ActiveOn(after[newKey], d) && !ActiveOn(after[k], d)
      && after[newKey].amounts == ApplyRateUpdate(rates[k].amounts, u)
      && after[newKey].grade == rates[k].grade && after[newKey].rateType == rates[k].rateType
      && after[k].start == rates[k].start && after[k].amounts == rates[k].amounts
      && forall l :: l in rates && l != k ==> after[l] == rates[l]
  {
  }

  /** A correction keeps the version's key, start date, grade and rate type, and changes no other version. */
  lemma CorrectionInPlace(rates: map<nat, StoredRate>, k: nat, u: RateUpdate, newEnd: Option<int>, newKey: nat)
    requires k in rates
    ensures var after := UpdateVersion(rates, k, u, None, newEnd, newKey);
      && after.Keys == rates.Keys
      && after[k].start == rates[k].start && after[k].grade == rates[k].grade && after[k].rateType == rates[k].rateType
      && after[k].amounts == ApplyRateUpdate(rates[k].amounts, u)
      && forall l :: l in rates && l != k ==> after[l] == rates[l]
  {
  }

  /** A new version whose (grade, type, start) is not taken keeps the rate table's constraints. */
  lemma AddVersionValid(gs: seq<StoredGrade>, rates: map<nat, StoredRate>, types: map<nat, RateType>, k: nat, r: StoredRate)
    requires RatesValid(gs, rates, types) && k !in rates && r.grade < |gs| && r.rateType in types
    requires !VersionStarts(rates, r.grade, r.rateType, r.start)
    ensures RatesValid(gs, rates[k := r], types)
  {
  }

  /** On a valid table no other grade of the organization holds a grade's own sequence. */
  lemma SelfNotTaken(gs: seq<StoredGrade>, id: nat)
    requires GradesValid(gs) && id < |gs|
    ensures !SequenceTaken(gs, gs[id].org, gs[id].sequence, id, false)
    ensures !NameTaken(gs, gs[id].org, gs[id].name, id)
  {
  }
}
