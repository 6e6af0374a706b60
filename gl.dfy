/**
 * The general ledger: hierarchical segment values, immutable segment combinations
 * (find-or-create by exact match), and journal entries that are posted once, only when
 * balanced, and are frozen together with their lines afterwards.
 * Amounts are integers in minor units.
 */
module GeneralLedger {
  import opened Common

  // ---------------------------------------------------------------- segments

  /** A segment value: its type, code, optional parent code (same type) and active flag. */
  datatype Segment = Segment(segmentType: nat, code: string, parentCode: Option<string>, active: bool)

  /** The stored segment with this type and code (the first, should the store hold two). */
  function FindSegment(segments: seq<Segment>, t: nat, code: string): (r: Option<nat>)
    ensures r.Some? ==> r.value < |segments| && segments[r.value].segmentType == t && segments[r.value].code == code
    ensures r.None? <==> forall k :: 0 <= k < |segments| ==> !(segments[k].segmentType == t && segments[k].code == code)
    ensures r.Some? ==> forall k :: 0 <= k < r.value ==> !(segments[k].segmentType == t && segments[k].code == code)
  {
    if segments == [] then None
    else if segments[0].segmentType == t && segments[0].code == code then Some(0)
    else
      var r := FindSegment(segments[1..], t, code);
      if r.Some? then Some(r.value + 1) else None
  }

  /** `child` is the code of a stored segment of type `t` whose parent code is `parent`. */
  predicate IsChildOf(segments: seq<Segment>, t: nat, parent: string, child: string)
  {
    exists k :: 0 <= k < |segments| && segments[k].segmentType == t && segments[k].code == child
      && segments[k].parentCode == Some(parent)
  }

  /**
   * The codes from the root down to segment `i`. The walk follows parent codes and stops at
   * a segment without a parent code or whose parent is not stored; `fuel` bounds its length.
   */
  function Ancestry(segments: seq<Segment>, i: nat, fuel: nat): (path: seq<string>)
    requires i < |segments|
    decreases fuel
  {
    var s := segments[i];
    if fuel == 0 || s.parentCode.None? then [s.code]
    else
      match FindSegment(segments, s.segmentType, s.parentCode.value)
      case None => [s.code]
      case Some(p) => Ancestry(segments, p, fuel - 1) + [s.code]
  }

  /** `code` is the code of a stored segment of type `t` that has no stored parent. */
  predicate IsRoot(segments: seq<Segment>, t: nat, code: string)
  {
    exists r :: 0 <= r < |segments| && segments[r].segmentType == t && segments[r].code == code &&
      (segments[r].parentCode.None? || FindSegment(segments, t, segments[r].parentCode.value).None?)
  }

  /**
   * The ancestry ends with the segment's own code, each code in it is the parent code of the
   * next one, and (given fuel) it starts at a segment with no stored parent.
   */
  lemma {:induction false} AncestryIsParentChain(segments: seq<Segment>, i: nat, fuel: nat)
    requires i < |segments|
    ensures var path := Ancestry(segments, i, fuel);
      && |path| >= 1 && path[|path| - 1] == segments[i].code
      && (forall j :: 0 <= j < |path| - 1 ==> IsChildOf(segments, segments[i].segmentType, path[j], path[j + 1]))
      && (fuel > 0 && |path| == 1 ==>
            segments[i].parentCode.None? ||
            FindSegment(segments, segments[i].segmentType, segments[i].parentCode.value).None?)
      && (|path| <= fuel ==> IsRoot(segments, segments[i].segmentType, path[0]))
    decreases fuel
  {
    var s := segments[i];
    if fuel > 0 && s.parentCode.Some? {
      var f := FindSegment(segments, s.segmentType, s.parentCode.value);
      if f.Some? {
        var p := f.value;
        AncestryIsParentChain(segments, p, fuel - 1);
        var up := Ancestry(segments, p, fuel - 1);
        var path := up + [s.code];
        assert IsChildOf(segments, s.segmentType, up[|up| - 1], s.code) by {
          assert segments[i].segmentType == s.segmentType && segments[i].code == s.code;
        }
        forall j | 0 <= j < |path| - 1
          ensures IsChildOf(segments, s.segmentType, path[j], path[j + 1])
        {
          if j < |up| - 1 {
            assert path[j] == up[j] && path[j + 1] == up[j + 1];
          }
        }
      }
    }
  }

  /** One step up: the ancestry of a segment whose parent is stored extends the parent's. */
  lemma AncestryStep(segments: seq<Segment>, i: nat, fuel: nat, p: nat)
    requires i < |segments| && fuel > 0 && segments[i].parentCode.Some?
    requires FindSegment(segments, segments[i].segmentType, segments[i].parentCode.value) == Some(p)
    ensures Ancestry(segments, i, fuel) == Ancestry(segments, p, fuel - 1) + [segments[i].code]
  {
  }

  /** One step of the upward walk: the ancestry of i is that of the parent p followed by the codes collected so far. */
  lemma PathStep(segments: seq<Segment>, i: nat, current: nat, fuel: nat, rest: seq<string>, p: nat)
    requires i < |segments| && current < |segments| && fuel > 0 && segments[current].parentCode.Some?
    requires FindSegment(segments, segments[current].segmentType, segments[current].parentCode.value) == Some(p)
    requires Ancestry(segments, i, |segments|) == Ancestry(segments, current, fuel) + rest
    ensures Ancestry(segments, i, |segments|) == Ancestry(segments, p, fuel - 1) + ([segments[current].code] + rest)
  {
    AncestryStep(segments, current, fuel, p);
    var up := Ancestry(segments, p, fuel - 1);
    assert up + [segments[current].code] + rest == up + ([segments[current].code] + rest);
  }

  /** The walk of full_path: from segment i up through the stored parents, at most |segments| steps. */
  method WalkUp(segments: seq<Segment>, i: nat) returns (path: seq<string>)
    requires i < |segments|
    ensures path == Ancestry(segments, i, |segments|)
  {
    var current: nat := i;
    var fuel: nat := |segments|;
    var rest: seq<string> := [];
    while segments[current].parentCode.Some? && fuel > 0
      invariant current < |segments|
      invariant Ancestry(segments, i, |segments|) == Ancestry(segments, current, fuel) + rest
    {
      var found := FindSegment(segments, segments[current].segmentType, segments[current].parentCode.value);
      if found.None? {
        break;
      }
      PathStep(segments, i, current, fuel, rest, found.value);
      rest := [segments[current].code] + rest;
      current := found.value;
      fuel := fuel - 1;
    }
    AncestryStop(segments, current, fuel);
    path := [segments[current].code] + rest;
  }

  /** At a segment without a stored parent, or without fuel, the ancestry is its own code. */
  lemma AncestryStop(segments: seq<Segment>, i: nat, fuel: nat)
    requires i < |segments|
    requires fuel == 0 || segments[i].parentCode.None? ||
      FindSegment(segments, segments[i].segmentType, segments[i].parentCode.value).None?
    ensures Ancestry(segments, i, fuel) == [segments[i].code]
  {
  }

  /** `parts` joined with `sep` between consecutive elements. */
  function Join(parts: seq<string>, sep: string): (r: string)
    ensures |parts| == 1 ==> r == parts[0]
  {
    if parts == [] then ""
    else if |parts| == 1 then parts[0]
    else Join(parts[..|parts| - 1], sep) + sep + parts[|parts| - 1]
  }

  /** The codes of the direct children of (t, code), in stored order. */
  function Children(segments: seq<Segment>, t: nat, code: string): (cs: seq<string>)
    ensures forall c :: c in cs <==> IsChildOf(segments, t, code, c)
  {
    if segments == [] then []
    else
      var s := segments[|segments| - 1];
      var rest := Children(segments[..|segments| - 1], t, code);
      assert forall c :: IsChildOf(segments, t, code, c) <==>
        IsChildOf(segments[..|segments| - 1], t, code, c) || (s.segmentType == t && s.code == c && s.parentCode == Some(code)) by {
        forall c | IsChildOf(segments, t, code, c)
          ensures IsChildOf(segments[..|segments| - 1], t, code, c) || (s.segmentType == t && s.code == c && s.parentCode == Some(code))
        {
          var k :| 0 <= k < |segments| && segments[k].segmentType == t && segments[k].code == c && segments[k].parentCode == Some(code);
          if k < |segments| - 1 {
            assert segments[..|segments| - 1][k] == segments[k];
          }
        }
        forall c | IsChildOf(segments[..|segments| - 1], t, code, c)
          ensures IsChildOf(segments, t, code, c)
        {
          var k :| 0 <= k < |segments| - 1 && segments[..|segments| - 1][k].segmentType == t
            && segments[..|segments| - 1][k].code == c && segments[..|segments| - 1][k].parentCode == Some(code);
          assert segments[k] == segments[..|segments| - 1][k];
        }
      }
      if s.segmentType == t && s.parentCode == Some(code) then rest + [s.code] else rest
  }

  /** `c` has a stored parent of type `t` whose code is one of `ps`. */
  predicate ParentAmong(segments: seq<Segment>, t: nat, c: string, ps: seq<string>)
  {
    exists p :: p in ps && IsChildOf(segments, t, p, c)
  }

  /**
   * get_all_children: each child code followed by its own descendants, depth first in
   * stored order. `fuel` bounds the depth.
   */
  function Descendants(segments: seq<Segment>, t: nat, code: string, fuel: nat): (ds: seq<string>)
    ensures forall c :: c in Children(segments, t, code) && fuel > 0 ==> c in ds
    ensures forall c :: c in ds ==> ParentAmong(segments, t, c, [code] + ds)
    decreases fuel, 1, 0
  {
    Expand(segments, t, code, Children(segments, t, code), fuel)
  }

  function Expand(segments: seq<Segment>, t: nat, parent: string, cs: seq<string>, fuel: nat): (ds: seq<string>)
    requires forall c :: c in cs ==> IsChildOf(segments, t, parent, c)
    ensures forall c :: c in cs && fuel > 0 ==> c in ds
    ensures forall c :: c in ds ==> ParentAmong(segments, t, c, [parent] + ds)
    decreases fuel, 0, |cs|
  {
    if cs == [] || fuel == 0 then []
    else
      var below := Descendants(segments, t, cs[0], fuel - 1);
      var rest := Expand(segments, t, parent, cs[1..], fuel);
      var ds := [cs[0]] + below + rest;
      assert forall c :: c in ds ==> ParentAmong(segments, t, c, [parent] + ds) by {
        forall c | c in ds
          ensures ParentAmong(segments, t, c, [parent] + ds)
        {
          if c == cs[0] {
            assert parent in [parent] + ds && IsChildOf(segments, t, parent, c);
          } else if c in below {
            assert ParentAmong(segments, t, c, [cs[0]] + below);
            var p :| p in [cs[0]] + below && IsChildOf(segments, t, p, c);
            assert p in [parent] + ds;
          } else {
            assert c in rest;
            var p :| p in [parent] + rest && IsChildOf(segments, t, p, c);
            assert p in [parent] + ds;
          }
        }
      }
      ds
  }

  /** `c` lies below (t, code) within `n` levels: a child of it, or below one of its children. */
  ghost predicate Below(segments: seq<Segment>, t: nat, code: string, c: string, n: nat)
    decreases n
  {
    n > 0 && (IsChildOf(segments, t, code, c) || exists p :: IsChildOf(segments, t, code, p) && Below(segments, t, p, c, n - 1))
  }

  /** The descendants collected are exactly the segments below the code within `fuel` levels. */
  lemma {:induction false} DescendantsAreBelow(segments: seq<Segment>, t: nat, code: string, fuel: nat, c: string)
    ensures c in Descendants(segments, t, code, fuel) <==> Below(segments, t, code, c, fuel)
    decreases fuel, 1, 0
  {
    ExpandIsBelow(segments, t, code, Children(segments, t, code), fuel, c);
  }

  lemma {:induction false} ExpandIsBelow(segments: seq<Segment>, t: nat, parent: string, cs: seq<string>, fuel: nat, c: string)
    requires forall x :: x in cs ==> IsChildOf(segments, t, parent, x)
    ensures c in Expand(segments, t, parent, cs, fuel) <==>
      fuel > 0 && exists p :: p in cs && (p == c || Below(segments, t, p, c, fuel - 1))
    decreases fuel, 0, |cs|
  {
    if cs != [] && fuel > 0 {
      DescendantsAreBelow(segments, t, cs[0], fuel - 1, c);
      ExpandIsBelow(segments, t, parent, cs[1..], fuel, c);
      var below := Descendants(segments, t, cs[0], fuel - 1);
      var rest := Expand(segments, t, parent, cs[1..], fuel);
      assert Expand(segments, t, parent, cs, fuel) == [cs[0]] + below + rest;
      if exists p :: p in cs && (p == c || Below(segments, t, p, c, fuel - 1)) {
        var p :| p in cs && (p == c || Below(segments, t, p, c, fuel - 1));
        if p != cs[0] {
          assert p in cs[1..];
        }
      }
      if c == cs[0] || c in below {
        assert cs[0] in cs;
      } else if c in rest {
        var p :| p in cs[1..] && (p == c || Below(segments, t, p, c, fuel - 1));
        assert p in cs;
      }
    }
  }

  // ---------------------------------------------------------------- combinations

  /** A segment combination: its (segment type, segment code) details. */
  datatype Combination = Combination(details: seq<(nat, string)>)

  /** An exact match: as many details as pairs requested, and every requested pair present. */
  predicate Matches(c: Combination, pairs: seq<(nat, string)>)
  {
    |c.details| == |pairs| && forall j :: 0 <= j < |pairs| ==> pairs[j] in c.details
  }

  /** find_combination: the first (lowest id) exactly matching combination; none for an empty list. */
  function FindCombination(combinations: seq<Combination>, pairs: seq<(nat, string)>): (r: Option<nat>)
    ensures pairs == [] ==> r.None?
    ensures r.Some? ==> r.value < |combinations| && Matches(combinations[r.value], pairs)
    ensures pairs != [] && r.None? ==> forall k :: 0 <= k < |combinations| ==> !Matches(combinations[k], pairs)
    ensures r.Some? ==> forall k :: 0 <= k < r.value ==> !Matches(combinations[k], pairs)
  {
    if pairs == [] || combinations == [] then None
    else if Matches(combinations[0], pairs) then Some(0)
    else
      var r := FindCombination(combinations[1..], pairs);
      if r.Some? then Some(r.value + 1) else None
  }

  datatype CombinationError =
    | EmptyCombination
    | UnknownSegmentType(segmentType: nat)
    | UnknownSegment(segmentType: nat, code: string)
    | DuplicateSegmentType(segmentType: nat)
    | CombinationImmutable(id: nat)

  /**
   * The first problem create_combination meets scanning `pairs` from position `i` with the
   * types in `seen` already used: an unknown type, then an unknown segment, then a repeated type.
   */
  function ProblemFrom(types: set<nat>, segments: seq<Segment>, pairs: seq<(nat, string)>, i: nat, seen: set<nat>): (r: Option<CombinationError>)
    requires i <= |pairs|
    ensures r.None? <==>
      (forall j :: i <= j < |pairs| ==> pairs[j].0 in types && FindSegment(segments, pairs[j].0, pairs[j].1).Some? && pairs[j].0 !in seen) &&
      (forall j, k :: i <= j < k < |pairs| ==> pairs[j].0 != pairs[k].0)
    decreases |pairs| - i
  {
    if i == |pairs| then None
    else
      var (t, code) := pairs[i];
      if t !in types then Some(UnknownSegmentType(t))
      else if FindSegment(segments, t, code).None? then Some(UnknownSegment(t, code))
      else if t in seen then Some(DuplicateSegmentType(t))
      else ProblemFrom(types, segments, pairs, i + 1, seen + {t})
  }

  /** The combination is acceptable: non-empty, known types and segments, each type once. */
  predicate WellFormedCombination(types: set<nat>, segments: seq<Segment>, pairs: seq<(nat, string)>)
  {
    && pairs != []
    && (forall j :: 0 <= j < |pairs| ==> pairs[j].0 in types && FindSegment(segments, pairs[j].0, pairs[j].1).Some?)
    && (forall j, k :: 0 <= j < k < |pairs| ==> pairs[j].0 != pairs[k].0)
  }

  lemma FindAfterAppend(combinations: seq<Combination>, c: Combination, pairs: seq<(nat, string)>)
    requires pairs != [] && FindCombination(combinations, pairs).None? && Matches(c, pairs)
    ensures FindCombination(combinations + [c], pairs) == Some(|combinations|)
  {
    var cs := combinations + [c];
    assert cs[|combinations|] == c;
    assert forall k :: 0 <= k < |combinations| ==> cs[k] == combinations[k];
  }

  // ---------------------------------------------------------------- journal entries

  datatype LineKind = Debit | Credit

  datatype JournalEntry = JournalEntry(date: int, memo: string, posted: bool)

  datatype JournalLine = JournalLine(entry: nat, amount: int, kind: LineKind, combination: nat)

  /** A general ledger row: the entry posted and the date it was submitted. */
  datatype LedgerRow = LedgerRow(entry: nat, submitted: int)

  /** The total of the lines of `entry` of the given kind; 0 when there are none. */
  function KindTotal(lines: seq<JournalLine>, entry: nat, kind: LineKind): int
  {
    if lines == [] then 0
    else
      var l := lines[|lines| - 1];
      KindTotal(lines[..|lines| - 1], entry, kind) + (if l.entry == entry && l.kind == kind then l.amount else 0)
  }

  /** The lines of one entry, in order. */
  function LinesOf(lines: seq<JournalLine>, entry: nat): (ls: seq<JournalLine>)
    ensures |ls| <= |lines|
    ensures forall l :: l in ls <==> l in lines && l.entry == entry
  {
    if lines == [] then []
    else
      var l := lines[|lines| - 1];
      var rest := LinesOf(lines[..|lines| - 1], entry);
      assert forall x :: x in lines <==> x in lines[..|lines| - 1] || x == l;
      if l.entry == entry then rest + [l] else rest
  }

  /** An entry's totals depend on its own lines only. */
  lemma {:induction false} TotalsFollowOwnLines(lines: seq<JournalLine>, entry: nat, kind: LineKind)
    ensures KindTotal(lines, entry, kind) == KindTotal(LinesOf(lines, entry), entry, kind)
  {
    if lines != [] {
      var l := lines[|lines| - 1];
      var init := lines[..|lines| - 1];
      TotalsFollowOwnLines(init, entry, kind);
      if l.entry == entry {
        var own := LinesOf(init, entry);
        assert (own + [l])[..|own + [l]| - 1] == own;
      }
    }
  }

  /** The difference debits - credits, positive when debits exceed credits. */
  function BalanceDifference(lines: seq<JournalLine>, entry: nat): int
  {
    KindTotal(lines, entry, Debit) - KindTotal(lines, entry, Credit)
  }

  /** Balanced: total debits equal total credits. */
  predicate IsBalanced(lines: seq<JournalLine>, entry: nat)
  {
    KindTotal(lines, entry, Debit) == KindTotal(lines, entry, Credit)
  }

  /** An entry without lines has both totals 0 and is balanced. */
  lemma {:induction false} NoLinesIsBalanced(lines: seq<JournalLine>, entry: nat)
    requires forall k :: 0 <= k < |lines| ==> lines[k].entry != entry
    ensures KindTotal(lines, entry, Debit) == 0 && KindTotal(lines, entry, Credit) == 0
    ensures IsBalanced(lines, entry) && BalanceDifference(lines, entry) == 0
  {
    if lines != [] {
      NoLinesIsBalanced(lines[..|lines| - 1], entry);
    }
  }

  /** Appending a line of another entry keeps this entry's totals. */
  lemma OtherLineKeepsTotals(lines: seq<JournalLine>, l: JournalLine, entry: nat, kind: LineKind)
    requires l.entry != entry
    ensures KindTotal(lines + [l], entry, kind) == KindTotal(lines, entry, kind)
  {
    assert (lines + [l])[..|lines|] == lines;
  }

  datatype JournalError =
    | AlreadyPosted(entry: nat)
    | NotBalanced(entry: nat, difference: int)
    | EntryPosted(entry: nat)

  /** Posted entries and their lines are as they were. */
  ghost predicate Frozen(entries0: map<nat, JournalEntry>, lines0: seq<JournalLine>,
                         entries1: map<nat, JournalEntry>, lines1: seq<JournalLine>)
  {
    forall e :: e in entries0 && entries0[e].posted ==>
      e in entries1 && entries1[e] == entries0[e] && LinesOf(lines1, e) == LinesOf(lines0, e)
  }

  /** Every line belongs to a stored entry. */
  ghost predicate LinesOwned(entries: map<nat, JournalEntry>, lines: seq<JournalLine>)
  {
    forall k :: 0 <= k < |lines| ==> lines[k].entry in entries
  }

  /** The lines that do not satisfy `drop` (order kept). */
  function WithoutLinesOf(lines: seq<JournalLine>, entry: nat): (ls: seq<JournalLine>)
    ensures forall l :: l in ls <==> l in lines && l.entry != entry
    ensures LinesOf(ls, entry) == []
  {
    if lines == [] then []
    else
      var l := lines[|lines| - 1];
      var rest := WithoutLinesOf(lines[..|lines| - 1], entry);
      assert forall x :: x in lines <==> x in lines[..|lines| - 1] || x == l;
      if l.entry == entry then rest else rest + [l]
  }

  function WithoutRowsOf(rows: seq<LedgerRow>, entry: nat): (rs: seq<LedgerRow>)
    ensures forall r :: r in rs <==> r in rows && r.entry != entry
  {
    if rows == [] then []
    else
      var r := rows[|rows| - 1];
      var rest := WithoutRowsOf(rows[..|rows| - 1], entry);
      assert forall x :: x in rows <==> x in rows[..|rows| - 1] || x == r;
      if r.entry == entry then rest else rest + [r]
  }

  lemma {:induction false} LinesOfConcat(a: seq<JournalLine>, b: seq<JournalLine>, entry: nat)
    ensures LinesOf(a + b, entry) == LinesOf(a, entry) + LinesOf(b, entry)
  {
    if b == [] {
      assert a + b == a;
    } else {
      var b0 := b[..|b| - 1];
      LinesOfConcat(a, b0, entry);
      assert (a + b)[..|a + b| - 1] == a + b0;
      assert (a + b)[|a + b| - 1] == b[|b| - 1];
    }
  }

  /** Removing or replacing a line of another entry keeps this entry's lines. */
  lemma SpliceKeepsLines(a: seq<JournalLine>, x: seq<JournalLine>, y: seq<JournalLine>, b: seq<JournalLine>, entry: nat)
    requires LinesOf(x, entry) == LinesOf(y, entry)
    ensures LinesOf(a + x + b, entry) == LinesOf(a + y + b, entry)
  {
    LinesOfConcat(a + x, b, entry);
    LinesOfConcat(a, x, entry);
    LinesOfConcat(a + y, b, entry);
    LinesOfConcat(a, y, entry);
  }

  lemma {:induction false} WithoutKeepsOthers(lines: seq<JournalLine>, gone: nat, entry: nat)
    requires gone != entry
    ensures LinesOf(WithoutLinesOf(lines, gone), entry) == LinesOf(lines, entry)
  {
    if lines != [] {
      var init := lines[..|lines| - 1];
      var l := lines[|lines| - 1];
      WithoutKeepsOthers(init, gone, entry);
      if l.entry != gone {
        var w := WithoutLinesOf(init, gone);
        assert (w + [l])[..|w + [l]| - 1] == w;
      }
    }
  }

  /** Deleting a draft entry with its lines leaves every line owned and every posted entry as it was. */
  lemma DeleteKeepsPosted(entries: map<nat, JournalEntry>, lines: seq<JournalLine>, e: nat)
    requires LinesOwned(entries, lines) && e in entries && !entries[e].posted
    ensures LinesOwned(entries - {e}, WithoutLinesOf(lines, e))
    ensures Frozen(entries, lines, entries - {e}, WithoutLinesOf(lines, e))
  {
    var rest := WithoutLinesOf(lines, e);
    forall k | 0 <= k < |rest| ensures rest[k].entry in entries - {e} {
      assert rest[k] in rest;
    }
    forall e' | e' in entries && entries[e'].posted
      ensures LinesOf(rest, e') == LinesOf(lines, e')
    {
      WithoutKeepsOthers(lines, e, e');
    }
  }

  datatype SegmentError = UsedInTransactions(code: string) | HasChildSegments(code: string, count: nat)

  datatype CombinationChange = Resave | Remove

  /** A segment is used in transactions when a combination holding it is referenced by a journal line. */
  predicate SegmentInUse(combinations: seq<Combination>, lines: seq<JournalLine>, t: nat, code: string)
  {
    exists k :: 0 <= k < |lines| && lines[k].combination < |combinations|
      && (t, code) in combinations[lines[k].combination].details
  }

  /** A combination's details without the pair `p`, as the cascade on deleting its segment leaves them. */
  function WithoutPair(details: seq<(nat, string)>, p: (nat, string)): (r: seq<(nat, string)>)
    ensures forall x :: x in r <==> x in details && x != p
    ensures |r| <= |details|
  {
    if details == [] then []
    else WithoutPair(details[..|details| - 1], p) + (if details[|details| - 1] == p then [] else [details[|details| - 1]])
  }

  /** A combination without the pair keeps its details as they were. */
  lemma {:induction false} WithoutAbsentPair(details: seq<(nat, string)>, p: (nat, string))
    requires p !in details
    ensures WithoutPair(details, p) == details
  {
    if details != [] {
      WithoutAbsentPair(details[..|details| - 1], p);
    }
  }

  /** Every combination after the detail rows of the segment `p` are cascade-deleted. */
  function CascadePair(combinations: seq<Combination>, p: (nat, string)): (r: seq<Combination>)
    ensures |r| == |combinations|
    ensures forall j :: 0 <= j < |r| ==> r[j].details == WithoutPair(combinations[j].details, p)
  {
    seq(|combinations|, j requires 0 <= j < |combinations| => Combination(WithoutPair(combinations[j].details, p)))
  }

  /**
   * Deleting a segment no journal line uses leaves every combination a line references as it was,
   * and afterwards no combination holding the deleted segment can be found.
   */
  lemma CascadeSparesReferenced(combinations: seq<Combination>, lines: seq<JournalLine>, p: (nat, string), pairs: seq<(nat, string)>)
    requires !SegmentInUse(combinations, lines, p.0, p.1)
    ensures forall k :: 0 <= k < |lines| && lines[k].combination < |combinations| ==>
      CascadePair(combinations, p)[lines[k].combination] == combinations[lines[k].combination]
    ensures p in pairs ==> FindCombination(CascadePair(combinations, p), pairs).None?
  {
    var after := CascadePair(combinations, p);
    forall k | 0 <= k < |lines| && lines[k].combination < |combinations|
      ensures after[lines[k].combination] == combinations[lines[k].combination]
    {
      var c := lines[k].combination;
      WithoutAbsentPair(combinations[c].details, p);
    }
  }

  /** The ledger's stored rows: segment values, combinations, journal entries and lines, GL rows. */
  class Ledger {
    var segmentTypes: set<nat>
    var segments: seq<Segment>
    var combinations: seq<Combination>
    var entries: map<nat, JournalEntry>
    var nextEntry: nat
    var lines: seq<JournalLine>
    var rows: seq<LedgerRow>

    ghost predicate Valid()
      reads this
    {
      LinesOwned(entries, lines) && forall e :: e in entries ==> e < nextEntry
    }

    constructor (segmentTypes: set<nat>, segments: seq<Segment>)
      ensures Valid()
      ensures this.segmentTypes == segmentTypes && this.segments == segments
      ensures combinations == [] && entries == map[] && lines == [] && rows == []
    {
      this.segmentTypes := segmentTypes;
      this.segments := segments;
      combinations := [];
      entries := map[];
      nextEntry := 0;
      lines := [];
      rows := [];
    }

    /** full_path: walks up the parent codes, putting each ancestor's code in front. */
    method FullPath(i: nat) returns (p: string)
      requires i < |segments|
      ensures p == Join(Ancestry(segments, i, |segments|), " > ")
    {
      var path := WalkUp(segments, i);
      p := Join(path, " > ");
    }

    function AllChildren(i: nat): seq<string>
      requires i < |segments|
      reads this
    {
      Descendants(segments, segments[i].segmentType, segments[i].code, |segments|)
    }

    /**
     * Deleting a segment fails when it is used in transactions, then when it has children;
     * otherwise the segment goes and the database cascade removes its detail rows from the
     * combinations no journal line references.
     */
    method DeleteSegment(i: nat) returns (r: Result<(), SegmentError>)
      requires i < |segments|
      modifies this
      ensures var s := old(segments[i]);
        r.Failure? <==> SegmentInUse(combinations, lines, s.segmentType, s.code) || Children(old(segments), s.segmentType, s.code) != []
      ensures var s := old(segments[i]);
        SegmentInUse(combinations, lines, s.segmentType, s.code) ==> r == Failure(UsedInTransactions(s.code))
      ensures r.Failure? ==> segments == old(segments)
      ensures r.Success? ==> segments == old(segments[..i] + segments[i + 1..])
      ensures r.Failure? ==> combinations == old(combinations)
      ensures r.Success? ==> combinations == CascadePair(old(combinations), (old(segments[i]).segmentType, old(segments[i]).code))
      ensures forall k :: 0 <= k < |lines| && lines[k].combination < |combinations| ==>
        combinations[lines[k].combination] == old(combinations)[lines[k].combination]
      ensures segmentTypes == old(segmentTypes)
      ensures entries == old(entries) && nextEntry == old(nextEntry) && lines == old(lines) && rows == old(rows)
    {
      var s := segments[i];
      if SegmentInUse(combinations, lines, s.segmentType, s.code) {
        return Failure(UsedInTransactions(s.code));
      }
      var children := Children(segments, s.segmentType, s.code);
      if children != [] {
        return Failure(HasChildSegments(s.code, |children|));
      }
      CascadeSparesReferenced(combinations, lines, (s.segmentType, s.code), []);
      segments := segments[..i] + segments[i + 1..];
      combinations := CascadePair(combinations, (s.segmentType, s.code));
      r := Success(());
    }

    /** Saving an existing combination again, or deleting one, always raises. */
    method ChangeCombination(id: nat, change: CombinationChange) returns (r: Result<(), CombinationError>)
      ensures r == Failure(CombinationImmutable(id))
    {
      r := Failure(CombinationImmutable(id));
    }

    /**
     * create_combination: rejects an empty list, then checks each pair in order (known type,
     * known segment, type not yet used) and stores the combination with its details.
     */
    method CreateCombination(pairs: seq<(nat, string)>) returns (r: Result<nat, CombinationError>)
      modifies this
      ensures pairs == [] ==> r == Failure(EmptyCombination)
      ensures pairs != [] && r.Failure? ==> ProblemFrom(segmentTypes, segments, pairs, 0, {}) == Some(r.error)
      ensures r.Success? <==> WellFormedCombination(segmentTypes, segments, pairs)
      ensures r.Failure? ==> combinations == old(combinations)
      ensures r.Success? ==> combinations == old(combinations) + [Combination(pairs)] && r.value == old(|combinations|)
      ensures segmentTypes == old(segmentTypes) && segments == old(segments)
      ensures entries == old(entries) && nextEntry == old(nextEntry) && lines == old(lines) && rows == old(rows)
    {
      if pairs == [] {
        return Failure(EmptyCombination);
      }
      var seen: set<nat> := {};
      var i := 0;
      while i < |pairs|
        invariant 0 <= i <= |pairs|
        invariant ProblemFrom(segmentTypes, segments, pairs, 0, {}) == ProblemFrom(segmentTypes, segments, pairs, i, seen)
      {
        var (t, code) := pairs[i];
        if t !in segmentTypes {
          return Failure(UnknownSegmentType(t));
        }
        if FindSegment(segments, t, code).None? {
          return Failure(UnknownSegment(t, code));
        }
        if t in seen {
          return Failure(DuplicateSegmentType(t));
        }
        seen := seen + {t};
        i := i + 1;
      }
      assert ProblemFrom(segmentTypes, segments, pairs, 0, {}).None?;
      combinations := combinations + [Combination(pairs)];
      r := Success(|combinations| - 1);
    }

    /**
     * get_combination_id: the id of the exactly matching combination if there is one,
     * otherwise the id of a newly created one. Asking twice gives the same id.
     */
    method GetCombinationId(pairs: seq<(nat, string)>) returns (r: Result<nat, CombinationError>)
      modifies this
      ensures old(FindCombination(combinations, pairs)).Some? ==>
        r == Success(old(FindCombination(combinations, pairs)).value) && combinations == old(combinations)
      ensures old(FindCombination(combinations, pairs)).None? ==>
        (r.Success? <==> WellFormedCombination(segmentTypes, segments, pairs))
      ensures r.Success? ==> FindCombination(combinations, pairs) == Some(r.value)
      ensures r.Failure? ==> combinations == old(combinations)
      ensures |old(combinations)| <= |combinations| && combinations[..|old(combinations)|] == old(combinations)
      ensures segmentTypes == old(segmentTypes) && segments == old(segments)
      ensures entries == old(entries) && nextEntry == old(nextEntry) && lines == old(lines) && rows == old(rows)
    {
      var existing := FindCombination(combinations, pairs);
      if existing.Some? {
        return Success(existing.value);
      }
      r := CreateCombination(pairs);
      if r.Success? {
        FindAfterAppend(old(combinations), Combination(pairs), pairs);
      }
    }

    /** Adds a new journal entry (a new record may be saved in any state). */
    method AddEntry(entry: JournalEntry) returns (id: nat)
      requires Valid()
      modifies this
      ensures Valid()
      ensures id !in old(entries) && entries == old(entries)[id := entry]
      ensures Frozen(old(entries), old(lines), entries, lines)
      ensures segmentTypes == old(segmentTypes) && segments == old(segments) && combinations == old(combinations)
      ensures lines == old(lines) && rows == old(rows)
    {
      id := nextEntry;
      entries := entries[id := entry];
      nextEntry := nextEntry + 1;
    }

    /** Re-saving an existing entry fails once it is posted. */
    method UpdateEntry(e: nat, updated: JournalEntry) returns (r: Result<(), JournalError>)
      requires Valid() && e in entries
      modifies this
      ensures Valid()
      ensures r.Failure? <==> old(entries[e].posted)
      ensures r.Failure? ==> entries == old(entries)
      ensures r.Success? ==> entries == old(entries)[e := updated]
      ensures Frozen(old(entries), old(lines), entries, lines)
      ensures segmentTypes == old(segmentTypes) && segments == old(segments) && combinations == old(combinations)
      ensures nextEntry == old(nextEntry) && lines == old(lines) && rows == old(rows)
    {
      if entries[e].posted {
        return Failure(EntryPosted(e));
      }
      entries := entries[e := updated];
      r := Success(());
    }

    /** Deleting an entry fails once it is posted; otherwise its lines and GL rows go with it. */
    method DeleteEntry(e: nat) returns (r: Result<(), JournalError>)
      requires Valid() && e in entries
      modifies this
      ensures Valid()
      ensures r.Failure? <==> old(entries[e].posted)
      ensures r.Failure? ==> entries == old(entries) && lines == old(lines) && rows == old(rows)
      ensures r.Success? ==> entries == old(entries) - {e}
      ensures r.Success? ==> lines == WithoutLinesOf(old(lines), e) && rows == WithoutRowsOf(old(rows), e)
      ensures Frozen(old(entries), old(lines), entries, lines)
      ensures segmentTypes == old(segmentTypes) && segments == old(segments) && combinations == old(combinations)
      ensures nextEntry == old(nextEntry)
    {
      if entries[e].posted {
        return Failure(EntryPosted(e));
      }
      DeleteKeepsPosted(entries, lines, e);
      entries := entries - {e};
      lines := WithoutLinesOf(lines, e);
      rows := WithoutRowsOf(rows, e);
      r := Success(());
    }

    /**
     * post: refuses an entry already posted, then an unbalanced one; otherwise marks it
     * posted and adds exactly one general ledger row dated `today`.
     */
    method Post(e: nat, today: int) returns (r: Result<LedgerRow, JournalError>)
      requires Valid() && e in entries
      modifies this
      ensures Valid()
      ensures old(entries[e].posted) ==> r == Failure(AlreadyPosted(e))
      ensures r.Failure? <==> old(entries[e].posted) || !IsBalanced(lines, e)
      ensures r.Failure? ==> entries == old(entries) && rows == old(rows)
      ensures r.Success? ==> entries == old(entries)[e := old(entries[e]).(posted := true)]
      ensures r.Success? ==> r.value == LedgerRow(e, today) && rows == old(rows) + [r.value]
      ensures Frozen(old(entries), old(lines), entries, lines)
      ensures segmentTypes == old(segmentTypes) && segments == old(segments) && combinations == old(combinations)
      ensures nextEntry == old(nextEntry) && lines == old(lines)
    {
      if entries[e].posted {
        return Failure(AlreadyPosted(e));
      }
      if !IsBalanced(lines, e) {
        return Failure(NotBalanced(e, BalanceDifference(lines, e)));
      }
      entries := entries[e := entries[e].(posted := true)];
      var row := LedgerRow(e, today);
      rows := rows + [row];
      r := Success(row);
    }

    /** Saving a new line fails when its entry is posted. */
    method AddLine(line: JournalLine) returns (r: Result<(), JournalError>)
      requires Valid() && line.entry in entries
      modifies this
      ensures Valid()
      ensures r.Failure? <==> old(entries[line.entry].posted)
      ensures r.Failure? ==> lines == old(lines)
      ensures r.Success? ==> lines == old(lines) + [line]
      ensures Frozen(old(entries), old(lines), entries, lines)
      ensures segmentTypes == old(segmentTypes) && segments == old(segments) && combinations == old(combinations)
      ensures entries == old(entries) && nextEntry == old(nextEntry) && rows == old(rows)
    {
      if entries[line.entry].posted {
        return Failure(EntryPosted(line.entry));
      }
      forall e | e in entries && entries[e].posted
        ensures LinesOf(lines + [line], e) == LinesOf(lines, e)
      {
        LinesOfConcat(lines, [line], e);
        assert [line][..0] == [];
      }
      lines := lines + [line];
      r := Success(());
    }

    /** Re-saving line `k` fails when its new entry, or the entry it was attached to, is posted. */
    method UpdateLine(k: nat, line: JournalLine) returns (r: Result<(), JournalError>)
      requires Valid() && k < |lines| && line.entry in entries
      modifies this
      ensures Valid()
      ensures r.Failure? <==> old(entries[line.entry].posted) || old(entries[lines[k].entry].posted)
      ensures r.Failure? ==> lines == old(lines)
      ensures r.Success? ==> lines == old(lines)[k := line]
      ensures Frozen(old(entries), old(lines), entries, lines)
      ensures segmentTypes == old(segmentTypes) && segments == old(segments) && combinations == old(combinations)
      ensures entries == old(entries) && nextEntry == old(nextEntry) && rows == old(rows)
    {
      if entries[line.entry].posted {
        return Failure(EntryPosted(line.entry));
      }
      if entries[lines[k].entry].posted {
        return Failure(EntryPosted(lines[k].entry));
      }
      forall e | e in entries && entries[e].posted
        ensures LinesOf(lines[k := line], e) == LinesOf(lines, e)
      {
        assert lines == lines[..k] + [lines[k]] + lines[k + 1..];
        assert lines[k := line] == lines[..k] + [line] + lines[k + 1..];
        assert [line][..0] == [] && [lines[k]][..0] == [];
        SpliceKeepsLines(lines[..k], [lines[k]], [line], lines[k + 1..], e);
      }
      lines := lines[k := line];
      r := Success(());
    }

    /** Deleting line `k` fails when its entry is posted. */
    method DeleteLine(k: nat) returns (r: Result<(), JournalError>)
      requires Valid() && k < |lines|
      modifies this
      ensures Valid()
      ensures r.Failure? <==> old(entries[lines[k].entry].posted)
      ensures r.Failure? ==> lines == old(lines)
      ensures r.Success? ==> lines == old(lines[..k] + lines[k + 1..])
      ensures Frozen(old(entries), old(lines), entries, lines)
      ensures segmentTypes == old(segmentTypes) && segments == old(segments) && combinations == old(combinations)
      ensures entries == old(entries) && nextEntry == old(nextEntry) && rows == old(rows)
    {
      if entries[lines[k].entry].posted {
        return Failure(EntryPosted(lines[k].entry));
      }
      forall e | e in entries && entries[e].posted
        ensures LinesOf(lines[..k] + lines[k + 1..], e) == LinesOf(lines, e)
      {
        assert lines == lines[..k] + [lines[k]] + lines[k + 1..];
        assert lines[..k] + lines[k + 1..] == lines[..k] + [] + lines[k + 1..];
        assert [lines[k]][..0] == [];
        SpliceKeepsLines(lines[..k], [lines[k]], [], lines[k + 1..], e);
      }
      lines := lines[..k] + lines[k + 1..];
      r := Success(());
    }
  }
}
