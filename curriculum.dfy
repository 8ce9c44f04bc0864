/** The curriculum rows of the dashboard and the rules that pick a major's
    courses out of the catalog and split them into categories. */
module Curriculum {
  import opened Seqs
  import opened PyStr

  /** One normalised catalog row. `index` is the row's pandas index;
      `credits` and `term` are already coerced (an unparseable cell is 0);
      `group`, `majorRef` and `category` are `None` where the cell is NaN;
      `displayLabel` is the row's `display_label` in the elective tables. */
  datatype Row = Row(
    index: nat,
    subjectId: string,
    credits: real,
    term: real,
    group: Option<string>,
    majorRef: Option<string>,
    specialType: string,
    category: Option<string>,
    displayLabel: string)

  // The `special_type` values that name a category of a major's own courses.
  const NormalSubject := "Normal Subject"
  const MajorElectiveSubject := "Major Elective Subject"
  const CooperativeEducation := "Cooperative Education"
  const MajorProject := "Major Project"

  /** `[m.strip().upper() for m in s.split(',')]`. */
  function MajorTokens(s: string): (tokens: seq<string>)
    ensures |tokens| == |Split(s, ',')|
  {
    Normalize(Split(s, ','))
  }

  /** `check_major_match`: a missing reference matches nothing; otherwise the
      upper-cased target must equal one of the trimmed, upper-cased entries. */
  function MajorMatch(majorRef: Option<string>, target: string): (r: bool)
    ensures majorRef.None? ==> !r
  {
    match majorRef
    case None => false
    case Some(s) => Upper(target) in MajorTokens(s)
  }

  /** A reference written as comma-free entries joined by commas matches a
      target exactly when some entry matches it up to surrounding whitespace
      and letter case. */
  lemma MajorMatchEntries(entries: seq<string>, target: string)
    requires |entries| >= 1
    requires forall i :: 0 <= i < |entries| ==> ',' !in entries[i]
    ensures MajorMatch(Some(Join(entries, ',')), target)
      <==> exists i :: 0 <= i < |entries| && Upper(Strip(entries[i])) == Upper(target)
  {
    SplitJoin(entries, ',');
    var tokens := MajorTokens(Join(entries, ','));
    if MajorMatch(Some(Join(entries, ',')), target) {
      var k :| 0 <= k < |tokens| && tokens[k] == Upper(target);
      assert Upper(Strip(entries[k])) == Upper(target);
    }
    if exists i :: 0 <= i < |entries| && Upper(Strip(entries[i])) == Upper(target) {
      var k :| 0 <= k < |entries| && Upper(Strip(entries[k])) == Upper(target);
      assert tokens[k] == Upper(target);
    }
  }

  /** Trimming and upper-casing the pieces of a list, piece by piece. */
  function Normalize(parts: seq<string>): (tokens: seq<string>)
    ensures |tokens| == |parts|
  {
    seq(|parts|, i requires 0 <= i < |parts| => Upper(Strip(parts[i])))
  }

  lemma NormalizeAppend(p: seq<string>, q: seq<string>)
    ensures Normalize(p + q) == Normalize(p) + Normalize(q)
  {
    forall i | 0 <= i < |p + q| ensures Normalize(p + q)[i] == (Normalize(p) + Normalize(q))[i] {
      if i < |p| {
        assert (p + q)[i] == p[i];
      } else {
        assert (p + q)[i] == q[i - |p|];
      }
    }
  }

  /** A reference `a,b` matches exactly what `a` or `b` matches. */
  lemma MajorMatchConcat(a: string, b: string, target: string)
    ensures MajorMatch(Some(a + [','] + b), target)
      <==> MajorMatch(Some(a), target) || MajorMatch(Some(b), target)
  {
    SplitConcat(a, b, ',');
    NormalizeAppend(Split(a, ','), Split(b, ','));
  }

  /** Matching ignores the letter case of the target. */
  lemma MajorMatchIgnoresTargetCase(majorRef: Option<string>, target: string)
    ensures MajorMatch(majorRef, Upper(target)) == MajorMatch(majorRef, target)
  {
    UpperIdempotent(target);
  }

  /** A reference with one entry matches exactly the targets equal to that
      entry up to surrounding whitespace and letter case. */
  lemma MajorMatchSingle(s: string, target: string)
    requires ',' !in s
    ensures MajorMatch(Some(s), target) <==> Upper(Strip(s)) == Upper(target)
  {
    SplitWithoutSeparator(s, ',');
    assert MajorTokens(s) == [Upper(Strip(s))];
  }

  /** "CPE, SE" lists the major "se". */
  lemma MajorMatchExample()
    ensures MajorMatch(Some("CPE, SE"), "se")
  {
    CpeSeEntries();
    assert Upper("se") == "SE";
    MajorMatchConcat("CPE", " SE", "se");
    MajorMatchSingle(" SE", "se");
  }

  /** "CPE, SE" does not list "CP": entries are compared whole. */
  lemma MajorMatchWholeEntryExample()
    ensures !MajorMatch(Some("CPE, SE"), "CP")
  {
    CpeSeEntries();
    assert Upper("CP") == "CP";
    MajorMatchConcat("CPE", " SE", "CP");
    MajorMatchSingle("CPE", "CP");
    MajorMatchSingle(" SE", "CP");
  }

  /** The two entries of "CPE, SE" after trimming and upper-casing. */
  lemma CpeSeEntries()
    ensures "CPE, SE" == "CPE" + [','] + " SE"
    ensures ',' !in "CPE" && ',' !in " SE"
    ensures Upper(Strip("CPE")) == "CPE" && Upper(Strip(" SE")) == "SE"
  {
    assert Upper(Strip("CPE")) == "CPE" by {
      CapitalWord("CPE");
      NormalizedEntry("", "CPE");
    }
    assert Upper(Strip(" SE")) == "SE" by {
      CapitalWord("SE");
      assert AllSpace(" ") by { assert IsSpace(' '); }
      NormalizedEntry(" ", "SE");
    }
  }

  /** A word of capital ASCII letters is its own upper case and neither
      starts nor ends with whitespace. */
  lemma CapitalWord(w: string)
    requires w != [] && forall i :: 0 <= i < |w| ==> 'A' <= w[i] <= 'Z'
    ensures Upper(w) == w && !IsSpace(w[0]) && !IsSpace(w[|w| - 1])
  {
    assert forall i :: 0 <= i < |w| ==> Upper(w)[i] == w[i];
    CapitalNotSpace(w[0]);
    CapitalNotSpace(w[|w| - 1]);
  }

  lemma CapitalNotSpace(c: char)
    requires 'A' <= c <= 'Z'
    ensures !IsSpace(c)
  {
  }

  /** An upper-case entry after leading whitespace normalises to itself. */
  lemma NormalizedEntry(pre: string, core: string)
    requires AllSpace(pre)
    requires core != [] && !IsSpace(core[0]) && !IsSpace(core[|core| - 1])
    requires Upper(core) == core
    ensures Upper(Strip(pre + core)) == core
  {
    assert pre + core == pre + core + "";
    StripPadded(pre, core, "");
  }

  /** The rows of the core table listed for the major `abbr` (`all_major_courses`). */
  function MajorCourses(catalog: seq<Row>, abbr: string): seq<Row> {
    Filter(ListsMajor(abbr), catalog)
  }

  /** The affinity test of one row, as a mask over the table. */
  function ListsMajor(abbr: string): Row -> bool {
    (r: Row) => MajorMatch(r.majorRef, abbr)
  }

  predicate IsCore(r: Row) { r.specialType == NormalSubject }
  predicate IsPlanElective(r: Row) { r.specialType == MajorElectiveSubject }
  predicate IsCoop(r: Row) { r.specialType == CooperativeEducation }
  predicate IsProject(r: Row) { r.specialType == MajorProject }
  predicate IsCapstone(r: Row) { IsCoop(r) || IsProject(r) }

  function CoreSubjects(courses: seq<Row>): seq<Row> { Filter(IsCore, courses) }
  function PlanElectives(courses: seq<Row>): seq<Row> { Filter(IsPlanElective, courses) }
  function CapstoneSubjects(courses: seq<Row>): seq<Row> { Filter(IsCapstone, courses) }
  function CoopSubjects(capstone: seq<Row>): seq<Row> { Filter(IsCoop, capstone) }
  function ProjectSubjects(capstone: seq<Row>): seq<Row> { Filter(IsProject, capstone) }

  /** A catalog row is among the major's courses, as often as in the catalog,
      exactly when its reference matches the major. */
  lemma MajorCoursesExactly(catalog: seq<Row>, abbr: string, x: Row)
    ensures multiset(MajorCourses(catalog, abbr))[x]
      == if MajorMatch(x.majorRef, abbr) then multiset(catalog)[x] else 0
    ensures x in MajorCourses(catalog, abbr) <==> x in catalog && MajorMatch(x.majorRef, abbr)
  {
    FilterCount(ListsMajor(abbr), catalog, x);
  }

  /** Every occurrence of a course with a listed `special_type` lands in
      exactly one of core, plan, co-op and project, and a course of any other
      type in none of them. */
  lemma CategoryPartition(courses: seq<Row>, x: Row)
    ensures var n := multiset(courses)[x];
      multiset(CoreSubjects(courses))[x] + multiset(PlanElectives(courses))[x]
      + multiset(CoopSubjects(CapstoneSubjects(courses)))[x]
      + multiset(ProjectSubjects(CapstoneSubjects(courses)))[x]
      == if IsCore(x) || IsPlanElective(x) || IsCapstone(x) then n else 0
    ensures multiset(CapstoneSubjects(courses))[x]
      == multiset(CoopSubjects(CapstoneSubjects(courses)))[x]
      + multiset(ProjectSubjects(CapstoneSubjects(courses)))[x]
  {
    FilterCount(IsCore, courses, x);
    FilterCount(IsPlanElective, courses, x);
    FilterCount(IsCapstone, courses, x);
    FilterCount(IsCoop, CapstoneSubjects(courses), x);
    FilterCount(IsProject, CapstoneSubjects(courses), x);
  }

  /** The category subsets are pairwise disjoint, and each holds exactly the
      courses of its type. */
  lemma CategoriesDisjoint(courses: seq<Row>, x: Row)
    ensures x in CoreSubjects(courses) <==> x in courses && IsCore(x)
    ensures x in PlanElectives(courses) <==> x in courses && IsPlanElective(x)
    ensures x in CoopSubjects(CapstoneSubjects(courses)) <==> x in courses && IsCoop(x)
    ensures x in ProjectSubjects(CapstoneSubjects(courses)) <==> x in courses && IsProject(x)
    ensures x in CoreSubjects(courses) ==> x !in PlanElectives(courses) && x !in CapstoneSubjects(courses)
    ensures x in PlanElectives(courses) ==> x !in CapstoneSubjects(courses)
    ensures x in CoopSubjects(CapstoneSubjects(courses)) ==> x !in ProjectSubjects(CapstoneSubjects(courses))
  {
    FilterCount(IsCore, courses, x);
    FilterCount(IsPlanElective, courses, x);
    FilterCount(IsCapstone, courses, x);
    FilterCount(IsCoop, CapstoneSubjects(courses), x);
    FilterCount(IsProject, CapstoneSubjects(courses), x);
  }

  /** `group` after `fillna('')`, `astype(str)` and the `'nan'` rewrite. */
  function GroupLabel(r: Row): (g: string)
    ensures g != "nan"
    ensures g == "" <==> r.group.None? || r.group.value in {"", "nan"}
    ensures r.group.Some? && r.group.value != "nan" ==> g == r.group.value
  {
    match r.group
    case None => ""
    case Some(s) => if s == "nan" then "" else s
  }

  /** `'.' not in group_name.split(' ')[0]`: a label is a top-level group
      when its first space-delimited token holds no dot. */
  predicate IsMainGroup(g: string) {
    '.' !in Split(g, ' ')[0]
  }

  /** A label is a top-level group exactly when every dot in it comes after
      some space. */
  lemma MainGroupIff(g: string)
    ensures IsMainGroup(g) <==> forall i :: 0 <= i < |g| && g[i] == '.' ==> ' ' in g[..i]
  {
    var first := Split(g, ' ')[0];
    if IsMainGroup(g) {
      forall i | 0 <= i < |g| && g[i] == '.' ensures ' ' in g[..i] {
        SplitFirst(g, ' ', i);
        assert g[..i + 1] == g[..i] + [g[i]];
      }
    } else {
      var k :| 0 <= k < |first| && first[k] == '.';
      SplitFirst(g, ' ', k);
      assert g[k] == '.';
      assert g[..k + 1] == g[..k] + [g[k]];
      assert ' ' !in g[..k];
    }
  }

  /** "1 Language" and "1 กลุ่มภาษา" are top-level groups. */
  lemma MainGroupExamples()
    ensures IsMainGroup("1 Language") && IsMainGroup("1 กลุ่มภาษา")
  {
    FirstTokenOf("1", "Language");
    FirstTokenOf("1", "กลุ่มภาษา");
  }

  /** "1.1 English" and "1.1 ภาษาอังกฤษ" are sub-groups. */
  lemma SubGroupExamples()
    ensures !IsMainGroup("1.1 English") && !IsMainGroup("1.1 ภาษาอังกฤษ")
  {
    FirstTokenOf("1.1", "English");
    FirstTokenOf("1.1", "ภาษาอังกฤษ");
    assert "1.1"[1] == '.';
  }

  /** The first token of `head + " " + tail` is `head` when `head` has no space. */
  lemma FirstTokenOf(head: string, tail: string)
    requires ' ' !in head
    ensures Split(head + " " + tail, ' ')[0] == head
  {
    assert head + " " + tail == head + [' '] + tail;
    SplitConcat(head, tail, ' ');
    SplitWithoutSeparator(head, ' ');
  }
}
