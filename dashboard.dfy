/** The page of the dashboard: the tabs that fill the six category counters
    and the list of selected subjects, and the summary computed from them. */
module Dashboard {
  import opened Seqs
  import opened Curriculum
  import opened Checkboxes

  // ----- the core tab -----

  predicate RealLess(a: real, b: real) { a < b }

  lemma RealLessIsStrictTotalOrder()
    ensures StrictTotalOrder(RealLess)
  {
  }

  function TermOf(r: Row): real { r.term }

  function Terms(rows: seq<Row>): seq<real> {
    seq(|rows|, i requires 0 <= i < |rows| => rows[i].term)
  }

  /** `sorted(core_subjects['term'].unique())`. */
  function UniqueTerms(core: seq<Row>): seq<real> {
    SortedUnique(Terms(core), RealLess)
  }

  /** The checkboxes of the core rows of term `t`: keyed by subject id, the
      selected term and the major, and on by default when `t` is not later
      than the selected term. */
  function TermVisits(rows: seq<Row>, t: real, selectedTerm: real, abbr: string): seq<Visit> {
    seq(|rows|, i requires 0 <= i < |rows| =>
      Visit(rows[i], CoreBox(rows[i].subjectId, selectedTerm, abbr), t <= selectedTerm))
  }

  function TermSections(core: seq<Row>, terms: seq<real>, selectedTerm: real, abbr: string): seq<Visit>
    decreases |terms|
  {
    if terms == [] then []
    else
      var t := terms[|terms| - 1];
      TermSections(core, terms[..|terms| - 1], selectedTerm, abbr)
        + TermVisits(Bucket(core, TermOf, t), t, selectedTerm, abbr)
  }

  /** Every core checkbox, term by term in ascending order. */
  function CoreVisits(core: seq<Row>, selectedTerm: real, abbr: string): seq<Visit> {
    TermSections(core, UniqueTerms(core), selectedTerm, abbr)
  }

  /** The co-operative education checkboxes, keyed by row index and major, off by default. */
  function CoopVisits(coop: seq<Row>, abbr: string): seq<Visit> {
    seq(|coop|, i requires 0 <= i < |coop| => Visit(coop[i], CoopBox(coop[i].index, abbr), false))
  }

  /** The major project checkboxes, keyed by row index and major, off by default. */
  function ProjectVisits(proj: seq<Row>, abbr: string): seq<Visit> {
    seq(|proj|, i requires 0 <= i < |proj| => Visit(proj[i], ProjectBox(proj[i].index, abbr), false))
  }

  function CapstoneVisits(capstone: seq<Row>, abbr: string): seq<Visit> {
    CoopVisits(CoopSubjects(capstone), abbr) + ProjectVisits(ProjectSubjects(capstone), abbr)
  }

  lemma TermSectionsStep(ui: BoxStates, core: seq<Row>, terms: seq<real>, k: nat, selectedTerm: real, abbr: string)
    requires k < |terms|
    ensures var done := Ticked(ui, TermSections(core, terms[..k], selectedTerm, abbr));
            var now := Ticked(ui, TermVisits(Bucket(core, TermOf, terms[k]), terms[k], selectedTerm, abbr));
            && Ticked(ui, TermSections(core, terms[..k + 1], selectedTerm, abbr)) == done + now
            && Credits(Ticked(ui, TermSections(core, terms[..k + 1], selectedTerm, abbr))) == Credits(done) + Credits(now)
  {
    assert terms[..k + 1][..k] == terms[..k];
    var t := terms[k];
    TickedAppend(ui, TermSections(core, terms[..k], selectedTerm, abbr),
                 TermVisits(Bucket(core, TermOf, t), t, selectedTerm, abbr));
    CreditsAppend(Ticked(ui, TermSections(core, terms[..k], selectedTerm, abbr)),
                  Ticked(ui, TermVisits(Bucket(core, TermOf, t), t, selectedTerm, abbr)));
  }

  /** The loop of the core tab over the terms in ascending order. */
  method RenderTerms(core: seq<Row>, terms: seq<real>, selectedTerm: real, abbr: string, ui: BoxStates,
                     cell: CreditCell, log: SelectedSubjects)
    modifies cell, log
    ensures log.rows == old(log.rows) + Ticked(ui, TermSections(core, terms, selectedTerm, abbr))
    ensures cell.value == old(cell.value) + Credits(Ticked(ui, TermSections(core, terms, selectedTerm, abbr)))
  {
    assert terms[..0] == [];
    for k := 0 to |terms|
      invariant log.rows == old(log.rows) + Ticked(ui, TermSections(core, terms[..k], selectedTerm, abbr))
      invariant cell.value == old(cell.value) + Credits(Ticked(ui, TermSections(core, terms[..k], selectedTerm, abbr)))
    {
      var t := terms[k];
      var subs := Bucket(core, TermOf, t);
      ghost var done := Ticked(ui, TermSections(core, terms[..k], selectedTerm, abbr));
      TermSectionsStep(ui, core, terms, k, selectedTerm, abbr);
      TickAll(TermVisits(subs, t, selectedTerm, abbr), ui, cell, log);
      AppendAssoc(old(log.rows), done, Ticked(ui, TermVisits(subs, t, selectedTerm, abbr)));
    }
    assert terms[..|terms|] == terms;
  }

  /** The core tab: the core rows of the major term by term, then, when the
      major has capstone rows, its co-operative education rows and its
      project rows, which count towards the capstone counter. */
  method RenderCoreTab(courses: seq<Row>, selectedTerm: real, abbr: string, ui: BoxStates,
                       coreCell: CreditCell, capstoneCell: CreditCell, log: SelectedSubjects)
    requires coreCell != capstoneCell
    modifies coreCell, capstoneCell, log
    ensures log.rows == old(log.rows) + Ticked(ui, CoreVisits(CoreSubjects(courses), selectedTerm, abbr))
                                      + Ticked(ui, CapstoneVisits(CapstoneSubjects(courses), abbr))
    ensures coreCell.value == old(coreCell.value) + Credits(Ticked(ui, CoreVisits(CoreSubjects(courses), selectedTerm, abbr)))
    ensures capstoneCell.value == old(capstoneCell.value) + Credits(Ticked(ui, CapstoneVisits(CapstoneSubjects(courses), abbr)))
  {
    var core := CoreSubjects(courses);
    RenderTerms(core, UniqueTerms(core), selectedTerm, abbr, ui, coreCell, log);
    ghost var mid := log.rows;
    ghost var midValue := capstoneCell.value;
    var capstone := CapstoneSubjects(courses);
    var coop := CoopSubjects(capstone);
    var proj := ProjectSubjects(capstone);
    TickedAppend(ui, CoopVisits(coop, abbr), ProjectVisits(proj, abbr));
    CreditsAppend(Ticked(ui, CoopVisits(coop, abbr)), Ticked(ui, ProjectVisits(proj, abbr)));
    if capstone != [] {
      TickAll(CoopVisits(coop, abbr), ui, capstoneCell, log);
      TickAll(ProjectVisits(proj, abbr), ui, capstoneCell, log);
      AppendAssoc(mid, Ticked(ui, CoopVisits(coop, abbr)), Ticked(ui, ProjectVisits(proj, abbr)));
    }
  }

  lemma {:induction false} TermSectionsRows(core: seq<Row>, terms: seq<real>, selectedTerm: real, abbr: string)
    ensures RowsOf(TermSections(core, terms, selectedTerm, abbr)) == Buckets(core, TermOf, terms)
    decreases |terms|
  {
    if terms != [] {
      var t := terms[|terms| - 1];
      TermSectionsRows(core, terms[..|terms| - 1], selectedTerm, abbr);
      RowsOfAppend(TermSections(core, terms[..|terms| - 1], selectedTerm, abbr),
                   TermVisits(Bucket(core, TermOf, t), t, selectedTerm, abbr));
    }
  }

  /** Every core row gets exactly one checkbox: the terms are visited in
      strictly ascending order, each once, and the rows of the drawn
      checkboxes are a permutation of the core rows. */
  lemma CoreVisitsCover(core: seq<Row>, selectedTerm: real, abbr: string)
    ensures StrictlySorted(UniqueTerms(core), RealLess)
    ensures multiset(RowsOf(CoreVisits(core, selectedTerm, abbr))) == multiset(core)
  {
    RealLessIsStrictTotalOrder();
    SortedUniqueCorrect(Terms(core), RealLess);
    forall i | 0 <= i < |core| ensures TermOf(core[i]) in UniqueTerms(core) {
      assert Terms(core)[i] == core[i].term;
    }
    TermSectionsRows(core, UniqueTerms(core), selectedTerm, abbr);
    BucketsPermutation(core, TermOf, UniqueTerms(core));
  }

  /** Every core checkbox is keyed by its row's subject id, the selected term
      and the major, and it is on by default exactly when its row's term is
      not later than the selected term. */
  lemma {:induction false} TermSectionsKeys(core: seq<Row>, terms: seq<real>, selectedTerm: real, abbr: string)
    ensures forall v :: v in TermSections(core, terms, selectedTerm, abbr) ==>
      && v.key == CoreBox(v.row.subjectId, selectedTerm, abbr)
      && (v.default <==> v.row.term <= selectedTerm)
    decreases |terms|
  {
    if terms != [] {
      var t := terms[|terms| - 1];
      TermSectionsKeys(core, terms[..|terms| - 1], selectedTerm, abbr);
      var subs := Bucket(core, TermOf, t);
      forall v | v in TermVisits(subs, t, selectedTerm, abbr)
        ensures v.default <==> v.row.term <= selectedTerm
      {
        var i :| 0 <= i < |subs| && TermVisits(subs, t, selectedTerm, abbr)[i] == v;
        assert TermOf(subs[i]) == t;
      }
    }
  }

  /** The session holds no core checkbox state for this term and major, as
      on a first visit or right after switching the selected term. */
  predicate NoCoreState(ui: BoxStates, selectedTerm: real, abbr: string) {
    forall k :: k in ui && k.CoreBox? ==> k.selectedTerm != selectedTerm || k.abbr != abbr
  }

  function DueBy(selectedTerm: real): Row -> bool {
    (r: Row) => r.term <= selectedTerm
  }

  /** The core default rule: with no stored core state for the selected term,
      the ticked core rows are exactly the core rows of that term or an
      earlier one, each once. */
  lemma CoreDefaultSeeding(core: seq<Row>, selectedTerm: real, abbr: string, ui: BoxStates)
    requires NoCoreState(ui, selectedTerm, abbr)
    ensures multiset(Ticked(ui, CoreVisits(core, selectedTerm, abbr))) == multiset(Filter(DueBy(selectedTerm), core))
  {
    var vs := CoreVisits(core, selectedTerm, abbr);
    TermSectionsKeys(core, UniqueTerms(core), selectedTerm, abbr);
    forall i | 0 <= i < |vs| ensures Checkbox(ui, vs[i]) == DueBy(selectedTerm)(vs[i].row) {
      assert vs[i] in vs;
    }
    TickedByDefault(ui, vs, DueBy(selectedTerm));
    CoreVisitsCover(core, selectedTerm, abbr);
    FilterPermutation(DueBy(selectedTerm), RowsOf(vs), core);
  }

  /** The earned core credits under the default rule are the credits of the
      core rows due by the selected term. */
  lemma CoreDefaultCredits(core: seq<Row>, selectedTerm: real, abbr: string, ui: BoxStates)
    requires NoCoreState(ui, selectedTerm, abbr)
    ensures Credits(Ticked(ui, CoreVisits(core, selectedTerm, abbr))) == Credits(Filter(DueBy(selectedTerm), core))
  {
    CoreDefaultSeeding(core, selectedTerm, abbr, ui);
    CreditsPermutation(Ticked(ui, CoreVisits(core, selectedTerm, abbr)), Filter(DueBy(selectedTerm), core));
  }

  /** A core course of 3 credits in term 1.1, with term 2.1 selected on a
      fresh session, earns 3 core credits. */
  lemma FirstYearCourseEarned(course: Row)
    requires course.specialType == NormalSubject && course.term == 1.1 && course.credits == 3.0
    ensures Credits(Ticked(map[], CoreVisits(CoreSubjects([course]), 2.1, "CPE"))) == 3.0
  {
    CoreDefaultCredits(CoreSubjects([course]), 2.1, "CPE", map[]);
    assert CoreSubjects([course]) == [course];
    assert Filter(DueBy(2.1), [course]) == [course];
    assert [course][..0] == [];
  }

  /** The credits of a sequence of rows do not depend on their order. */
  lemma {:induction false} CreditsPermutation(a: seq<Row>, b: seq<Row>)
    requires multiset(a) == multiset(b)
    ensures Credits(a) == Credits(b)
    decreases |a|
  {
    if a == [] {
      assert |b| == |multiset(b)| == 0;
    } else {
      var n := |a| - 1;
      var x := a[n];
      assert a == a[..n] + [x];
      assert x in multiset(b);
      var j :| 0 <= j < |b| && b[j] == x;
      var rest := b[..j] + b[j + 1..];
      assert b == b[..j] + [x] + b[j + 1..];
      assert multiset(a) == multiset(a[..n]) + multiset{x};
      assert multiset(b) == multiset(b[..j]) + multiset{x} + multiset(b[j + 1..]);
      assert multiset(rest) == multiset(b[..j]) + multiset(b[j + 1..]);
      assert multiset(a[..n]) + multiset{x} == multiset(rest) + multiset{x};
      assert multiset(a[..n]) == multiset(rest) by {
        forall y ensures multiset(a[..n])[y] == multiset(rest)[y] {
          assert (multiset(a[..n]) + multiset{x})[y] == (multiset(rest) + multiset{x})[y];
        }
        MultisetExtensional(multiset(a[..n]), multiset(rest));
      }
      CreditsPermutation(a[..n], rest);
      CreditsAppend(b[..j] + [x], b[j + 1..]);
      CreditsAppend(b[..j], [x]);
      CreditsAppend(b[..j], b[j + 1..]);
      assert [x][..0] == [];
    }
  }

  // ----- the general education tab -----

  function Categories(gen: seq<Row>): seq<Option<string>> {
    seq(|gen|, i requires 0 <= i < |gen| => gen[i].category)
  }

  /** `df_7group[df_7group['category'] == cat]`: a missing category equals
      nothing, not even another missing category. */
  function InCategory(c: Option<string>): Row -> bool {
    (r: Row) => c.Some? && r.category == c
  }

  function CategoryRows(gen: seq<Row>, c: Option<string>): seq<Row> {
    Filter(InCategory(c), gen)
  }

  /** `f"gen_{cat}"`; a missing category prints as `nan`. */
  function CategoryPrefix(c: Option<string>): string {
    match c
    case None => "gen_nan"
    case Some(s) => "gen_" + s
  }

  function CategorySections(gen: seq<Row>, cats: seq<Option<string>>): seq<Visit>
    decreases |cats|
  {
    if cats == [] then []
    else
      var c := cats[|cats| - 1];
      CategorySections(gen, cats[..|cats| - 1]) + GroupedVisits(CategoryPrefix(c), CategoryRows(gen, c))
  }

  /** Every general education checkbox: per category in order of first
      appearance, the grouped checkboxes of its rows. */
  function GenEdVisits(gen: seq<Row>): seq<Visit> {
    CategorySections(gen, Distinct(Categories(gen)))
  }

  lemma CategorySectionsStep(ui: BoxStates, gen: seq<Row>, cats: seq<Option<string>>, k: nat)
    requires k < |cats|
    ensures var done := Ticked(ui, CategorySections(gen, cats[..k]));
            var now := Ticked(ui, GroupedVisits(CategoryPrefix(cats[k]), CategoryRows(gen, cats[k])));
            && Ticked(ui, CategorySections(gen, cats[..k + 1])) == done + now
            && Credits(Ticked(ui, CategorySections(gen, cats[..k + 1]))) == Credits(done) + Credits(now)
  {
    assert cats[..k + 1][..k] == cats[..k];
    var c := cats[k];
    TickedAppend(ui, CategorySections(gen, cats[..k]), GroupedVisits(CategoryPrefix(c), CategoryRows(gen, c)));
    CreditsAppend(Ticked(ui, CategorySections(gen, cats[..k])),
                  Ticked(ui, GroupedVisits(CategoryPrefix(c), CategoryRows(gen, c))));
  }

  /** The general education tab: one grouped checkbox list per category. */
  method RenderGenEdTab(gen: seq<Row>, ui: BoxStates, cell: CreditCell, log: SelectedSubjects)
    modifies cell, log
    ensures log.rows == old(log.rows) + Ticked(ui, GenEdVisits(gen))
    ensures cell.value == old(cell.value) + Credits(Ticked(ui, GenEdVisits(gen)))
  {
    var cats := Distinct(Categories(gen));
    assert cats[..0] == [];
    for k := 0 to |cats|
      invariant log.rows == old(log.rows) + Ticked(ui, CategorySections(gen, cats[..k]))
      invariant cell.value == old(cell.value) + Credits(Ticked(ui, CategorySections(gen, cats[..k])))
    {
      var c := cats[k];
      var subs := CategoryRows(gen, c);
      ghost var done := Ticked(ui, CategorySections(gen, cats[..k]));
      CategorySectionsStep(ui, gen, cats, k);
      RenderGroupedCheckboxes(subs, CategoryPrefix(c), ui, cell, log);
      AppendAssoc(old(log.rows), done, Ticked(ui, GroupedVisits(CategoryPrefix(c), subs)));
    }
    assert cats[..|cats|] == cats;
  }

  predicate HasCategory(r: Row) { r.category.Some? }

  lemma {:induction false} CategorySectionsCount(gen: seq<Row>, cats: seq<Option<string>>, x: Row)
    requires NoDuplicates(cats)
    ensures multiset(RowsOf(CategorySections(gen, cats)))[x]
         == if x.category.Some? && x.category in cats then multiset(gen)[x] else 0
    decreases |cats|
  {
    if cats != [] {
      var init, c := cats[..|cats| - 1], cats[|cats| - 1];
      assert cats == init + [c];
      assert NoDuplicates(init);
      assert c !in init;
      CategorySectionsCount(gen, init, x);
      var done, now := CategorySections(gen, init), GroupedVisits(CategoryPrefix(c), CategoryRows(gen, c));
      RowsOfAppend(done, now);
      assert multiset(RowsOf(CategorySections(gen, cats)))[x]
          == multiset(RowsOf(done))[x] + multiset(RowsOf(now))[x];
      GroupedVisitsCover(CategoryPrefix(c), CategoryRows(gen, c));
      FilterCount(InCategory(c), gen, x);
      assert multiset(RowsOf(now))[x] == if c.Some? && x.category == c then multiset(gen)[x] else 0;
      assert x.category in cats <==> x.category in init || x.category == c;
    }
  }

  /** Every general education row with a category gets exactly one checkbox,
      and a row whose category is missing gets none. */
  lemma GenEdVisitsCover(gen: seq<Row>)
    ensures multiset(RowsOf(GenEdVisits(gen))) == multiset(Filter(HasCategory, gen))
  {
    var cats := Distinct(Categories(gen));
    var m := multiset(RowsOf(GenEdVisits(gen)));
    var f := multiset(Filter(HasCategory, gen));
    forall x ensures m[x] == f[x] {
      CategorySectionsCount(gen, cats, x);
      FilterCount(HasCategory, gen, x);
      if x in gen {
        CategoryListed(gen, x);
      } else {
        assert multiset(gen)[x] == 0;
      }
    }
    MultisetExtensional(m, f);
  }

  /** The category of every general education row is among the categories visited. */
  lemma CategoryListed(gen: seq<Row>, x: Row)
    requires x in gen
    ensures x.category in Distinct(Categories(gen))
  {
    var i :| 0 <= i < |gen| && gen[i] == x;
    assert Categories(gen)[i] == x.category;
  }

  // ----- the summary -----

  /** The six category counters once every tab has been drawn. */
  datatype Earned = Earned(core: real, majorPlan: real, majorPool: real, capstone: real, genEd: real, free: real)

  /** The figures of the summary tab and the sidebar. `percent` is `None`
      where the division by a zero goal gives no number (NaN or -inf). */
  datatype Summary = Summary(totalEarned: real, remaining: real, percent: Option<real>, majorElective: real)

  function TotalEarned(e: Earned): real {
    e.core + e.majorPlan + e.majorPool + e.capstone + e.genEd + e.free
  }

  /** `min(total / goal, 1.0)`. With a zero goal a positive total gives +inf
      and so 1.0; a zero total gives NaN and a negative one -inf. */
  function Percent(total: real, goal: real): (p: Option<real>)
    ensures goal != 0.0 ==> p.Some? && p.value <= 1.0
    ensures goal > 0.0 && total >= 0.0 ==> p.Some? && 0.0 <= p.value
    ensures goal > 0.0 ==> (p == Some(1.0) <==> total >= goal)
    ensures goal == 0.0 ==> (p.Some? <==> total > 0.0) && (p.Some? ==> p.value == 1.0)
    ensures goal != 0.0 && total / goal <= 1.0 ==> p == Some(total / goal)
    ensures goal != 0.0 && total / goal >= 1.0 ==> p == Some(1.0)
  {
    if goal == 0.0 then (if total > 0.0 then Some(1.0) else None)
    else
      RatioFacts(total, goal);
      if total / goal < 1.0 then Some(total / goal) else Some(1.0)
  }

  /** Over a positive goal the ratio is below 1 exactly when the total is
      below the goal, and it is non-negative for a non-negative total. */
  lemma RatioFacts(total: real, goal: real)
    requires goal != 0.0
    ensures goal > 0.0 ==> (total / goal < 1.0 <==> total < goal)
    ensures goal > 0.0 && total >= 0.0 ==> total / goal >= 0.0
  {
    if goal > 0.0 {
      var q := total / goal;
      assert q * goal == total;
      if q < 1.0 {
        assert q * goal < 1.0 * goal;
      } else {
        assert q * goal >= 1.0 * goal;
      }
    }
  }

  /** The summary arithmetic. */
  function Summarize(e: Earned, goal: real): (s: Summary)
    ensures s.totalEarned == e.core + e.majorPlan + e.majorPool + e.capstone + e.genEd + e.free
    ensures s.remaining >= 0.0
    ensures s.remaining == 0.0 <==> s.totalEarned >= goal
    ensures s.remaining > 0.0 ==> s.totalEarned + s.remaining == goal
    ensures s.percent.Some? ==> s.percent.value <= 1.0
    ensures goal > 0.0 ==> s.percent.Some? && (s.percent.value == 1.0 <==> s.remaining == 0.0)
    ensures goal > 0.0 && s.remaining > 0.0 ==> s.percent == Some(s.totalEarned / goal)
    ensures goal > 0.0 && s.totalEarned >= 0.0 ==> s.percent.Some? && 0.0 <= s.percent.value
    ensures s.majorElective == e.majorPlan + e.majorPool
  {
    var total := TotalEarned(e);
    Summary(total, if goal - total > 0.0 then goal - total else 0.0, Percent(total, goal), e.majorPlan + e.majorPool)
  }

  /** The chart slices `Core, Maj.Elec, Capstone, GenEd, Free, Missing`. */
  function ChartSlices(e: Earned, s: Summary): seq<real> {
    [e.core, s.majorElective, e.capstone, e.genEd, e.free, s.remaining]
  }

  function Sum(xs: seq<real>): real
    decreases |xs|
  {
    if xs == [] then 0.0 else xs[0] + Sum(xs[1..])
  }

  /** The chart's slices add up to the goal, or to the total once the goal is reached. */
  lemma ChartCoversGoal(e: Earned, goal: real)
    ensures var s := Summarize(e, goal);
            Sum(ChartSlices(e, s)) == if s.totalEarned >= goal then s.totalEarned else goal
  {
    var s := Summarize(e, goal);
    var xs := ChartSlices(e, s);
    SumCons(xs);
    SumCons(xs[1..]);
    SumCons(xs[2..]);
    SumCons(xs[3..]);
    SumCons(xs[4..]);
    SumCons(xs[5..]);
    assert xs[6..] == [];
  }

  lemma SumCons(xs: seq<real>)
    requires xs != []
    ensures Sum(xs) == xs[0] + Sum(xs[1..])
  {
  }

  /** 140 credits earned against a goal of 130: nothing remains and the
      progress bar is full. */
  lemma GoalExceeded()
    ensures var s := Summarize(Earned(100.0, 10.0, 5.0, 6.0, 13.0, 6.0), 130.0);
            s.totalEarned == 140.0 && s.remaining == 0.0 && s.percent == Some(1.0)
  {
  }

  // ----- the whole page -----

  /** The tables the page draws from, already loaded and normalised. */
  datatype Tables = Tables(core: seq<Row>, elective: seq<Row>, genEd: seq<Row>, free: seq<Row>)

  /** What the user chose: the selected major and term, the credits goal of
      the major, the checkbox states and the two multiselects. */
  datatype Choices = Choices(abbr: string, selectedTerm: real, goal: real, ui: BoxStates,
                             poolPicked: seq<string>, freePicked: seq<string>)

  predicate ValidPicks(t: Tables, c: Choices) {
    && AllOffered(t.elective, c.poolPicked)
    && AllOffered(t.free, c.freePicked)
  }

  function PlanPrefix(abbr: string): string { "me_plan_" + abbr }

  function CoreTicked(t: Tables, c: Choices): seq<Row> {
    Ticked(c.ui, CoreVisits(CoreSubjects(MajorCourses(t.core, c.abbr)), c.selectedTerm, c.abbr))
  }

  function CapstoneTicked(t: Tables, c: Choices): seq<Row> {
    Ticked(c.ui, CapstoneVisits(CapstoneSubjects(MajorCourses(t.core, c.abbr)), c.abbr))
  }

  function PlanTicked(t: Tables, c: Choices): seq<Row> {
    Ticked(c.ui, GroupedVisits(PlanPrefix(c.abbr), PlanElectives(MajorCourses(t.core, c.abbr))))
  }

  function GenEdTicked(t: Tables, c: Choices): seq<Row> {
    Ticked(c.ui, GenEdVisits(t.genEd))
  }

  /** `selected_subjects_data` after the page is drawn, tab by tab. */
  function Selection(t: Tables, c: Choices): seq<Row>
    requires ValidPicks(t, c)
  {
    CoreTicked(t, c) + CapstoneTicked(t, c) + PlanTicked(t, c) + Picks(t.elective, c.poolPicked)
      + GenEdTicked(t, c) + Picks(t.free, c.freePicked)
  }

  /** The six counters after the page is drawn. */
  function EarnedOf(t: Tables, c: Choices): Earned
    requires ValidPicks(t, c)
  {
    Earned(Credits(CoreTicked(t, c)), Credits(PlanTicked(t, c)), Credits(Picks(t.elective, c.poolPicked)),
           Credits(CapstoneTicked(t, c)), Credits(GenEdTicked(t, c)), Credits(Picks(t.free, c.freePicked)))
  }

  /** The total earned is the credit sum of the selected subjects: every
      selected row counts once per appearance, and a course selected in two
      tabs counts twice. */
  lemma TotalIsSelectionCredits(t: Tables, c: Choices)
    requires ValidPicks(t, c)
    ensures TotalEarned(EarnedOf(t, c)) == Credits(Selection(t, c))
  {
    var a, b, p, q, g, f := CoreTicked(t, c), CapstoneTicked(t, c), PlanTicked(t, c),
                            Picks(t.elective, c.poolPicked), GenEdTicked(t, c), Picks(t.free, c.freePicked);
    CreditsAppend(a, b);
    CreditsAppend(a + b, p);
    CreditsAppend(a + b + p, q);
    CreditsAppend(a + b + p + q, g);
    CreditsAppend(a + b + p + q + g, f);
  }

  /** With non-negative credits in every table and a positive goal, the
      progress bar's value lies between 0 and 1, and so is one `st.progress`
      accepts. */
  lemma PercentWithinBounds(t: Tables, c: Choices)
    requires ValidPicks(t, c)
    requires NonNegativeCredits(t.core) && NonNegativeCredits(t.elective)
    requires NonNegativeCredits(t.genEd) && NonNegativeCredits(t.free)
    requires c.goal > 0.0
    ensures var s := Summarize(EarnedOf(t, c), c.goal);
            s.totalEarned >= 0.0 && s.percent.Some? && 0.0 <= s.percent.value <= 1.0
  {
    var major := MajorCourses(t.core, c.abbr);
    FilterNonNegative(ListsMajor(c.abbr), t.core);
    // core tab
    var core := CoreSubjects(major);
    FilterNonNegative(IsCore, major);
    CoreVisitsCover(core, c.selectedTerm, c.abbr);
    DrawnNonNegative(CoreVisits(core, c.selectedTerm, c.abbr), core);
    TickedNonNegative(c.ui, CoreVisits(core, c.selectedTerm, c.abbr));
    CreditsNonNegative(CoreTicked(t, c));
    // capstone columns
    var capstone := CapstoneSubjects(major);
    FilterNonNegative(IsCapstone, major);
    FilterNonNegative(IsCoop, capstone);
    FilterNonNegative(IsProject, capstone);
    CapstoneDrawnNonNegative(capstone, c.abbr);
    TickedNonNegative(c.ui, CapstoneVisits(capstone, c.abbr));
    CreditsNonNegative(CapstoneTicked(t, c));
    // plan electives
    var plan := PlanElectives(major);
    FilterNonNegative(IsPlanElective, major);
    GroupedVisitsCover(PlanPrefix(c.abbr), plan);
    DrawnNonNegative(GroupedVisits(PlanPrefix(c.abbr), plan), plan);
    TickedNonNegative(c.ui, GroupedVisits(PlanPrefix(c.abbr), plan));
    CreditsNonNegative(PlanTicked(t, c));
    // general education
    FilterNonNegative(HasCategory, t.genEd);
    GenEdVisitsCover(t.genEd);
    DrawnNonNegative(GenEdVisits(t.genEd), Filter(HasCategory, t.genEd));
    TickedNonNegative(c.ui, GenEdVisits(t.genEd));
    CreditsNonNegative(GenEdTicked(t, c));
    // the two multiselects
    PicksNonNegative(t.elective, c.poolPicked);
    PicksNonNegative(t.free, c.freePicked);
    CreditsNonNegative(Picks(t.elective, c.poolPicked));
    CreditsNonNegative(Picks(t.free, c.freePicked));
  }

  lemma CapstoneDrawnNonNegative(capstone: seq<Row>, abbr: string)
    requires NonNegativeCredits(CoopSubjects(capstone)) && NonNegativeCredits(ProjectSubjects(capstone))
    ensures var vs := CapstoneVisits(capstone, abbr);
            forall i :: 0 <= i < |vs| ==> vs[i].row.credits >= 0.0
  {
    var a: seq<Visit>, b: seq<Visit> := CoopVisits(CoopSubjects(capstone), abbr), ProjectVisits(ProjectSubjects(capstone), abbr);
    forall i | 0 <= i < |a + b| ensures (a + b)[i].row.credits >= 0.0 {
      if i < |a| {
        assert (a + b)[i] == a[i];
      } else {
        assert (a + b)[i] == b[i - |a|];
      }
    }
  }

  lemma PicksNonNegative(pool: seq<Row>, labels: seq<string>)
    requires AllOffered(pool, labels)
    requires NonNegativeCredits(pool)
    ensures NonNegativeCredits(Picks(pool, labels))
  {
    PicksAreFirst(pool, labels);
    var r := Picks(pool, labels);
    forall i | 0 <= i < |r| ensures r[i].credits >= 0.0 {
      assert Offers(pool, labels[i]);
    }
  }

  /** Nothing removes repeats across tabs: the selection holds every row of
      every tab's selection, as often as the tabs together select it. */
  lemma SelectionKeepsRepeats(t: Tables, c: Choices)
    requires ValidPicks(t, c)
    ensures multiset(Selection(t, c))
         == multiset(CoreTicked(t, c)) + multiset(CapstoneTicked(t, c)) + multiset(PlanTicked(t, c))
          + multiset(Picks(t.elective, c.poolPicked)) + multiset(GenEdTicked(t, c))
          + multiset(Picks(t.free, c.freePicked))
  {
  }

  /** The tabs drawn from the catalog of the selected major: the core tab
      (with the capstone rows) and the plan electives, each filling a
      counter of its own that starts at zero. */
  method RenderMajorTabs(t: Tables, c: Choices, log: SelectedSubjects)
      returns (core: real, capstone: real, plan: real)
    modifies log
    ensures log.rows == old(log.rows) + (CoreTicked(t, c) + CapstoneTicked(t, c) + PlanTicked(t, c))
    ensures core == Credits(CoreTicked(t, c))
    ensures capstone == Credits(CapstoneTicked(t, c))
    ensures plan == Credits(PlanTicked(t, c))
  {
    var coreCell := new CreditCell();
    var capstoneCell := new CreditCell();
    var planCell := new CreditCell();
    var courses := MajorCourses(t.core, c.abbr);
    RenderCoreTab(courses, c.selectedTerm, c.abbr, c.ui, coreCell, capstoneCell, log);
    var electives := PlanElectives(courses);
    if electives != [] {
      RenderGroupedCheckboxes(electives, PlanPrefix(c.abbr), c.ui, planCell, log);
    } else {
      EmptyTableTicksNothing(c.ui, PlanPrefix(c.abbr));
    }
    AppendAssoc(old(log.rows), CoreTicked(t, c), CapstoneTicked(t, c));
    AppendAssoc(old(log.rows), CoreTicked(t, c) + CapstoneTicked(t, c), PlanTicked(t, c));
    core, capstone, plan := coreCell.value, capstoneCell.value, planCell.value;
  }

  /** The tabs drawn from the shared tables: the elective pool, general
      education and the free electives, each filling a counter of its own
      that starts at zero. */
  method RenderOpenTabs(t: Tables, c: Choices, log: SelectedSubjects)
      returns (pool: real, gen: real, free: real)
    requires ValidPicks(t, c)
    modifies log
    ensures log.rows == old(log.rows) + (Picks(t.elective, c.poolPicked) + GenEdTicked(t, c) + Picks(t.free, c.freePicked))
    ensures pool == Credits(Picks(t.elective, c.poolPicked))
    ensures gen == Credits(GenEdTicked(t, c))
    ensures free == Credits(Picks(t.free, c.freePicked))
  {
    var poolCell := new CreditCell();
    RenderMultiselect(t.elective, c.poolPicked, poolCell, log);
    pool := poolCell.value;
    var genCell := new CreditCell();
    RenderGenEdTab(t.genEd, c.ui, genCell, log);
    gen := genCell.value;
    var freeCell := new CreditCell();
    RenderMultiselect(t.free, c.freePicked, freeCell, log);
    free := freeCell.value;
    AppendAssoc(old(log.rows), Picks(t.elective, c.poolPicked), GenEdTicked(t, c));
    AppendAssoc(old(log.rows), Picks(t.elective, c.poolPicked) + GenEdTicked(t, c), Picks(t.free, c.freePicked));
  }

  /** The page: the core tab, the plan electives, the elective pool, the
      general education tab and the free electives in this order, then the
      summary of the six counters. */
  method RenderPage(t: Tables, c: Choices) returns (earned: Earned, summary: Summary, selected: seq<Row>)
    requires ValidPicks(t, c)
    ensures selected == Selection(t, c)
    ensures earned == EarnedOf(t, c)
    ensures summary == Summarize(earned, c.goal)
    ensures summary.totalEarned == Credits(selected)
  {
    var log := new SelectedSubjects();
    var core, capstone, plan := RenderMajorTabs(t, c, log);
    var pool, gen, free := RenderOpenTabs(t, c, log);
    SelectionSplit(t, c);
    earned := Earned(core, plan, pool, capstone, gen, free);
    summary := Summarize(earned, c.goal);
    selected := log.rows;
    TotalIsSelectionCredits(t, c);
  }

  lemma SelectionSplit(t: Tables, c: Choices)
    requires ValidPicks(t, c)
    ensures [] + (CoreTicked(t, c) + CapstoneTicked(t, c) + PlanTicked(t, c))
               + (Picks(t.elective, c.poolPicked) + GenEdTicked(t, c) + Picks(t.free, c.freePicked))
            == Selection(t, c)
  {
    var x := CoreTicked(t, c) + CapstoneTicked(t, c) + PlanTicked(t, c);
    var p, g, f := Picks(t.elective, c.poolPicked), GenEdTicked(t, c), Picks(t.free, c.freePicked);
    EmptyAppend(x);
    AppendAssoc(x, p + g, f);
    AppendAssoc(x, p, g);
  }

  /** An empty table draws no checkbox, whatever the session state. */
  lemma EmptyTableTicksNothing(ui: BoxStates, prefix: string)
    ensures Ticked(ui, GroupedVisits(prefix, [])) == []
  {
    assert Labels([]) == [];
  }
}
