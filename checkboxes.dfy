/** The checkbox lists of the dashboard: which checkbox is drawn for which
    row, with which key and default, and how a ticked checkbox adds its row's
    credits to a category counter and its row to the list of selected
    subjects (`render_grouped_checkoxes` and the loops of the tabs). */
module Checkboxes {
  import opened Seqs
  import opened PyStr
  import opened Curriculum

  /** Where `render_grouped_checkoxes` draws a row; part of the widget key. */
  datatype Placement = Ungrouped | MainGroup(name: string) | SubGroup(name: string)

  /** The identity of a checkbox, as given by its `key=` argument. */
  datatype WidgetKey =
    | GroupedBox(prefix: string, subjectId: string, index: nat, placement: Placement)
    | CoreBox(subjectId: string, selectedTerm: real, abbr: string)
    | CoopBox(index: nat, abbr: string)
    | ProjectBox(index: nat, abbr: string)

  /** The checkbox states the session holds, by key. */
  type BoxStates = map<WidgetKey, bool>

  /** One checkbox drawn for one row, with its key and its `value=` default. */
  datatype Visit = Visit(row: Row, key: WidgetKey, default: bool)

  /** What `st.checkbox(..., value=default, key=key)` returns: the state the
      session holds for the key, or the default when it holds none. */
  function Checkbox(ui: BoxStates, v: Visit): bool {
    if v.key in ui then ui[v.key] else v.default
  }

  function IsTicked(ui: BoxStates): Visit -> bool {
    v => Checkbox(ui, v)
  }

  function RowsOf(vs: seq<Visit>): seq<Row> {
    seq(|vs|, i requires 0 <= i < |vs| => vs[i].row)
  }

  /** The rows of the ticked checkboxes among `vs`, in drawing order. */
  function Ticked(ui: BoxStates, vs: seq<Visit>): seq<Row>
    decreases |vs|
  {
    if vs == [] then []
    else Ticked(ui, vs[..|vs| - 1]) + (if Checkbox(ui, vs[|vs| - 1]) then [vs[|vs| - 1].row] else [])
  }

  /** The sum of the credits of `rows`. */
  function Credits(rows: seq<Row>): real
    decreases |rows|
  {
    if rows == [] then 0.0 else Credits(rows[..|rows| - 1]) + rows[|rows| - 1].credits
  }

  lemma RowsOfAppend(a: seq<Visit>, b: seq<Visit>)
    ensures RowsOf(a + b) == RowsOf(a) + RowsOf(b)
  {
  }

  lemma {:induction false} TickedAppend(ui: BoxStates, a: seq<Visit>, b: seq<Visit>)
    ensures Ticked(ui, a + b) == Ticked(ui, a) + Ticked(ui, b)
    decreases |b|
  {
    if b == [] {
      assert a + b == a;
    } else {
      var b' := b[..|b| - 1];
      assert (a + b)[..|a + b| - 1] == a + b';
      TickedAppend(ui, a, b');
    }
  }

  lemma {:induction false} CreditsAppend(a: seq<Row>, b: seq<Row>)
    ensures Credits(a + b) == Credits(a) + Credits(b)
    decreases |b|
  {
    if b == [] {
      assert a + b == a;
    } else {
      var b' := b[..|b| - 1];
      assert (a + b)[..|a + b| - 1] == a + b';
      CreditsAppend(a, b');
    }
  }

  /** The ticked rows are exactly the rows of the visits whose checkbox is
      on, one entry per such visit, in drawing order. */
  lemma {:induction false} TickedExactly(ui: BoxStates, vs: seq<Visit>)
    ensures Ticked(ui, vs) == RowsOf(Filter(IsTicked(ui), vs))
    decreases |vs|
  {
    if vs != [] {
      var init, last := vs[..|vs| - 1], vs[|vs| - 1];
      assert vs == init + [last];
      TickedExactly(ui, init);
      FilterAppend(IsTicked(ui), init, [last]);
      RowsOfAppend(Filter(IsTicked(ui), init), Filter(IsTicked(ui), [last]));
    }
  }

  /** When no session state overrides a visit, the ticked rows are the rows
      whose default is on. */
  lemma {:induction false} TickedByDefault(ui: BoxStates, vs: seq<Visit>, p: Row -> bool)
    requires forall i :: 0 <= i < |vs| ==> Checkbox(ui, vs[i]) == p(vs[i].row)
    ensures Ticked(ui, vs) == Filter(p, RowsOf(vs))
    decreases |vs|
  {
    if vs != [] {
      var init, last := vs[..|vs| - 1], vs[|vs| - 1];
      assert vs == init + [last];
      TickedByDefault(ui, init, p);
      RowsOfAppend(init, [last]);
      FilterAppend(p, RowsOf(init), RowsOf([last]));
    }
  }

  /** Every row carries non-negative credits. */
  predicate NonNegativeCredits(rows: seq<Row>) {
    forall i :: 0 <= i < |rows| ==> rows[i].credits >= 0.0
  }

  /** Credits of rows that each carry non-negative credits are non-negative. */
  lemma {:induction false} CreditsNonNegative(rows: seq<Row>)
    requires NonNegativeCredits(rows)
    ensures Credits(rows) >= 0.0
    decreases |rows|
  {
    if rows != [] {
      CreditsNonNegative(rows[..|rows| - 1]);
    }
  }

  /** Ticking only picks rows that are drawn, so it keeps credits non-negative. */
  lemma {:induction false} TickedNonNegative(ui: BoxStates, vs: seq<Visit>)
    requires forall i :: 0 <= i < |vs| ==> vs[i].row.credits >= 0.0
    ensures NonNegativeCredits(Ticked(ui, vs))
    decreases |vs|
  {
    if vs != [] {
      TickedNonNegative(ui, vs[..|vs| - 1]);
    }
  }

  /** Checkboxes drawn from rows with non-negative credits stand for such rows. */
  lemma DrawnNonNegative(vs: seq<Visit>, rows: seq<Row>)
    requires multiset(RowsOf(vs)) <= multiset(rows)
    requires NonNegativeCredits(rows)
    ensures forall i :: 0 <= i < |vs| ==> vs[i].row.credits >= 0.0
  {
    forall i | 0 <= i < |vs| ensures vs[i].row.credits >= 0.0 {
      assert RowsOf(vs)[i] == vs[i].row;
      assert vs[i].row in multiset(RowsOf(vs));
      assert vs[i].row in rows;
    }
  }

  /** A mask keeps non-negative credits non-negative. */
  lemma FilterNonNegative(p: Row -> bool, rows: seq<Row>)
    requires NonNegativeCredits(rows)
    ensures NonNegativeCredits(Filter(p, rows))
  {
    var r := Filter(p, rows);
    forall i | 0 <= i < |r| ensures r[i].credits >= 0.0 {
      assert r[i] in rows;
    }
  }

  lemma TickedStep(ui: BoxStates, vs: seq<Visit>, i: nat)
    requires i < |vs|
    ensures Ticked(ui, vs[..i + 1]) == Ticked(ui, vs[..i]) + (if Checkbox(ui, vs[i]) then [vs[i].row] else [])
  {
    assert vs[..i + 1][..i] == vs[..i];
  }

  /** The one-element list `[earned]` that the page passes by reference. */
  class CreditCell {
    var value: real

    constructor ()
      ensures value == 0.0
    {
      value := 0.0;
    }
  }

  /** `selected_subjects_data`, the list every ticked row is appended to. */
  class SelectedSubjects {
    var rows: seq<Row>

    constructor ()
      ensures rows == []
    {
      rows := [];
    }
  }

  /** Draws the checkboxes `vs` in order; each one that is on adds its row's
      credits to `cell` and appends its row to `log`. */
  method TickAll(vs: seq<Visit>, ui: BoxStates, cell: CreditCell, log: SelectedSubjects)
    modifies cell, log
    ensures log.rows == old(log.rows) + Ticked(ui, vs)
    ensures cell.value == old(cell.value) + Credits(Ticked(ui, vs))
  {
    for i := 0 to |vs|
      invariant log.rows == old(log.rows) + Ticked(ui, vs[..i])
      invariant cell.value == old(cell.value) + Credits(Ticked(ui, vs[..i]))
    {
      var v := vs[i];
      TickedStep(ui, vs, i);
      if Checkbox(ui, v) {
        CreditsAppend(Ticked(ui, vs[..i]), [v.row]);
        assert Credits([v.row]) == v.row.credits by {
          assert [v.row][..0] == [];
        }
        cell.value := cell.value + v.row.credits;
        log.rows := log.rows + [v.row];
      } else {
        assert Ticked(ui, vs[..i + 1]) == Ticked(ui, vs[..i]);
      }
    }
    assert vs[..|vs|] == vs;
  }

  // ----- render_grouped_checkoxes -----

  predicate HasNoGroup(r: Row) { GroupLabel(r) == "" }
  predicate HasGroup(r: Row) { GroupLabel(r) != "" }

  /** `df_no_group`. */
  function NoGroupRows(rows: seq<Row>): seq<Row> { Filter(HasNoGroup, rows) }

  /** `df_has_group`. */
  function GroupedRows(rows: seq<Row>): seq<Row> { Filter(HasGroup, rows) }

  function Labels(rows: seq<Row>): seq<string> {
    seq(|rows|, i requires 0 <= i < |rows| => GroupLabel(rows[i]))
  }

  /** `sorted(df_has_group['group_str'].unique())`. */
  function GroupNames(grouped: seq<Row>): seq<string> {
    SortedUnique(Labels(grouped), StrLess)
  }

  /** A top-level label is drawn as a header, any other as an expander. */
  function GroupPlacement(g: string): Placement {
    if IsMainGroup(g) then MainGroup(g) else SubGroup(g)
  }

  /** The checkboxes of `rows` drawn at `placement`: keyed by prefix, subject
      id, row index and placement, and off by default. */
  function SectionVisits(prefix: string, placement: Placement, rows: seq<Row>): seq<Visit> {
    seq(|rows|, i requires 0 <= i < |rows| =>
      Visit(rows[i], GroupedBox(prefix, rows[i].subjectId, rows[i].index, placement), false))
  }

  /** The sections for the groups `groups`, each holding the rows of its label. */
  function GroupSections(prefix: string, groups: seq<string>, grouped: seq<Row>): seq<Visit>
    decreases |groups|
  {
    if groups == [] then []
    else
      var g := groups[|groups| - 1];
      GroupSections(prefix, groups[..|groups| - 1], grouped)
        + SectionVisits(prefix, GroupPlacement(g), Bucket(grouped, GroupLabel, g))
  }

  /** Every checkbox `render_grouped_checkoxes` draws, in drawing order: the
      ungrouped rows first, then each group in sorted order. */
  function GroupedVisits(prefix: string, rows: seq<Row>): seq<Visit> {
    SectionVisits(prefix, Ungrouped, NoGroupRows(rows))
      + GroupSections(prefix, GroupNames(GroupedRows(rows)), GroupedRows(rows))
  }

  /** `render_grouped_checkoxes(rows, prefix, cell, log)`, without the widgets'
      drawing: the counter grows by the credits of exactly the ticked rows,
      and exactly those rows, in drawing order, are appended to the log. */
  method RenderGroupedCheckboxes(rows: seq<Row>, prefix: string, ui: BoxStates,
                                 cell: CreditCell, log: SelectedSubjects)
    modifies cell, log
    ensures log.rows == old(log.rows) + Ticked(ui, GroupedVisits(prefix, rows))
    ensures cell.value == old(cell.value) + Credits(Ticked(ui, GroupedVisits(prefix, rows)))
  {
    var noGroup := NoGroupRows(rows);
    var hasGroup := GroupedRows(rows);
    var groups := GroupNames(hasGroup);
    GroupedVisitsSplit(ui, prefix, rows);
    var first := SectionVisits(prefix, Ungrouped, noGroup);
    ghost var a := Ticked(ui, first);
    ghost var b := Ticked(ui, GroupSections(prefix, groups, hasGroup));
    if noGroup != [] {
      TickAll(first, ui, cell, log);
    } else {
      assert a == [];
      AppendEmpty(log.rows);
    }
    ghost var mid := log.rows;
    ghost var midValue := cell.value;
    assert mid == old(log.rows) + a;
    if hasGroup != [] {
      RenderGroups(groups, hasGroup, prefix, ui, cell, log);
    } else {
      assert Labels(hasGroup) == [];
      assert b == [];
      AppendEmpty(log.rows);
    }
    assert log.rows == mid + b;
    assert cell.value == midValue + Credits(b);
    AppendAssoc(old(log.rows), a, b);
  }

  /** The loop of `render_grouped_checkoxes` over the group names: each group
      draws its rows, under a header when it is top-level and in an expander
      otherwise. */
  method RenderGroups(groups: seq<string>, grouped: seq<Row>, prefix: string, ui: BoxStates,
                      cell: CreditCell, log: SelectedSubjects)
    modifies cell, log
    ensures log.rows == old(log.rows) + Ticked(ui, GroupSections(prefix, groups, grouped))
    ensures cell.value == old(cell.value) + Credits(Ticked(ui, GroupSections(prefix, groups, grouped)))
  {
    assert groups[..0] == [];
    for k := 0 to |groups|
      invariant log.rows == old(log.rows) + Ticked(ui, GroupSections(prefix, groups[..k], grouped))
      invariant cell.value == old(cell.value) + Credits(Ticked(ui, GroupSections(prefix, groups[..k], grouped)))
    {
      var g := groups[k];
      var subs := Bucket(grouped, GroupLabel, g);
      ghost var done := Ticked(ui, GroupSections(prefix, groups[..k], grouped));
      GroupSectionsStep(ui, prefix, groups, k, grouped);
      var placement: Placement;
      if IsMainGroup(g) {
        placement := MainGroup(g);
      } else {
        placement := SubGroup(g);
      }
      TickAll(SectionVisits(prefix, placement, subs), ui, cell, log);
      AppendAssoc(old(log.rows), done, Ticked(ui, SectionVisits(prefix, placement, subs)));
    }
    assert groups[..|groups|] == groups;
  }

  /** The drawn checkboxes split into the ungrouped ones and the group sections. */
  lemma GroupedVisitsSplit(ui: BoxStates, prefix: string, rows: seq<Row>)
    ensures var first := Ticked(ui, SectionVisits(prefix, Ungrouped, NoGroupRows(rows)));
            var rest := Ticked(ui, GroupSections(prefix, GroupNames(GroupedRows(rows)), GroupedRows(rows)));
            && Ticked(ui, GroupedVisits(prefix, rows)) == first + rest
            && Credits(Ticked(ui, GroupedVisits(prefix, rows))) == Credits(first) + Credits(rest)
  {
    var first := SectionVisits(prefix, Ungrouped, NoGroupRows(rows));
    var rest := GroupSections(prefix, GroupNames(GroupedRows(rows)), GroupedRows(rows));
    TickedAppend(ui, first, rest);
    CreditsAppend(Ticked(ui, first), Ticked(ui, rest));
  }

  lemma GroupSectionsStep(ui: BoxStates, prefix: string, groups: seq<string>, k: nat, grouped: seq<Row>)
    requires k < |groups|
    ensures var done := Ticked(ui, GroupSections(prefix, groups[..k], grouped));
            var now := Ticked(ui, SectionVisits(prefix, GroupPlacement(groups[k]), Bucket(grouped, GroupLabel, groups[k])));
            && Ticked(ui, GroupSections(prefix, groups[..k + 1], grouped)) == done + now
            && Credits(Ticked(ui, GroupSections(prefix, groups[..k + 1], grouped))) == Credits(done) + Credits(now)
  {
    assert groups[..k + 1][..k] == groups[..k];
    var g := groups[k];
    TickedAppend(ui, GroupSections(prefix, groups[..k], grouped),
                 SectionVisits(prefix, GroupPlacement(g), Bucket(grouped, GroupLabel, g)));
    CreditsAppend(Ticked(ui, GroupSections(prefix, groups[..k], grouped)),
                  Ticked(ui, SectionVisits(prefix, GroupPlacement(g), Bucket(grouped, GroupLabel, g))));
  }

  /** The group names are visited in strictly ascending order, each once, and
      they are exactly the labels of the grouped rows. */
  lemma GroupNamesSorted(grouped: seq<Row>)
    ensures StrictlySorted(GroupNames(grouped), StrLess)
    ensures NoDuplicates(GroupNames(grouped))
    ensures forall i :: 0 <= i < |grouped| ==> GroupLabel(grouped[i]) in GroupNames(grouped)
    ensures forall g :: g in GroupNames(grouped) <==> g in Labels(grouped)
  {
    StrLessIsStrictTotalOrder();
    SortedUniqueCorrect(Labels(grouped), StrLess);
    forall i | 0 <= i < |grouped| ensures GroupLabel(grouped[i]) in GroupNames(grouped) {
      assert Labels(grouped)[i] == GroupLabel(grouped[i]);
    }
  }

  lemma SectionRows(prefix: string, placement: Placement, rows: seq<Row>)
    ensures RowsOf(SectionVisits(prefix, placement, rows)) == rows
  {
  }

  lemma {:induction false} GroupSectionsRows(prefix: string, groups: seq<string>, grouped: seq<Row>)
    ensures RowsOf(GroupSections(prefix, groups, grouped)) == Buckets(grouped, GroupLabel, groups)
    decreases |groups|
  {
    if groups != [] {
      var g := groups[|groups| - 1];
      GroupSectionsRows(prefix, groups[..|groups| - 1], grouped);
      RowsOfAppend(GroupSections(prefix, groups[..|groups| - 1], grouped),
                   SectionVisits(prefix, GroupPlacement(g), Bucket(grouped, GroupLabel, g)));
      SectionRows(prefix, GroupPlacement(g), Bucket(grouped, GroupLabel, g));
    }
  }

  /** Every row handed to `render_grouped_checkoxes` gets exactly one
      checkbox: the rows of the drawn checkboxes are a permutation of `rows`. */
  lemma GroupedVisitsCover(prefix: string, rows: seq<Row>)
    ensures multiset(RowsOf(GroupedVisits(prefix, rows))) == multiset(rows)
  {
    var noGroup, hasGroup := NoGroupRows(rows), GroupedRows(rows);
    var groups := GroupNames(hasGroup);
    RowsOfAppend(SectionVisits(prefix, Ungrouped, noGroup), GroupSections(prefix, groups, hasGroup));
    SectionRows(prefix, Ungrouped, noGroup);
    GroupSectionsRows(prefix, groups, hasGroup);
    GroupNamesSorted(hasGroup);
    BucketsPermutation(hasGroup, GroupLabel, groups);
    FilterComplement(HasNoGroup, HasGroup, rows);
  }

  /** Every checkbox of a group section is off by default and keyed by its
      row, with a header placement exactly when its row's label is a
      top-level group. */
  lemma {:induction false} GroupSectionKeys(prefix: string, groups: seq<string>, grouped: seq<Row>)
    ensures forall v :: v in GroupSections(prefix, groups, grouped) ==>
      && !v.default
      && v.key == GroupedBox(prefix, v.row.subjectId, v.row.index, GroupPlacement(GroupLabel(v.row)))
      && (v.key.placement.MainGroup? <==> IsMainGroup(GroupLabel(v.row)))
    decreases |groups|
  {
    if groups != [] {
      var g := groups[|groups| - 1];
      GroupSectionKeys(prefix, groups[..|groups| - 1], grouped);
      var subs := Bucket(grouped, GroupLabel, g);
      forall v | v in SectionVisits(prefix, GroupPlacement(g), subs)
        ensures v.key == GroupedBox(prefix, v.row.subjectId, v.row.index, GroupPlacement(GroupLabel(v.row)))
      {
        var i :| 0 <= i < |subs| && SectionVisits(prefix, GroupPlacement(g), subs)[i] == v;
        assert GroupLabel(subs[i]) == g;
      }
    }
  }

  predicate Never(r: Row) { false }

  /** In a session that holds no state for them, none of the grouped
      checkboxes is ticked. */
  lemma FreshGroupedNothingTicked(prefix: string, rows: seq<Row>)
    ensures Ticked(map[], GroupedVisits(prefix, rows)) == []
  {
    var vs := GroupedVisits(prefix, rows);
    var groups := GroupNames(GroupedRows(rows));
    GroupSectionKeys(prefix, groups, GroupedRows(rows));
    forall i | 0 <= i < |vs| ensures Checkbox(map[], vs[i]) == Never(vs[i].row) {
      if i >= |NoGroupRows(rows)| {
        assert vs[i] in GroupSections(prefix, groups, GroupedRows(rows)) by {
          assert vs[i] == GroupSections(prefix, groups, GroupedRows(rows))[i - |NoGroupRows(rows)|];
        }
      }
    }
    TickedByDefault(map[], vs, Never);
    FilterNone(Never, RowsOf(vs));
  }

  // ----- the multiselects of the elective pool and the free electives -----

  /** The position of the first row labelled `wanted` (`df[df.display_label == wanted].iloc[0]`),
      or `|pool|` when no row carries that label. */
  function FirstWithLabel(pool: seq<Row>, wanted: string): (k: nat)
    ensures k <= |pool|
    ensures k < |pool| ==> pool[k].displayLabel == wanted
    ensures forall j :: 0 <= j < k ==> pool[j].displayLabel != wanted
    decreases |pool|
  {
    if pool == [] then 0
    else if pool[0].displayLabel == wanted then 0
    else FirstWithLabel(pool[1..], wanted) + 1
  }

  /** `wanted` is one of the options listed for the table `pool`. */
  predicate Offers(pool: seq<Row>, wanted: string) {
    FirstWithLabel(pool, wanted) < |pool|
  }

  /** A label is offered exactly when some row of the table carries it. */
  lemma OffersIff(pool: seq<Row>, wanted: string)
    ensures Offers(pool, wanted) <==> exists i :: 0 <= i < |pool| && pool[i].displayLabel == wanted
  {
  }

  /** The rows the picked labels stand for, one per label, in picking order. */
  function Picks(pool: seq<Row>, labels: seq<string>): (rows: seq<Row>)
    requires AllOffered(pool, labels)
    ensures |rows| == |labels|
    ensures forall i :: 0 <= i < |labels| ==> rows[i].displayLabel == labels[i]
    decreases |labels|
  {
    if labels == [] then []
    else
      var n := |labels| - 1;
      assert Offers(pool, labels[n]);
      OfferedPrefix(pool, labels, n);
      Picks(pool, labels[..n]) + [pool[FirstWithLabel(pool, labels[n])]]
  }

  /** Each pick is the first row of the table that carries its label. */
  lemma {:induction false} PicksAreFirst(pool: seq<Row>, labels: seq<string>)
    requires AllOffered(pool, labels)
    ensures forall i :: 0 <= i < |labels| ==> Picks(pool, labels)[i] == pool[FirstWithLabel(pool, labels[i])]
    decreases |labels|
  {
    if labels != [] {
      var n := |labels| - 1;
      OfferedPrefix(pool, labels, n);
      PicksAreFirst(pool, labels[..n]);
    }
  }

  /** Every label is one of the options listed for `pool`. */
  predicate AllOffered(pool: seq<Row>, labels: seq<string>) {
    forall i :: 0 <= i < |labels| ==> Offers(pool, labels[i])
  }

  lemma OfferedPrefix(pool: seq<Row>, labels: seq<string>, n: nat)
    requires AllOffered(pool, labels) && n <= |labels|
    ensures AllOffered(pool, labels[..n])
  {
    forall i | 0 <= i < n ensures Offers(pool, labels[..n][i]) {
      assert labels[..n][i] == labels[i];
    }
  }

  lemma PicksStep(pool: seq<Row>, labels: seq<string>, i: nat)
    requires AllOffered(pool, labels)
    requires i < |labels|
    ensures Picks(pool, labels[..i + 1]) == Picks(pool, labels[..i]) + [pool[FirstWithLabel(pool, labels[i])]]
  {
    assert labels[..i + 1][..i] == labels[..i];
  }

  /** The loop over a multiselect's picks: each picked label adds the credits
      of the first row with that label and appends that row to the log. */
  method RenderMultiselect(pool: seq<Row>, picked: seq<string>, cell: CreditCell, log: SelectedSubjects)
    requires AllOffered(pool, picked)
    modifies cell, log
    ensures log.rows == old(log.rows) + Picks(pool, picked)
    ensures cell.value == old(cell.value) + Credits(Picks(pool, picked))
  {
    for i := 0 to |picked|
      invariant AllOffered(pool, picked[..i])
      invariant log.rows == old(log.rows) + Picks(pool, picked[..i])
      invariant cell.value == old(cell.value) + Credits(Picks(pool, picked[..i]))
    {
      var row := pool[FirstWithLabel(pool, picked[i])];
      OfferedPrefix(pool, picked, i + 1);
      PicksStep(pool, picked, i);
      CreditsAppend(Picks(pool, picked[..i]), [row]);
      assert Credits([row]) == row.credits by {
        assert [row][..0] == [];
      }
      cell.value := cell.value + row.credits;
      log.rows := log.rows + [row];
    }
    assert picked[..|picked|] == picked;
  }
}
