# Credits Checker — a Dafny model of the credit dashboard

Credits Checker is a one-page Streamlit dashboard for PSU students. It
loads the course catalog and lets the student pick a major and a year/term.
It then shows courses in tabs, each course behind a checkbox or a
multiselect. The core and major-elective plan tabs show the selected
major's own courses from the catalog. The major-elective pool, general
education and free-elective tabs show their whole tables, not filtered by
major. It adds up the credits of the ticked
courses and summarises the total against the major's goal.

This project models the decision logic of `main.py` and proves what it
computes:

- **`collections.dfy` (module `Seqs`)**: the pandas operations the page
  relies on, written over sequences. These are a boolean mask (`Filter`),
  `unique()` (`Distinct`), `sorted(unique())` (`SortedUnique`) and
  `df[df[col] == k]` for a list of keys (`Bucket`, `Buckets`). Their
  counting and permutation lemmas live here too.
- **`pystr.dfy` (module `PyStr`)**: the Python string built-ins used here.
  `strip()` uses the full `str.isspace` set; `upper()` is ASCII;
  `split(sep)` keeps empty pieces. Also the lexicographic order `sorted`
  uses on `str`. Each comes with its characterisation lemmas, among them
  `split`/`join` round trips.
- **`curriculum.dfy` (module `Curriculum`)**: the normalised catalog
  `Row`, `check_major_match` (`MajorMatch`), the `special_type` filters
  that split a major's courses into core, plan electives and capstone
  (co-op and project), the group-label normalisation and the main-group
  test.
- **`checkboxes.dfy` (module `Checkboxes`)**: the widgets and the
  accumulation.
  - Checkbox state is a map from widget key to value, standing for
    Streamlit's session state. A key absent from the map shows the
    widget's default.
  - The one-cell counter list (`earned_..._list`) is the class
    `CreditCell`. `selected_subjects_data` is the class `SelectedSubjects`.
  - `TickAll` is the checkbox loop. `RenderGroupedCheckboxes` and
    `RenderGroups` are `render_grouped_checkoxes`. `RenderMultiselect` is
    the pool and free-elective multiselect loops.
  - Each method is proved against a specification function.
    `GroupedVisits` gives the checkboxes drawn, in order, with their keys
    and defaults. `Ticked` gives the rows whose box is on. `Picks` gives
    the rows a multiselect contributes.
- **`dashboard.dfy` (module `Dashboard`)**: the tabs and the summary.
  - `RenderCoreTab` is the core tab, with its default-tick rule and the
    capstone columns. `RenderGenEdTab` is the GenEd tab.
  - `Summarize` computes `total_earned`, `remaining` and `percent_val`,
    plus the merged major-elective figure. `ChartSlices` gives the chart
    data.
  - `RenderPage` is the whole pass from the loaded tables to the summary.
    It picks the major's courses out of the core catalog with
    `MajorCourses` itself; the elective, GenEd and free tables are used
    whole.

Credits, terms and the goal are `real` (exact), not IEEE floats.

A course listed in two tabs can be ticked in both, and it then counts
twice. The code keys every checkbox by its rendering context (`core_…`,
`coop_…`, `proj_…`, `me_plan_…`, `gen_…`) and adds whatever each tab
selects. Nothing in the code removes such repeats, and the model keeps
them: `Dashboard.SelectionKeepsRepeats` states that the selection is the
multiset sum of the tabs' selections. The core keys include the selected
term, so switching the term gives fresh core keys
(`Dashboard.NoCoreState`), and the default-tick rule applies again.

## Model

| member | source | states |
|---|---|---|
| Curriculum.MajorMatch | main.py:59-62 | a missing `major_ref` matches no major |
| Curriculum.MajorMatchEntries | main.py:59-62 | for a reference made of comma-free entries joined by commas: it matches a target iff some entry, trimmed and upper-cased, equals the upper-cased target (both directions) |
| Curriculum.MajorMatchSingle | main.py:59-62 | a one-entry reference matches exactly the targets equal to it up to surrounding whitespace and ASCII letter case |
| Curriculum.MajorMatchConcat | main.py:61 | a reference `a,b` matches a target iff `a` matches it or `b` matches it |
| Curriculum.MajorMatchIgnoresTargetCase | main.py:62 | upper-casing the target first changes nothing |
| Curriculum.MajorMatchExample | main.py:59-62 | `"CPE, SE"` lists the major `"se"` |
| Curriculum.MajorMatchWholeEntryExample | main.py:59-62 | `"CPE, SE"` does not list `"CP"`, so entries are compared whole and not as prefixes |
| Curriculum.MajorCoursesExactly | main.py:215 | a catalog row is among the major's courses iff its reference matches the selected abbreviation, and then as many times as it occurs in the catalog |
| Curriculum.CategoryPartition | main.py:216-218 | each occurrence of a major course with one of the four listed `special_type` values is in exactly one of core, plan, co-op and project; a course of any other type is in none; the capstone subset is exactly co-op plus project |
| Curriculum.CategoriesDisjoint | main.py:216-218 | the core, plan and capstone subsets are pairwise disjoint, co-op and project are disjoint, and each subset holds exactly the major courses of its `special_type` |
| Curriculum.GroupLabel | main.py:81-84 | the normalised label is never `"nan"`; it is empty exactly when the group is missing, empty or the string `"nan"`; any other group keeps its own text |
| Curriculum.MainGroupIff | main.py:108 | a label is a top-level group iff every `.` in it comes after some space, i.e. its first space-delimited token holds no dot |
| Curriculum.MainGroupExamples | main.py:106-108 | `"1 Language"` and `"1 กลุ่มภาษา"` are top-level groups |
| Curriculum.SubGroupExamples | main.py:106-108 | `"1.1 English"` and `"1.1 ภาษาอังกฤษ"` are sub-groups |
| PyStr.TrimStartSpec | main.py:61 | the left trim keeps a suffix that does not start with whitespace and drops only whitespace |
| PyStr.TrimEndSpec | main.py:61 | the right trim keeps a prefix that does not end with whitespace and drops only whitespace |
| PyStr.StripSpec | main.py:61 | `strip()` removes exactly the leading and trailing whitespace run: the result is a slice of the input with no whitespace at either end, and everything cut off is whitespace |
| PyStr.StripPadded | main.py:61 | whitespace padding around a word with non-space ends strips back to the word |
| PyStr.UpperIdempotent | main.py:61-62 | upper-casing twice is upper-casing once |
| PyStr.JoinSplit | main.py:61 | joining the pieces of `split(sep)` with `sep` rebuilds the string |
| PyStr.SplitJoin | main.py:61 | splitting a join of separator-free pieces gives back those pieces |
| PyStr.SplitConcat | main.py:61 | splitting `a + sep + b` gives the pieces of `a` followed by the pieces of `b` |
| PyStr.SplitWithoutSeparator | main.py:108 | a string without the separator splits into itself alone |
| PyStr.SplitFirst | main.py:108 | the first piece of a split is the input's longest prefix free of the separator |
| PyStr.StrLessIsStrictTotalOrder | main.py:100 | the string order used by `sorted` is irreflexive, transitive and total |
| Seqs.FilterComplement | main.py:86-87 | a mask and its complement split rows into two parts holding every row exactly as often as the input |
| Seqs.Distinct | main.py:289 | `unique()` lists every value, each exactly once, and nothing else |
| Seqs.DistinctFirstAppearance | main.py:289-290 | `unique()` keeps the order of first appearance: when one value comes before another in the result, it shows up in the input before the other does |
| Seqs.SortedUniqueCorrect | main.py:100 | `sorted(unique())` is strictly ascending (no repeats) and holds exactly the input's values |
| Seqs.BucketsPermutation | main.py:102-103 | slicing by each of a list of distinct keys that covers every row gives a permutation of the rows |
| Checkboxes.CreditCell.constructor | main.py:221-226 | a counter starts at zero |
| Checkboxes.SelectedSubjects.constructor | main.py:227 | the selection list starts empty |
| Checkboxes.TickAll | main.py:91-95 | the loop appends exactly the rows whose box is on, in order, one entry each, to the list and adds exactly their credit sum to the counter; nothing else changes |
| Checkboxes.TickedExactly | main.py:93-95 | the rows taken are exactly the visits whose checkbox value (stored, else the default) is on |
| Checkboxes.CreditsNonNegative | main.py:94 | a sum of non-negative credits is non-negative |
| Checkboxes.TickedNonNegative | main.py:93-95 | the ticked rows of checkboxes drawn from rows with non-negative credits all carry non-negative credits |
| Checkboxes.RenderGroupedCheckboxes | main.py:64-123 | the list grows by exactly the ticked rows among the checkboxes drawn (ungrouped rows first, then each group's rows), and the counter by exactly their credits |
| Checkboxes.RenderGroups | main.py:98-123 | the group loop appends the ticked rows of each group in turn and adds their credits |
| Checkboxes.GroupNamesSorted | main.py:100 | the groups are visited in strictly ascending order, each once, and they are exactly the labels of the grouped rows |
| Checkboxes.GroupedVisitsCover | main.py:86-103 | every row is drawn exactly once: the rows behind the drawn checkboxes are a permutation of the input, however the labels fall |
| Checkboxes.GroupSectionKeys | main.py:108-123 | every grouped checkbox starts off, is keyed by prefix, subject id, index and placement under its own group, and is placed as a main group iff `is_main_group` holds of its label |
| Checkboxes.FreshGroupedNothingTicked | main.py:93 | with no stored state, no grouped checkbox is ticked |
| Checkboxes.FirstWithLabel | main.py:283 | the position found is the first row carrying the label, or past the end when no row carries it |
| Checkboxes.OffersIff | main.py:281 | a label is offered iff some row of the table carries it |
| Checkboxes.Picks | main.py:282-283 | one row per picked label, in order, each carrying its label |
| Checkboxes.PicksAreFirst | main.py:282-283 | each picked label contributes the first row with that label |
| Checkboxes.RenderMultiselect | main.py:282-285 | the list grows by exactly those rows and the counter by exactly their credits |
| Dashboard.RealLessIsStrictTotalOrder | main.py:237 | the order on terms is a strict total order |
| Dashboard.RenderTerms | main.py:238-247 | the term loop appends the ticked core rows term by term and adds their credits |
| Dashboard.RenderCoreTab | main.py:237-264 | the core counter grows by the credits of the ticked core rows and the capstone counter by the credits of the ticked co-op and project rows; the list grows by both, core first |
| Dashboard.CoreVisitsCover | main.py:237-242 | terms are visited in strictly ascending order, and every core row is drawn exactly once |
| Dashboard.TermSectionsKeys | main.py:243-244 | every core checkbox is keyed by subject id, selected term and major, and is on by default iff its term is not later than the selected term |
| Dashboard.CoreDefaultSeeding | main.py:243 | with no stored core state for the selected term and major, the ticked core rows are exactly the rows of that term or an earlier one, each as often as listed |
| Dashboard.CoreDefaultCredits | main.py:243-246 | in that case the core counter gets exactly the credits of the core rows due by the selected term |
| Dashboard.FirstYearCourseEarned | main.py:243-246 | a single 3-credit core course of term 1.1, with term 2.1 selected and nothing stored, earns 3 core credits |
| Dashboard.CreditsPermutation | main.py:246 | the credit sum does not depend on the order of the rows |
| Dashboard.RenderGenEdTab | main.py:289-294 | the GenEd counter and the list grow by the ticked rows of each category's grouped checkboxes |
| Dashboard.GenEdVisitsCover | main.py:289-294 | every GenEd row with a category is drawn exactly once; a row whose category is NaN is never drawn |
| Dashboard.CategoryListed | main.py:289 | every row's category is among the categories visited |
| Dashboard.Percent | main.py:317 | with a non-zero goal the value is `total / goal` while that ratio is at most 1 and 1 once it is not; so it never exceeds 1, is non-negative for a positive goal and non-negative total, and is 1 exactly when the total reaches a positive goal |
| Dashboard.Summarize | main.py:315-317 | total is the sum of the six counters; remaining is never negative, is 0 exactly when the goal is reached, and otherwise closes the gap to the goal; percent never exceeds 1 and, for a positive goal, is 1 exactly when nothing remains and `total / goal` while something remains, and it is non-negative for a non-negative total; the major-elective figure is plan plus pool |
| Dashboard.ChartCoversGoal | main.py:324-326 | the chart's slices add up to the goal, or to the total once the total passes the goal |
| Dashboard.GoalExceeded | main.py:315-317 | 140 credits against a goal of 130 leave nothing remaining and a full progress bar |
| Dashboard.TotalIsSelectionCredits | main.py:315 | the total earned equals the credit sum of everything in the selection list |
| Dashboard.SelectionKeepsRepeats | main.py:227-302 | the selection is the multiset sum of the tabs' selections, so a course picked in two tabs is counted twice |
| Dashboard.RenderMajorTabs | main.py:237-277 | the core, capstone and plan counters end at the credits of their ticked rows, and the list grows by those rows in tab order |
| Dashboard.RenderOpenTabs | main.py:281-302 | the pool, GenEd and free counters end at the credits of their selected rows, and the list grows by those rows in tab order |
| Dashboard.PercentWithinBounds | main.py:317-322 | when every table carries non-negative credits and the goal is positive, the total is non-negative and the progress value lies between 0 and 1 |
| Dashboard.RenderPage | main.py:215-317 | the selection list equals `Selection`, the counters `EarnedOf` and the summary `Summarize` of them, and the summary's total is the credit sum of the selection list |

## Left out

- Streamlit presentation is not modelled: page config, the tutorial dialog and its session flag, selectboxes, tabs, expanders, markdown headers, metrics, the progress bar, the sidebar and the reload button. Checkbox values and multiselect choices are inputs.
- `load_data` is not modelled: the secrets lookup, the HTTP CSV fetch, the time-based cache and the column coercions. A `Row` holds an already-normalised catalog row, with unparseable credits and terms already 0 and NaN cells as `None`.
- `Row.group`, `Row.majorRef` and `Row.category` hold `str()` of the cell as the code reads it. The model does not decide how pandas parsed the sheet: a numeric group column read as floats gives labels such as `"1.0"`, and `is_main_group` treats those as sub-groups.
- The missing-`group`-column guard is not modelled as a separate branch. A table without the column is represented by rows whose `group` is `None`, which the model handles the same way.
- The choice of major and goal from the faculty/major tables is not modelled. The abbreviation, term and goal are inputs.
- `format_subject_label`, `format_subject_label_for_multiple` and the term display `int((x*10)%10)`: display strings only.
- The Altair chart and its colour scale: rendering only. `ChartSlices` gives its data.
- `row.to_dict()` and the helper column `group_str`: the selection list holds the `Row` itself.
- Dashboard.Percent: IEEE division is not modelled. When the goal is 0 the model gives `Some(1.0)` for a positive total and `None` otherwise, standing for numpy's `inf`/`nan`/`-inf`.
- PyStr.Upper: upper-cases ASCII letters only. Python's full Unicode case mapping is not modelled.
- Checkboxes.WidgetKey: widget keys are a datatype, not formatted strings. Two different keys whose f-strings happen to coincide are distinct here. Streamlit's `DuplicateWidgetID` error, raised when two drawn widgets share a key (two core rows with the same subject id in one major), is not modelled; such checkboxes share one stored value.
- Checkboxes.RenderMultiselect: requires that every picked label is offered by the table. Streamlit's multiselect can only return offered options, so the `.iloc[0]` lookup never fails.
- Dashboard.RenderPage: each counter is allocated inside `RenderMajorTabs` and `RenderOpenTabs` right before its tab runs, not all six up front as at main.py:221-226. The values and the order of appends are the same.
- Repetition across tabs is not removed, because the code does not remove it (see `Dashboard.SelectionKeepsRepeats`).
