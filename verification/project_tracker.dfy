/** The activity aggregator (ts/src/ProjectTracker.ts) and the row-by-row
    driver that feeds it. The tracker's four `Map` fields become Dafny maps;
    since Dafny maps are unordered, each exported table keeps a parallel
    sequence of its keys in first-insertion order. */
module Tracker {
  import opened Records
  import opened Keys
  import opened TimePolicy
  import opened Daily

  /** The calendar-date part of a timestamp: the text before its first space,
      or the whole text when it has none. */
  function GetDateKey(dateStr: string): (key: string)
    ensures key <= dateStr
    ensures ' ' !in key
    ensures |key| < |dateStr| ==> dateStr[|key|] == ' '
  {
    if dateStr == [] || dateStr[0] == ' ' then [] else [dateStr[0]] + GetDateKey(dateStr[1..])
  }

  /** "2024-10-22 09:30:00" has date key "2024-10-22"; a text with no space is its own key. */
  lemma DateKeyOfTimestamp(date: string, clock: string)
    requires ' ' !in date
    ensures GetDateKey(date + " " + clock) == date
    ensures GetDateKey(date) == date
  {
    var s := date + " " + clock;
    assert s[|date|] == ' ';
    assert GetDateKey(s) == s[..|date|];
  }

  // ---------------------------------------------------------------------------
  // Keyed tables

  /** `order` lists the keys of `m`, each once. */
  ghost predicate Keyed<V>(order: seq<string>, m: map<string, V>) {
    Distinct(order) && forall k :: k in m <==> k in order
  }

  /** The key order after `m.set(key, ...)`: a new key goes last, a known one stays put. */
  function AfterInsert<V>(order: seq<string>, m: map<string, V>, key: string): seq<string> {
    if key in m then order else order + [key]
  }

  /** The values of `m` in the order of `order` (`Array.from(map.values())`). */
  function Export<V>(order: seq<string>, m: map<string, V>): (r: seq<V>)
    requires forall k :: k in order ==> k in m
    ensures |r| == |order|
    ensures forall i :: 0 <= i < |order| ==> r[i] == m[order[i]]
  {
    seq(|order|, i requires 0 <= i < |order| => m[order[i]])
  }

  /** Setting one key replaces its value in place, or appends it when new. */
  lemma ExportAfter<V>(order: seq<string>, m: map<string, V>, k: string, v: V)
    requires Keyed(order, m)
    ensures Keyed(AfterInsert(order, m, k), m[k := v])
    ensures Export(AfterInsert(order, m, k), m[k := v])
            == if k in m then Export(order, m)[IndexOf(order, k) := v] else Export(order, m) + [v]
  {
    DistinctAppend(order, k);
    var o := AfterInsert(order, m, k);
    var e := Export(o, m[k := v]);
    if k in m {
      var i := IndexOf(order, k);
      assert forall j :: 0 <= j < |order| && j != i ==> order[j] != k;
      assert e == Export(order, m)[i := v];
    } else {
      assert e == Export(order, m) + [v];
    }
  }

  lemma ProjectSumAfter(order: seq<string>, m: map<string, Project>, k: string, p: Project)
    requires Keyed(order, m)
    ensures Sum(ProjectTimes(Export(AfterInsert(order, m, k), m[k := p])))
            == Sum(ProjectTimes(Export(order, m))) - (if k in m then m[k].totalTime else 0) + p.totalTime
  {
    ExportAfter(order, m, k, p);
    var s := Export(order, m);
    if k in m {
      var i := IndexOf(order, k);
      assert ProjectTimes(s[i := p]) == ProjectTimes(s)[i := p.totalTime];
      SumUpdate(ProjectTimes(s), i, p.totalTime);
    } else {
      assert ProjectTimes(s + [p]) == ProjectTimes(s) + [p.totalTime];
      SumAppend(ProjectTimes(s), p.totalTime);
    }
  }

  lemma MetricSumAfter(order: seq<string>, m: map<string, DailyMetric>, k: string, d: DailyMetric)
    requires Keyed(order, m)
    ensures Sum(MetricTimes(Export(AfterInsert(order, m, k), m[k := d])))
            == Sum(MetricTimes(Export(order, m))) - (if k in m then m[k].totalTime else 0) + d.totalTime
  {
    ExportAfter(order, m, k, d);
    var s := Export(order, m);
    if k in m {
      var i := IndexOf(order, k);
      assert MetricTimes(s[i := d]) == MetricTimes(s)[i := d.totalTime];
      SumUpdate(MetricTimes(s), i, d.totalTime);
    } else {
      assert MetricTimes(s + [d]) == MetricTimes(s) + [d.totalTime];
      SumAppend(MetricTimes(s), d.totalTime);
    }
  }

  ghost predicate ProjectsOk(order: seq<string>, m: map<string, Project>) {
    && Keyed(order, m)
    && forall k :: k in m ==> m[k].name == k && Distinct(BranchNames(m[k].branches))
  }

  ghost predicate DaysOk(order: seq<string>, m: map<string, DailyMetric>) {
    && Keyed(order, m)
    && forall k :: k in m ==> m[k].date == k && DayOk(m[k])
  }

  lemma ProjectsOkAfter(order: seq<string>, m: map<string, Project>, k: string, p: Project)
    requires ProjectsOk(order, m) && p.name == k && Distinct(BranchNames(p.branches))
    ensures ProjectsOk(AfterInsert(order, m, k), m[k := p])
  {
    ExportAfter(order, m, k, p);
  }

  lemma DaysOkAfter(order: seq<string>, m: map<string, DailyMetric>, k: string, d: DailyMetric)
    requires DaysOk(order, m) && d.date == k && DayOk(d)
    ensures DaysOk(AfterInsert(order, m, k), m[k := d])
  {
    ExportAfter(order, m, k, d);
  }

  // ---------------------------------------------------------------------------
  // Entries as created on first sight, and how they change

  /** The stored project, or a new empty one. */
  function SeenProject(m: map<string, Project>, name: string): Project {
    if name in m then m[name] else Project(name, [], 0)
  }

  /** The stored file-type state, or a new one seeded at `timeStamp`. */
  function SeenFileType(m: map<string, PrevFileType>, name: string, timeStamp: Stamp): PrevFileType {
    if name in m then m[name] else PrevFileType(0, timeStamp)
  }

  function SeenDay(m: map<string, DailyMetric>, date: string): DailyMetric {
    if date in m then m[date] else EmptyDay(date)
  }

  /** The project once `branchName` has been looked up: a zero-total branch is
      appended when no branch has that exact name. */
  function WithBranch(p: Project, branchName: string): (q: Project)
    ensures q.name == p.name && q.totalTime == p.totalTime
    ensures branchName in BranchNames(q.branches)
    ensures branchName in BranchNames(p.branches) ==> q == p
    ensures branchName !in BranchNames(p.branches) ==> q.branches == p.branches + [Branch(branchName, 0)]
    ensures Distinct(BranchNames(p.branches)) ==> Distinct(BranchNames(q.branches))
  {
    DistinctAppend(BranchNames(p.branches), branchName);
    if branchName in BranchNames(p.branches) then p
    else
      var q := p.(branches := p.branches + [Branch(branchName, 0)]);
      assert BranchNames(q.branches) == BranchNames(p.branches) + [branchName];
      q
  }

  /** The project with `pd` added to its total and `bd` to branch `branchName`
      (the first branch of that name); every other branch untouched. */
  function CreditProject(p: Project, branchName: string, pd: nat, bd: nat): (q: Project)
    requires branchName in BranchNames(p.branches)
    ensures q.name == p.name && q.totalTime == p.totalTime + pd
    ensures BranchNames(q.branches) == BranchNames(p.branches)
    ensures var i := IndexOf(BranchNames(p.branches), branchName);
      && q.branches[i].totalTime == p.branches[i].totalTime + bd
      && forall j :: 0 <= j < |p.branches| && j != i ==> q.branches[j] == p.branches[j]
  {
    var i := IndexOf(BranchNames(p.branches), branchName);
    var q := p.(totalTime := p.totalTime + pd,
                branches := p.branches[i := Branch(branchName, p.branches[i].totalTime + bd)]);
    assert BranchNames(q.branches) == BranchNames(p.branches);
    q
  }

  /** Crediting nothing leaves the project as it is. */
  lemma CreditNothing(p: Project, branchName: string)
    requires branchName in BranchNames(p.branches)
    ensures CreditProject(p, branchName, 0, 0) == p
  {
    var i := IndexOf(BranchNames(p.branches), branchName);
    assert p.branches[i].name == BranchNames(p.branches)[i];
    assert p.branches[i := Branch(branchName, p.branches[i].totalTime)] == p.branches;
  }

  /** The day buckets after `updateDailyMetrics(row, pd, fd)`. */
  function RecordDay(m: map<string, DailyMetric>, row: Row, pd: int, fd: int): map<string, DailyMetric> {
    var key := GetDateKey(row.time.text);
    var day := SeenDay(m, key);
    m[key := if pd > 0 then CreditDay(day, row.project, row.filetype, pd, fd) else day]
  }

  /** Recording a row keeps every bucket balanced and adds exactly the
      positive part of `pd` to the sum of the day totals. */
  lemma RecordDayKeeps(order: seq<string>, m: map<string, DailyMetric>, row: Row, pd: int, fd: int)
    requires DaysOk(order, m)
    ensures var key := GetDateKey(row.time.text);
      && DaysOk(AfterInsert(order, m, key), RecordDay(m, row, pd, fd))
      && Sum(MetricTimes(Export(AfterInsert(order, m, key), RecordDay(m, row, pd, fd))))
         == Sum(MetricTimes(Export(order, m))) + (if pd > 0 then pd else 0)
  {
    var key := GetDateKey(row.time.text);
    var day := SeenDay(m, key);
    assert DayOk(EmptyDay(key)) by { assert DayProjectTimes([]) == []; }
    assert DayOk(day) && day.date == key;
    var updated := if pd > 0 then CreditDay(day, row.project, row.filetype, pd, fd) else day;
    if pd > 0 {
      CreditKeepsDayOk(day, row.project, row.filetype, pd, fd);
    }
    assert RecordDay(m, row, pd, fd) == m[key := updated];
    MetricSumAfter(order, m, key, updated);
    DaysOkAfter(order, m, key, updated);
  }

  // ---------------------------------------------------------------------------
  // The credited amounts of one row (reconstructed row step)

  function ProjectDiff(prevRows: map<string, PrevRowData>, row: Row): nat {
    if row.project in prevRows then CreditedSeconds(row.time, prevRows[row.project].time) else 0
  }

  function BranchDiff(prevRows: map<string, PrevRowData>, row: Row): nat {
    if row.project in prevRows && row.branch in prevRows[row.project].branches
    then CreditedSeconds(row.time, prevRows[row.project].branches[row.branch])
    else 0
  }

  function FileTypeDiff(fileTypes: map<string, PrevFileType>, prevRows: map<string, PrevRowData>, row: Row): nat {
    if row.project in prevRows
    then CreditedSeconds(row.time, SeenFileType(fileTypes, row.filetype, row.time).prevTime)
    else 0
  }

  /** The row's project after the step. */
  function StepProject(projects: map<string, Project>, prevRows: map<string, PrevRowData>, row: Row): Project {
    CreditProject(WithBranch(SeenProject(projects, row.project), row.branch), row.branch,
                  ProjectDiff(prevRows, row), BranchDiff(prevRows, row))
  }

  /** The row's file-type state after the step: credited and advanced only once
      the row's project has been seen before. */
  function StepFileType(fileTypes: map<string, PrevFileType>, prevRows: map<string, PrevRowData>, row: Row)
    : PrevFileType
  {
    var ft := SeenFileType(fileTypes, row.filetype, row.time);
    if row.project in prevRows
    then PrevFileType(ft.totalTime + FileTypeDiff(fileTypes, prevRows, row), row.time)
    else ft
  }

  /** The row's project state after the step: project time and the branch's time advance to the row. */
  function StepPrevRow(prevRows: map<string, PrevRowData>, row: Row): PrevRowData {
    var branches := if row.project in prevRows then prevRows[row.project].branches else map[];
    PrevRowData(row.time, branches[row.branch := row.time])
  }

  /** For a known project the file type is seeded (if new), then credited and
      advanced: the same as one step. */
  lemma FileTypeStepOfSeen(fileTypes: map<string, PrevFileType>, prevRows: map<string, PrevRowData>, row: Row,
                            seeded: PrevFileType)
    requires row.project in prevRows && seeded == SeenFileType(fileTypes, row.filetype, row.time)
    ensures fileTypes[row.filetype := seeded][row.filetype :=
              PrevFileType(seeded.totalTime + CreditedSeconds(row.time, seeded.prevTime), row.time)]
            == fileTypes[row.filetype := StepFileType(fileTypes, prevRows, row)]
  {
  }

  /** For a known project the project entry is looked up (adding the branch if
      new), then credited: the same as one step. */
  lemma ProjectStepOfSeen(projects: map<string, Project>, prevRows: map<string, PrevRowData>, row: Row,
                          touched: Project)
    requires row.project in prevRows && touched == WithBranch(SeenProject(projects, row.project), row.branch)
    ensures var prev := prevRows[row.project];
            projects[row.project := touched][row.project := CreditProject(touched, row.branch,
              CreditedSeconds(row.time, prev.time),
              if row.branch in prev.branches then CreditedSeconds(row.time, prev.branches[row.branch]) else 0)]
            == projects[row.project := StepProject(projects, prevRows, row)]
  {
  }

  /** A project's first row credits nothing: totals stay as found. */
  lemma FirstRowCreditsNothing(projects: map<string, Project>, prevRows: map<string, PrevRowData>,
                               fileTypes: map<string, PrevFileType>, row: Row)
    requires row.project !in prevRows
    ensures var p := SeenProject(projects, row.project);
            var q := StepProject(projects, prevRows, row);
            && q.totalTime == p.totalTime
            && (forall i :: 0 <= i < |p.branches| ==> q.branches[i] == p.branches[i])
            && (|q.branches| > |p.branches| ==> q.branches[|p.branches|].totalTime == 0)
    ensures StepFileType(fileTypes, prevRows, row) == SeenFileType(fileTypes, row.filetype, row.time)
  {
    var p := SeenProject(projects, row.project);
    var w := WithBranch(p, row.branch);
    var q := StepProject(projects, prevRows, row);
    var i := IndexOf(BranchNames(w.branches), row.branch);
    assert |BranchNames(w.branches)| == |w.branches|;
    forall j | 0 <= j < |p.branches| ensures q.branches[j] == p.branches[j] {
      assert w.branches[j] == p.branches[j];
      if j == i { assert q.branches[j].name == w.branches[j].name by { assert BranchNames(q.branches)[j] == BranchNames(w.branches)[j]; } }
    }
    if |q.branches| > |p.branches| {
      assert BranchNames(q.branches)[|p.branches|] == BranchNames(w.branches)[|p.branches|];
    }
  }

  // ---------------------------------------------------------------------------
  // The tracker's contents as one value, and the run as a fold over the rows

  datatype TrackerState = TrackerState(
    projectOrder: seq<string>, projectMap: map<string, Project>,
    prevRowMap: map<string, PrevRowData>,
    fileTypeOrder: seq<string>, fileTypeMap: map<string, PrevFileType>,
    dayOrder: seq<string>, dailyMetrics: map<string, DailyMetric>)

  const Initial := TrackerState([], map[], map[], [], map[], [], map[])

  /** The effect of one row: an inactive row changes nothing; a project's first
      row only creates entries and seeds its state; a later row credits the
      day, the file type, the project and the branch. */
  function Step(s: TrackerState, row: Row): TrackerState {
    if row.active != "true" then s
    else
      var seen := row.project in s.prevRowMap;
      TrackerState(
        AfterInsert(s.projectOrder, s.projectMap, row.project),
        s.projectMap[row.project := StepProject(s.projectMap, s.prevRowMap, row)],
        s.prevRowMap[row.project := StepPrevRow(s.prevRowMap, row)],
        AfterInsert(s.fileTypeOrder, s.fileTypeMap, row.filetype),
        s.fileTypeMap[row.filetype := StepFileType(s.fileTypeMap, s.prevRowMap, row)],
        if seen then AfterInsert(s.dayOrder, s.dailyMetrics, GetDateKey(row.time.text)) else s.dayOrder,
        if seen then RecordDay(s.dailyMetrics, row, ProjectDiff(s.prevRowMap, row),
                               FileTypeDiff(s.fileTypeMap, s.prevRowMap, row))
        else s.dailyMetrics)
  }

  /** The state after feeding `rows` in order to a new tracker. */
  function Run(rows: seq<Row>): TrackerState {
    if rows == [] then Initial else Step(Run(rows[..|rows| - 1]), rows[|rows| - 1])
  }

  /** Every table of the state is keyed and its entries are well formed. */
  ghost predicate StateOk(s: TrackerState) {
    && ProjectsOk(s.projectOrder, s.projectMap)
    && Keyed(s.fileTypeOrder, s.fileTypeMap)
    && DaysOk(s.dayOrder, s.dailyMetrics)
  }

  /** Sum of the project totals of a well-formed state. */
  ghost function ProjectSum(s: TrackerState): int
    requires StateOk(s)
  {
    Sum(ProjectTimes(Export(s.projectOrder, s.projectMap)))
  }

  /** Sum of the day totals of a well-formed state. */
  ghost function DaySum(s: TrackerState): int
    requires StateOk(s)
  {
    Sum(MetricTimes(Export(s.dayOrder, s.dailyMetrics)))
  }

  /** One row adds the same amount, its project time difference, to the
      project totals and to the day totals, and keeps every table well formed. */
  lemma StepKeepsBalance(s: TrackerState, row: Row)
    requires StateOk(s)
    ensures StateOk(Step(s, row))
    ensures ProjectSum(Step(s, row)) == ProjectSum(s) + (if row.active == "true" then ProjectDiff(s.prevRowMap, row) else 0)
    ensures DaySum(Step(s, row)) == DaySum(s) + (if row.active == "true" then ProjectDiff(s.prevRowMap, row) else 0)
  {
    if row.active == "true" {
      var p := StepProject(s.projectMap, s.prevRowMap, row);
      var seen := SeenProject(s.projectMap, row.project);
      assert p.totalTime == seen.totalTime + ProjectDiff(s.prevRowMap, row);
      assert Distinct(BranchNames(seen.branches));
      ProjectsOkAfter(s.projectOrder, s.projectMap, row.project, p);
      ProjectSumAfter(s.projectOrder, s.projectMap, row.project, p);
      ExportAfter(s.fileTypeOrder, s.fileTypeMap, row.filetype, StepFileType(s.fileTypeMap, s.prevRowMap, row));
      RecordDayKeeps(s.dayOrder, s.dailyMetrics, row, ProjectDiff(s.prevRowMap, row),
                     FileTypeDiff(s.fileTypeMap, s.prevRowMap, row));
    }
  }

  /** After any rows, the day totals add up to the project totals. */
  lemma {:induction false} RunBalanced(rows: seq<Row>)
    ensures StateOk(Run(rows)) && DaySum(Run(rows)) == ProjectSum(Run(rows))
  {
    if rows == [] {
      assert DayProjectTimes([]) == [];
    } else {
      RunBalanced(rows[..|rows| - 1]);
      StepKeepsBalance(Run(rows[..|rows| - 1]), rows[|rows| - 1]);
    }
  }

  /** Rows that are not active leave a new tracker empty. */
  lemma {:induction false} RunSkipsInactive(rows: seq<Row>)
    requires forall i :: 0 <= i < |rows| ==> rows[i].active != "true"
    ensures Run(rows) == Initial
  {
    if rows != [] {
      RunSkipsInactive(rows[..|rows| - 1]);
    }
  }

  /** Entries are created on first sight only: after any rows, the projects
      and file types with an entry are exactly those of the active rows. */
  lemma {:induction false} RunKeys(rows: seq<Row>)
    ensures forall q :: q in Run(rows).prevRowMap <==>
                        exists i :: 0 <= i < |rows| && rows[i].active == "true" && rows[i].project == q
    ensures forall q :: q in Run(rows).projectMap <==> q in Run(rows).prevRowMap
    ensures forall g :: g in Run(rows).fileTypeMap <==>
                        exists i :: 0 <= i < |rows| && rows[i].active == "true" && rows[i].filetype == g
  {
    if rows != [] {
      var init, last := rows[..|rows| - 1], rows[|rows| - 1];
      RunKeys(init);
      assert forall i :: 0 <= i < |init| ==> init[i] == rows[i];
    }
  }

  /** A later row of a project credits the row's file type against that file
      type's own last-seen time, whichever project saw it last, and moves its
      last-seen time to the row; no other file type changes. */
  lemma KnownFileTypeStep(s: TrackerState, row: Row, total: nat, prev: Stamp)
    requires row.active == "true" && row.project in s.prevRowMap
    requires row.filetype in s.fileTypeMap && s.fileTypeMap[row.filetype] == PrevFileType(total, prev)
    ensures Step(s, row).fileTypeMap
         == s.fileTypeMap[row.filetype := PrevFileType(total + CreditedSeconds(row.time, prev), row.time)]
    ensures Step(s, row).fileTypeOrder == s.fileTypeOrder
    ensures row.project in Step(s, row).prevRowMap
  {
  }

  /** A file type first seen on a later row of a project starts at zero, last
      seen at the row, and is appended to the file-type order. */
  lemma NewFileTypeStep(s: TrackerState, row: Row)
    requires row.active == "true" && row.project in s.prevRowMap
    requires row.filetype !in s.fileTypeMap
    ensures Step(s, row).fileTypeMap == s.fileTypeMap[row.filetype := PrevFileType(0, row.time)]
    ensures Step(s, row).fileTypeOrder == s.fileTypeOrder + [row.filetype]
    ensures row.project in Step(s, row).prevRowMap
  {
    assert CreditedSeconds(row.time, row.time) == 0;
  }

  /** A branch first seen on a later row of a project is appended at zero and
      is not credited, while the project still gets its own gap; the branch's
      last time starts at the row. */
  lemma NewBranchStep(s: TrackerState, row: Row)
    requires row.active == "true" && row.project in s.prevRowMap && row.project in s.projectMap
    requires row.branch !in BranchNames(s.projectMap[row.project].branches)
    requires row.branch !in s.prevRowMap[row.project].branches
    ensures var p, q := s.projectMap[row.project], Step(s, row).projectMap[row.project];
            && q.branches == p.branches + [Branch(row.branch, 0)]
            && q.totalTime == p.totalTime + CreditedSeconds(row.time, s.prevRowMap[row.project].time)
    ensures Step(s, row).prevRowMap[row.project].branches
         == s.prevRowMap[row.project].branches[row.branch := row.time]
  {
    var p := s.projectMap[row.project];
    var w := WithBranch(p, row.branch);
    assert BranchNames(w.branches) == BranchNames(p.branches) + [row.branch];
    IndexOfAppend(BranchNames(p.branches), row.branch, row.branch);
    var q := CreditProject(w, row.branch, ProjectDiff(s.prevRowMap, row), 0);
    assert q.branches == p.branches + [Branch(row.branch, 0)] by {
      var i := |p.branches|;
      assert IndexOf(BranchNames(w.branches), row.branch) == i;
      assert BranchNames(q.branches)[i] == row.branch;
      forall j | 0 <= j < |q.branches| ensures q.branches[j] == (p.branches + [Branch(row.branch, 0)])[j] {
        if j == i {
          assert q.branches[j].name == BranchNames(q.branches)[j];
        }
      }
    }
  }

  /** What `parseData` hands back for `rows`: the three exported tables. */
  function RunProjects(rows: seq<Row>): seq<Project> {
    RunBalanced(rows);
    Export(Run(rows).projectOrder, Run(rows).projectMap)
  }

  function RunFileTypes(rows: seq<Row>): seq<FileType> {
    RunBalanced(rows);
    FileTypeTotals(Run(rows).fileTypeOrder, Run(rows).fileTypeMap)
  }

  function RunDailyMetrics(rows: seq<Row>): seq<DailyMetric> {
    RunBalanced(rows);
    Export(Run(rows).dayOrder, Run(rows).dailyMetrics)
  }

  /** Whatever the rows, the daily totals add up to the project totals, each
      day bucket is balanced, and names and dates are not repeated. */
  lemma ParseDataBalanced(rows: seq<Row>)
    ensures Sum(MetricTimes(RunDailyMetrics(rows))) == Sum(ProjectTimes(RunProjects(rows)))
    ensures forall i :: 0 <= i < |RunDailyMetrics(rows)| ==> DayOk(RunDailyMetrics(rows)[i])
    ensures Distinct(ProjectNames(RunProjects(rows)))
    ensures Distinct(FileTypeNames(RunFileTypes(rows)))
  {
    RunBalanced(rows);
    var s := Run(rows);
    assert ProjectNames(RunProjects(rows)) == s.projectOrder;
  }

  /** Each file type with its running total, in first-seen order. */
  function FileTypeTotals(order: seq<string>, m: map<string, PrevFileType>): (r: seq<FileType>)
    requires Keyed(order, m)
    ensures FileTypeNames(r) == order
    ensures forall name :: name in m <==> name in FileTypeNames(r)
    ensures forall i :: 0 <= i < |r| ==> r[i].totalTime == m[order[i]].totalTime
  {
    var states := Export(order, m);
    var r := seq(|states|, i requires 0 <= i < |states| => FileType(order[i], states[i].totalTime));
    assert FileTypeNames(r) == order;
    r
  }

  // ---------------------------------------------------------------------------

  class ProjectTracker {
    var projectOrder: seq<string>
    var projectMap: map<string, Project>
    var prevRowMap: map<string, PrevRowData>
    var fileTypeOrder: seq<string>
    var fileTypeMap: map<string, PrevFileType>
    var dayOrder: seq<string>
    var dailyMetrics: map<string, DailyMetric>

    /** The tracker's contents as a value. */
    ghost function State(): TrackerState
      reads this
    {
      TrackerState(projectOrder, projectMap, prevRowMap, fileTypeOrder, fileTypeMap, dayOrder, dailyMetrics)
    }

    /** Each project is stored under its own name, with distinct branch names. */
    ghost predicate ProjectsValid()
      reads this`projectOrder, this`projectMap
    {
      ProjectsOk(projectOrder, projectMap)
    }

    ghost predicate FileTypesValid()
      reads this`fileTypeOrder, this`fileTypeMap
    {
      Keyed(fileTypeOrder, fileTypeMap)
    }

    /** Each day bucket is stored under its own date and is balanced. */
    ghost predicate DaysValid()
      reads this`dayOrder, this`dailyMetrics
    {
      DaysOk(dayOrder, dailyMetrics)
    }

    ghost predicate Valid()
      reads this`projectOrder, this`projectMap, this`fileTypeOrder, this`fileTypeMap, this`dayOrder, this`dailyMetrics
    {
      ProjectsValid() && FileTypesValid() && DaysValid()
    }

    /** Every credited second lands in a day bucket and in a project, and nowhere else. */
    ghost predicate Balanced()
      reads this`projectOrder, this`projectMap, this`dayOrder, this`dailyMetrics
      requires ProjectsValid() && DaysValid()
    {
      DayTotal() == ProjectTotal()
    }

    /** Sum of all projects' totals. */
    ghost function ProjectTotal(): int
      reads this`projectOrder, this`projectMap
      requires ProjectsValid()
    {
      Sum(ProjectTimes(Export(projectOrder, projectMap)))
    }

    /** Sum of all day buckets' totals. */
    ghost function DayTotal(): int
      reads this`dayOrder, this`dailyMetrics
      requires DaysValid()
    {
      Sum(MetricTimes(Export(dayOrder, dailyMetrics)))
    }

    constructor ()
      ensures Valid() && Balanced()
      ensures projectOrder == [] && projectMap == map[] && prevRowMap == map[]
      ensures fileTypeOrder == [] && fileTypeMap == map[]
      ensures dayOrder == [] && dailyMetrics == map[]
    {
      projectOrder, projectMap, prevRowMap := [], map[], map[];
      fileTypeOrder, fileTypeMap := [], map[];
      dayOrder, dailyMetrics := [], map[];
    }

    method GetProject(name: string) returns (project: Project)
      requires ProjectsValid()
      modifies this`projectOrder, this`projectMap
      ensures ProjectsValid()
      ensures projectMap == old(projectMap)[name := SeenProject(old(projectMap), name)]
      ensures projectOrder == AfterInsert(old(projectOrder), old(projectMap), name)
      ensures project == projectMap[name] && project.name == name
      ensures ProjectTotal() == old(ProjectTotal())
    {
      ProjectSumAfter(projectOrder, projectMap, name, SeenProject(projectMap, name));
      ProjectsOkAfter(projectOrder, projectMap, name, SeenProject(projectMap, name));
      if name !in projectMap {
        projectMap := projectMap[name := Project(name, [], 0)];
        projectOrder := projectOrder + [name];
      }
      project := projectMap[name];
    }

    method GetBranch(projectName: string, branchName: string) returns (branch: Branch)
      requires ProjectsValid() && projectName in projectMap
      modifies this`projectMap
      ensures ProjectsValid()
      ensures projectMap == old(projectMap)[projectName := WithBranch(old(projectMap[projectName]), branchName)]
      ensures var bs := projectMap[projectName].branches;
              branch == bs[IndexOf(BranchNames(bs), branchName)] && branch.name == branchName
      ensures ProjectTotal() == old(ProjectTotal())
    {
      var project := projectMap[projectName];
      ProjectSumAfter(projectOrder, projectMap, projectName, WithBranch(project, branchName));
      ProjectsOkAfter(projectOrder, projectMap, projectName, WithBranch(project, branchName));
      var i := IndexOf(BranchNames(project.branches), branchName);
      if i < |project.branches| {
        branch := project.branches[i];
      } else {
        branch := Branch(branchName, 0);
        projectMap := projectMap[projectName := project.(branches := project.branches + [branch])];
        assert IndexOf(BranchNames(projectMap[projectName].branches), branchName) == i by {
          IndexOfAppend(BranchNames(project.branches), branchName, branchName);
          assert BranchNames(projectMap[projectName].branches) == BranchNames(project.branches) + [branchName];
        }
      }
    }

    method GetFileType(fileType: string, timeStamp: Stamp) returns (state: PrevFileType)
      requires FileTypesValid()
      modifies this`fileTypeOrder, this`fileTypeMap
      ensures FileTypesValid()
      ensures fileTypeMap == old(fileTypeMap)[fileType := SeenFileType(old(fileTypeMap), fileType, timeStamp)]
      ensures fileTypeOrder == AfterInsert(old(fileTypeOrder), old(fileTypeMap), fileType)
      ensures state == fileTypeMap[fileType]
    {
      ExportAfter(fileTypeOrder, fileTypeMap, fileType, SeenFileType(fileTypeMap, fileType, timeStamp));
      if fileType !in fileTypeMap {
        fileTypeMap := fileTypeMap[fileType := PrevFileType(0, timeStamp)];
        fileTypeOrder := fileTypeOrder + [fileType];
      }
      state := fileTypeMap[fileType];
    }

    method SetFileType(name: string, state: PrevFileType)
      requires FileTypesValid()
      modifies this`fileTypeOrder, this`fileTypeMap
      ensures FileTypesValid()
      ensures fileTypeMap == old(fileTypeMap)[name := state]
      ensures fileTypeOrder == AfterInsert(old(fileTypeOrder), old(fileTypeMap), name)
    {
      ExportAfter(fileTypeOrder, fileTypeMap, name, state);
      if name !in fileTypeMap {
        fileTypeOrder := fileTypeOrder + [name];
      }
      fileTypeMap := fileTypeMap[name := state];
    }

    method SetPrevRow(projectName: string, data: PrevRowData)
      modifies this`prevRowMap
      ensures prevRowMap == old(prevRowMap)[projectName := data]
    {
      prevRowMap := prevRowMap[projectName := data];
    }

    /** The previous-row state of a project, absent until one has been set. */
    function GetPrevRow(projectName: string): (r: Option<PrevRowData>)
      reads this
      ensures r.Some? <==> projectName in prevRowMap
      ensures r.Some? ==> r.value == prevRowMap[projectName]
    {
      if projectName in prevRowMap then Some(prevRowMap[projectName]) else None
    }

    method UpdateDailyMetrics(row: Row, projectTimeDiff: int, fileTypeTimeDiff: int)
      requires DaysValid()
      modifies this`dayOrder, this`dailyMetrics
      ensures DaysValid()
      ensures dailyMetrics == RecordDay(old(dailyMetrics), row, projectTimeDiff, fileTypeTimeDiff)
      ensures dayOrder == AfterInsert(old(dayOrder), old(dailyMetrics), GetDateKey(row.time.text))
      ensures DayTotal() == old(DayTotal()) + (if projectTimeDiff > 0 then projectTimeDiff else 0)
    {
      var dateKey := GetDateKey(row.time.text);
      var dailyMetric := SeenDay(dailyMetrics, dateKey);
      var updated := if projectTimeDiff > 0
                     then CreditDay(dailyMetric, row.project, row.filetype, projectTimeDiff, fileTypeTimeDiff)
                     else dailyMetric;
      RecordDayKeeps(dayOrder, dailyMetrics, row, projectTimeDiff, fileTypeTimeDiff);
      if dateKey !in dailyMetrics {
        dayOrder := dayOrder + [dateKey];
      }
      dailyMetrics := dailyMetrics[dateKey := updated];
    }

    /** All projects, one per name, in the order their names were first seen. */
    function GetAllProjects(): (r: seq<Project>)
      reads this
      requires Valid()
      ensures ProjectNames(r) == projectOrder
      ensures forall name :: name in projectMap <==> name in ProjectNames(r)
      ensures forall i :: 0 <= i < |r| ==> r[i] == projectMap[projectOrder[i]]
    {
      var r := Export(projectOrder, projectMap);
      assert ProjectNames(r) == projectOrder;
      r
    }

    /** All day buckets, one per date, in first-seen order, each balanced. */
    function GetAllDailyMetrics(): (r: seq<DailyMetric>)
      reads this
      requires Valid()
      ensures |r| == |dayOrder|
      ensures forall i :: 0 <= i < |r| ==> r[i].date == dayOrder[i] && r[i] == dailyMetrics[dayOrder[i]]
      ensures forall date :: date in dailyMetrics <==> date in dayOrder
      ensures forall i :: 0 <= i < |r| ==> DayOk(r[i])
    {
      Export(dayOrder, dailyMetrics)
    }

    /** Every file type with its running total, in first-seen order. */
    function GetAllFileTypes(): (r: seq<FileType>)
      reads this
      requires Valid()
      ensures FileTypeNames(r) == fileTypeOrder
      ensures forall name :: name in fileTypeMap <==> name in FileTypeNames(r)
      ensures forall i :: 0 <= i < |r| ==> r[i].totalTime == fileTypeMap[fileTypeOrder[i]].totalTime
    {
      FileTypeTotals(fileTypeOrder, fileTypeMap)
    }

    /** Adds `pd` to a known project and `bd` to its branch `branchName`. */
    method CreditProjectTime(projectName: string, branchName: string, pd: nat, bd: nat)
      requires ProjectsValid() && projectName in projectMap
      requires branchName in BranchNames(projectMap[projectName].branches)
      modifies this`projectMap
      ensures ProjectsValid()
      ensures projectMap == old(projectMap)[projectName := CreditProject(old(projectMap[projectName]), branchName, pd, bd)]
      ensures ProjectTotal() == old(ProjectTotal()) + pd
    {
      var credited := CreditProject(projectMap[projectName], branchName, pd, bd);
      ProjectSumAfter(projectOrder, projectMap, projectName, credited);
      ProjectsOkAfter(projectOrder, projectMap, projectName, credited);
      projectMap := projectMap[projectName := credited];
    }

    /** One heartbeat. The repository's parseData.ts is a stub without the
        row step, so this driver is a reconstruction, pinned down by the
        expectations of ts/test/parseData.test.ts. */
    method ProcessRow(row: Row)
      requires Valid() && Balanced()
      modifies this
      ensures Valid() && Balanced()
      ensures State() == Step(old(State()), row)
    {
      if row.active != "true" {
        return;
      }
      var prev := GetPrevRow(row.project);
      if prev.None? {
        SeedRow(row);
      } else {
        ContinueRow(row, prev.value);
      }
    }

    /** The first row of a project: its entries are created, nothing is
        credited, and its state starts at the row. */
    method SeedRow(row: Row)
      requires Valid() && Balanced() && row.project !in prevRowMap
      modifies this`projectOrder, this`projectMap, this`prevRowMap, this`fileTypeOrder, this`fileTypeMap
      ensures Valid() && Balanced()
      ensures projectOrder == AfterInsert(old(projectOrder), old(projectMap), row.project)
      ensures projectMap == old(projectMap)[row.project := StepProject(old(projectMap), old(prevRowMap), row)]
      ensures prevRowMap == old(prevRowMap)[row.project := StepPrevRow(old(prevRowMap), row)]
      ensures fileTypeOrder == AfterInsert(old(fileTypeOrder), old(fileTypeMap), row.filetype)
      ensures fileTypeMap == old(fileTypeMap)[row.filetype := StepFileType(old(fileTypeMap), old(prevRowMap), row)]
    {
      ghost var fileTypes, prevRows := fileTypeMap, prevRowMap;
      ghost var seen := WithBranch(SeenProject(projectMap, row.project), row.branch);
      var fileType := TouchRow(row);
      CreditNothing(seen, row.branch);
      assert StepFileType(fileTypes, prevRows, row) == fileType;
      SetPrevRow(row.project, PrevRowData(row.time, map[row.branch := row.time]));
    }

    /** A later row of a project whose state is `prev`. */
    method ContinueRow(row: Row, prev: PrevRowData)
      requires Valid() && Balanced() && row.project in prevRowMap && prev == prevRowMap[row.project]
      modifies this`projectOrder, this`projectMap, this`prevRowMap, this`fileTypeOrder, this`fileTypeMap,
               this`dayOrder, this`dailyMetrics
      ensures Valid() && Balanced()
      ensures projectOrder == AfterInsert(old(projectOrder), old(projectMap), row.project)
      ensures projectMap == old(projectMap)[row.project := StepProject(old(projectMap), old(prevRowMap), row)]
      ensures prevRowMap == old(prevRowMap)[row.project := StepPrevRow(old(prevRowMap), row)]
      ensures fileTypeOrder == AfterInsert(old(fileTypeOrder), old(fileTypeMap), row.filetype)
      ensures fileTypeMap == old(fileTypeMap)[row.filetype := StepFileType(old(fileTypeMap), old(prevRowMap), row)]
      ensures dayOrder == AfterInsert(old(dayOrder), old(dailyMetrics), GetDateKey(row.time.text))
      ensures dailyMetrics == RecordDay(old(dailyMetrics), row, ProjectDiff(old(prevRowMap), row),
                                        FileTypeDiff(old(fileTypeMap), old(prevRowMap), row))
    {
      ghost var projects, fileTypes, prevRows := projectMap, fileTypeMap, prevRowMap;
      var fileType := TouchRow(row);
      ghost var touched := projectMap[row.project];
      CreditRow(row, prev, fileType);
      FileTypeStepOfSeen(fileTypes, prevRows, row, fileType);
      ProjectStepOfSeen(projects, prevRows, row, touched);
      assert ProjectDiff(prevRows, row) == CreditedSeconds(row.time, prev.time);
      assert FileTypeDiff(fileTypes, prevRows, row) == CreditedSeconds(row.time, fileType.prevTime);
    }

    /** Looks up (creating on first sight) the row's project, branch and file type. */
    method TouchRow(row: Row) returns (fileType: PrevFileType)
      requires Valid() && Balanced()
      modifies this`projectOrder, this`projectMap, this`fileTypeOrder, this`fileTypeMap
      ensures Valid() && Balanced()
      ensures projectOrder == AfterInsert(old(projectOrder), old(projectMap), row.project)
      ensures projectMap == old(projectMap)[row.project := WithBranch(SeenProject(old(projectMap), row.project), row.branch)]
      ensures fileTypeOrder == AfterInsert(old(fileTypeOrder), old(fileTypeMap), row.filetype)
      ensures fileTypeMap == old(fileTypeMap)[row.filetype := SeenFileType(old(fileTypeMap), row.filetype, row.time)]
      ensures fileType == SeenFileType(old(fileTypeMap), row.filetype, row.time)
    {
      TouchProject(row);
      fileType := GetFileType(row.filetype, row.time);
    }

    /** Looks up (creating on first sight) the row's project and branch. */
    method TouchProject(row: Row)
      requires ProjectsValid()
      modifies this`projectOrder, this`projectMap
      ensures ProjectsValid()
      ensures projectOrder == AfterInsert(old(projectOrder), old(projectMap), row.project)
      ensures projectMap == old(projectMap)[row.project := WithBranch(SeenProject(old(projectMap), row.project), row.branch)]
      ensures ProjectTotal() == old(ProjectTotal())
    {
      ghost var projects := projectMap;
      var project := GetProject(row.project);
      ghost var seen := projectMap;
      var branch := GetBranch(row.project, row.branch);
      assert seen[row.project := WithBranch(seen[row.project], row.branch)]
          == projects[row.project := WithBranch(SeenProject(projects, row.project), row.branch)];
    }

    /** A row of an already seen project: credit the day bucket and the file
        type, then the project and the branch, and advance the project's state. */
    method CreditRow(row: Row, prev: PrevRowData, fileType: PrevFileType)
      requires Valid() && Balanced()
      requires row.project in projectMap && row.branch in BranchNames(projectMap[row.project].branches)
      modifies this`projectMap, this`prevRowMap, this`fileTypeOrder, this`fileTypeMap, this`dayOrder, this`dailyMetrics
      ensures Valid() && Balanced()
      ensures projectMap == old(projectMap)[row.project := CreditProject(old(projectMap[row.project]), row.branch,
                CreditedSeconds(row.time, prev.time),
                if row.branch in prev.branches then CreditedSeconds(row.time, prev.branches[row.branch]) else 0)]
      ensures prevRowMap == old(prevRowMap)[row.project := PrevRowData(row.time, prev.branches[row.branch := row.time])]
      ensures fileTypeOrder == AfterInsert(old(fileTypeOrder), old(fileTypeMap), row.filetype)
      ensures fileTypeMap == old(fileTypeMap)[row.filetype :=
                PrevFileType(fileType.totalTime + CreditedSeconds(row.time, fileType.prevTime), row.time)]
      ensures dayOrder == AfterInsert(old(dayOrder), old(dailyMetrics), GetDateKey(row.time.text))
      ensures dailyMetrics == RecordDay(old(dailyMetrics), row, CreditedSeconds(row.time, prev.time),
                                        CreditedSeconds(row.time, fileType.prevTime))
    {
      var projectTimeDiff := CreditedSeconds(row.time, prev.time);
      CreditDayAndFileType(row, projectTimeDiff, fileType);
      assert DayTotal() == old(ProjectTotal()) + projectTimeDiff;
      AdvanceProject(row, prev, projectTimeDiff);
    }

    /** Steps that follow the project's time difference: the day bucket, then
        the file type, credited by its own time difference and advanced to the row. */
    method CreditDayAndFileType(row: Row, projectTimeDiff: nat, fileType: PrevFileType)
      requires DaysValid() && FileTypesValid()
      modifies this`fileTypeOrder, this`fileTypeMap, this`dayOrder, this`dailyMetrics
      ensures DaysValid() && FileTypesValid()
      ensures fileTypeOrder == AfterInsert(old(fileTypeOrder), old(fileTypeMap), row.filetype)
      ensures fileTypeMap == old(fileTypeMap)[row.filetype :=
                PrevFileType(fileType.totalTime + CreditedSeconds(row.time, fileType.prevTime), row.time)]
      ensures dayOrder == AfterInsert(old(dayOrder), old(dailyMetrics), GetDateKey(row.time.text))
      ensures dailyMetrics == RecordDay(old(dailyMetrics), row, projectTimeDiff,
                                        CreditedSeconds(row.time, fileType.prevTime))
      ensures DayTotal() == old(DayTotal()) + projectTimeDiff
    {
      var fileTypeTimeDiff := CreditedSeconds(row.time, fileType.prevTime);
      UpdateDailyMetrics(row, projectTimeDiff, fileTypeTimeDiff);
      SetFileType(row.filetype, PrevFileType(fileType.totalTime + fileTypeTimeDiff, row.time));
    }

    /** Credits the project and, when the project's state has a time for the
        row's branch, the branch; then moves the project's state to the row. */
    method AdvanceProject(row: Row, prev: PrevRowData, projectTimeDiff: nat)
      requires ProjectsValid()
      requires row.project in projectMap && row.branch in BranchNames(projectMap[row.project].branches)
      modifies this`projectMap, this`prevRowMap
      ensures ProjectsValid()
      ensures projectMap == old(projectMap)[row.project := CreditProject(old(projectMap[row.project]), row.branch,
                projectTimeDiff,
                if row.branch in prev.branches then CreditedSeconds(row.time, prev.branches[row.branch]) else 0)]
      ensures prevRowMap == old(prevRowMap)[row.project := PrevRowData(row.time, prev.branches[row.branch := row.time])]
      ensures ProjectTotal() == old(ProjectTotal()) + projectTimeDiff
    {
      var branchTimeDiff := 0;
      if row.branch in prev.branches {
        branchTimeDiff := CreditedSeconds(row.time, prev.branches[row.branch]);
      }
      CreditProjectTime(row.project, row.branch, projectTimeDiff, branchTimeDiff);
      SetPrevRow(row.project, PrevRowData(row.time, prev.branches[row.branch := row.time]));
    }
  }

  /** The whole run: a fresh tracker fed every row in order, then exported. */
  method ParseData(rows: seq<Row>) returns (data: TrackingData)
    ensures fresh(data)
    ensures data.projects == RunProjects(rows)
    ensures data.fileTypes == RunFileTypes(rows)
    ensures data.dailyMetrics == RunDailyMetrics(rows)
  {
    var tracker := new ProjectTracker();
    for i := 0 to |rows|
      invariant tracker.Valid() && tracker.Balanced()
      invariant tracker.State() == Run(rows[..i])
    {
      assert rows[..i + 1][..i] == rows[..i];
      tracker.ProcessRow(rows[i]);
    }
    assert rows[..|rows|] == rows;
    data := new TrackingData(tracker.GetAllProjects(), tracker.GetAllFileTypes(), tracker.GetAllDailyMetrics());
  }
}
