module Scenarios {
  import opened Records
  import opened Keys
  import opened TimePolicy
  import opened Daily
  import opened Tracker

  /** A heartbeat as the tests write it; the working directory and the file
      play no part. */
  function Beat(active: string, branch: string, fileType: string, project: string, time: Stamp): Row {
    Row(active, branch, "", "", fileType, project, time)
  }

  lemma BasicTimeTracking(p: string, b: string, f: string, t0: Stamp, t1: Stamp, t2: Stamp)
    requires t0.seconds.Some? && t2.seconds == Some(t0.seconds.value + 60)
    ensures var rows := [Beat("true", b, f, p, t0), Beat("false", b, f, p, t1), Beat("true", b, f, p, t2)];
            && RunProjects(rows) == [Project(p, [Branch(b, 60)], 60)]
            && RunFileTypes(rows) == [FileType(f, 60)]
  {
    var r0, r1, r2 := Beat("true", b, f, p, t0), Beat("false", b, f, p, t1), Beat("true", b, f, p, t2);
    var rows := [r0, r1, r2];
    assert rows[..2] == [r0, r1] && [r0, r1][..1] == [r0];
    FirstRow(p, b, f, t0);
    var s0 := Run([r0]);
    assert Run([r0, r1]) == s0;
    OneMinuteProject(s0, p, b, f, t0, t2);
    KnownFileTypeStep(s0, r2, 0, t0);
    assert CreditedSeconds(t2, t0) == 60;
    var s2 := Run(rows);
    assert s2.projectOrder == [p] && s2.fileTypeOrder == [f];
  }

  /** The project entry a minute after the project's first row, on the same branch. */
  lemma OneMinuteEntry(projects: map<string, Project>, prevRows: map<string, PrevRowData>,
                       p: string, b: string, f: string, t0: Stamp, t1: Stamp)
    requires t0.seconds.Some? && t1.seconds == Some(t0.seconds.value + 60)
    requires projects == map[p := Project(p, [Branch(b, 0)], 0)]
    requires prevRows == map[p := PrevRowData(t0, map[b := t0])]
    ensures StepProject(projects, prevRows, Beat("true", b, f, p, t1)) == Project(p, [Branch(b, 60)], 60)
  {
    var seeded := Project(p, [Branch(b, 0)], 0);
    assert BranchNames(seeded.branches) == [b] && IndexOf([b], b) == 0;
    assert WithBranch(seeded, b) == seeded;
    assert CreditedSeconds(t1, t0) == 60;
  }

  lemma OneMinuteProject(s0: TrackerState, p: string, b: string, f: string, t0: Stamp, t1: Stamp)
    requires t0.seconds.Some? && t1.seconds == Some(t0.seconds.value + 60)
    requires s0.projectMap == map[p := Project(p, [Branch(b, 0)], 0)]
    requires s0.prevRowMap == map[p := PrevRowData(t0, map[b := t0])]
    ensures Step(s0, Beat("true", b, f, p, t1)).projectMap == map[p := Project(p, [Branch(b, 60)], 60)]
  {
    OneMinuteEntry(s0.projectMap, s0.prevRowMap, p, b, f, t0, t1);
  }

  /** Seeding: a project's first row, in a new tracker. */
  lemma FirstRow(p: string, b: string, f: string, t0: Stamp)
    ensures Run([Beat("true", b, f, p, t0)])
         == TrackerState([p], map[p := Project(p, [Branch(b, 0)], 0)], map[p := PrevRowData(t0, map[b := t0])],
                         [f], map[f := PrevFileType(0, t0)], [], map[])
  {
    var r0 := Beat("true", b, f, p, t0);
    assert [r0][..0] == [];
    var seeded := Project(p, [Branch(b, 0)], 0);
    assert WithBranch(Project(p, [], 0), b) == seeded by {
      assert BranchNames([]) == [];
    }
    CreditNothing(seeded, b);
  }

  /** "respects time threshold": a five-minute gap credits nothing. */
  lemma RespectsThreshold(p: string, b: string, f: string, t0: Stamp, t1: Stamp, t2: Stamp)
    requires t0.seconds.Some? && t2.seconds == Some(t0.seconds.value + 300)
    ensures var rows := [Beat("true", b, f, p, t0), Beat("false", b, f, p, t1), Beat("true", b, f, p, t2)];
            RunProjects(rows) == [Project(p, [Branch(b, 0)], 0)]
  {
    var r0, r1, r2 := Beat("true", b, f, p, t0), Beat("false", b, f, p, t1), Beat("true", b, f, p, t2);
    var rows := [r0, r1, r2];
    assert rows[..2] == [r0, r1] && [r0, r1][..1] == [r0];
    FirstRow(p, b, f, t0);
    var s0 := Run([r0]);
    assert Run([r0, r1]) == s0;
    assert CreditedSeconds(t2, t0) == 0;
    CreditNothing(s0.projectMap[p], b);
    var s2 := Run(rows);
    assert s2.projectOrder == [p] && s2.projectMap[p] == Project(p, [Branch(b, 0)], 0);
  }

  /** The project entry after a row on a new branch a minute after the
      project's first row. */
  lemma NewBranchProject(projects: map<string, Project>, prevRows: map<string, PrevRowData>,
                          p: string, main: string, feature: string, f: string, t0: Stamp, t1: Stamp)
    requires main != feature
    requires t0.seconds.Some? && t1.seconds == Some(t0.seconds.value + 60)
    requires projects == map[p := Project(p, [Branch(main, 0)], 0)]
    requires prevRows == map[p := PrevRowData(t0, map[main := t0])]
    ensures StepProject(projects, prevRows, Beat("true", feature, f, p, t1))
         == Project(p, [Branch(main, 0), Branch(feature, 0)], 60)
  {
    var two := Project(p, [Branch(main, 0), Branch(feature, 0)], 0);
    assert BranchNames([Branch(main, 0)]) == [main];
    assert BranchNames(two.branches) == [main, feature];
    assert WithBranch(Project(p, [Branch(main, 0)], 0), feature) == two;
    assert CreditedSeconds(t1, t0) == 60;
    assert IndexOf([main, feature], feature) == 1;
  }

  /** "handles invalid data": a row whose time cannot be read still creates
      its project; the gap from it to the next row is not credited. */
  lemma InvalidTime(p: string, b: string, f: string, bad: string, t1: Stamp)
    ensures var rows := [Beat("true", b, f, p, Stamp(bad, None)), Beat("true", b, f, p, t1)];
            RunProjects(rows) == [Project(p, [Branch(b, 0)], 0)]
  {
    var r0, r1 := Beat("true", b, f, p, Stamp(bad, None)), Beat("true", b, f, p, t1);
    assert [r0, r1][..1] == [r0];
    FirstRow(p, b, f, Stamp(bad, None));
    var s0 := Run([r0]);
    assert CreditedSeconds(t1, Stamp(bad, None)) == 0;
    CreditNothing(s0.projectMap[p], b);
    assert Run([r0, r1]).projectOrder == [p];
  }

  /** "handles empty file": no rows, no projects, file types or days. */
  lemma EmptyInput()
    ensures RunProjects([]) == [] && RunFileTypes([]) == [] && RunDailyMetrics([]) == []
  {
  }

  /** The second row of the branch-switching test: a new branch a minute
      after the first row. */
  lemma SwitchToNewBranch(p: string, main: string, feature: string, f: string, t0: Stamp, t1: Stamp)
    requires main != feature
    requires t0.seconds.Some? && t1.seconds == Some(t0.seconds.value + 60)
    ensures var s := Run([Beat("true", main, f, p, t0), Beat("true", feature, f, p, t1)]);
            && s.projectOrder == [p]
            && s.projectMap == map[p := Project(p, [Branch(main, 0), Branch(feature, 0)], 60)]
            && s.prevRowMap == map[p := PrevRowData(t1, map[main := t0, feature := t1])]
  {
    var r0, r1 := Beat("true", main, f, p, t0), Beat("true", feature, f, p, t1);
    assert [r0, r1][..1] == [r0];
    FirstRow(p, main, f, t0);
    SwitchStep(Run([r0]), p, main, feature, f, t0, t1);
  }

  lemma SwitchStep(s0: TrackerState, p: string, main: string, feature: string, f: string, t0: Stamp, t1: Stamp)
    requires main != feature
    requires t0.seconds.Some? && t1.seconds == Some(t0.seconds.value + 60)
    requires s0.projectOrder == [p] && s0.projectMap == map[p := Project(p, [Branch(main, 0)], 0)]
    requires s0.prevRowMap == map[p := PrevRowData(t0, map[main := t0])]
    ensures var s := Step(s0, Beat("true", feature, f, p, t1));
            && s.projectOrder == [p]
            && s.projectMap == map[p := Project(p, [Branch(main, 0), Branch(feature, 0)], 60)]
            && s.prevRowMap == map[p := PrevRowData(t1, map[main := t0, feature := t1])]
  {
    SwitchPrevRows(s0, p, main, feature, f, t0, t1);
    SwitchProjects(s0, p, main, feature, f, t0, t1);
  }

  lemma SwitchPrevRows(s0: TrackerState, p: string, main: string, feature: string, f: string, t0: Stamp, t1: Stamp)
    requires s0.prevRowMap == map[p := PrevRowData(t0, map[main := t0])]
    ensures Step(s0, Beat("true", feature, f, p, t1)).prevRowMap
         == map[p := PrevRowData(t1, map[main := t0, feature := t1])]
  {
  }

  lemma SwitchProjects(s0: TrackerState, p: string, main: string, feature: string, f: string, t0: Stamp, t1: Stamp)
    requires main != feature
    requires t0.seconds.Some? && t1.seconds == Some(t0.seconds.value + 60)
    requires s0.projectMap == map[p := Project(p, [Branch(main, 0)], 0)]
    requires s0.prevRowMap == map[p := PrevRowData(t0, map[main := t0])]
    ensures Step(s0, Beat("true", feature, f, p, t1)).projectMap
         == map[p := Project(p, [Branch(main, 0), Branch(feature, 0)], 60)]
  {
    NewBranchProject(s0.projectMap, s0.prevRowMap, p, main, feature, f, t0, t1);
  }

  /** The project entry after returning to the first branch, half a minute
      after the second row: the branch is credited against its own last time. */
  lemma BackToMainProject(projects: map<string, Project>, prevRows: map<string, PrevRowData>,
                          p: string, main: string, feature: string, f: string, t0: Stamp, t1: Stamp, t3: Stamp)
    requires main != feature
    requires t0.seconds.Some? && t1.seconds == Some(t0.seconds.value + 60) && t3.seconds == Some(t0.seconds.value + 90)
    requires projects == map[p := Project(p, [Branch(main, 0), Branch(feature, 0)], 60)]
    requires prevRows == map[p := PrevRowData(t1, map[main := t0, feature := t1])]
    ensures StepProject(projects, prevRows, Beat("true", main, f, p, t3))
         == Project(p, [Branch(main, 90), Branch(feature, 0)], 90)
  {
    assert BranchNames([Branch(main, 0), Branch(feature, 0)]) == [main, feature];
    assert CreditedSeconds(t3, t1) == 30 && CreditedSeconds(t3, t0) == 90;
    assert IndexOf([main, feature], main) == 0;
  }

  lemma BackToMainProjects(s: TrackerState, p: string, main: string, feature: string, f: string,
                           t0: Stamp, t1: Stamp, t3: Stamp)
    requires main != feature
    requires t0.seconds.Some? && t1.seconds == Some(t0.seconds.value + 60) && t3.seconds == Some(t0.seconds.value + 90)
    requires s.projectMap == map[p := Project(p, [Branch(main, 0), Branch(feature, 0)], 60)]
    requires s.prevRowMap == map[p := PrevRowData(t1, map[main := t0, feature := t1])]
    ensures Step(s, Beat("true", main, f, p, t3)).projectMap
         == map[p := Project(p, [Branch(main, 90), Branch(feature, 0)], 90)]
  {
    BackToMainProject(s.projectMap, s.prevRowMap, p, main, feature, f, t0, t1, t3);
  }

  /** "handles branch switching": main, then feature a minute later, then main
      again half a minute after that. The branch is credited against its own
      last time (90 s), the project against the previous row (60 s + 30 s). */
  lemma BranchSwitching(p: string, main: string, feature: string, f: string,
                        t0: Stamp, t1: Stamp, t2: Stamp, t3: Stamp)
    requires main != feature
    requires t0.seconds.Some? && t1.seconds == Some(t0.seconds.value + 60) && t3.seconds == Some(t0.seconds.value + 90)
    ensures var rows := [Beat("true", main, f, p, t0), Beat("true", feature, f, p, t1),
                         Beat("false", feature, f, p, t2), Beat("true", main, f, p, t3)];
            RunProjects(rows) == [Project(p, [Branch(main, 90), Branch(feature, 0)], 90)]
  {
    var rows := [Beat("true", main, f, p, t0), Beat("true", feature, f, p, t1),
                 Beat("false", feature, f, p, t2), Beat("true", main, f, p, t3)];
    SwitchingRun(rows, p, main, feature, f, t0, t1, t2, t3);
  }

  /** The branch-switching rows, given one by one. */
  lemma SwitchingRun(rows: seq<Row>, p: string, main: string, feature: string, f: string,
                     t0: Stamp, t1: Stamp, t2: Stamp, t3: Stamp)
    requires main != feature
    requires t0.seconds.Some? && t1.seconds == Some(t0.seconds.value + 60) && t3.seconds == Some(t0.seconds.value + 90)
    requires |rows| == 4 && rows[0] == Beat("true", main, f, p, t0) && rows[1] == Beat("true", feature, f, p, t1)
    requires rows[2] == Beat("false", feature, f, p, t2) && rows[3] == Beat("true", main, f, p, t3)
    ensures Run(rows).projectOrder == [p]
    ensures Run(rows).projectMap == map[p := Project(p, [Branch(main, 90), Branch(feature, 0)], 90)]
  {
    assert rows[..2] == [rows[0], rows[1]] && rows[..4] == rows;
    SwitchToNewBranch(p, main, feature, f, t0, t1);
    RunOneMore(rows, 2);
    RunOneMore(rows, 3);
    var s2 := Run(rows[..3]);
    assert s2 == Run(rows[..2]);
    BackToMainProjects(s2, p, main, feature, f, t0, t1, t3);
  }

  /** The first two rows of the file-type test: a second file type a minute
      into the project starts at zero. */
  lemma SecondFileType(p: string, b: string, ts: string, js: string, t0: Stamp, t1: Stamp)
    requires ts != js
    ensures var s := Run([Beat("true", b, ts, p, t0), Beat("true", b, js, p, t1)]);
            && s.fileTypeOrder == [ts, js]
            && s.fileTypeMap == map[ts := PrevFileType(0, t0), js := PrevFileType(0, t1)]
            && p in s.prevRowMap
  {
    var r0, r1 := Beat("true", b, ts, p, t0), Beat("true", b, js, p, t1);
    assert [r0, r1][..1] == [r0];
    FirstRow(p, b, ts, t0);
    NewFileTypeStep(Run([r0]), r1);
  }

  /** The fourth row of the file-type test: typescript again, 90 s after it
      was last seen. */
  lemma TypeScriptAgain(s: TrackerState, p: string, b: string, ts: string, js: string, t0: Stamp, t1: Stamp, t3: Stamp)
    requires ts != js
    requires t0.seconds.Some? && t3.seconds == Some(t0.seconds.value + 90)
    requires s.fileTypeOrder == [ts, js] && p in s.prevRowMap
    requires s.fileTypeMap == map[ts := PrevFileType(0, t0), js := PrevFileType(0, t1)]
    ensures var s' := Step(s, Beat("true", b, ts, p, t3));
            && s'.fileTypeOrder == [ts, js]
            && s'.fileTypeMap == map[ts := PrevFileType(90, t3), js := PrevFileType(0, t1)]
            && p in s'.prevRowMap
  {
    var after := map[ts := PrevFileType(90, t3), js := PrevFileType(0, t1)];
    assert CreditedSeconds(t3, t0) == 90;
    assert after == s.fileTypeMap[ts := PrevFileType(0 + CreditedSeconds(t3, t0), t3)];
    KnownFileTypeStep(s, Beat("true", b, ts, p, t3), 0, t0);
  }

  /** The first four rows of the file-type test: typescript has its 90 s. */
  lemma FileTypesAfterFourRows(p: string, b: string, ts: string, js: string,
                               t0: Stamp, t1: Stamp, t2: Stamp, t3: Stamp)
    requires ts != js
    requires t0.seconds.Some? && t3.seconds == Some(t0.seconds.value + 90)
    ensures var s := Run([Beat("true", b, ts, p, t0), Beat("true", b, js, p, t1), Beat("false", b, js, p, t2),
                          Beat("true", b, ts, p, t3)]);
            && s.fileTypeOrder == [ts, js]
            && s.fileTypeMap == map[ts := PrevFileType(90, t3), js := PrevFileType(0, t1)]
            && p in s.prevRowMap
  {
    var r0, r1, r2 := Beat("true", b, ts, p, t0), Beat("true", b, js, p, t1), Beat("false", b, js, p, t2);
    var r3 := Beat("true", b, ts, p, t3);
    assert [r0, r1, r2, r3][..3] == [r0, r1, r2] && [r0, r1, r2][..2] == [r0, r1];
    SecondFileType(p, b, ts, js, t0, t1);
    var s2 := Run([r0, r1, r2]);
    assert s2 == Run([r0, r1]);
    TypeScriptAgain(s2, p, b, ts, js, t0, t1, t3);
  }

  /** "handles multiple file types": each file type is credited against its
      own last time, across interleaved rows: typescript 90 s, javascript 60 s. */
  lemma MultipleFileTypes(p: string, b: string, ts: string, js: string,
                          t0: Stamp, t1: Stamp, t2: Stamp, t3: Stamp, t4: Stamp)
    requires ts != js
    requires t0.seconds.Some? && t1.seconds == Some(t0.seconds.value + 60)
    requires t3.seconds == Some(t0.seconds.value + 90) && t4.seconds == Some(t0.seconds.value + 120)
    ensures var rows := [Beat("true", b, ts, p, t0), Beat("true", b, js, p, t1), Beat("false", b, js, p, t2),
                         Beat("true", b, ts, p, t3), Beat("true", b, js, p, t4)];
            RunFileTypes(rows) == [FileType(ts, 90), FileType(js, 60)]
  {
    var r0, r1, r2 := Beat("true", b, ts, p, t0), Beat("true", b, js, p, t1), Beat("false", b, js, p, t2);
    var r3, r4 := Beat("true", b, ts, p, t3), Beat("true", b, js, p, t4);
    var rows := [r0, r1, r2, r3, r4];
    assert rows[..4] == [r0, r1, r2, r3];
    FileTypesAfterFourRows(p, b, ts, js, t0, t1, t2, t3);
    var s3 := Run([r0, r1, r2, r3]);
    KnownFileTypeStep(s3, r4, 0, t1);
    assert CreditedSeconds(t4, t1) == 60;
    var r := RunFileTypes(rows);
    assert FileTypeNames(r) == [ts, js];
  }

  // ---------------------------------------------------------------------------
  // Day buckets

  /** The run one step further. */
  lemma RunOneMore(rows: seq<Row>, k: nat)
    requires k < |rows|
    ensures Run(rows[..k + 1]) == Step(Run(rows[..k]), rows[k])
  {
    assert rows[..k + 1][..k] == rows[..k];
  }

  /** Project `p` and file type `f` were both last seen at `last`. */
  ghost predicate Tracks(s: TrackerState, p: string, f: string, last: Stamp) {
    && p in s.prevRowMap && s.prevRowMap[p].time == last
    && f in s.fileTypeMap && s.fileTypeMap[f].prevTime == last
  }

  /** A project's first row, on a file type not seen before, leaves the day
      buckets alone and starts tracking both at the row. */
  lemma NewTrackStep(s: TrackerState, row: Row)
    requires row.active == "true" && row.project !in s.prevRowMap && row.filetype !in s.fileTypeMap
    ensures Tracks(Step(s, row), row.project, row.filetype, row.time)
    ensures Step(s, row).dayOrder == s.dayOrder && Step(s, row).dailyMetrics == s.dailyMetrics
  {
  }

  /** A later row of a tracked project and file type records both gaps, which
      are the same gap, in the row's day bucket. */
  lemma TrackedStep(s: TrackerState, row: Row, last: Stamp)
    requires row.active == "true" && Tracks(s, row.project, row.filetype, last)
    ensures Tracks(Step(s, row), row.project, row.filetype, row.time)
    ensures Step(s, row).dayOrder == AfterInsert(s.dayOrder, s.dailyMetrics, GetDateKey(row.time.text))
    ensures var c := CreditedSeconds(row.time, last);
            Step(s, row).dailyMetrics == RecordDay(s.dailyMetrics, row, c, c)
  {
  }

  /** A project's first positive gap of the day adds its entry, holding only
      the row's file type, after the day's other projects. */
  lemma CreditNewProject(m: DailyMetric, p: string, f: string, pd: nat, fd: nat)
    requires p !in DayProjectNames(m.projects)
    ensures CreditDay(m, p, f, pd, fd)
         == DailyMetric(m.date, m.totalTime + pd, m.projects + [DayProject(p, pd, [FileType(f, fd)])])
  {
    assert IndexOf(DayProjectNames(m.projects), p) == |m.projects|;
    OnlyFileType([], f, fd, 0);
    var r := CreditDay(m, p, f, pd, fd).projects;
    assert |DayProjectNames(r)| == |r|;
    assert DayProjectNames(r)[|m.projects|] == p;
    forall j | 0 <= j < |m.projects| ensures r[j] == m.projects[j] { }
    assert r == m.projects + [DayProject(p, pd, [FileType(f, fd)])];
  }

  /** Crediting the file type of a list holding at most that one file type. */
  lemma OnlyFileType(fts: seq<FileType>, f: string, fd: nat, k: nat)
    requires fts == [] || fts == [FileType(f, k)]
    ensures CreditFileTypes(fts, f, fd) == [FileType(f, (if fts == [] then 0 else k) + fd)]
  {
    var r := CreditFileTypes(fts, f, fd);
    assert FileTypeNames(fts) == if fts == [] then [] else [f];
    assert |FileTypeNames(r)| == |r|;
    assert FileTypeNames(r)[0] == f;
  }

  /** A later gap of a day's only project, on its only file type, adds to both. */
  lemma CreditSameProject(d: string, n: nat, p: string, f: string, k: nat, pd: nat, fd: nat)
    ensures CreditDay(DailyMetric(d, n, [DayProject(p, n, [FileType(f, k)])]), p, f, pd, fd)
         == DailyMetric(d, n + pd, [DayProject(p, n + pd, [FileType(f, k + fd)])])
  {
    var ps := [DayProject(p, n, [FileType(f, k)])];
    assert DayProjectNames(ps) == [p];
    OnlyFileType([FileType(f, k)], f, fd, k);
    var r := CreditDay(DailyMetric(d, n, ps), p, f, pd, fd).projects;
    assert |DayProjectNames(r)| == |r|;
    assert DayProjectNames(r)[0] == p;
  }

  /** A day bucket holding one project with one file type, all three at `n`. */
  function Bucket(date: string, n: nat, p: string, f: string): DailyMetric {
    DailyMetric(date, n, [DayProject(p, n, [FileType(f, n)])])
  }

  /** A tracked row with no credited gap only makes sure its day has a bucket. */
  lemma TrackedIdle(s: TrackerState, row: Row, last: Stamp)
    requires row.active == "true" && Tracks(s, row.project, row.filetype, last)
    requires CreditedSeconds(row.time, last) == 0
    ensures var key := GetDateKey(row.time.text);
            && Tracks(Step(s, row), row.project, row.filetype, row.time)
            && Step(s, row).dayOrder == AfterInsert(s.dayOrder, s.dailyMetrics, key)
            && Step(s, row).dailyMetrics == s.dailyMetrics[key := SeenDay(s.dailyMetrics, key)]
  {
    TrackedStep(s, row, last);
  }

  /** A tracked row with a credited gap, on a day whose bucket is new or
      holds only this project and file type (`n` each), adds the gap at all three levels. */
  lemma TrackedBusy(s: TrackerState, row: Row, last: Stamp, n: nat)
    requires row.active == "true" && Tracks(s, row.project, row.filetype, last)
    requires CreditedSeconds(row.time, last) > 0
    requires var key := GetDateKey(row.time.text);
             SeenDay(s.dailyMetrics, key) == if n == 0 then EmptyDay(key) else Bucket(key, n, row.project, row.filetype)
    ensures var key := GetDateKey(row.time.text);
            && Tracks(Step(s, row), row.project, row.filetype, row.time)
            && Step(s, row).dayOrder == AfterInsert(s.dayOrder, s.dailyMetrics, key)
            && Step(s, row).dailyMetrics
               == s.dailyMetrics[key := Bucket(key, n + CreditedSeconds(row.time, last), row.project, row.filetype)]
  {
    var key, c := GetDateKey(row.time.text), CreditedSeconds(row.time, last);
    TrackedStep(s, row, last);
    if n > 0 {
      CreditSameProject(key, n, row.project, row.filetype, n, c, c);
    } else {
      CreditNewProject(EmptyDay(key), row.project, row.filetype, c, c);
      assert [] + [DayProject(row.project, c, [FileType(row.filetype, c)])] == Bucket(key, c, row.project, row.filetype).projects;
    }
  }

  /** Project `p` and file type `f` were last seen at `last`, and the day
      buckets are `days`, in the order `order`. */
  ghost predicate DayView(s: TrackerState, p: string, f: string, last: Stamp,
                          order: seq<string>, days: map<string, DailyMetric>) {
    Tracks(s, p, f, last) && s.dayOrder == order && s.dailyMetrics == days
  }

  /** `TrackedIdle` for row `k` of a run, on project `p` and file type `f` at
      time `now`, from the buckets `days` to `days'`. */
  lemma RunIdle(rows: seq<Row>, k: nat, p: string, f: string, last: Stamp, now: Stamp,
                order: seq<string>, days: map<string, DailyMetric>, order': seq<string>, days': map<string, DailyMetric>)
    requires k < |rows| && rows[k].active == "true"
    requires rows[k].project == p && rows[k].filetype == f && rows[k].time == now
    requires DayView(Run(rows[..k]), p, f, last, order, days)
    requires CreditedSeconds(now, last) == 0
    requires var key := GetDateKey(now.text);
             order' == AfterInsert(order, days, key) && days' == days[key := SeenDay(days, key)]
    ensures DayView(Run(rows[..k + 1]), p, f, now, order', days')
  {
    RunOneMore(rows, k);
    TrackedIdle(Run(rows[..k]), rows[k], last);
  }

  /** `TrackedBusy` for row `k` of a run, on project `p` and file type `f` at
      time `now`, from the buckets `days` to `days'`. */
  lemma RunBusy(rows: seq<Row>, k: nat, p: string, f: string, last: Stamp, now: Stamp, n: nat,
                order: seq<string>, days: map<string, DailyMetric>, order': seq<string>, days': map<string, DailyMetric>)
    requires k < |rows| && rows[k].active == "true"
    requires rows[k].project == p && rows[k].filetype == f && rows[k].time == now
    requires DayView(Run(rows[..k]), p, f, last, order, days)
    requires CreditedSeconds(now, last) > 0
    requires var key := GetDateKey(now.text);
             && SeenDay(days, key) == (if n == 0 then EmptyDay(key) else Bucket(key, n, p, f))
             && order' == AfterInsert(order, days, key)
             && days' == days[key := Bucket(key, n + CreditedSeconds(now, last), p, f)]
    ensures DayView(Run(rows[..k + 1]), p, f, now, order', days')
  {
    RunOneMore(rows, k);
    TrackedBusy(Run(rows[..k]), rows[k], last, n);
  }

  /** A run's first row starts tracking its project and file type, with no
      day bucket yet. */
  lemma FirstRowView(rows: seq<Row>, p: string, b: string, f: string, t0: Stamp)
    requires |rows| >= 1 && rows[0] == Beat("true", b, f, p, t0)
    ensures DayView(Run(rows[..1]), p, f, t0, [], map[])
  {
    assert rows[..1] == [Beat("true", b, f, p, t0)];
    FirstRow(p, b, f, t0);
  }

  /** A project and a file type that no row names are not in the tables. */
  lemma RunUnseen(rows: seq<Row>, p: string, f: string)
    requires forall i :: 0 <= i < |rows| ==> rows[i].project != p && rows[i].filetype != f
    ensures p !in Run(rows).prevRowMap && f !in Run(rows).fileTypeMap
  {
    RunKeys(rows);
  }

  /** Row `k` of a run is the first row of project `p` and of file type `f`:
      tracking moves to them and the day buckets stay as they were. */
  lemma RunSeed(rows: seq<Row>, k: nat, p: string, f: string, now: Stamp,
                q: string, g: string, last: Stamp, order: seq<string>, days: map<string, DailyMetric>)
    requires k < |rows| && rows[k].active == "true"
    requires rows[k].project == p && rows[k].filetype == f && rows[k].time == now
    requires forall i :: 0 <= i < k ==> rows[i].project != p && rows[i].filetype != f
    requires DayView(Run(rows[..k]), q, g, last, order, days)
    ensures DayView(Run(rows[..k + 1]), p, f, now, order, days)
  {
    RunOneMore(rows, k);
    RunUnseen(rows[..k], p, f);
    NewTrackStep(Run(rows[..k]), rows[k]);
  }

  /** A tracked row with a credited gap, on a day whose bucket `m` does not
      hold its project yet, appends the project with the gap. */
  lemma TrackedJoin(s: TrackerState, row: Row, last: Stamp, m: DailyMetric, m': DailyMetric)
    requires row.active == "true" && Tracks(s, row.project, row.filetype, last)
    requires CreditedSeconds(row.time, last) > 0
    requires SeenDay(s.dailyMetrics, GetDateKey(row.time.text)) == m
    requires row.project !in DayProjectNames(m.projects)
    requires var c := CreditedSeconds(row.time, last);
             m' == DailyMetric(m.date, m.totalTime + c, m.projects + [DayProject(row.project, c, [FileType(row.filetype, c)])])
    ensures var key := GetDateKey(row.time.text);
            && Tracks(Step(s, row), row.project, row.filetype, row.time)
            && Step(s, row).dayOrder == AfterInsert(s.dayOrder, s.dailyMetrics, key)
            && Step(s, row).dailyMetrics == s.dailyMetrics[key := m']
  {
    var c := CreditedSeconds(row.time, last);
    TrackedStep(s, row, last);
    CreditNewProject(m, row.project, row.filetype, c, c);
  }

  /** `TrackedJoin` for row `k` of a run: the day's bucket `m` becomes `m'`. */
  lemma RunJoin(rows: seq<Row>, k: nat, p: string, f: string, last: Stamp, now: Stamp, m: DailyMetric, m': DailyMetric,
                order: seq<string>, days: map<string, DailyMetric>, order': seq<string>, days': map<string, DailyMetric>)
    requires k < |rows| && rows[k].active == "true"
    requires rows[k].project == p && rows[k].filetype == f && rows[k].time == now
    requires DayView(Run(rows[..k]), p, f, last, order, days)
    requires CreditedSeconds(now, last) > 0
    requires SeenDay(days, GetDateKey(now.text)) == m && p !in DayProjectNames(m.projects)
    requires var c := CreditedSeconds(now, last);
             m' == DailyMetric(m.date, m.totalTime + c, m.projects + [DayProject(p, c, [FileType(f, c)])])
    requires order' == AfterInsert(order, days, GetDateKey(now.text)) && days' == days[GetDateKey(now.text) := m']
    ensures DayView(Run(rows[..k + 1]), p, f, now, order', days')
  {
    RunOneMore(rows, k);
    TrackedJoin(Run(rows[..k]), rows[k], last, m, m');
  }

  /** The first two rows of the gap test: a five-minute gap opens the day's
      bucket with nothing in it. */
  lemma GapOpensEmptyDay(rows: seq<Row>, p: string, b: string, f: string, d: string, t0: Stamp, t1: Stamp)
    requires |rows| >= 2 && rows[0] == Beat("true", b, f, p, t0) && rows[1] == Beat("true", b, f, p, t1)
    requires t0.seconds.Some? && t1.seconds == Some(t0.seconds.value + 300)
    requires GetDateKey(t1.text) == d
    ensures DayView(Run(rows[..2]), p, f, t1, [d], map[d := EmptyDay(d)])
  {
    FirstRowView(rows, p, b, f, t0);
    var none: map<string, DailyMetric> := map[];
    var empty := map[d := EmptyDay(d)];
    assert CreditedSeconds(t1, t0) == 0;
    assert AfterInsert([], none, d) == [d] && none[d := SeenDay(none, d)] == empty;
    RunIdle(rows, 1, p, f, t0, t1, [], none, [d], empty);
  }

  /** "should handle gaps exceeding time threshold": after a five-minute gap,
      only the following minute is credited to the day. */
  lemma GapsOverThreshold(p: string, b: string, f: string, d: string, t0: Stamp, t1: Stamp, t2: Stamp)
    requires t0.seconds.Some? && t1.seconds == Some(t0.seconds.value + 300) && t2.seconds == Some(t0.seconds.value + 360)
    requires GetDateKey(t1.text) == d && GetDateKey(t2.text) == d
    ensures var rows := [Beat("true", b, f, p, t0), Beat("true", b, f, p, t1), Beat("true", b, f, p, t2)];
            RunDailyMetrics(rows) == [Bucket(d, 60, p, f)]
  {
    var rows := [Beat("true", b, f, p, t0), Beat("true", b, f, p, t1), Beat("true", b, f, p, t2)];
    assert rows[..3] == rows;
    GapThenMinute(rows, p, b, f, d, t0, t1, t2);
    DailyOfView(rows, p, f, t2, [d], map[d := Bucket(d, 60, p, f)]);
  }

  /** The gap test's rows, given one by one. */
  lemma GapThenMinute(rows: seq<Row>, p: string, b: string, f: string, d: string, t0: Stamp, t1: Stamp, t2: Stamp)
    requires |rows| == 3 && rows[0] == Beat("true", b, f, p, t0) && rows[1] == Beat("true", b, f, p, t1)
    requires rows[2] == Beat("true", b, f, p, t2)
    requires t0.seconds.Some? && t1.seconds == Some(t0.seconds.value + 300) && t2.seconds == Some(t0.seconds.value + 360)
    requires GetDateKey(t1.text) == d && GetDateKey(t2.text) == d
    ensures DayView(Run(rows[..3]), p, f, t2, [d], map[d := Bucket(d, 60, p, f)])
  {
    GapOpensEmptyDay(rows, p, b, f, d, t0, t1);
    var empty := map[d := EmptyDay(d)];
    var one := map[d := Bucket(d, 60, p, f)];
    assert CreditedSeconds(t2, t1) == 60;
    assert SeenDay(empty, d) == EmptyDay(d) && AfterInsert([d], empty, d) == [d];
    assert one == empty[d := Bucket(d, 0 + 60, p, f)];
    RunBusy(rows, 2, p, f, t1, t2, 0, [d], empty, [d], one);
  }

  /** The exported day buckets of a run whose buckets are known. */
  lemma DailyOfView(rows: seq<Row>, p: string, f: string, last: Stamp,
                    order: seq<string>, days: map<string, DailyMetric>)
    requires DayView(Run(rows), p, f, last, order, days) && forall k :: k in order ==> k in days
    ensures RunDailyMetrics(rows) == Export(order, days)
  {
  }

  /** The rows of the multiple-projects test: two minutes on project `p1` with
      file type `f1`, then two on `p2` with `f2`, all on day `d`. */
  ghost predicate TwoProjectRows(rows: seq<Row>, p1: string, p2: string, b: string, f1: string, f2: string, d: string,
                                 t0: Stamp, t1: Stamp, t2: Stamp, t3: Stamp) {
    && |rows| == 4
    && rows[0] == Beat("true", b, f1, p1, t0) && rows[1] == Beat("true", b, f1, p1, t1)
    && rows[2] == Beat("true", b, f2, p2, t2) && rows[3] == Beat("true", b, f2, p2, t3)
    && p1 != p2 && f1 != f2
    && t0.seconds.Some? && t1.seconds == Some(t0.seconds.value + 60)
    && t2.seconds == Some(t0.seconds.value + 120) && t3.seconds == Some(t0.seconds.value + 180)
    && GetDateKey(t1.text) == d && GetDateKey(t3.text) == d
  }

  lemma TwoProjectsFirstHalf(rows: seq<Row>, p1: string, p2: string, b: string, f1: string, f2: string, d: string,
                             t0: Stamp, t1: Stamp, t2: Stamp, t3: Stamp)
    requires TwoProjectRows(rows, p1, p2, b, f1, f2, d, t0, t1, t2, t3)
    ensures DayView(Run(rows[..3]), p2, f2, t2, [d], map[d := Bucket(d, 60, p1, f1)])
  {
    FirstMinute(rows, p1, b, f1, d, t0, t1);
    RunSeed(rows, 2, p2, f2, t2, p1, f1, t1, [d], map[d := Bucket(d, 60, p1, f1)]);
  }

  /** "should track multiple projects per day": one minute on each of two
      projects gives a 120 s day holding both, each with its own file type. */
  lemma MultipleProjectsPerDay(p1: string, p2: string, b: string, f1: string, f2: string, d: string,
                               t0: Stamp, t1: Stamp, t2: Stamp, t3: Stamp)
    requires p1 != p2 && f1 != f2
    requires t0.seconds.Some? && t1.seconds == Some(t0.seconds.value + 60)
    requires t2.seconds == Some(t0.seconds.value + 120) && t3.seconds == Some(t0.seconds.value + 180)
    requires GetDateKey(t1.text) == d && GetDateKey(t3.text) == d
    ensures var rows := [Beat("true", b, f1, p1, t0), Beat("true", b, f1, p1, t1),
                         Beat("true", b, f2, p2, t2), Beat("true", b, f2, p2, t3)];
            RunDailyMetrics(rows) == [DailyMetric(d, 120, [DayProject(p1, 60, [FileType(f1, 60)]), DayProject(p2, 60, [FileType(f2, 60)])])]
  {
    var rows := [Beat("true", b, f1, p1, t0), Beat("true", b, f1, p1, t1),
                 Beat("true", b, f2, p2, t2), Beat("true", b, f2, p2, t3)];
    assert rows[..4] == rows;
    TwoProjectsFirstHalf(rows, p1, p2, b, f1, f2, d, t0, t1, t2, t3);
    var m := Bucket(d, 60, p1, f1);
    var one := map[d := m];
    var both := DailyMetric(d, 120, [DayProject(p1, 60, [FileType(f1, 60)]), DayProject(p2, 60, [FileType(f2, 60)])]);
    assert CreditedSeconds(t3, t2) == 60;
    assert DayProjectNames(m.projects) == [p1];
    assert AfterInsert([d], one, d) == [d] && SeenDay(one, d) == m;
    assert m.projects + [DayProject(p2, 60, [FileType(f2, 60)])] == both.projects;
    RunJoin(rows, 3, p2, f2, t2, t3, m, both, [d], one, [d], map[d := both]);
  }
  /** The rows of the per-day test: one project, branch and file type; three
      rows on day `d1`, then, after a long break, three on day `d2`. */
  ghost predicate PerDayRows(rows: seq<Row>, p: string, b: string, f: string, d1: string, d2: string,
                             t0: Stamp, t1: Stamp, t2: Stamp, t3: Stamp, t4: Stamp, t5: Stamp) {
    && rows == [Beat("true", b, f, p, t0), Beat("true", b, f, p, t1), Beat("true", b, f, p, t2),
                Beat("true", b, f, p, t3), Beat("true", b, f, p, t4), Beat("true", b, f, p, t5)]
    && d1 != d2
    && t0.seconds.Some? && t1.seconds == Some(t0.seconds.value + 60) && t2.seconds == Some(t0.seconds.value + 240)
    && t3.seconds.Some? && t3.seconds.value > t0.seconds.value + 360
    && t4.seconds == Some(t3.seconds.value + 60) && t5.seconds == Some(t3.seconds.value + 120)
    && GetDateKey(t1.text) == d1 && GetDateKey(t2.text) == d1
    && GetDateKey(t3.text) == d2 && GetDateKey(t4.text) == d2 && GetDateKey(t5.text) == d2
  }

  /** A project's first row and, a minute later on day `d`, its second:
      the minute is the day's. */
  lemma FirstMinute(rows: seq<Row>, p: string, b: string, f: string, d: string, t0: Stamp, t1: Stamp)
    requires |rows| >= 2 && rows[0] == Beat("true", b, f, p, t0) && rows[1] == Beat("true", b, f, p, t1)
    requires t0.seconds.Some? && t1.seconds == Some(t0.seconds.value + 60) && GetDateKey(t1.text) == d
    ensures DayView(Run(rows[..2]), p, f, t1, [d], map[d := Bucket(d, 60, p, f)])
  {
    FirstRowView(rows, p, b, f, t0);
    var none: map<string, DailyMetric> := map[];
    var one := map[d := Bucket(d, 60, p, f)];
    assert CreditedSeconds(t1, t0) == 60;
    assert SeenDay(none, d) == EmptyDay(d) && AfterInsert([], none, d) == [d];
    assert one == none[d := Bucket(d, 0 + 60, p, f)];
    RunBusy(rows, 1, p, f, t0, t1, 0, [], none, [d], one);
  }

  lemma PerDayTwoRows(rows: seq<Row>, p: string, b: string, f: string, d1: string, d2: string,
                      t0: Stamp, t1: Stamp, t2: Stamp, t3: Stamp, t4: Stamp, t5: Stamp)
    requires PerDayRows(rows, p, b, f, d1, d2, t0, t1, t2, t3, t4, t5)
    ensures DayView(Run(rows[..2]), p, f, t1, [d1], map[d1 := Bucket(d1, 60, p, f)])
  {
    FirstMinute(rows, p, b, f, d1, t0, t1);
  }

  lemma PerDayThreeRows(rows: seq<Row>, p: string, b: string, f: string, d1: string, d2: string,
                        t0: Stamp, t1: Stamp, t2: Stamp, t3: Stamp, t4: Stamp, t5: Stamp)
    requires PerDayRows(rows, p, b, f, d1, d2, t0, t1, t2, t3, t4, t5)
    ensures DayView(Run(rows[..3]), p, f, t2, [d1], map[d1 := Bucket(d1, 60, p, f)])
  {
    PerDayTwoRows(rows, p, b, f, d1, d2, t0, t1, t2, t3, t4, t5);
    var one := map[d1 := Bucket(d1, 60, p, f)];
    assert CreditedSeconds(t2, t1) == 0;
    RunIdle(rows, 2, p, f, t1, t2, [d1], one, [d1], one);
  }

  lemma PerDayFourRows(rows: seq<Row>, p: string, b: string, f: string, d1: string, d2: string,
                       t0: Stamp, t1: Stamp, t2: Stamp, t3: Stamp, t4: Stamp, t5: Stamp)
    requires PerDayRows(rows, p, b, f, d1, d2, t0, t1, t2, t3, t4, t5)
    ensures DayView(Run(rows[..4]), p, f, t3, [d1, d2], map[d1 := Bucket(d1, 60, p, f), d2 := EmptyDay(d2)])
  {
    PerDayThreeRows(rows, p, b, f, d1, d2, t0, t1, t2, t3, t4, t5);
    var one := map[d1 := Bucket(d1, 60, p, f)];
    assert CreditedSeconds(t3, t2) == 0;
    RunIdle(rows, 3, p, f, t2, t3, [d1], one, [d1, d2], one[d2 := EmptyDay(d2)]);
  }

  lemma PerDayFiveRows(rows: seq<Row>, p: string, b: string, f: string, d1: string, d2: string,
                       t0: Stamp, t1: Stamp, t2: Stamp, t3: Stamp, t4: Stamp, t5: Stamp)
    requires PerDayRows(rows, p, b, f, d1, d2, t0, t1, t2, t3, t4, t5)
    ensures DayView(Run(rows[..5]), p, f, t4, [d1, d2], map[d1 := Bucket(d1, 60, p, f), d2 := Bucket(d2, 60, p, f)])
  {
    PerDayFourRows(rows, p, b, f, d1, d2, t0, t1, t2, t3, t4, t5);
    var two := map[d1 := Bucket(d1, 60, p, f), d2 := EmptyDay(d2)];
    var three := map[d1 := Bucket(d1, 60, p, f), d2 := Bucket(d2, 60, p, f)];
    assert CreditedSeconds(t4, t3) == 60;
    assert SeenDay(two, d2) == EmptyDay(d2) && AfterInsert([d1, d2], two, d2) == [d1, d2];
    assert three == two[d2 := Bucket(d2, 0 + 60, p, f)];
    RunBusy(rows, 4, p, f, t3, t4, 0, [d1, d2], two, [d1, d2], three);
  }

  /** "should correctly calculate time spent per day": three rows on one day
      (a one-minute gap, then a three-minute one over the threshold) and three
      on the next (two one-minute gaps) give one bucket per day, 60 s and
      120 s, each split the same way by project and file type. */
  lemma TimePerDay(p: string, b: string, f: string, d1: string, d2: string,
                   t0: Stamp, t1: Stamp, t2: Stamp, t3: Stamp, t4: Stamp, t5: Stamp)
    requires d1 != d2
    requires t0.seconds.Some? && t1.seconds == Some(t0.seconds.value + 60) && t2.seconds == Some(t0.seconds.value + 240)
    requires t3.seconds.Some? && t3.seconds.value > t0.seconds.value + 360
    requires t4.seconds == Some(t3.seconds.value + 60) && t5.seconds == Some(t3.seconds.value + 120)
    requires GetDateKey(t1.text) == d1 && GetDateKey(t2.text) == d1
    requires GetDateKey(t3.text) == d2 && GetDateKey(t4.text) == d2 && GetDateKey(t5.text) == d2
    ensures var rows := [Beat("true", b, f, p, t0), Beat("true", b, f, p, t1), Beat("true", b, f, p, t2),
                         Beat("true", b, f, p, t3), Beat("true", b, f, p, t4), Beat("true", b, f, p, t5)];
            RunDailyMetrics(rows) == [Bucket(d1, 60, p, f), Bucket(d2, 120, p, f)]
  {
    var rows := [Beat("true", b, f, p, t0), Beat("true", b, f, p, t1), Beat("true", b, f, p, t2),
                 Beat("true", b, f, p, t3), Beat("true", b, f, p, t4), Beat("true", b, f, p, t5)];
    assert rows[..6] == rows;
    PerDayFiveRows(rows, p, b, f, d1, d2, t0, t1, t2, t3, t4, t5);
    var three := map[d1 := Bucket(d1, 60, p, f), d2 := Bucket(d2, 60, p, f)];
    assert CreditedSeconds(t5, t4) == 60;
    RunBusy(rows, 5, p, f, t4, t5, 60, [d1, d2], three, [d1, d2], three[d2 := Bucket(d2, 120, p, f)]);
  }
}
