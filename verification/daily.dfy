/** Per-day buckets: the day's total, and per project its total and its
    per-file-type times (ts/src/ProjectTracker.ts:56-97). The nested objects
    of a bucket are insertion-ordered association lists. */
module Daily {
  import opened Records
  import opened Keys

  /** A newly created bucket for `date`. */
  function EmptyDay(date: string): DailyMetric {
    DailyMetric(date, 0, [])
  }

  /** What every bucket keeps: its total is the sum of its projects' totals,
      and names are unique at both levels. */
  ghost predicate DayOk(m: DailyMetric) {
    && m.totalTime == Sum(DayProjectTimes(m.projects))
    && Distinct(DayProjectNames(m.projects))
    && forall i :: 0 <= i < |m.projects| ==> Distinct(FileTypeNames(m.projects[i].fileTypes))
  }

  /** A file type's time under one project of one day: created at 0 on first
      sight, then raised only by a positive amount. */
  function CreditFileTypes(fts: seq<FileType>, name: string, amount: int): (r: seq<FileType>)
    ensures |fts| <= |r| <= |fts| + 1
  {
    var i := IndexOf(FileTypeNames(fts), name);
    var base := if i < |fts| then fts else fts + [FileType(name, 0)];
    if amount > 0 then base[i := FileType(name, base[i].totalTime + amount)] else base
  }

  /** Only the entry named `name` changes (appended at the end when new), it
      rises by the positive part of `amount`, and names stay unique. */
  lemma CreditFileTypesSpec(fts: seq<FileType>, name: string, amount: int)
    ensures var r, i := CreditFileTypes(fts, name, amount), IndexOf(FileTypeNames(fts), name);
      && FileTypeNames(r) == (if i < |fts| then FileTypeNames(fts) else FileTypeNames(fts) + [name])
      && (forall j :: 0 <= j < |fts| && j != i ==> r[j] == fts[j])
      && r[i].totalTime == (if i < |fts| then fts[i].totalTime else 0) + (if amount > 0 then amount else 0)
    ensures Distinct(FileTypeNames(fts)) ==> Distinct(FileTypeNames(CreditFileTypes(fts, name, amount)))
  {
    var i := IndexOf(FileTypeNames(fts), name);
    var base := if i < |fts| then fts else fts + [FileType(name, 0)];
    assert FileTypeNames(base) == (if i < |fts| then FileTypeNames(fts) else FileTypeNames(fts) + [name]);
    DistinctAppend(FileTypeNames(fts), name);
    var r := CreditFileTypes(fts, name, amount);
    assert FileTypeNames(r) == FileTypeNames(base);
  }

  /** A project's entry in one day: created empty on first sight, its total
      raised by `pd` and its file types credited with `fd`. */
  function CreditDayProjects(ps: seq<DayProject>, project: string, fileType: string, pd: nat, fd: int)
    : (r: seq<DayProject>)
    ensures |ps| <= |r| <= |ps| + 1
  {
    var i := IndexOf(DayProjectNames(ps), project);
    var base := if i < |ps| then ps else ps + [DayProject(project, 0, [])];
    base[i := DayProject(project, base[i].totalTime + pd, CreditFileTypes(base[i].fileTypes, fileType, fd))]
  }

  /** Only the entry named `project` changes (appended at the end when new),
      the projects' totals rise by exactly `pd`, and names stay unique. */
  lemma CreditDayProjectsSpec(ps: seq<DayProject>, project: string, fileType: string, pd: nat, fd: int)
    ensures var r, i := CreditDayProjects(ps, project, fileType, pd, fd), IndexOf(DayProjectNames(ps), project);
      && DayProjectNames(r) == (if i < |ps| then DayProjectNames(ps) else DayProjectNames(ps) + [project])
      && (forall j :: 0 <= j < |ps| && j != i ==> r[j] == ps[j])
      && r[i].totalTime == (if i < |ps| then ps[i].totalTime else 0) + pd
      && r[i].fileTypes == CreditFileTypes(if i < |ps| then ps[i].fileTypes else [], fileType, fd)
    ensures Sum(DayProjectTimes(CreditDayProjects(ps, project, fileType, pd, fd))) == Sum(DayProjectTimes(ps)) + pd
    ensures Distinct(DayProjectNames(ps)) ==> Distinct(DayProjectNames(CreditDayProjects(ps, project, fileType, pd, fd)))
  {
    var i := IndexOf(DayProjectNames(ps), project);
    var base := if i < |ps| then ps else ps + [DayProject(project, 0, [])];
    DayProjectsWith(ps, project);
    var q := base[i];
    var p := DayProject(project, q.totalTime + pd, CreditFileTypes(q.fileTypes, fileType, fd));
    assert CreditDayProjects(ps, project, fileType, pd, fd) == base[i := p];
    DayProjectReplaced(base, i, p);
  }

  /** The day's projects once `project` has been looked up. */
  lemma DayProjectsWith(ps: seq<DayProject>, project: string)
    ensures var base, i := (if project in DayProjectNames(ps) then ps else ps + [DayProject(project, 0, [])]),
                           IndexOf(DayProjectNames(ps), project);
      && DayProjectNames(base) == (if i < |ps| then DayProjectNames(ps) else DayProjectNames(ps) + [project])
      && i < |base| && base[i].name == project
      && Sum(DayProjectTimes(base)) == Sum(DayProjectTimes(ps))
      && (Distinct(DayProjectNames(ps)) ==> Distinct(DayProjectNames(base)))
  {
    DistinctAppend(DayProjectNames(ps), project);
    if project !in DayProjectNames(ps) {
      var base := ps + [DayProject(project, 0, [])];
      assert DayProjectNames(base) == DayProjectNames(ps) + [project];
      assert DayProjectTimes(base) == DayProjectTimes(ps) + [0];
      SumAppend(DayProjectTimes(ps), 0);
    }
  }

  /** Replacing one entry by one of the same name keeps the names and moves
      the sum of totals by the difference. */
  lemma DayProjectReplaced(ps: seq<DayProject>, i: nat, p: DayProject)
    requires i < |ps| && p.name == ps[i].name
    ensures DayProjectNames(ps[i := p]) == DayProjectNames(ps)
    ensures Sum(DayProjectTimes(ps[i := p])) == Sum(DayProjectTimes(ps)) - ps[i].totalTime + p.totalTime
  {
    assert DayProjectNames(ps[i := p]) == DayProjectNames(ps);
    assert DayProjectTimes(ps[i := p]) == DayProjectTimes(ps)[i := p.totalTime];
    SumUpdate(DayProjectTimes(ps), i, p.totalTime);
  }

  /** The bucket after a positive project-scope diff `pd` (lines 74-96). */
  function CreditDay(m: DailyMetric, project: string, fileType: string, pd: nat, fd: int): (r: DailyMetric)
    ensures r.date == m.date
    ensures r.totalTime == m.totalTime + pd
  {
    DailyMetric(m.date, m.totalTime + pd, CreditDayProjects(m.projects, project, fileType, pd, fd))
  }

  /** Crediting keeps a bucket balanced, with unique names at both levels. */
  lemma CreditKeepsDayOk(m: DailyMetric, project: string, fileType: string, pd: nat, fd: int)
    ensures DayOk(m) ==> DayOk(CreditDay(m, project, fileType, pd, fd))
  {
    if DayOk(m) {
      var ps := m.projects;
      var r := CreditDayProjects(ps, project, fileType, pd, fd);
      var i := IndexOf(DayProjectNames(ps), project);
      CreditDayProjectsSpec(ps, project, fileType, pd, fd);
      CreditFileTypesSpec(if i < |ps| then ps[i].fileTypes else [], fileType, fd);
      assert |DayProjectNames(r)| == |r|;
      forall j | 0 <= j < |r| ensures Distinct(FileTypeNames(r[j].fileTypes)) {
        if j != i { assert r[j] == ps[j]; }
        else { assert Distinct(FileTypeNames([])); }
      }
    }
  }

  /** `b` is `a` with no figure lowered and no entry removed or reordered. */
  ghost predicate Grows(a: DailyMetric, b: DailyMetric) {
    && a.date == b.date
    && a.totalTime <= b.totalTime
    && |a.projects| <= |b.projects|
    && forall i :: 0 <= i < |a.projects| ==>
         && b.projects[i].name == a.projects[i].name
         && b.projects[i].totalTime >= a.projects[i].totalTime
         && FileTypesGrow(a.projects[i].fileTypes, b.projects[i].fileTypes)
  }

  ghost predicate FileTypesGrow(a: seq<FileType>, b: seq<FileType>) {
    && |a| <= |b|
    && forall i :: 0 <= i < |a| ==> b[i].name == a[i].name && b[i].totalTime >= a[i].totalTime
  }

  /** No daily figure ever decreases. */
  lemma CreditDayGrows(m: DailyMetric, project: string, fileType: string, pd: nat, fd: int)
    ensures Grows(m, CreditDay(m, project, fileType, pd, fd))
  {
    var r := CreditDay(m, project, fileType, pd, fd);
    var i := IndexOf(DayProjectNames(m.projects), project);
    CreditDayProjectsSpec(m.projects, project, fileType, pd, fd);
    assert |DayProjectNames(r.projects)| == |r.projects|;
    forall j | 0 <= j < |m.projects|
      ensures r.projects[j].name == m.projects[j].name
      ensures r.projects[j].totalTime >= m.projects[j].totalTime
      ensures FileTypesGrow(m.projects[j].fileTypes, r.projects[j].fileTypes)
    {
      assert DayProjectNames(r.projects)[j] == DayProjectNames(m.projects)[j];
      if j == i {
        var fts := m.projects[i].fileTypes;
        var nfts := r.projects[i].fileTypes;
        var k := IndexOf(FileTypeNames(fts), fileType);
        CreditFileTypesSpec(fts, fileType, fd);
        assert |FileTypeNames(nfts)| == |nfts|;
        forall l | 0 <= l < |fts| ensures nfts[l].name == fts[l].name && nfts[l].totalTime >= fts[l].totalTime {
          assert FileTypeNames(nfts)[l] == FileTypeNames(fts)[l];
        }
      }
    }
  }
}
