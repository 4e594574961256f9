/** The record shapes the tracker reads and produces (ts/src/types.ts). */
module Records {

  datatype Option<T> = None | Some(value: T)

  /** A heartbeat timestamp: its raw text ("YYYY-MM-DD hh:mm:ss") and, when
      that text parses to an instant, the instant in whole seconds. */
  datatype Stamp = Stamp(text: string, seconds: Option<int>)

  /** One heartbeat row; `active` is the raw text of the CSV column. */
  datatype Row = Row(active: string, branch: string, cwd: string, file: string,
                     filetype: string, project: string, time: Stamp)

  datatype Branch = Branch(name: string, totalTime: nat)

  datatype Project = Project(name: string, branches: seq<Branch>, totalTime: nat)

  datatype FileType = FileType(name: string, totalTime: nat)

  /** One entry of a day's `projects` object: the project's time that day and
      its per-file-type times, both in first-insertion order. */
  datatype DayProject = DayProject(name: string, totalTime: nat, fileTypes: seq<FileType>)

  datatype DailyMetric = DailyMetric(date: string, totalTime: nat, projects: seq<DayProject>)

  /** Per-project previous-row state: the project's last time and each branch's last time. */
  datatype PrevRowData = PrevRowData(time: Stamp, branches: map<string, Stamp>)

  /** Per-file-type state: running total and last-seen time. */
  datatype PrevFileType = PrevFileType(totalTime: nat, prevTime: Stamp)

  function BranchNames(bs: seq<Branch>): seq<string> {
    seq(|bs|, i requires 0 <= i < |bs| => bs[i].name)
  }

  function FileTypeNames(fts: seq<FileType>): seq<string> {
    seq(|fts|, i requires 0 <= i < |fts| => fts[i].name)
  }

  function DayProjectNames(ps: seq<DayProject>): seq<string> {
    seq(|ps|, i requires 0 <= i < |ps| => ps[i].name)
  }

  function ProjectNames(ps: seq<Project>): seq<string> {
    seq(|ps|, i requires 0 <= i < |ps| => ps[i].name)
  }

  function ProjectTimes(ps: seq<Project>): seq<int> {
    seq(|ps|, i requires 0 <= i < |ps| => ps[i].totalTime)
  }

  function DayProjectTimes(ps: seq<DayProject>): seq<int> {
    seq(|ps|, i requires 0 <= i < |ps| => ps[i].totalTime)
  }

  function MetricTimes(ms: seq<DailyMetric>): seq<int> {
    seq(|ms|, i requires 0 <= i < |ms| => ms[i].totalTime)
  }

  /** The aggregate handed to the renderers; `fillMissingDailyMetrics`
      overwrites its `dailyMetrics` field in place. */
  class TrackingData {
    var projects: seq<Project>
    var fileTypes: seq<FileType>
    var dailyMetrics: seq<DailyMetric>

    constructor (projects: seq<Project>, fileTypes: seq<FileType>, dailyMetrics: seq<DailyMetric>)
      ensures this.projects == projects
      ensures this.fileTypes == fileTypes
      ensures this.dailyMetrics == dailyMetrics
    {
      this.projects := projects;
      this.fileTypes := fileTypes;
      this.dailyMetrics := dailyMetrics;
    }
  }
}
