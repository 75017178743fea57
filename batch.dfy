/** main(): read the rows of Input.csv, keep the first three, and run one job
    per row, one after the other, each on the download directory the previous
    one left. A job never throws to the loop, so every kept row is run. */
module Batch {
  import opened Naming
  import opened Job

  /** How many rows a run processes: records.slice(0, 3). */
  const BatchLimit: nat := 3

  /** The two columns of a row that the script reads. */
  datatype Record = Record(firstName: string, url: string)

  /** A row together with what its job meets in the world. */
  datatype Task = Task(record: Record, env: JobEnv)

  /** The statuses of the jobs run, their events in order, and the download
      directory at the end. */
  datatype BatchRun = BatchRun(statuses: seq<JobStatus>, events: seq<Event>, files: set<string>)

  function Min(a: nat, b: nat): nat {
    if a <= b then a else b
  }

  /** slice(0, 3): the rows in front, as many as there are up to three. */
  function Selected(tasks: seq<Task>): (s: seq<Task>)
    ensures |s| == Min(BatchLimit, |tasks|)
    ensures forall i :: 0 <= i < |s| ==> s[i] == tasks[i]
  {
    if |tasks| <= BatchLimit then tasks else tasks[..BatchLimit]
  }

  /** The kept rows' urls, in row order. */
  function Urls(tasks: seq<Task>): (us: seq<string>)
    ensures |us| == |tasks|
    ensures forall i :: 0 <= i < |tasks| ==> us[i] == tasks[i].record.url
  {
    if tasks == [] then [] else Urls(tasks[..|tasks| - 1]) + [tasks[|tasks| - 1].record.url]
  }

  /** The sequential loop: each job starts when the one before it has
      returned, on the directory it left. */
  function RunAll(tasks: seq<Task>, files: set<string>): BatchRun
    decreases |tasks|
  {
    if tasks == [] then BatchRun([], [], files)
    else
      var before := RunAll(tasks[..|tasks| - 1], files);
      var last := tasks[|tasks| - 1];
      var r := RunJob(last.record.url, last.env, before.files);
      BatchRun(before.statuses + [r.status], before.events + r.events, r.files)
  }

  /** main(): `rows` is None when processCSV delivers no rows. A parse error
      rejects its promise and is caught by main; an unreadable file ends the
      process. Either way no job runs and nothing changes. */
  function RunMain(rows: Option<seq<Task>>, files: set<string>): BatchRun {
    if rows.None? then BatchRun([], [], files) else RunAll(Selected(rows.value), files)
  }

  /** Running a batch one more row is running the batch, then that row's job
      on the directory the batch left. */
  lemma RunAllSnoc(tasks: seq<Task>, t: Task, files: set<string>)
    ensures var before := RunAll(tasks, files);
      var r := RunJob(t.record.url, t.env, before.files);
      RunAll(tasks + [t], files) == BatchRun(before.statuses + [r.status], before.events + r.events, r.files)
  {
    assert (tasks + [t])[..|tasks + [t]| - 1] == tasks;
  }

  /** Every row is run, whatever the rows before it did: there is one status
      per row, and the status of row i is what its job gives on the directory
      the first i jobs left. */
  lemma {:induction false} EveryRowRuns(tasks: seq<Task>, files: set<string>)
    ensures var b := RunAll(tasks, files);
      && |b.statuses| == |tasks|
      && forall i :: 0 <= i < |tasks| ==>
           b.statuses[i] == RunJob(tasks[i].record.url, tasks[i].env, RunAll(tasks[..i], files).files).status
    decreases |tasks|
  {
    if tasks != [] {
      var n := |tasks| - 1;
      var init := tasks[..n];
      var b := RunAll(init, files);
      var last := RunJob(tasks[n].record.url, tasks[n].env, b.files);
      EveryRowRuns(init, files);
      assert RunAll(tasks, files).statuses == b.statuses + [last.status];
      forall i | 0 <= i < |tasks|
        ensures RunAll(tasks, files).statuses[i] ==
          RunJob(tasks[i].record.url, tasks[i].env, RunAll(tasks[..i], files).files).status
      {
        if i < n {
          assert RunAll(tasks, files).statuses[i] == b.statuses[i];
          assert init[i] == tasks[i];
          assert init[..i] == tasks[..i];
        } else {
          assert tasks[..i] == init;
        }
      }
    }
  }

  /** Whether a row's job completes depends on that row's world alone, never
      on the jobs before it. */
  lemma RowCompletesIff(tasks: seq<Task>, files: set<string>, i: nat)
    requires i < |tasks|
    ensures var b := RunAll(tasks, files);
      i < |b.statuses| && (b.statuses[i].Completed? <==> Proceeds(tasks[i].env))
  {
    EveryRowRuns(tasks, files);
    JobCompletesIff(tasks[i].record.url, tasks[i].env, RunAll(tasks[..i], files).files);
  }

  /** The jobs are entered one at a time, once per row, in row order. */
  lemma {:induction false} RowsInOrder(tasks: seq<Task>, files: set<string>)
    ensures Starts(RunAll(tasks, files).events) == Urls(tasks)
    decreases |tasks|
  {
    if tasks != [] {
      var n := |tasks| - 1;
      var before := RunAll(tasks[..n], files);
      RowsInOrder(tasks[..n], files);
      JobStartsOnce(tasks[n].record.url, tasks[n].env, before.files);
      StartsAppend(before.events, RunJob(tasks[n].record.url, tasks[n].env, before.files).events);
    }
  }

  /** No file name other than "Profile.pdf" disappears in a batch; a file
      already under a job's output name is replaced by that job's export. */
  lemma {:induction false} BatchKeepsFiles(tasks: seq<Task>, files: set<string>)
    ensures forall f :: f in files && f != Artifact ==> f in RunAll(tasks, files).files
    decreases |tasks|
  {
    if tasks != [] {
      var n := |tasks| - 1;
      var before := RunAll(tasks[..n], files);
      BatchKeepsFiles(tasks[..n], files);
      JobKeepsFiles(tasks[n].record.url, tasks[n].env, before.files);
    }
  }

  /** main() enters the jobs of the first min(3, rows) rows, in row order, and
      no other; when no rows are delivered it enters none. */
  lemma MainRunsFirstThree(rows: Option<seq<Task>>, files: set<string>)
    ensures var b := RunMain(rows, files);
      && (rows.None? ==> b == BatchRun([], [], files))
      && (rows.Some? ==>
            && |b.statuses| == Min(BatchLimit, |rows.value|)
            && Starts(b.events) == Urls(rows.value[..Min(BatchLimit, |rows.value|)]))
  {
    if rows.Some? {
      var s := Selected(rows.value);
      EveryRowRuns(s, files);
      RowsInOrder(s, files);
      assert s == rows.value[..Min(BatchLimit, |rows.value|)];
    }
  }

  /** A fourth row is never run: main() on rows with more than three entries
      behaves as on the first three alone. */
  lemma ExtraRowsIgnored(rows: seq<Task>, extra: seq<Task>, files: set<string>)
    requires |rows| == BatchLimit
    ensures RunMain(Some(rows + extra), files) == RunMain(Some(rows), files)
  {
    assert Selected(rows + extra) == rows;
  }
}
