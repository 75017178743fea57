/** The script as it runs: a host whose download directory and observable
    trace change step by step. Each method does what the corresponding part
    of the script does, and is proved to leave the state that the functions
    of Job and Batch describe. */
module Script {
  import opened Naming
  import opened Pacing
  import opened Probing
  import opened Downloads
  import opened Job
  import opened Batch

  class Host {
    /** The names in the download directory. */
    var downloads: set<string>
    /** Everything observable the script has done so far, in order. */
    var trace: seq<Event>

    constructor(files: set<string>)
      ensures downloads == files && trace == []
    {
      downloads := files;
      trace := [];
    }

    /** One observable step; the directory is untouched. */
    method Record(e: Event)
      modifies this`trace
      ensures trace == old(trace) + [e]
    {
      trace := trace + [e];
    }

    /** A thrown error reaches the outer catch, which disconnects the browser. */
    method Fail(f: Failure) returns (status: JobStatus)
      modifies this`trace
      ensures status == Failed(f)
      ensures trace == old(trace) + [Disconnect]
    {
      Record(Disconnect);
      status := Failed(f);
    }

    /** The `while (retries < 3)` probe: evaluate the query, stop on a node,
        otherwise sleep `delay` and count the retry. A throwing evaluation
        leaves the loop at once too, and ends the probe as Errored. */
    method ProbeFor(a: Affordance, oracle: seq<Poll>, delay: nat) returns (run: ProbeRun)
      modifies this`trace
      ensures run == ProbeSpec(oracle, delay)
      ensures trace == old(trace) + ProbeEvents(a, run)
    {
      var retries: nat := 0;
      var answer := Miss;
      var sleeps: seq<nat> := [];
      while retries < MaxAttempts
        invariant retries <= MaxAttempts
        invariant answer == Miss
        invariant sleeps == Repeat(delay, retries)
        invariant forall j :: 0 <= j < retries ==> PollAt(oracle, j) == Miss
        invariant trace == old(trace) + MissEvents(a, sleeps)
      {
        answer := PollAt(oracle, retries);
        trace := trace + [Poll(a)];
        if answer != Miss {
          break;
        }
        trace := trace + [Sleep(delay)];
        MissEventsSnoc(a, sleeps, delay);
        RepeatSnoc(delay, retries);
        sleeps := sleeps + [delay];
        retries := retries + 1;
      }
      ProbeDecidedAt(oracle, delay, retries);
      if answer == Miss {
        run := ProbeRun(Absent, MaxAttempts, sleeps);
      } else {
        run := ProbeRun(if answer == Hit then Found else Errored, retries + 1, sleeps);
      }
    }

    /** The click evaluation: the element is looked up again and clicked if
        it is still there. */
    method ClickElement(a: Affordance, c: ClickOutcome)
      modifies this`trace
      ensures trace == old(trace) + ClickEvents(a, c)
    {
      if c == Clicked {
        Record(Click(a));
      }
    }

    /** existsSync, then renameSync inside a try whose catch only logs. */
    method ClaimArtifact(heading: string, timestamp: nat, renameOk: bool) returns (outcome: ClaimOutcome)
      modifies this
      ensures var c := Claim(old(downloads), heading, timestamp, renameOk);
        outcome == c.outcome && downloads == c.files
      ensures trace == old(trace) + ClaimEvents(outcome)
    {
      var newName := OutputName(heading, timestamp);
      if Artifact in downloads {
        if renameOk {
          downloads := downloads - {Artifact} + {newName};
          Record(Renamed(newName));
          outcome := Claimed(newName);
        } else {
          outcome := RenameFailed;
        }
      } else {
        outcome := ArtifactMissing;
      }
    }

    /** Steps 3 to the end: find and click Save to PDF, let the export land,
        claim it, take the random wait. `t` is the job's trace so far, which
        the host's trace ends with. */
    method ExportSteps(env: JobEnv, heading: string, ghost pre: seq<Event>, ghost t: seq<Event>)
      returns (status: JobStatus)
      requires trace == pre + t
      modifies this
      ensures var r := ExportStage(env, ProbeSpec(env.savePolls, SaveRetryMs), heading, old(downloads), t);
        status == r.status && trace == pre + r.events && downloads == r.files
    {
      var save := ProbeFor(SaveToPdf, env.savePolls, SaveRetryMs);
      ghost var t1 := t + ProbeEvents(SaveToPdf, save);
      assert trace == pre + t1;
      if save.status == Absent {
        status := Fail(ElementNotFound(SaveToPdf));
        assert trace == pre + (t1 + [Disconnect]);
        return;
      }
      if save.status == Errored {
        status := Fail(QueryFailed(SaveToPdf));
        assert trace == pre + (t1 + [Disconnect]);
        return;
      }
      if env.saveClick == ClickFault {
        status := Fail(ClickFailed(SaveToPdf));
        assert trace == pre + (t1 + [Disconnect]);
        return;
      }
      ClickElement(SaveToPdf, env.saveClick);
      if env.saveClick == Clicked && env.arrives {
        // the browser writes the export into the download directory
        downloads := downloads + {Artifact};
      }
      Record(Dwell(ExportDwellMs));
      ghost var t2 := t1 + ClickEvents(SaveToPdf, env.saveClick) + [Dwell(ExportDwellMs)];
      assert trace == pre + t2;
      assert downloads == Landed(env, old(downloads));
      status := FinishSteps(env, heading, pre, t2);
    }

    /** Claim the export, then take the random wait before the next profile. */
    method FinishSteps(env: JobEnv, heading: string, ghost pre: seq<Event>, ghost t: seq<Event>)
      returns (status: JobStatus)
      requires trace == pre + t
      modifies this
      ensures var r := FinishStage(env, heading, old(downloads), t);
        status == r.status && trace == pre + r.events && downloads == r.files
    {
      var outcome := ClaimArtifact(heading, env.timestamp, env.renameOk);
      assert trace == pre + (t + ClaimEvents(outcome));
      Record(Pace(PacingSeconds(env.draw)));
      assert trace == pre + (t + ClaimEvents(outcome) + [Pace(PacingSeconds(env.draw))]);
      status := Completed(outcome);
    }

    /** Steps 1 and 2: find and click More, let the menu open, read the
        heading; then the export steps. */
    method MenuSteps(env: JobEnv, ghost pre: seq<Event>, ghost t: seq<Event>) returns (status: JobStatus)
      requires trace == pre + t
      modifies this
      ensures var r := MenuStage(env, ProbeSpec(env.morePolls, MoreRetryMs), ProbeSpec(env.savePolls, SaveRetryMs),
                                 old(downloads), t);
        status == r.status && trace == pre + r.events && downloads == r.files
    {
      var more := ProbeFor(MoreButton, env.morePolls, MoreRetryMs);
      ghost var t1 := t + ProbeEvents(MoreButton, more);
      assert trace == pre + t1;
      if more.status == Absent {
        status := Fail(ElementNotFound(MoreButton));
        assert trace == pre + (t1 + [Disconnect]);
        return;
      }
      if more.status == Errored {
        status := Fail(QueryFailed(MoreButton));
        assert trace == pre + (t1 + [Disconnect]);
        return;
      }
      if env.moreClick == ClickFault {
        status := Fail(ClickFailed(MoreButton));
        assert trace == pre + (t1 + [Disconnect]);
        return;
      }
      ClickElement(MoreButton, env.moreClick);
      Record(Dwell(MenuDwellMs));
      Record(ReadHeading);
      ghost var t2 := t1 + ClickEvents(MoreButton, env.moreClick) + [Dwell(MenuDwellMs), ReadHeading];
      assert trace == pre + t2;
      if env.heading.None? {
        status := Fail(HeadingUnreadable);
        assert trace == pre + (t2 + [Disconnect]);
        return;
      }
      status := ExportSteps(env, env.heading.value, pre, t2);
    }

    /** downloadLinkedInProfile(url): attach, pick the first tab, set the
        download directory, navigate and dwell, then the menu and export
        steps. It never throws to its caller. */
    method DownloadLinkedInProfile(url: string, env: JobEnv) returns (status: JobStatus)
      modifies this
      ensures var r := RunJob(url, env, old(downloads));
        status == r.status && trace == old(trace) + r.events && downloads == r.files
    {
      ghost var pre := trace;
      Record(Start(url));
      if !env.connects {
        return Failed(ConnectFailed);
      }
      if !env.hasTab {
        status := Fail(NoOpenTab);
        assert trace == pre + ([Start(url)] + [Disconnect]);
        return;
      }
      if !env.downloadPolicySet {
        status := Fail(DownloadSetupFailed);
        assert trace == pre + ([Start(url)] + [Disconnect]);
        return;
      }
      Record(Navigate(url));
      if !env.navigates {
        status := Fail(NavigationFailed);
        assert trace == pre + ([Start(url)] + [Navigate(url)] + [Disconnect]);
        return;
      }
      Record(Dwell(LoadDwellMs));
      assert trace == pre + Entered(url);
      status := MenuSteps(env, pre, Entered(url));
    }

    /** One turn of the loop: the job of row i, after the jobs of rows 0 .. i-1. */
    method RunRow(tasks: seq<Task>, i: nat, ghost pre: seq<Event>, ghost files0: set<string>)
      returns (status: JobStatus)
      requires i < |tasks|
      requires trace == pre + RunAll(tasks[..i], files0).events
      requires downloads == RunAll(tasks[..i], files0).files
      modifies this
      ensures RunAll(tasks[..i + 1], files0).statuses == RunAll(tasks[..i], files0).statuses + [status]
      ensures trace == pre + RunAll(tasks[..i + 1], files0).events
      ensures downloads == RunAll(tasks[..i + 1], files0).files
    {
      ghost var b := RunAll(tasks[..i], files0);
      status := DownloadLinkedInProfile(tasks[i].record.url, tasks[i].env);
      RunAllSnoc(tasks[..i], tasks[i], files0);
      assert tasks[..i + 1] == tasks[..i] + [tasks[i]];
    }

    /** The `for (const record of testRecords)` loop: each job is awaited
        before the next starts. */
    method RunTasks(tasks: seq<Task>) returns (statuses: seq<JobStatus>)
      modifies this
      ensures var b := RunAll(tasks, old(downloads));
        statuses == b.statuses && trace == old(trace) + b.events && downloads == b.files
    {
      statuses := [];
      ghost var files0 := downloads;
      for i := 0 to |tasks|
        invariant statuses == RunAll(tasks[..i], files0).statuses
        invariant trace == old(trace) + RunAll(tasks[..i], files0).events
        invariant downloads == RunAll(tasks[..i], files0).files
      {
        var status := RunRow(tasks, i, old(trace), files0);
        statuses := statuses + [status];
      }
      assert tasks[..|tasks|] == tasks;
    }

    /** main(): keep the first three rows and run their jobs one after the
        other; when no rows are delivered, run none. */
    method ProcessRows(rows: Option<seq<Task>>) returns (statuses: seq<JobStatus>)
      modifies this
      ensures var b := RunMain(rows, old(downloads));
        statuses == b.statuses && trace == old(trace) + b.events && downloads == b.files
    {
      if rows.None? {
        assert trace == old(trace) + [];
        return [];
      }
      var testRecords := Selected(rows.value);
      statuses := RunTasks(testRecords);
    }
  }
}
