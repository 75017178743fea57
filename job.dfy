/** One call of downloadLinkedInProfile(url), with the browser, the page and
    the clock replaced by the answers they give (a JobEnv), and its side
    effects recorded as a sequence of events. Any thrown error ends the job:
    the browser is disconnected (if attached) and the error is swallowed. */
module Job {
  import opened Naming
  import opened Pacing
  import opened Probing
  import opened Downloads

  /** The fixed dwells (milliseconds): after page load, after the More click,
      after the Save to PDF click. */
  const LoadDwellMs: nat := 5000
  const MenuDwellMs: nat := 2000
  const ExportDwellMs: nat := 5000

  /** The inter-attempt delay of each probe (milliseconds). */
  const MoreRetryMs: nat := 2000
  const SaveRetryMs: nat := 1000

  datatype Option<T> = None | Some(value: T)

  /** The two UI elements the job looks for: the node whose text is "More"
      and the span whose text is "Save to PDF". */
  datatype Affordance = MoreButton | SaveToPdf

  /** What the click evaluation does: click the re-resolved element, find it
      gone (the `if (element)` guard skips the click silently), or throw. */
  datatype ClickOutcome = Clicked | Vanished | ClickFault

  datatype Event =
    | Start(url: string)          // downloadLinkedInProfile(url) entered
    | Navigate(url: string)       // page.goto(url)
    | Dwell(ms: nat)              // a fixed wait: page settle, menu, export
    | Sleep(ms: nat)              // a probe's wait before its next attempt
    | Poll(target: Affordance)    // one evaluation of a probe's XPath query
    | Click(target: Affordance)   // element.click() dispatched
    | ReadHeading                 // the h1 lookup and text read attempted (it may throw)
    | Renamed(name: string)       // Profile.pdf moved to this name
    | Pace(seconds: int)          // the random wait
    | Disconnect                  // browser.disconnect() in the outer catch

  /** The error that ends a job. */
  datatype Failure =
    | ConnectFailed
    | NoOpenTab
    | DownloadSetupFailed
    | NavigationFailed
    | ElementNotFound(target: Affordance)
    | QueryFailed(target: Affordance)
    | ClickFailed(target: Affordance)
    | HeadingUnreadable

  datatype JobStatus = Completed(claim: ClaimOutcome) | Failed(failure: Failure)

  /** What the outside world does during one job. */
  datatype JobEnv = JobEnv(
    connects: bool,           // puppeteer.connect succeeds
    hasTab: bool,             // browser.pages() is not empty
    downloadPolicySet: bool,  // the CDP session sets the download directory
    navigates: bool,          // page.goto reaches DOMContentLoaded within 30 s
    morePolls: seq<Poll>,     // answers to the "More" query, in order
    moreClick: ClickOutcome,
    heading: Option<string>,  // the trimmed h1 text; None: no h1 (or it cannot be read)
    savePolls: seq<Poll>,     // answers to the "Save to PDF" query, in order
    saveClick: ClickOutcome,
    arrives: bool,            // a dispatched export lands as Profile.pdf within the dwell
    timestamp: nat,           // new Date().getTime()
    renameOk: bool,           // renameSync carries out the move
    draw: Fraction)           // Math.random()

  /** Outcome, events and resulting download directory of one job. */
  datatype JobRun = JobRun(status: JobStatus, events: seq<Event>, files: set<string>)

  /** The events of one probe: each miss is a query and a sleep; a find or a
      throwing query ends it after its query. */
  function ProbeEvents(a: Affordance, run: ProbeRun): seq<Event> {
    MissEvents(a, run.sleeps) + (if run.status == Absent then [] else [Poll(a)])
  }

  function MissEvents(a: Affordance, sleeps: seq<nat>): seq<Event> {
    if sleeps == [] then [] else [Poll(a), Sleep(sleeps[0])] + MissEvents(a, sleeps[1..])
  }

  function ClickEvents(a: Affordance, c: ClickOutcome): seq<Event> {
    if c == Clicked then [Click(a)] else []
  }

  function ClaimEvents(o: ClaimOutcome): seq<Event> {
    if o.Claimed? then [Renamed(o.name)] else []
  }

  /** A thrown error: the outer catch disconnects the attached browser. */
  function Abort(events: seq<Event>, f: Failure, files: set<string>): JobRun {
    JobRun(Failed(f), events + [Disconnect], files)
  }

  /** downloadLinkedInProfile(url) against the world `env`, starting from the
      download directory `files`: attach, pick the first tab, set the download
      directory, navigate, dwell, then the menu stage. The two probes are
      determined by their oracles alone and are worked out here. */
  function RunJob(url: string, env: JobEnv, files: set<string>): JobRun {
    var t := [Start(url)];
    if !env.connects then JobRun(Failed(ConnectFailed), t, files)
    else if !env.hasTab then Abort(t, NoOpenTab, files)
    else if !env.downloadPolicySet then Abort(t, DownloadSetupFailed, files)
    else if !env.navigates then Abort(t + [Navigate(url)], NavigationFailed, files)
    else MenuStage(env, ProbeSpec(env.morePolls, MoreRetryMs), ProbeSpec(env.savePolls, SaveRetryMs),
                   files, Entered(url))
  }

  /** The trace once the page is loaded: entry, navigation, the load dwell. */
  function Entered(url: string): seq<Event> {
    [Start(url), Navigate(url), Dwell(LoadDwellMs)]
  }

  /** Probe for More, click it, dwell, read the heading; `t` is the trace so far. */
  function MenuStage(env: JobEnv, more: ProbeRun, save: ProbeRun, files: set<string>, t: seq<Event>): JobRun {
    var t1 := t + ProbeEvents(MoreButton, more);
    if more.status == Absent then Abort(t1, ElementNotFound(MoreButton), files)
    else if more.status == Errored then Abort(t1, QueryFailed(MoreButton), files)
    else if env.moreClick == ClickFault then Abort(t1, ClickFailed(MoreButton), files)
    else
      var t2 := t1 + ClickEvents(MoreButton, env.moreClick) + [Dwell(MenuDwellMs), ReadHeading];
      if env.heading.None? then Abort(t2, HeadingUnreadable, files)
      else ExportStage(env, save, env.heading.value, files, t2)
  }

  /** The download directory once the export dwell is over: a dispatched
      export that lands adds Profile.pdf. */
  function Landed(env: JobEnv, files: set<string>): set<string> {
    if env.saveClick == Clicked && env.arrives then files + {Artifact} else files
  }

  /** Probe for Save to PDF, click it, and wait for the export to land. */
  function ExportStage(env: JobEnv, save: ProbeRun, heading: string, files: set<string>, t: seq<Event>): JobRun {
    var t1 := t + ProbeEvents(SaveToPdf, save);
    if save.status == Absent then Abort(t1, ElementNotFound(SaveToPdf), files)
    else if save.status == Errored then Abort(t1, QueryFailed(SaveToPdf), files)
    else if env.saveClick == ClickFault then Abort(t1, ClickFailed(SaveToPdf), files)
    else FinishStage(env, heading, Landed(env, files),
                     t1 + ClickEvents(SaveToPdf, env.saveClick) + [Dwell(ExportDwellMs)])
  }

  /** Claim and rename the artifact, then take the random wait. Nothing here
      throws: a failed rename is caught and logged. */
  function FinishStage(env: JobEnv, heading: string, files: set<string>, t: seq<Event>): JobRun {
    var claim := Claim(files, heading, env.timestamp, env.renameOk);
    JobRun(Completed(claim.outcome),
           t + ClaimEvents(claim.outcome) + [Pace(PacingSeconds(env.draw))],
           claim.files)
  }

  /** Every step of the script goes through: both probes find their element
      within the budget, no evaluation throws, the heading can be read. */
  ghost predicate Proceeds(env: JobEnv) {
    && env.connects && env.hasTab && env.downloadPolicySet && env.navigates
    && FindsWithinBudget(env.morePolls) && env.moreClick != ClickFault
    && env.heading.Some?
    && FindsWithinBudget(env.savePolls) && env.saveClick != ClickFault
  }

  /** Nothing in the events claims a file or takes the random wait. */
  ghost predicate Unclaimed(es: seq<Event>) {
    es == [] || (!es[0].Renamed? && !es[0].Pace? && Unclaimed(es[1..]))
  }

  /** The events of a trace without a probe's attempts and retry sleeps. */
  function Milestones(es: seq<Event>): seq<Event> {
    if es == [] then []
    else (if es[0].Sleep? || es[0].Poll? then [] else [es[0]]) + Milestones(es[1..])
  }

  lemma {:induction false} MilestonesAppend(a: seq<Event>, b: seq<Event>)
    ensures Milestones(a + b) == Milestones(a) + Milestones(b)
  {
    if a == [] {
      assert a + b == b;
    } else {
      assert (a + b)[0] == a[0];
      assert (a + b)[1..] == a[1..] + b;
      MilestonesAppend(a[1..], b);
    }
  }

  lemma MilestonesSingle(e: Event)
    ensures Milestones([e]) == if e.Sleep? || e.Poll? then [] else [e]
  {
    assert [e][1..] == [];
  }

  /** Dropping events that are not milestones and keeping ones that are. */
  lemma MilestonesSkip(t: seq<Event>, quiet: seq<Event>, kept: seq<Event>)
    requires Milestones(quiet) == [] && Milestones(kept) == kept
    ensures Milestones(t + quiet + kept) == Milestones(t) + kept
  {
    MilestonesAppend(t + quiet, kept);
    MilestonesAppend(t, quiet);
  }

  lemma ClickAndClaimMilestones(a: Affordance, c: ClickOutcome, o: ClaimOutcome)
    ensures Milestones(ClickEvents(a, c)) == ClickEvents(a, c)
    ensures Milestones(ClaimEvents(o)) == ClaimEvents(o)
  {
    MilestonesSingle(Click(a));
    if o.Claimed? {
      MilestonesSingle(Renamed(o.name));
    }
  }

  lemma EndsWith(a: seq<Event>, b: seq<Event>)
    ensures |a + b| >= |b| && (a + b)[|a + b| - |b|..] == b
  {
  }

  lemma {:induction false} MissEventsKinds(a: Affordance, sleeps: seq<nat>)
    ensures forall e :: e in MissEvents(a, sleeps) ==> e == Poll(a) || e.Sleep?
    ensures Milestones(MissEvents(a, sleeps)) == []
  {
    if sleeps != [] {
      MissEventsKinds(a, sleeps[1..]);
      var rest := MissEvents(a, sleeps[1..]);
      assert MissEvents(a, sleeps) == [Poll(a), Sleep(sleeps[0])] + rest;
      MilestonesAppend([Poll(a), Sleep(sleeps[0])], rest);
      MilestonesAppend([Poll(a)], [Sleep(sleeps[0])]);
      MilestonesSingle(Poll(a));
      MilestonesSingle(Sleep(sleeps[0]));
    }
  }

  /** One more miss adds one query and one sleep at the end. */
  lemma {:induction false} MissEventsSnoc(a: Affordance, sleeps: seq<nat>, d: nat)
    ensures MissEvents(a, sleeps + [d]) == MissEvents(a, sleeps) + [Poll(a), Sleep(d)]
  {
    if sleeps == [] {
      assert sleeps + [d] == [d];
      assert [d][1..] == [];
    } else {
      assert (sleeps + [d])[0] == sleeps[0];
      assert (sleeps + [d])[1..] == sleeps[1..] + [d];
      MissEventsSnoc(a, sleeps[1..], d);
    }
  }

  /** A probe only polls its own element and sleeps: it clicks nothing,
      renames nothing and records no milestone. */
  lemma ProbeEventsKinds(a: Affordance, run: ProbeRun)
    ensures forall e :: e in ProbeEvents(a, run) ==> e == Poll(a) || e.Sleep?
    ensures Milestones(ProbeEvents(a, run)) == []
  {
    MissEventsKinds(a, run.sleeps);
    MilestonesAppend(MissEvents(a, run.sleeps), if run.status == Absent then [] else [Poll(a)]);
    MilestonesSingle(Poll(a));
  }

  lemma {:induction false} MissEventsCount(a: Affordance, sleeps: seq<nat>)
    ensures multiset(MissEvents(a, sleeps))[Poll(a)] == |sleeps|
  {
    if sleeps != [] {
      MissEventsCount(a, sleeps[1..]);
      assert MissEvents(a, sleeps) == [Poll(a), Sleep(sleeps[0])] + MissEvents(a, sleeps[1..]);
    }
  }

  /** A probe's events hold one query of its element per evaluation it
      counts, so the loop evaluates the query between one and three times. */
  lemma ProbeEventsCount(a: Affordance, oracle: seq<Poll>, delay: nat)
    ensures var run := ProbeSpec(oracle, delay);
      && multiset(ProbeEvents(a, run))[Poll(a)] == run.polls
      && 1 <= multiset(ProbeEvents(a, run))[Poll(a)] <= MaxAttempts
  {
    var run := ProbeSpec(oracle, delay);
    ProbeCost(oracle, delay);
    MissEventsCount(a, run.sleeps);
  }

  /** The events of a probe that misses three times with delay d. */
  lemma TotalMissEvents(a: Affordance, d: nat)
    ensures ProbeEvents(a, ProbeRun(Absent, MaxAttempts, Repeat(d, MaxAttempts))) ==
      [Poll(a), Sleep(d), Poll(a), Sleep(d), Poll(a), Sleep(d)]
  {
    var s := Repeat(d, MaxAttempts);
    assert s == [d, d, d];
    assert s[1..] == [d, d] && s[1..][1..] == [d] && s[1..][1..][1..] == [];
    assert MissEvents(a, [d]) == [Poll(a), Sleep(d)];
    assert MissEvents(a, [d, d]) == [Poll(a), Sleep(d)] + MissEvents(a, [d]);
    assert MissEvents(a, s) == [Poll(a), Sleep(d)] + MissEvents(a, [d, d]);
  }

  // ---- stage by stage ----

  lemma ExportStageOutcome(env: JobEnv, save: ProbeRun, heading: string, files: set<string>, t: seq<Event>)
    ensures var r := ExportStage(env, save, heading, files, t);
      && (r.status.Completed? <==> save.status == Found && env.saveClick != ClickFault)
      && (r.status.Completed? ==>
            && r.status.claim == Claim(Landed(env, files), heading, env.timestamp, env.renameOk).outcome
            && r.files == Claim(Landed(env, files), heading, env.timestamp, env.renameOk).files)
  {
  }

  /** Unclaimed events are those of which none is a rename or the random wait. */
  lemma {:induction false} UnclaimedMeans(es: seq<Event>)
    ensures Unclaimed(es) <==> forall e :: e in es ==> !e.Renamed? && !e.Pace?
  {
    if es != [] {
      UnclaimedMeans(es[1..]);
      assert forall e :: e in es <==> e == es[0] || e in es[1..];
    }
  }

  /** A trace is unclaimed exactly when both of its parts are. */
  lemma {:induction false} UnclaimedAppend(a: seq<Event>, b: seq<Event>)
    ensures Unclaimed(a + b) <==> Unclaimed(a) && Unclaimed(b)
  {
    if a == [] {
      assert a + b == b;
    } else {
      assert (a + b)[1..] == a[1..] + b;
      UnclaimedAppend(a[1..], b);
    }
  }

  lemma {:induction false} MissEventsUnclaimed(a: Affordance, sleeps: seq<nat>)
    ensures Unclaimed(MissEvents(a, sleeps))
  {
    if sleeps != [] {
      MissEventsUnclaimed(a, sleeps[1..]);
      var rest := MissEvents(a, sleeps[1..]);
      assert MissEvents(a, sleeps) == [Poll(a), Sleep(sleeps[0])] + rest;
      UnclaimedAppend([Poll(a), Sleep(sleeps[0])], rest);
      assert [Poll(a), Sleep(sleeps[0])][1..] == [Sleep(sleeps[0])];
    }
  }

  /** A probe claims nothing. */
  lemma ProbeEventsUnclaimed(a: Affordance, run: ProbeRun)
    ensures Unclaimed(ProbeEvents(a, run))
  {
    MissEventsUnclaimed(a, run.sleeps);
    UnclaimedAppend(MissEvents(a, run.sleeps), if run.status == Absent then [] else [Poll(a)]);
  }

  /** An abort claims nothing beyond the trace it ends. */
  lemma AbortUnclaimed(t: seq<Event>, f: Failure, files: set<string>)
    ensures Unclaimed(Abort(t, f, files).events) <==> Unclaimed(t)
  {
    UnclaimedAppend(t, [Disconnect]);
  }

  /** A failed export stage leaves the directory alone, claims nothing, and
      ends with Disconnect. */
  lemma ExportStageFailure(env: JobEnv, save: ProbeRun, heading: string, files: set<string>, t: seq<Event>)
    ensures var r := ExportStage(env, save, heading, files, t);
      r.status.Failed? ==>
        && r.files == files
        && (Unclaimed(t) ==> Unclaimed(r.events))
        && |r.events| > |t| && r.events[|r.events| - 1] == Disconnect
  {
    var t1 := t + ProbeEvents(SaveToPdf, save);
    ProbeEventsUnclaimed(SaveToPdf, save);
    UnclaimedAppend(t, ProbeEvents(SaveToPdf, save));
    AbortUnclaimed(t1, ElementNotFound(SaveToPdf), files);
  }

  lemma MenuStageOutcome(env: JobEnv, more: ProbeRun, save: ProbeRun, files: set<string>, t: seq<Event>)
    ensures var r := MenuStage(env, more, save, files, t);
      && (r.status.Completed? <==>
            && more.status == Found && env.moreClick != ClickFault && env.heading.Some?
            && save.status == Found && env.saveClick != ClickFault)
      && (r.status.Completed? ==>
            && r.status.claim == Claim(Landed(env, files), env.heading.value, env.timestamp, env.renameOk).outcome
            && r.files == Claim(Landed(env, files), env.heading.value, env.timestamp, env.renameOk).files)
  {
    if more.status == Found && env.moreClick != ClickFault && env.heading.Some? {
      var t2 := t + ProbeEvents(MoreButton, more) + ClickEvents(MoreButton, env.moreClick)
                  + [Dwell(MenuDwellMs), ReadHeading];
      ExportStageOutcome(env, save, env.heading.value, files, t2);
    }
  }

  /** A failed menu stage (or the export stage after it) leaves the directory
      alone, claims nothing, and ends with Disconnect. */
  lemma MenuStageFailure(env: JobEnv, more: ProbeRun, save: ProbeRun, files: set<string>, t: seq<Event>)
    ensures var r := MenuStage(env, more, save, files, t);
      r.status.Failed? ==>
        && r.files == files
        && (Unclaimed(t) ==> Unclaimed(r.events))
        && |r.events| > |t| && r.events[|r.events| - 1] == Disconnect
  {
    var t1 := t + ProbeEvents(MoreButton, more);
    var mid := ClickEvents(MoreButton, env.moreClick) + [Dwell(MenuDwellMs), ReadHeading];
    MenuStageShape(env, more, save, files, t);
    ProbeEventsUnclaimed(MoreButton, more);
    UnclaimedAppend(t, ProbeEvents(MoreButton, more));
    UnclaimedAppend(t1, mid);
    UnclaimedAppend(ClickEvents(MoreButton, env.moreClick), [Dwell(MenuDwellMs), ReadHeading]);
    assert Unclaimed([ReadHeading]);
    AbortUnclaimed(t1, ElementNotFound(MoreButton), files);
    AbortUnclaimed(t1 + mid, HeadingUnreadable, files);
    if more.status == Found && env.moreClick != ClickFault && env.heading.Some? {
      ExportStageFailure(env, save, env.heading.value, files, t1 + mid);
    }
  }

  /** Where the menu stage ends: an abort after the probe, an abort after
      the heading read, or the export stage. */
  lemma MenuStageShape(env: JobEnv, more: ProbeRun, save: ProbeRun, files: set<string>, t: seq<Event>)
    ensures var r := MenuStage(env, more, save, files, t);
      var t1 := t + ProbeEvents(MoreButton, more);
      var t2 := t1 + (ClickEvents(MoreButton, env.moreClick) + [Dwell(MenuDwellMs), ReadHeading]);
      && (more.status != Found || env.moreClick == ClickFault ==>
            r.status.Failed? && r.events == t1 + [Disconnect] && r.files == files)
      && (more.status == Found && env.moreClick != ClickFault && env.heading.None? ==>
            r.status.Failed? && r.events == t2 + [Disconnect] && r.files == files)
      && (more.status == Found && env.moreClick != ClickFault && env.heading.Some? ==>
            r == ExportStage(env, save, env.heading.value, files, t2))
  {
    var t1 := t + ProbeEvents(MoreButton, more);
    var mid := ClickEvents(MoreButton, env.moreClick) + [Dwell(MenuDwellMs), ReadHeading];
    assert t1 + ClickEvents(MoreButton, env.moreClick) + [Dwell(MenuDwellMs), ReadHeading] == t1 + mid;
  }

  lemma AppendAssoc(a: seq<Event>, b: seq<Event>, c: seq<Event>)
    ensures a + (b + c) == a + b + c
  {
  }

  lemma FinishStageTimeline(env: JobEnv, heading: string, files: set<string>, t: seq<Event>)
    ensures var r := FinishStage(env, heading, files, t);
      var tail := ClaimEvents(r.status.claim) + [Pace(PacingSeconds(env.draw))];
      && r.status.Completed?
      && r.events == t + tail
      && Milestones(r.events) == Milestones(t) + tail
  {
    var r := FinishStage(env, heading, files, t);
    var ce := ClaimEvents(r.status.claim);
    MilestonesAppend(t, ce + [Pace(PacingSeconds(env.draw))]);
    MilestonesAppend(ce, [Pace(PacingSeconds(env.draw))]);
    ClickAndClaimMilestones(SaveToPdf, Clicked, r.status.claim);
    MilestonesSingle(Pace(PacingSeconds(env.draw)));
  }

  lemma ExportStageMilestones(env: JobEnv, save: ProbeRun, heading: string, files: set<string>, t: seq<Event>)
    ensures var r := ExportStage(env, save, heading, files, t);
      r.status.Completed? ==>
        Milestones(r.events) ==
          Milestones(t) + ClickEvents(SaveToPdf, env.saveClick) + [Dwell(ExportDwellMs)]
          + ClaimEvents(r.status.claim) + [Pace(PacingSeconds(env.draw))]
  {
    if save.status == Found && env.saveClick != ClickFault {
      var ps := ProbeEvents(SaveToPdf, save);
      var cs := ClickEvents(SaveToPdf, env.saveClick);
      var t1 := t + ps + cs + [Dwell(ExportDwellMs)];
      var r := FinishStage(env, heading, Landed(env, files), t1);
      assert ExportStage(env, save, heading, files, t) == r;
      FinishStageTimeline(env, heading, Landed(env, files), t1);
      ProbeEventsKinds(SaveToPdf, save);
      ClickAndClaimMilestones(SaveToPdf, env.saveClick, ArtifactMissing);
      MilestonesSkip(t, ps, cs);
      MilestonesSingle(Dwell(ExportDwellMs));
      MilestonesAppend(t + ps + cs, [Dwell(ExportDwellMs)]);
      AppendAssoc(Milestones(t1), ClaimEvents(r.status.claim), [Pace(PacingSeconds(env.draw))]);
    }
  }

  lemma ExportStageTail(env: JobEnv, save: ProbeRun, heading: string, files: set<string>, t: seq<Event>)
    ensures var r := ExportStage(env, save, heading, files, t);
      r.status.Completed? ==>
        var tail := [Dwell(ExportDwellMs)] + ClaimEvents(r.status.claim) + [Pace(PacingSeconds(env.draw))];
        |r.events| >= |tail| && r.events[|r.events| - |tail|..] == tail
  {
    if save.status == Found && env.saveClick != ClickFault {
      var ps := ProbeEvents(SaveToPdf, save);
      var cs := ClickEvents(SaveToPdf, env.saveClick);
      var t1 := t + ps + cs + [Dwell(ExportDwellMs)];
      FinishStageTimeline(env, heading, Landed(env, files), t1);
      var r := FinishStage(env, heading, Landed(env, files), t1);
      var tail := ClaimEvents(r.status.claim) + [Pace(PacingSeconds(env.draw))];
      EndsWith(t + ps + cs, [Dwell(ExportDwellMs)] + tail);
      assert r.events == (t + ps + cs) + ([Dwell(ExportDwellMs)] + tail);
    }
  }

  /** The milestones of the menu stage before the export stage starts. */
  lemma MenuPrefixMilestones(t: seq<Event>, pm: seq<Event>, cm: seq<Event>)
    requires Milestones(pm) == [] && Milestones(cm) == cm
    ensures Milestones(t + pm + cm + [Dwell(MenuDwellMs), ReadHeading]) ==
      Milestones(t) + cm + [Dwell(MenuDwellMs), ReadHeading]
  {
    MilestonesSkip(t, pm, cm);
    MilestonesAppend([Dwell(MenuDwellMs)], [ReadHeading]);
    MilestonesSingle(Dwell(MenuDwellMs));
    MilestonesSingle(ReadHeading);
    MilestonesAppend(t + pm + cm, [Dwell(MenuDwellMs), ReadHeading]);
  }

  lemma MenuStageMilestones(env: JobEnv, more: ProbeRun, save: ProbeRun, files: set<string>, t: seq<Event>)
    ensures var r := MenuStage(env, more, save, files, t);
      r.status.Completed? ==>
        Milestones(r.events) ==
          Milestones(t) + ClickEvents(MoreButton, env.moreClick) + [Dwell(MenuDwellMs), ReadHeading]
          + ClickEvents(SaveToPdf, env.saveClick) + [Dwell(ExportDwellMs)]
          + ClaimEvents(r.status.claim) + [Pace(PacingSeconds(env.draw))]
  {
    if more.status == Found && env.moreClick != ClickFault && env.heading.Some? {
      var pm := ProbeEvents(MoreButton, more);
      var cm := ClickEvents(MoreButton, env.moreClick);
      var t2 := t + pm + cm + [Dwell(MenuDwellMs), ReadHeading];
      ExportStageMilestones(env, save, env.heading.value, files, t2);
      ProbeEventsKinds(MoreButton, more);
      ClickAndClaimMilestones(MoreButton, env.moreClick, ArtifactMissing);
      MenuPrefixMilestones(t, pm, cm);
      assert MenuStage(env, more, save, files, t) == ExportStage(env, save, env.heading.value, files, t2);
    }
  }

  lemma MenuStageTail(env: JobEnv, more: ProbeRun, save: ProbeRun, files: set<string>, t: seq<Event>)
    ensures var r := MenuStage(env, more, save, files, t);
      r.status.Completed? ==>
        var tail := [Dwell(ExportDwellMs)] + ClaimEvents(r.status.claim) + [Pace(PacingSeconds(env.draw))];
        |r.events| >= |tail| && r.events[|r.events| - |tail|..] == tail
  {
    if more.status == Found && env.moreClick != ClickFault && env.heading.Some? {
      var pm := ProbeEvents(MoreButton, more);
      var cm := ClickEvents(MoreButton, env.moreClick);
      ExportStageTail(env, save, env.heading.value, files, t + pm + cm + [Dwell(MenuDwellMs), ReadHeading]);
    }
  }

  // ---- the whole job ----

  lemma EntryMilestones(url: string)
    ensures Milestones(Entered(url)) == Entered(url)
  {
    assert [Start(url), Navigate(url), Dwell(LoadDwellMs)] == [Start(url)] + [Navigate(url)] + [Dwell(LoadDwellMs)];
    MilestonesAppend([Start(url)] + [Navigate(url)], [Dwell(LoadDwellMs)]);
    MilestonesAppend([Start(url)], [Navigate(url)]);
    MilestonesSingle(Start(url));
    MilestonesSingle(Navigate(url));
    MilestonesSingle(Dwell(LoadDwellMs));
  }

  /** A job completes exactly when every step of the script goes through;
      whether the export lands, the rename works, the timestamp and the
      random draw play no part (a missing file is not a failure). A completed
      job's directory is the claim's result on the directory as the export
      left it. */
  lemma JobCompletesIff(url: string, env: JobEnv, files: set<string>)
    ensures var r := RunJob(url, env, files);
      && (r.status.Completed? <==> Proceeds(env))
      && (r.status.Completed? ==>
            var claim := Claim(Landed(env, files), env.heading.value, env.timestamp, env.renameOk);
            r.status.claim == claim.outcome && r.files == claim.files)
  {
    ProbeFoundIff(env.morePolls, MoreRetryMs);
    ProbeFoundIff(env.savePolls, SaveRetryMs);
    MenuStageOutcome(env, ProbeSpec(env.morePolls, MoreRetryMs), ProbeSpec(env.savePolls, SaveRetryMs),
                     files, Entered(url));
  }

  /** A failed job skips everything after the failing step: nothing is
      renamed, no random wait is taken, the download directory is unchanged,
      and the job ends by disconnecting the browser it attached to (or, when
      it could not attach, does nothing at all). */
  lemma FailureIsIsolated(url: string, env: JobEnv, files: set<string>)
    ensures var r := RunJob(url, env, files);
      r.status.Failed? ==>
        && r.files == files
        && Unclaimed(r.events)
        && (env.connects ==> |r.events| >= 2 && r.events[|r.events| - 1] == Disconnect)
        && (!env.connects ==> r.events == [Start(url)])
  {
    assert Unclaimed([Disconnect]);
    assert Unclaimed([Navigate(url), Disconnect]);
    assert Unclaimed([Dwell(LoadDwellMs)]);
    assert Unclaimed(Entered(url));
    MenuStageFailure(env, ProbeSpec(env.morePolls, MoreRetryMs), ProbeSpec(env.savePolls, SaveRetryMs),
                     files, Entered(url));
  }

  /** When the More probe fails, the job fails with that probe's error before
      any click, heading read, Save to PDF query, rename or random wait. */
  lemma MoreProbeFailureSkipsRest(url: string, env: JobEnv, files: set<string>)
    requires env.connects && env.hasTab && env.downloadPolicySet && env.navigates
    requires ProbeSpec(env.morePolls, MoreRetryMs).status != Found
    ensures var r := RunJob(url, env, files);
      && r.status in {Failed(ElementNotFound(MoreButton)), Failed(QueryFailed(MoreButton))}
      && r.files == files
      && (forall e :: e in r.events ==>
            !e.Click? && e != ReadHeading && e != Poll(SaveToPdf) && !e.Renamed? && !e.Pace?)
  {
    var more := ProbeSpec(env.morePolls, MoreRetryMs);
    var f := if more.status == Absent then ElementNotFound(MoreButton) else QueryFailed(MoreButton);
    var events := Entered(url) + ProbeEvents(MoreButton, more) + [Disconnect];
    assert RunJob(url, env, files) == JobRun(Failed(f), events, files);
    ProbeEventsKinds(MoreButton, more);
    forall e | e in events
      ensures !e.Click? && e != ReadHeading && e != Poll(SaveToPdf) && !e.Renamed? && !e.Pace?
    {
      assert e in Entered(url) || e in ProbeEvents(MoreButton, more) || e == Disconnect;
    }
  }

  /** When the Save to PDF option never appears, the job ends by polling for
      it three times a second apart and disconnecting: it fails with
      ElementNotFound and leaves the directory alone. */
  lemma SaveOptionNeverAppears(url: string, env: JobEnv, files: set<string>)
    requires env.connects && env.hasTab && env.downloadPolicySet && env.navigates
    requires FindsWithinBudget(env.morePolls) && env.moreClick != ClickFault
    requires env.heading.Some?
    requires forall j :: 0 <= j < MaxAttempts ==> PollAt(env.savePolls, j) == Miss
    ensures var r := RunJob(url, env, files);
      && r.status == Failed(ElementNotFound(SaveToPdf))
      && r.files == files
      && |r.events| >= 7
      && r.events[|r.events| - 7..] ==
           [Poll(SaveToPdf), Sleep(SaveRetryMs), Poll(SaveToPdf), Sleep(SaveRetryMs),
            Poll(SaveToPdf), Sleep(SaveRetryMs), Disconnect]
  {
    var more := ProbeSpec(env.morePolls, MoreRetryMs);
    var save := ProbeSpec(env.savePolls, SaveRetryMs);
    ProbeFoundIff(env.morePolls, MoreRetryMs);
    ProbeAbsentIff(env.savePolls, SaveRetryMs);
    FirstDecisiveIs(env.savePolls, 0);
    assert save == ProbeRun(Absent, MaxAttempts, Repeat(SaveRetryMs, MaxAttempts));
    TotalMissEvents(SaveToPdf, SaveRetryMs);
    var t2 := Entered(url) + ProbeEvents(MoreButton, more)
              + ClickEvents(MoreButton, env.moreClick) + [Dwell(MenuDwellMs), ReadHeading];
    assert RunJob(url, env, files) == Abort(t2 + ProbeEvents(SaveToPdf, save), ElementNotFound(SaveToPdf), files);
    EndsWith(t2, ProbeEvents(SaveToPdf, save) + [Disconnect]);
  }

  /** When the heading cannot be read, the job fails there: no Save to PDF
      query, no Save to PDF click, no rename, no random wait, and the
      directory is untouched. */
  lemma HeadingFailureSkipsExport(url: string, env: JobEnv, files: set<string>)
    requires env.connects && env.hasTab && env.downloadPolicySet && env.navigates
    requires ProbeSpec(env.morePolls, MoreRetryMs).status == Found && env.moreClick != ClickFault
    requires env.heading.None?
    ensures var r := RunJob(url, env, files);
      && r.status == Failed(HeadingUnreadable)
      && r.files == files
      && (forall e :: e in r.events ==>
            e != Poll(SaveToPdf) && e != Click(SaveToPdf) && !e.Renamed? && !e.Pace?)
  {
    var more := ProbeSpec(env.morePolls, MoreRetryMs);
    var pm := ProbeEvents(MoreButton, more);
    var mid := ClickEvents(MoreButton, env.moreClick) + [Dwell(MenuDwellMs), ReadHeading];
    var events := Entered(url) + pm + mid + [Disconnect];
    MenuStageShape(env, more, ProbeSpec(env.savePolls, SaveRetryMs), files, Entered(url));
    assert RunJob(url, env, files) == JobRun(Failed(HeadingUnreadable), events, files);
    ProbeEventsKinds(MoreButton, more);
    forall e | e in events
      ensures e != Poll(SaveToPdf) && e != Click(SaveToPdf) && !e.Renamed? && !e.Pace?
    {
      assert e in Entered(url) || e in pm || e in mid || e == Disconnect;
    }
  }

  /** A failed menu stage records Disconnect either right after the trace it
      was given (the More probe or click failed) or after the More click, the
      menu wait and the heading read (the heading or the export stage failed). */
  lemma MenuStageFailureMilestones(env: JobEnv, more: ProbeRun, save: ProbeRun, files: set<string>, t: seq<Event>)
    ensures var r := MenuStage(env, more, save, files, t);
      r.status.Failed? ==>
        || Milestones(r.events) == Milestones(t) + [Disconnect]
        || Milestones(r.events) ==
             Milestones(t) + ClickEvents(MoreButton, env.moreClick) + [Dwell(MenuDwellMs), ReadHeading] + [Disconnect]
  {
    var cm := ClickEvents(MoreButton, env.moreClick);
    var pm := ProbeEvents(MoreButton, more);
    MenuStageShape(env, more, save, files, t);
    ProbeEventsKinds(MoreButton, more);
    MilestonesSingle(Disconnect);
    if more.status != Found || env.moreClick == ClickFault {
      MilestonesSkip(t, pm, [Disconnect]);
    } else {
      var t2 := t + pm + (cm + [Dwell(MenuDwellMs), ReadHeading]);
      ClickAndClaimMilestones(MoreButton, env.moreClick, ArtifactMissing);
      MenuPrefixMilestones(t, pm, cm);
      AppendAssoc(t + pm, cm, [Dwell(MenuDwellMs), ReadHeading]);
      MilestonesAppend(t2, [Disconnect]);
      if env.heading.Some? {
        var ps := ProbeEvents(SaveToPdf, save);
        var r := ExportStage(env, save, env.heading.value, files, t2);
        assert r.status.Failed? ==> r.events == t2 + ps + [Disconnect];
        ProbeEventsKinds(SaveToPdf, save);
        MilestonesSkip(t2, ps, [Disconnect]);
      }
    }
  }

  /** A failed job that attached to the browser stops part way along the
      completed timeline: its milestones are a non-empty prefix of the steps
      up to the heading read, then Disconnect. So it never clicks Save to PDF,
      takes the export wait, renames or takes the random wait, and every step
      it did take came in the order of a completed job. */
  lemma FailureStopsTimeline(url: string, env: JobEnv, files: set<string>)
    ensures var r := RunJob(url, env, files);
      var reached := Entered(url) + ClickEvents(MoreButton, env.moreClick) + [Dwell(MenuDwellMs), ReadHeading];
      r.status.Failed? && env.connects ==>
        exists k :: 1 <= k <= |reached| && Milestones(r.events) == reached[..k] + [Disconnect]
  {
    var r := RunJob(url, env, files);
    var t := Entered(url);
    var reached := t + ClickEvents(MoreButton, env.moreClick) + [Dwell(MenuDwellMs), ReadHeading];
    if r.status.Failed? && env.connects {
      MilestonesSingle(Start(url));
      MilestonesSingle(Navigate(url));
      MilestonesSingle(Disconnect);
      if !env.hasTab || !env.downloadPolicySet {
        MilestonesAppend([Start(url)], [Disconnect]);
        assert reached[..1] == [Start(url)];
        assert Milestones(r.events) == reached[..1] + [Disconnect];
      } else if !env.navigates {
        assert [Start(url)] + [Navigate(url)] + [Disconnect] == r.events;
        MilestonesAppend([Start(url)] + [Navigate(url)], [Disconnect]);
        MilestonesAppend([Start(url)], [Navigate(url)]);
        assert reached[..2] == [Start(url)] + [Navigate(url)];
        assert Milestones(r.events) == reached[..2] + [Disconnect];
      } else {
        var more := ProbeSpec(env.morePolls, MoreRetryMs);
        var save := ProbeSpec(env.savePolls, SaveRetryMs);
        assert r == MenuStage(env, more, save, files, t);
        MenuStageFailureMilestones(env, more, save, files, t);
        EntryMilestones(url);
        if Milestones(r.events) == Milestones(t) + [Disconnect] {
          assert reached[..3] == t;
          assert Milestones(r.events) == reached[..3] + [Disconnect];
        } else {
          assert reached[..|reached|] == reached;
          assert Milestones(r.events) == reached[..|reached|] + [Disconnect];
        }
      }
    }
  }

  /** A completed job runs the steps in the fixed order: enter, navigate, the
      5 s settle, click More (if the element is still there), the 2 s menu
      wait, read the heading, click Save to PDF (if the element is still
      there), the 5 s export wait, rename (if any), random wait; only the
      probes' attempts and retry sleeps come in between. It ends with the export
      wait, then the rename if any, then one random wait of 5 to 14 seconds:
      the file is never claimed before the export wait has elapsed. */
  lemma CompletedTimeline(url: string, env: JobEnv, files: set<string>)
    ensures var r := RunJob(url, env, files);
      r.status.Completed? ==>
        var tail := [Dwell(ExportDwellMs)] + ClaimEvents(r.status.claim) + [Pace(PacingSeconds(env.draw))];
        && Milestones(r.events) ==
             [Start(url), Navigate(url), Dwell(LoadDwellMs)]
             + ClickEvents(MoreButton, env.moreClick) + [Dwell(MenuDwellMs), ReadHeading]
             + ClickEvents(SaveToPdf, env.saveClick) + [Dwell(ExportDwellMs)]
             + ClaimEvents(r.status.claim) + [Pace(PacingSeconds(env.draw))]
        && |r.events| >= |tail|
        && r.events[|r.events| - |tail|..] == tail
        && 5 <= PacingSeconds(env.draw) <= 14
  {
    if env.connects && env.hasTab && env.downloadPolicySet && env.navigates {
      var t := Entered(url);
      var more := ProbeSpec(env.morePolls, MoreRetryMs);
      var save := ProbeSpec(env.savePolls, SaveRetryMs);
      EntryMilestones(url);
      assert RunJob(url, env, files) == MenuStage(env, more, save, files, t);
      var r := MenuStage(env, more, save, files, t);
      MenuStageMilestones(env, more, save, files, t);
      MenuStageTail(env, more, save, files, t);
      assert Milestones(t) == [Start(url), Navigate(url), Dwell(LoadDwellMs)];
    }
  }

  /** Once every step goes through and the file system performs the move, a
      "Profile.pdf" present at rename time (just exported, or left over from
      before) is claimed under this job's output name. */
  lemma CompletedJobClaimsArtifact(url: string, env: JobEnv, files: set<string>)
    requires Proceeds(env) && env.renameOk
    requires Artifact in files || (env.saveClick == Clicked && env.arrives)
    ensures var r := RunJob(url, env, files);
      var name := OutputName(env.heading.value, env.timestamp);
      && r.status == Completed(Claimed(name))
      && r.files == files - {Artifact} + {name}
      && Artifact !in r.files
  {
    JobCompletesIff(url, env, files);
    ClaimEffect(Landed(env, files), env.heading.value, env.timestamp, env.renameOk);
    OutputNameIsNotArtifact(env.heading.value, env.timestamp);
  }

  /** An export that never lands is only a warning: the job still completes,
      with ArtifactMissing, and the directory is unchanged. */
  lemma MissingArtifactStillCompletes(url: string, env: JobEnv, files: set<string>)
    requires Proceeds(env)
    requires Artifact !in files && !(env.saveClick == Clicked && env.arrives)
    ensures var r := RunJob(url, env, files);
      r.status == Completed(ArtifactMissing) && r.files == files
  {
    JobCompletesIff(url, env, files);
  }

  /** A page whose More button answers only on the third query still yields a
      completed job: the retry budget includes its last attempt. */
  lemma ThirdAttemptSuffices(url: string, env: JobEnv, files: set<string>)
    requires env.connects && env.hasTab && env.downloadPolicySet && env.navigates
    requires env.morePolls == [Miss, Miss, Hit] && env.moreClick != ClickFault
    requires env.heading.Some?
    requires FindsWithinBudget(env.savePolls) && env.saveClick != ClickFault
    ensures RunJob(url, env, files).status.Completed?
  {
    ProbeFindsOnLastAttempt(env.morePolls, MoreRetryMs);
    ProbeFoundIff(env.morePolls, MoreRetryMs);
    JobCompletesIff(url, env, files);
  }

  /** One profile whose elements answer on the first query and whose export
      lands: an empty directory ends up holding exactly Jane_Doe_<ts>.pdf. */
  lemma SingleProfileDownload(url: string, ts: nat, u: Fraction)
    ensures var env := JobEnv(true, true, true, true, [Hit], Clicked, Some("Jane Doe"),
                              [Hit], Clicked, true, ts, true, u);
      var r := RunJob(url, env, {});
      && r.status == Completed(Claimed("Jane_Doe_" + Decimal(ts) + ".pdf"))
      && r.files == {"Jane_Doe_" + Decimal(ts) + ".pdf"}
  {
    var env := JobEnv(true, true, true, true, [Hit], Clicked, Some("Jane Doe"),
                      [Hit], Clicked, true, ts, true, u);
    assert FindsWithinBudget([Hit]) by {
      assert PollAt([Hit], 0) == Hit;
    }
    CompletedJobClaimsArtifact(url, env, {});
    SanitizeMergesPunctuation(ts);
    assert {Artifact} - {Artifact} + {"Jane_Doe_" + Decimal(ts) + ".pdf"} == {"Jane_Doe_" + Decimal(ts) + ".pdf"};
  }

  // ---- what a job leaves for the next one ----

  /** The urls of the jobs entered, in order of entry. */
  function Starts(es: seq<Event>): seq<string> {
    if es == [] then [] else (if es[0].Start? then [es[0].url] else []) + Starts(es[1..])
  }

  lemma {:induction false} StartsAppend(a: seq<Event>, b: seq<Event>)
    ensures Starts(a + b) == Starts(a) + Starts(b)
  {
    if a == [] {
      assert a + b == b;
    } else {
      assert (a + b)[0] == a[0];
      assert (a + b)[1..] == a[1..] + b;
      StartsAppend(a[1..], b);
    }
  }

  ghost predicate StartFree(es: seq<Event>) {
    forall e :: e in es ==> !e.Start?
  }

  lemma {:induction false} StartsOfStartFree(es: seq<Event>)
    requires StartFree(es)
    ensures Starts(es) == []
  {
    if es != [] {
      assert es[0] in es;
      assert forall e :: e in es[1..] ==> e in es;
      StartsOfStartFree(es[1..]);
    }
  }

  /** Events that enter no job can be dropped from the end of a trace. */
  lemma StartsSkip(t: seq<Event>, u: seq<Event>)
    requires StartFree(u)
    ensures Starts(t + u) == Starts(t)
  {
    StartsAppend(t, u);
    StartsOfStartFree(u);
  }

  lemma ExportStageStarts(env: JobEnv, save: ProbeRun, heading: string, files: set<string>, t: seq<Event>)
    ensures Starts(ExportStage(env, save, heading, files, t).events) == Starts(t)
  {
    var ps := ProbeEvents(SaveToPdf, save);
    ProbeEventsKinds(SaveToPdf, save);
    StartsSkip(t, ps);
    if save.status == Found && env.saveClick != ClickFault {
      var cs := ClickEvents(SaveToPdf, env.saveClick);
      var t2 := t + ps + cs + [Dwell(ExportDwellMs)];
      var c := Claim(Landed(env, files), heading, env.timestamp, env.renameOk);
      StartsSkip(t + ps, cs);
      StartsSkip(t + ps + cs, [Dwell(ExportDwellMs)]);
      StartsSkip(t2, ClaimEvents(c.outcome));
      StartsSkip(t2 + ClaimEvents(c.outcome), [Pace(PacingSeconds(env.draw))]);
    } else {
      StartsSkip(t + ps, [Disconnect]);
    }
  }

  lemma MenuStageStarts(env: JobEnv, more: ProbeRun, save: ProbeRun, files: set<string>, t: seq<Event>)
    ensures Starts(MenuStage(env, more, save, files, t).events) == Starts(t)
  {
    var pm := ProbeEvents(MoreButton, more);
    ProbeEventsKinds(MoreButton, more);
    StartsSkip(t, pm);
    if more.status != Found || env.moreClick == ClickFault {
      StartsSkip(t + pm, [Disconnect]);
    } else {
      var cm := ClickEvents(MoreButton, env.moreClick);
      var t2 := t + pm + cm + [Dwell(MenuDwellMs), ReadHeading];
      StartsSkip(t + pm, cm);
      StartsSkip(t + pm + cm, [Dwell(MenuDwellMs), ReadHeading]);
      if env.heading.None? {
        StartsSkip(t2, [Disconnect]);
      } else {
        ExportStageStarts(env, save, env.heading.value, files, t2);
      }
    }
  }

  /** Each job enters exactly once, for its own url, whatever it meets. */
  lemma JobStartsOnce(url: string, env: JobEnv, files: set<string>)
    ensures Starts(RunJob(url, env, files).events) == [url]
  {
    var t := [Start(url)];
    assert Starts(t) == [url] by {
      assert t[1..] == [];
    }
    StartsSkip(t, [Disconnect]);
    StartsSkip(t + [Navigate(url)], [Disconnect]);
    StartsSkip(t, [Navigate(url)]);
    StartsSkip(t, [Navigate(url), Dwell(LoadDwellMs)]);
    assert Entered(url) == t + [Navigate(url), Dwell(LoadDwellMs)];
    MenuStageStarts(env, ProbeSpec(env.morePolls, MoreRetryMs), ProbeSpec(env.savePolls, SaveRetryMs),
                    files, Entered(url));
  }

  /** No file name other than "Profile.pdf" disappears in a job: a failed job
      leaves the directory alone, and a claim only moves the artifact, onto a
      name that stays present. A file already under the job's output name is
      replaced by the export (see ClaimCount), so names survive, not files. */
  lemma JobKeepsFiles(url: string, env: JobEnv, files: set<string>)
    ensures forall f :: f in files && f != Artifact ==> f in RunJob(url, env, files).files
  {
    JobCompletesIff(url, env, files);
    FailureIsIsolated(url, env, files);
    if Proceeds(env) {
      ClaimEffect(Landed(env, files), env.heading.value, env.timestamp, env.renameOk);
    }
  }
}
