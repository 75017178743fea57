/** The bounded polling probe used twice per job: evaluate an XPath query up
    to three times, stop at the first node found, sleep a fixed delay after
    every miss, and fail when nothing was found. */
module Probing {

  /** The retry budget shared by both call sites. */
  const MaxAttempts: nat := 3

  /** What one evaluation of the query gives: a node, no node, or an error
      thrown by the evaluation itself. */
  datatype Poll = Hit | Miss | Fault

  datatype ProbeStatus = Found | Absent | Errored

  /** The outcome of a whole probe: its status, how many times the query was
      evaluated, and the sleeps taken in order (milliseconds). */
  datatype ProbeRun = ProbeRun(status: ProbeStatus, polls: nat, sleeps: seq<nat>)

  /** What the page answers at attempt i (counting from 0). The oracle lists
      the answers in order; an attempt past its end finds nothing. */
  function PollAt(oracle: seq<Poll>, i: nat): Poll {
    if i < |oracle| then oracle[i] else Miss
  }

  function Repeat(d: nat, n: nat): seq<nat> {
    seq(n, _ => d)
  }

  /** One more wait of the same length. */
  lemma RepeatSnoc(d: nat, n: nat)
    ensures Repeat(d, n) + [d] == Repeat(d, n + 1)
  {
  }

  /** Total time spent in the given sleeps. */
  function TotalMs(sleeps: seq<nat>): nat {
    if sleeps == [] then 0 else sleeps[0] + TotalMs(sleeps[1..])
  }

  lemma {:induction false} TotalRepeat(d: nat, n: nat)
    ensures TotalMs(Repeat(d, n)) == n * d
  {
    if n > 0 {
      assert Repeat(d, n)[1..] == Repeat(d, n - 1);
      TotalRepeat(d, n - 1);
    }
  }

  /** The first attempt at or after `from`, within the budget, whose answer is
      not a miss; MaxAttempts when every remaining attempt misses. */
  function FirstDecisive(oracle: seq<Poll>, from: nat): nat
    decreases MaxAttempts - from
  {
    if from >= MaxAttempts then MaxAttempts
    else if PollAt(oracle, from) != Miss then from
    else FirstDecisive(oracle, from + 1)
  }

  lemma {:induction false} FirstDecisiveIs(oracle: seq<Poll>, from: nat)
    requires from <= MaxAttempts
    ensures var k := FirstDecisive(oracle, from);
      && from <= k <= MaxAttempts
      && (forall j :: from <= j < k ==> PollAt(oracle, j) == Miss)
      && (k < MaxAttempts ==> PollAt(oracle, k) != Miss)
    decreases MaxAttempts - from
  {
    if from < MaxAttempts && PollAt(oracle, from) == Miss {
      FirstDecisiveIs(oracle, from + 1);
    }
  }

  /** The first decisive attempt is the unique attempt before which every
      answer is a miss and at which the answer is not (or the budget ends). */
  lemma {:induction false} FirstDecisiveUnique(oracle: seq<Poll>, from: nat, k: nat)
    requires from <= k <= MaxAttempts
    requires forall j :: from <= j < k ==> PollAt(oracle, j) == Miss
    requires k < MaxAttempts ==> PollAt(oracle, k) != Miss
    ensures FirstDecisive(oracle, from) == k
    decreases k - from
  {
    if from < k {
      FirstDecisiveUnique(oracle, from + 1, k);
    }
  }

  /** What a probe with the given inter-attempt delay does: decided by the
      first attempt that does not miss; a miss on every attempt of the budget
      means nothing was found, after one sleep per miss. */
  function ProbeSpec(oracle: seq<Poll>, delay: nat): ProbeRun {
    var k := FirstDecisive(oracle, 0);
    if k >= MaxAttempts then ProbeRun(Absent, MaxAttempts, Repeat(delay, MaxAttempts))
    else if PollAt(oracle, k) == Hit then ProbeRun(Found, k + 1, Repeat(delay, k))
    else ProbeRun(Errored, k + 1, Repeat(delay, k))
  }

  /** A probe whose first k answers miss and whose answer at k (if within
      the budget) does not is decided at k. */
  lemma ProbeDecidedAt(oracle: seq<Poll>, delay: nat, k: nat)
    requires k <= MaxAttempts
    requires forall j :: 0 <= j < k ==> PollAt(oracle, j) == Miss
    requires k < MaxAttempts ==> PollAt(oracle, k) != Miss
    ensures k == MaxAttempts ==> ProbeSpec(oracle, delay) == ProbeRun(Absent, MaxAttempts, Repeat(delay, MaxAttempts))
    ensures k < MaxAttempts && PollAt(oracle, k) == Hit ==> ProbeSpec(oracle, delay) == ProbeRun(Found, k + 1, Repeat(delay, k))
    ensures k < MaxAttempts && PollAt(oracle, k) == Fault ==> ProbeSpec(oracle, delay) == ProbeRun(Errored, k + 1, Repeat(delay, k))
  {
    FirstDecisiveUnique(oracle, 0, k);
  }

  /** A probe evaluates the query at least once and at most MaxAttempts
      times; it sleeps `delay` once per miss, so after a find or an error it
      has slept polls - 1 times, and after a total miss MaxAttempts times
      (the loop sleeps after the last miss too). */
  lemma ProbeCost(oracle: seq<Poll>, delay: nat)
    ensures var run := ProbeSpec(oracle, delay);
      && 1 <= run.polls <= MaxAttempts
      && (forall i :: 0 <= i < |run.sleeps| ==> run.sleeps[i] == delay)
      && |run.sleeps| == (if run.status == Absent then MaxAttempts else run.polls - 1)
      && TotalMs(run.sleeps) == |run.sleeps| * delay
  {
    var run := ProbeSpec(oracle, delay);
    FirstDecisiveIs(oracle, 0);
    TotalRepeat(delay, |run.sleeps|);
  }

  /** A probe stops at the first attempt that does not miss: the attempts
      before its last one all missed, and its last one found the node exactly
      when it reports Found (no stale positive). */
  lemma ProbeStopsAtFirst(oracle: seq<Poll>, delay: nat)
    ensures var run := ProbeSpec(oracle, delay);
      && (forall j :: 0 <= j < run.polls - 1 ==> PollAt(oracle, j) == Miss)
      && (run.status == Found <==> PollAt(oracle, run.polls - 1) == Hit)
      && (run.status == Errored <==> PollAt(oracle, run.polls - 1) == Fault)
  {
    FirstDecisiveIs(oracle, 0);
  }

  /** Some attempt within the budget finds the node, and every attempt
      before it finds nothing (none throws). */
  ghost predicate FindsWithinBudget(oracle: seq<Poll>) {
    exists k :: 0 <= k < MaxAttempts && PollAt(oracle, k) == Hit &&
      forall j :: 0 <= j < k ==> PollAt(oracle, j) == Miss
  }

  /** A probe reports Found exactly when some attempt within the budget finds
      the node and every attempt before it misses. */
  lemma ProbeFoundIff(oracle: seq<Poll>, delay: nat)
    ensures ProbeSpec(oracle, delay).status == Found <==> FindsWithinBudget(oracle)
  {
    FirstDecisiveIs(oracle, 0);
    var k := FirstDecisive(oracle, 0);
    if exists k' :: 0 <= k' < MaxAttempts && PollAt(oracle, k') == Hit &&
        forall j :: 0 <= j < k' ==> PollAt(oracle, j) == Miss
    {
      var k' :| 0 <= k' < MaxAttempts && PollAt(oracle, k') == Hit &&
        forall j :: 0 <= j < k' ==> PollAt(oracle, j) == Miss;
      FirstDecisiveUnique(oracle, 0, k');
    }
  }

  /** A probe reports Absent exactly when every attempt within the budget
      misses; it then has polled MaxAttempts times and slept
      MaxAttempts * delay milliseconds. */
  lemma ProbeAbsentIff(oracle: seq<Poll>, delay: nat)
    ensures var run := ProbeSpec(oracle, delay);
      && (run.status == Absent <==> forall j :: 0 <= j < MaxAttempts ==> PollAt(oracle, j) == Miss)
      && (run.status == Absent ==> run.polls == MaxAttempts && TotalMs(run.sleeps) == MaxAttempts * delay)
  {
    FirstDecisiveIs(oracle, 0);
    TotalRepeat(delay, MaxAttempts);
  }

  /** When no evaluation throws, a probe finds the node exactly when one of
      the first MaxAttempts answers is a node. */
  lemma ProbeFoundWithoutFaults(oracle: seq<Poll>, delay: nat)
    requires forall j :: 0 <= j < MaxAttempts ==> PollAt(oracle, j) != Fault
    ensures ProbeSpec(oracle, delay).status == Found <==>
      exists k :: 0 <= k < MaxAttempts && PollAt(oracle, k) == Hit
  {
    FirstDecisiveIs(oracle, 0);
  }

  /** The budget includes its last attempt: a node that first appears on the
      third evaluation is found, after two sleeps. */
  lemma ProbeFindsOnLastAttempt(oracle: seq<Poll>, delay: nat)
    requires PollAt(oracle, 0) == Miss && PollAt(oracle, 1) == Miss
    requires PollAt(oracle, 2) == Hit
    ensures ProbeSpec(oracle, delay) == ProbeRun(Found, 3, [delay, delay])
  {
    FirstDecisiveUnique(oracle, 0, 2);
  }
}
