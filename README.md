# LinkedIn profile downloader, modelled in Dafny

`index.js` is a Node.js script. It attaches to a Chrome session that is already
running (remote debugging on port 9222). For each of the first three rows of
`Input.csv` it opens the row's LinkedIn profile. It finds the "More" button and
then the "Save to PDF" option, each with a query tried up to three times, and
clicks them. It then waits for Chrome to write `Profile.pdf` into `Download/`.
It renames that file to `<heading>_<timestamp>.pdf`, where the heading is the
profile's `h1` with every character outside `[A-Za-z0-9]` replaced by `_`.
Finally it pauses for a random 5 to 14 seconds. Any thrown error ends that
profile's job: the browser is disconnected if it was attached, the error is
logged, and the next row is processed.

The model has these modules:

- `Naming`: the file name derivation.
- `Pacing`: the random pause.
- `Probing`: the bounded polling probe, as a specification function over the
  answers the page gives.
- `Downloads`: the claim-and-rename step on a download directory modelled as a
  set of names.
- `Job`: one call of `downloadLinkedInProfile` as a function. It maps the
  world's answers (`JobEnv`) and the directory to a status, a trace of
  observable events and the new directory.
- `Batch`: `main`, meaning `slice(0, 3)` and the sequential loop, as a function
  over rows.
- `Script`: the same behaviour written the way the script runs. It is a class
  `Host` whose download directory and trace change step by step. Its probe is a
  `while` loop and its batch a `for` loop. Each method is proved to produce
  exactly the state that the `Job` and `Batch` functions describe.

Inputs the script gets from the outside are parameters:

- Browser and page behaviour: whether the connection works, whether there is a
  tab, the CDP call, navigation, each query's answer, each click, the heading,
  whether the export lands, and whether the rename works.
- The clock (`new Date().getTime()`).
- `Math.random()`, as a real in [0, 1).
- The CSV rows. `None` means no rows were delivered. A parse error rejects
  `processCSV`'s promise and is caught by `main` (index.js:196-198). An
  unreadable `Input.csv` fails the file stream, which has no error listener,
  so the process stops. In both cases no job runs.

Behaviours of the code as written that a reader might not expect; the model
follows the code in each:

- Missing `h1` is fatal. `page.$('h1')` returns null, so the `el.textContent`
  evaluation throws and the job fails (`HeadingUnreadable`, index.js:98-99).
- An element gone at click time is skipped. The click evaluation looks the
  element up again, and its `if (element)` guard skips the click silently
  (index.js:87-90, 125-128). No error is thrown and the job goes on
  (`Vanished`).
- The pause is 5 to 14 seconds. The comment at index.js:151 says 5-15, but
  `Math.floor(Math.random() * 10) + 5` never gives 15.
- A total miss sleeps three times. A probe that never finds its element sleeps
  after each of its three misses, including the last, before it throws
  (index.js:69-84).
- A failed job takes no random wait. The wait sits inside the inner `try`
  (index.js:151-154), so any earlier error skips it.
- Disconnect happens only on the error path (index.js:159-167), and only when
  the browser was attached. A completed job leaves it attached.

## Model

| member | source | states |
|---|---|---|
| Naming.SanitizeAt | index.js:138 | Sanitizing keeps the length. Every alphanumeric character stays at its position and every other character becomes '_'. |
| Naming.SanitizeIsSafe | index.js:138 | A sanitized heading contains only characters from [A-Za-z0-9_]. |
| Naming.SanitizeFixedIff | index.js:138 | A heading is unchanged by sanitizing exactly when it consists of [A-Za-z0-9_] only (both directions). |
| Naming.SanitizeIdempotent | index.js:138 | Sanitizing twice gives the same result as sanitizing once. |
| Naming.DecimalRoundTrip | index.js:136-138 | The timestamp is written as a non-empty string of digits with no leading zero, and reading the digits back gives the timestamp. |
| Naming.DecimalInjective | index.js:136-138 | Different timestamps are written differently. |
| Naming.OutputNameLayout | index.js:136-138 | The new file name is the sanitized heading, then '_', then only digits, then ".pdf". The digits read back as the timestamp. |
| Naming.OutputNameDistinct | index.js:136-138 | The same heading at two different timestamps gives two different file names. |
| Naming.OutputNameIsNotArtifact | index.js:137-138 | The new name is never "Profile.pdf", so a rename always moves the artifact away. |
| Naming.SanitizeMergesPunctuation | index.js:138 | "Jane Doe" and "Jane-Doe" give the same name, Jane_Doe_<ts>.pdf. Only the timestamp keeps such profiles apart. |
| Pacing.PacingSeconds | index.js:152 | The random wait is between 5 and 14 whole seconds. |
| Pacing.PacingMs | index.js:152-154 | The setTimeout delay is between 5000 and 14000 ms and is a whole number of seconds. |
| Pacing.PacingSlice | index.js:152 | A wait of k seconds comes exactly from draws in [(k-5)/10, (k-4)/10), for k in 5..14, so the ten waits are equally likely. |
| Pacing.PacingReaches | index.js:152 | Every wait from 5 to 14 seconds is possible. |
| Probing.ProbeDecidedAt | index.js:69-84 | A probe is decided at its first answer that is not a miss: Found with k sleeps, Errored with k sleeps, or Absent after three misses with three sleeps. |
| Probing.ProbeCost | index.js:69-80 | A probe queries 1 to 3 times. It sleeps its fixed delay once per miss: polls-1 times after a find or an error, and 3 times after a total miss. |
| Probing.ProbeStopsAtFirst | index.js:69-80 | All queries before the last one missed. The probe reports Found exactly when the last answer was a node, and Errored exactly when the last query threw. |
| Probing.ProbeFoundIff | index.js:66-84 | A probe finds its element exactly when one of the first three answers is a node and no earlier answer threw. |
| Probing.ProbeAbsentIff | index.js:82-84 | A probe ends in "Failed to find" exactly when all three answers miss. It then slept 3 × delay ms. |
| Probing.ProbeFoundWithoutFaults | index.js:69-80 | When no query throws, the probe succeeds exactly when one of the first three answers is a node. |
| Probing.ProbeFindsOnLastAttempt | index.js:69-80 | A node that first appears at the third query is still found, after two sleeps. |
| Downloads.ClaimEffect | index.js:140-149 | With Profile.pdf present and a working rename: the artifact is gone, the new name is present, and every other entry is unchanged. In every other case the directory is unchanged. ArtifactMissing happens exactly when Profile.pdf is absent. |
| Downloads.ClaimCount | index.js:140-149 | A claim never adds an entry. A rename onto an existing name replaces that file, which removes one entry. |
| Job.ProbeEventsCount | index.js:69-80 | A probe's trace holds exactly one query of its element per evaluation it counts, so between one and three. |
| Job.ExportStageOutcome | index.js:102-154 | The Save to PDF stage completes exactly when its probe finds the option and its click does not throw. A completed stage's directory is the claim's result on the landed directory. |
| Job.ExportStageFailure | index.js:120-158 | A failed Save to PDF stage leaves the directory alone, claims nothing, and ends with Disconnect. |
| Job.MenuStageOutcome | index.js:64-154 | The stage after navigation completes exactly when both probes find their element, neither click throws, and the heading can be read. |
| Job.MenuStageFailure | index.js:82-158 | A failed stage after navigation leaves the directory alone, claims nothing, and ends with Disconnect. |
| Job.JobCompletesIff | index.js:15-168 | A job completes exactly when every step goes through (both directions). A completed job's directory is the claim's result applied to the directory as the export left it. |
| Job.UnclaimedMeans | index.js:137-153 | A trace is unclaimed exactly when none of its events is a rename or the random wait. |
| Job.FailureIsIsolated | index.js:155-168 | A failed job has renamed nothing and taken no random wait. It left the directory unchanged. It ends with Disconnect, or, when it never attached, has done only its entry. |
| Job.MoreProbeFailureSkipsRest | index.js:82-84 | If the More probe fails, the job fails with that error before any click, heading read, Save to PDF query, rename or pause. |
| Job.SaveOptionNeverAppears | index.js:104-122 | If the Save to PDF option never appears, the job ends with three queries a second apart and a Disconnect. It fails with ElementNotFound, and the directory is untouched. |
| Job.HeadingFailureSkipsExport | index.js:96-99 | If the heading cannot be read, the job fails with that error. It makes no Save to PDF query or click, no rename and no pause, and the directory is untouched. |
| Job.MenuStageFailureMilestones | index.js:82-158 | A failed stage after navigation records Disconnect either right after the More probe, or after the More click, the menu wait and the heading read. |
| Job.FailureStopsTimeline | index.js:15-168 | The milestones of a failed job that attached are a non-empty prefix of the completed timeline, up to the heading read at most, followed by Disconnect. So a failed job never clicks Save to PDF, takes the export wait, renames or pauses, and its steps come in the completed order. |
| Job.CompletedTimeline | index.js:50-154 | Leaving out only the probes' queries and retry sleeps, a completed job does, in order: entry, navigation, the 5 s settle, the More click (if the element is still there), the 2 s menu wait, the heading read, the Save to PDF click (if the element is still there), the 5 s export wait, the rename (if any), and one wait of 5 to 14 s. Its trace ends with the export wait, the rename if any, and the pause. |
| Job.CompletedJobClaimsArtifact | index.js:131-149 | When every step goes through, a Profile.pdf is present (just exported or left over), and the rename works, the file ends up under this job's name and Profile.pdf is gone. |
| Job.MissingArtifactStillCompletes | index.js:141-146 | An export that never lands is only logged. The job completes with ArtifactMissing and the directory is unchanged. |
| Job.ThirdAttemptSuffices | index.js:69-80 | A More button that answers only the third query still leads to a completed job. |
| Job.SingleProfileDownload | index.js:97-149 | One profile "Jane Doe" whose elements answer at once turns an empty directory into {Jane_Doe_<ts>.pdf}. |
| Job.JobStartsOnce | index.js:15-168 | Whatever it meets, a job is entered exactly once, for its own url. |
| Job.JobKeepsFiles | index.js:140-149 | No file name other than Profile.pdf disappears in a job. A file already under the job's output name is replaced by the export (see ClaimCount), so names survive, not file contents. |
| Batch.Selected | index.js:188 | slice(0, 3) keeps the first min(3, n) rows, unchanged and in order. |
| Batch.EveryRowRuns | index.js:190-193 | Every kept row gets a status, whatever earlier rows did. Row i's status is what its job produces on the directory left by rows 0..i-1. |
| Batch.RowCompletesIff | index.js:190-193 | A row's job completes exactly when its own world lets every step go through. Earlier rows do not affect this. |
| Batch.RowsInOrder | index.js:190-193 | The jobs are entered one per row, in row order. |
| Batch.BatchKeepsFiles | index.js:190-193 | No file name other than Profile.pdf disappears in a batch. A file already under a job's output name is replaced by that job's export. |
| Batch.MainRunsFirstThree | index.js:184-198 | main runs min(3, n) jobs, for the first rows' urls in order. When no rows are delivered it runs none and leaves everything as it was. |
| Batch.ExtraRowsIgnored | index.js:187-188 | Rows after the third never change what main does. |
| Script.Host.ProbeFor | index.js:66-80 | The while loop returns exactly the probe run that ProbeSpec gives. It appends that run's queries and sleeps to the trace and leaves the directory alone. |
| Script.Host.ClickElement | index.js:86-90 | The click evaluation records a click only when the element is still there. |
| Script.Host.ClaimArtifact | index.js:140-149 | existsSync and renameSync change the directory exactly as Claim does. A rename is the only event recorded. |
| Script.Host.MenuSteps | index.js:64-100 | The More steps, the menu dwell and the heading read, followed by the export steps, leave exactly the status, trace and directory of the menu stage. |
| Script.Host.ExportSteps | index.js:102-154 | The Save to PDF steps, the export landing, the claim and the pause leave exactly the status, trace and directory of the export stage. |
| Script.Host.FinishSteps | index.js:134-154 | The claim and the random wait leave exactly the status, trace and directory of the finishing stage. |
| Script.Host.DownloadLinkedInProfile | index.js:15-168 | One call leaves exactly the status, appended trace and directory that RunJob gives. |
| Script.Host.RunRow | index.js:190-193 | One loop turn extends the batch state from rows 0..i-1 to rows 0..i. |
| Script.Host.RunTasks | index.js:190-193 | The for loop leaves exactly the statuses, trace and directory that RunAll gives. |
| Script.Host.ProcessRows | index.js:184-198 | main leaves exactly the state that RunMain gives. Without rows it does nothing. |

## Left out

- Puppeteer, CDP and the browser are not modelled. `connect`, `pages()`, `Page.setDownloadBehavior`, `goto` (with its 30 s timeout) and the heading lookup are reduced to the answers they give in `JobEnv`.
- The DOM and the XPath queries are modelled only as their answers. Each query's answers form a list, and an answer past the end of the list is a miss.
- `.trim()` on the heading is not modelled. The heading in `JobEnv` is the text already trimmed.
- Console output is left out. It has no effect on state.
- Real time is left out. Each sleep is an event carrying its duration, and the model does not express a file that lands after the 5 s dwell.
- Concurrency inside the browser is left out. The job runs the export as one step: a dispatched click either lands `Profile.pdf` before the dwell ends or it does not.
- Chrome's renaming of a second download to "Profile (1).pdf" is not modelled. With the artifact already present, a new export is modelled as arriving under the same name.
- CSV parsing by `csv-parser` is left out. Rows arrive already parsed, with the two columns the script reads. A row whose url column is missing is not modelled; in the script, `goto(undefined)` throws, which is the same as `navigates == false`.
- Process termination is not modelled. An unreadable `Input.csv` stops the process with an uncaught stream error; the model treats it like a parse error, as "no rows", since neither runs a job.
- Creating `Download/` at load time (lines 9-13) is left out. The directory is assumed to exist.
- Errors from `browser.disconnect()` are only logged, so they are left out; disconnecting is a single event.
- Float rounding in `Math.random() * 10` is not modelled. The draw is an exact real.
- `Naming.Sanitize`: maps Unicode scalar values. The JavaScript regular expression has no `u` flag, so it replaces each UTF-16 code unit, and a character outside the Basic Multilingual Plane becomes two underscores in the script but one in the model.
- `Naming.Decimal`: writes every natural number in plain decimal. JavaScript switches to exponent notation at 1e21, which makes no difference for millisecond timestamps.
