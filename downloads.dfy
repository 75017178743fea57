/** The claim-and-rename step: if the exported "Profile.pdf" is in the download
    directory, it is moved to the derived output name; otherwise, or when the
    rename throws, the directory is left as it was and the job goes on. */
module Downloads {
  import opened Naming

  datatype ClaimOutcome =
    | Claimed(name: string)   // the artifact now lives under this name
    | ArtifactMissing         // "Downloaded PDF file not found"
    | RenameFailed            // renameSync threw; the error was caught

  /** The outcome together with the directory (a set of file names) after it. */
  datatype ClaimRun = ClaimRun(outcome: ClaimOutcome, files: set<string>)

  /** existsSync(oldPath), then renameSync(oldPath, newPath); `renameOk` says
      whether the file system carries out the rename. A rename onto an existing
      name replaces that file. */
  function Claim(files: set<string>, heading: string, timestamp: nat, renameOk: bool): ClaimRun {
    var target := OutputName(heading, timestamp);
    if Artifact !in files then ClaimRun(ArtifactMissing, files)
    else if !renameOk then ClaimRun(RenameFailed, files)
    else ClaimRun(Claimed(target), files - {Artifact} + {target})
  }

  /** With the artifact present and a working rename, the artifact is gone,
      the output name is present, and every other entry is as it was; in every
      other case the directory is unchanged. */
  lemma ClaimEffect(files: set<string>, heading: string, timestamp: nat, renameOk: bool)
    ensures var r := Claim(files, heading, timestamp, renameOk);
      var target := OutputName(heading, timestamp);
      && (r.outcome.Claimed? <==> Artifact in files && renameOk)
      && (r.outcome.Claimed? ==>
            && r.outcome.name == target
            && Artifact !in r.files
            && target in r.files
            && forall f :: f != Artifact && f != target ==> (f in r.files <==> f in files))
      && (!r.outcome.Claimed? ==> r.files == files)
      && (r.outcome == ArtifactMissing <==> Artifact !in files)
  {
    OutputNameIsNotArtifact(heading, timestamp);
  }

  /** A claim never adds an entry: it keeps the count of files when the output
      name is new, and loses one file when a file of that name already
      existed and is replaced. */
  lemma ClaimCount(files: set<string>, heading: string, timestamp: nat, renameOk: bool)
    ensures var r := Claim(files, heading, timestamp, renameOk);
      var target := OutputName(heading, timestamp);
      && (r.outcome.Claimed? && target !in files ==> |r.files| == |files|)
      && (r.outcome.Claimed? && target in files ==> |r.files| == |files| - 1)
      && |r.files| <= |files|
  {
    var target := OutputName(heading, timestamp);
    OutputNameIsNotArtifact(heading, timestamp);
    if Artifact in files && renameOk {
      var rest := files - {Artifact};
      assert |rest| == |files| - 1;
      if target in files {
        assert rest + {target} == rest;
      } else {
        assert target !in rest;
        assert |rest + {target}| == |rest| + 1;
      }
    }
  }
}
