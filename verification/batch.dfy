/** One file through validation, upload, polling and classification, and the
    batch as a left-to-right fold that records one failure entry per failed
    file. The service's answers and the clock for each file are inputs. */
module Batch {
  import opened Results
  import opened Paths
  import opened Replace
  import opened Config
  import opened Transfer
  import opened Polling

  /** Everything the outside world contributes to one file's processing: the
      upload answer, the file size, the poll answers and the clock readings. */
  datatype Remote = Remote(upload: UploadResponse, sizeBytes: nat, codes: seq<int>, clock: seq<real>)

  /** What happened after a file passed validation and was uploaded. */
  datatype Submission = Submission(
    arguments: Arguments,
    uid: Option<string>,
    pollUrl: string,
    outputPath: string,
    timeout: nat,
    polls: nat,
    finalCode: int,
    downloads: seq<DownloadEffect>)

  /** The download each poll performs, in poll order. */
  function Downloads(codes: seq<int>, polls: nat): (r: seq<DownloadEffect>)
    requires polls <= |codes|
    ensures |r| == polls
    ensures forall j :: 0 <= j < polls ==> r[j] == Download(codes[j])
  {
    seq(polls, j requires 0 <= j < polls => Download(codes[j]))
  }

  /** Some poll wrote the output file. */
  predicate WroteOutput(s: Submission) {
    exists j :: 0 <= j < |s.downloads| && s.downloads[j].wroteFile
  }

  /** A file's processing: its outcome and, unless validation rejected it,
      the submission it made. */
  datatype FileRun = FileRun(outcome: Outcome, submission: Option<Submission>)

  /** A recorded failure: the input path and why it failed (the
      `"<path>: <reason>"` line). */
  datatype FailureEntry = FailureEntry(path: string, reason: Outcome)

  /** A path with `_<model>` inserted before its extension. */
  function TaggedName(path: string, modelName: string): string {
    Stem(path) + "_" + modelName + Ext(path)
  }

  /** Where the enhanced file of `path` is written: the model name inserted
      before the extension, every `temp_` removed, joined under the folder. */
  function OutputPath(path: string, folder: string, model: EnhancementModel): string {
    Join(folder, RemoveTemp(TaggedName(path, model.Value())))
  }

  /** The answers and clock reach as far as polling can go for an accepted file
      (a rejected file never reaches the service). */
  predicate Serviceable(path: string, remote: Remote) {
    Accepted(path) ==> Covers(TimeoutSeconds(remote.sizeBytes, path), remote.codes, remote.clock)
  }

  /** The downloads the polls performed: one per poll with that poll's
      status, none touching the disk on a 412 or before the last poll, and
      the output file written exactly when the file succeeded. */
  predicate DownloadsFaithful(s: Submission, codes: seq<int>, outcome: Outcome) {
    && |s.downloads| == s.polls <= |codes|
    && (forall j :: 0 <= j < s.polls ==> s.downloads[j].status == codes[j])
    && (forall j :: 0 <= j < s.polls && s.downloads[j].status == NotReady ==>
          !s.downloads[j].madeDirectory && !s.downloads[j].wroteFile)
    && (forall j :: 0 <= j < s.polls - 1 ==> !s.downloads[j].madeDirectory && !s.downloads[j].wroteFile)
    && (WroteOutput(s) <==> outcome == Success)
  }

  /** One file: reject an unsupported extension before any upload; otherwise
      upload, poll with the uid the upload returned (even `None`) for the
      size-scaled timeout, and classify the last answer. */
  function ProcessFile(path: string, folder: string, model: EnhancementModel, remote: Remote): (r: FileRun)
    requires Serviceable(path, remote)
    ensures r.outcome == Unsupported <==> !Accepted(path)
    ensures r.submission.None? <==> !Accepted(path)
    ensures r.submission.Some? ==>
      var s := r.submission.value;
      && s.uid == UploadUid(remote.upload)
      && s.pollUrl == PollUrl(s.uid)
      && s.outputPath == OutputPath(path, folder, model)
      && s.timeout == TimeoutSeconds(remote.sizeBytes, path)
      && PollRun(s.timeout, remote.codes, remote.clock, s.polls, s.finalCode)
      && s.polls <= PollBound(s.timeout)
      && r.outcome == Classify(s.finalCode, s.timeout, remote.sizeBytes)
      && s.arguments == UploadArguments(path, model)
    ensures r.submission.Some? ==> DownloadsFaithful(r.submission.value, remote.codes, r.outcome)
  {
    if !Accepted(path) then
      FileRun(Unsupported, None)
    else
      var uid := UploadUid(remote.upload);
      var timeout := TimeoutSeconds(remote.sizeBytes, path);
      var (polls, code) := Poll(timeout, remote.codes, remote.clock);
      var s := Submission(UploadArguments(path, model), uid, PollUrl(uid), OutputPath(path, folder, model),
                          timeout, polls, code, Downloads(remote.codes, polls));
      var o := Classify(code, timeout, remote.sizeBytes);
      WrittenOnlyOnReady(timeout, remote.codes, remote.clock, s);
      FileRun(o, Some(s))
  }

  /** Only the last poll can write, and it writes exactly when the run ends
      holding 200. */
  lemma WrittenOnlyOnReady(timeout: nat, codes: seq<int>, clock: seq<real>, s: Submission)
    requires PollRun(timeout, codes, clock, s.polls, s.finalCode)
    requires s.downloads == Downloads(codes, s.polls)
    ensures WroteOutput(s) <==> s.finalCode == Ready
  {
    if s.finalCode == Ready {
      assert s.downloads[s.polls - 1].wroteFile;
    }
  }

  /** A rejected upload does not stop the file: it is polled under uid
      `None`, and given the same poll answers its outcome does not depend on
      whether the upload was accepted. */
  lemma RejectedUploadStillPolls(path: string, folder: string, model: EnhancementModel,
                                 remote: Remote, uid: string)
    requires Serviceable(path, remote) && Accepted(path) && remote.upload.status != 201
    ensures ProcessFile(path, folder, model, remote).submission.value.uid == None
    ensures ProcessFile(path, folder, model, remote).outcome ==
            ProcessFile(path, folder, model, remote.(upload := UploadResponse(201, uid))).outcome
  {
  }

  /** Small accepted files time out without a single poll: raw files up to
      17476 bytes and compressed files up to 1747 bytes get a zero timeout. */
  lemma SmallFileTimesOut(path: string, folder: string, model: EnhancementModel, remote: Remote)
    requires Serviceable(path, remote) && Accepted(path)
    requires if Compressed(path) then remote.sizeBytes <= 1747 else remote.sizeBytes <= 17476
    ensures ProcessFile(path, folder, model, remote).outcome == Timeout(0, remote.sizeBytes)
    ensures ProcessFile(path, folder, model, remote).submission.value.polls == 0
  {
    ZeroTimeoutSizes(remote.sizeBytes, path);
    var s := ProcessFile(path, folder, model, remote).submission.value;
    ZeroTimeoutNoPolls(remote.codes, remote.clock, s.polls, s.finalCode);
  }

  /** The failure entries one file contributes: none on success, one otherwise. */
  function Entries(path: string, run: FileRun): seq<FailureEntry> {
    if run.outcome.Success? then [] else [FailureEntry(path, run.outcome)]
  }

  /** Every file can be serviced with its own inputs. */
  predicate AllServiceable(files: seq<string>, remotes: seq<Remote>) {
    |remotes| == |files| && forall i :: 0 <= i < |files| ==> Serviceable(files[i], remotes[i])
  }

  /** `process_files_parallel` as a sequential fold: every file is processed
      whatever happened to the ones before it, and the failures are collected. */
  function ProcessFiles(files: seq<string>, folder: string, model: EnhancementModel,
                        remotes: seq<Remote>): (failed: seq<FailureEntry>)
    requires AllServiceable(files, remotes)
    ensures |failed| <= |files|
    decreases |files|
  {
    if files == [] then []
    else
      Entries(files[0], ProcessFile(files[0], folder, model, remotes[0]))
        + ProcessFiles(files[1..], folder, model, remotes[1..])
  }

  /** The paths whose processing succeeded, in input order. */
  function Succeeded(files: seq<string>, folder: string, model: EnhancementModel,
                     remotes: seq<Remote>): seq<string>
    requires AllServiceable(files, remotes)
    decreases |files|
  {
    if files == [] then []
    else
      (if ProcessFile(files[0], folder, model, remotes[0]).outcome.Success? then [files[0]] else [])
        + Succeeded(files[1..], folder, model, remotes[1..])
  }

  /** Every file ends up either among the successes or with exactly one
      failure entry: the two lists together account for the whole batch. */
  lemma {:induction false} BatchAccountsForEveryFile(files: seq<string>, folder: string,
                                                     model: EnhancementModel, remotes: seq<Remote>)
    requires AllServiceable(files, remotes)
    ensures |Succeeded(files, folder, model, remotes)| + |ProcessFiles(files, folder, model, remotes)| == |files|
    decreases |files|
  {
    if files != [] {
      BatchAccountsForEveryFile(files[1..], folder, model, remotes[1..]);
    }
  }

  /** Concatenated batches stay serviceable. */
  lemma ServiceableAppend(f1: seq<string>, f2: seq<string>, r1: seq<Remote>, r2: seq<Remote>)
    requires AllServiceable(f1, r1) && AllServiceable(f2, r2)
    ensures AllServiceable(f1 + f2, r1 + r2)
  {
    forall i | 0 <= i < |f1 + f2|
      ensures Serviceable((f1 + f2)[i], (r1 + r2)[i])
    {
      if i < |f1| {
        assert (f1 + f2)[i] == f1[i] && (r1 + r2)[i] == r1[i];
      } else {
        assert (f1 + f2)[i] == f2[i - |f1|] && (r1 + r2)[i] == r2[i - |f1|];
      }
    }
  }

  /** Failures are isolated: the batch of two concatenated lists records
      exactly the failures of the first followed by those of the second. */
  lemma {:induction false} BatchSplits(f1: seq<string>, f2: seq<string>, folder: string,
                                       model: EnhancementModel, r1: seq<Remote>, r2: seq<Remote>)
    requires AllServiceable(f1, r1) && AllServiceable(f2, r2)
    ensures AllServiceable(f1 + f2, r1 + r2)
    ensures ProcessFiles(f1 + f2, folder, model, r1 + r2) ==
            ProcessFiles(f1, folder, model, r1) + ProcessFiles(f2, folder, model, r2)
    decreases |f1|
  {
    ServiceableAppend(f1, f2, r1, r2);
    if f1 == [] {
      assert f1 + f2 == f2 && r1 + r2 == r2;
    } else {
      var fs, rs := f1 + f2, r1 + r2;
      assert fs[0] == f1[0] && rs[0] == r1[0];
      assert fs[1..] == f1[1..] + f2 && rs[1..] == r1[1..] + r2;
      ServiceableTail(f1, r1);
      BatchSplits(f1[1..], f2, folder, model, r1[1..], r2);
      var head := Entries(f1[0], ProcessFile(f1[0], folder, model, r1[0]));
      var rest1, rest2 := ProcessFiles(f1[1..], folder, model, r1[1..]), ProcessFiles(f2, folder, model, r2);
      assert ProcessFiles(fs, folder, model, rs) == head + (rest1 + rest2);
      assert ProcessFiles(f1, folder, model, r1) == head + rest1;
      AppendAssoc(head, rest1, rest2);
    }
  }

  /** Concatenation of failure lists is associative. */
  lemma AppendAssoc(a: seq<FailureEntry>, b: seq<FailureEntry>, c: seq<FailureEntry>)
    ensures a + (b + c) == (a + b) + c
  {
  }

  /** The tail of a serviceable batch is serviceable. */
  lemma ServiceableTail(files: seq<string>, remotes: seq<Remote>)
    requires AllServiceable(files, remotes) && files != []
    ensures AllServiceable(files[1..], remotes[1..])
  {
    forall i | 0 <= i < |files[1..]|
      ensures Serviceable(files[1..][i], remotes[1..][i])
    {
      assert files[1..][i] == files[i + 1] && remotes[1..][i] == remotes[i + 1];
    }
  }

  /** An entry is recorded exactly for each file whose processing did not
      succeed, naming that file and its outcome. */
  lemma {:induction false} FailedEntriesExactly(files: seq<string>, folder: string,
                                                model: EnhancementModel, remotes: seq<Remote>, e: FailureEntry)
    requires AllServiceable(files, remotes)
    ensures e in ProcessFiles(files, folder, model, remotes) <==>
      exists i :: 0 <= i < |files| &&
        var o := ProcessFile(files[i], folder, model, remotes[i]).outcome;
        !o.Success? && e == FailureEntry(files[i], o)
    decreases |files|
  {
    if files != [] {
      FailedEntriesExactly(files[1..], folder, model, remotes[1..], e);
      var rest := ProcessFiles(files[1..], folder, model, remotes[1..]);
      if e in rest {
        var i :| 0 <= i < |files[1..]| &&
          var o := ProcessFile(files[1..][i], folder, model, remotes[1..][i]).outcome;
          !o.Success? && e == FailureEntry(files[1..][i], o);
        assert files[1..][i] == files[i + 1] && remotes[1..][i] == remotes[i + 1];
      }
      if exists i :: 0 <= i < |files| &&
           var o := ProcessFile(files[i], folder, model, remotes[i]).outcome;
           !o.Success? && e == FailureEntry(files[i], o) {
        var i :| 0 <= i < |files| &&
          var o := ProcessFile(files[i], folder, model, remotes[i]).outcome;
          !o.Success? && e == FailureEntry(files[i], o);
        if i > 0 {
          assert files[1..][i - 1] == files[i] && remotes[1..][i - 1] == remotes[i];
        }
      }
    }
  }

  /** Every recorded entry names a file of the batch and an outcome other
      than success. */
  lemma EntriesNameBatchFiles(files: seq<string>, folder: string, model: EnhancementModel,
                              remotes: seq<Remote>, e: FailureEntry)
    requires AllServiceable(files, remotes)
    requires e in ProcessFiles(files, folder, model, remotes)
    ensures e.path in files && !e.reason.Success?
  {
    FailedEntriesExactly(files, folder, model, remotes, e);
  }

  /** A file with an unsupported extension always leaves its "unsupported"
      entry, whatever the rest of the batch does. */
  lemma UnsupportedIsRecorded(files: seq<string>, folder: string, model: EnhancementModel,
                              remotes: seq<Remote>, i: nat)
    requires AllServiceable(files, remotes) && i < |files| && !Accepted(files[i])
    ensures FailureEntry(files[i], Unsupported) in ProcessFiles(files, folder, model, remotes)
  {
    FailedEntriesExactly(files, folder, model, remotes, FailureEntry(files[i], Unsupported));
  }
}
