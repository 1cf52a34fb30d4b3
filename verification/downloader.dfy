/** Acquiring the mongosync binary (pkg/downloader/downloader.go). The
    commands it runs (curl, tar, chmod) and the file operations (stat,
    rename, remove) enter the model only through their success or failure;
    `steps` logs, in order, every command run, every file operation and
    every requested sleep. */
module Downloader {
  import opened Wrappers

  const TempArchive := "./mongosync.tgz"
  const ExtractedBinary := "./mongosync"
  const ArchiveMember := "mongosync-ubuntu2404-x86_64-1.14.0/bin/mongosync"
  /** The number of download attempts `DownloadBinary` allows. */
  const MaxRetries := 5

  /** What `os.Stat` said about the binary path. Only "does not exist"
      triggers a download; any other stat error counts as present. */
  datatype StatResult = Exists | NotExist | StatError

  datatype Step =
    | Exec(argv: seq<string>)
    | Remove(path: string)
    | Rename(from: string, to: string)
    | Sleep(seconds: nat)

  datatype DownloadError =
    | DownloadFailed(attempts: int, cause: string)
    | ExtractFailed(cause: string)
    | RenameFailed(cause: string)
    | ChmodFailed(cause: string)

  function Pow2(n: nat): (p: nat)
    ensures p >= 1
  {
    if n == 0 then 1 else 2 * Pow2(n - 1)
  }

  function CurlCommand(out: string, url: string): seq<string>
  {
    ["curl", "-L", "-o", out, url]
  }

  function ExtractCommand(archive: string): seq<string>
  {
    ["tar", "-xzf", archive, "--strip-components=2", ArchiveMember]
  }

  function ChmodCommand(path: string): seq<string>
  {
    ["chmod", "+x", path]
  }

  /** The steps of download attempt `attempt` (counted from 1): the temp file
      is removed before every attempt but the first, and a failed attempt
      before the last is followed by a wait of 2^(attempt-1) seconds. */
  function AttemptSteps(tmp: string, url: string, attempt: nat, failed: bool, maxRetries: int): seq<Step>
    requires attempt >= 1
  {
    (if attempt > 1 then [Remove(tmp)] else [])
    + [Exec(CurlCommand(tmp, url))]
    + (if failed && attempt < maxRetries then [Sleep(Pow2(attempt - 1))] else [])
  }

  /** The steps of attempts 1..k, all of which failed. */
  function FailedAttempts(tmp: string, url: string, k: nat, maxRetries: int): seq<Step>
  {
    if k == 0 then [] else FailedAttempts(tmp, url, k - 1, maxRetries) + AttemptSteps(tmp, url, k, true, maxRetries)
  }

  /** The steps of a whole `downloadWithRetry` run whose curl runs report
      `curl`: the failed attempts, then the successful one if any. */
  function RetrySteps(tmp: string, url: string, maxRetries: int, curl: seq<RunResult>): seq<Step>
    requires maxRetries <= |curl|
  {
    var n := LeadingFailures(curl, maxRetries);
    if n < maxRetries
    then FailedAttempts(tmp, url, n, maxRetries) + AttemptSteps(tmp, url, n + 1, false, maxRetries)
    else FailedAttempts(tmp, url, n, maxRetries)
  }

  /** The number of leading attempts that fail, among the at most
      `maxRetries` that are made. */
  function LeadingFailures(curl: seq<RunResult>, maxRetries: int): (n: nat)
    requires maxRetries <= |curl|
    ensures n <= |curl| && (maxRetries <= 0 ==> n == 0) && (maxRetries > 0 ==> n <= maxRetries)
    ensures forall i :: 0 <= i < n ==> curl[i].Failed?
    ensures n < maxRetries ==> curl[n].Succeeded?
  {
    if maxRetries <= 0 || curl[0].Succeeded? then 0
    else 1 + LeadingFailures(curl[1..], maxRetries - 1)
  }

  /** `downloadWithRetry`: `curl[k-1]` is what attempt k of curl returns.
      Returns nil at the first attempt that succeeds; when all fail, the
      error of the last attempt. */
  method DownloadWithRetry(tmp: string, url: string, maxRetries: int, curl: seq<RunResult>)
    returns (r: Outcome<string>, ghost steps: seq<Step>)
    requires maxRetries <= |curl|
    ensures LeadingFailures(curl, maxRetries) < maxRetries ==> r == Pass
    ensures LeadingFailures(curl, maxRetries) >= maxRetries ==>
      r == (if maxRetries <= 0 then Pass else Fail(curl[maxRetries - 1].cause))
    ensures steps == RetrySteps(tmp, url, maxRetries, curl)
  {
    ghost var n := LeadingFailures(curl, maxRetries);
    var lastErr: Option<string> := None;
    steps := [];
    var attempt := 1;
    while attempt <= maxRetries
      invariant 1 <= attempt <= n + 1
      invariant steps == FailedAttempts(tmp, url, attempt - 1, maxRetries)
      invariant lastErr == if attempt == 1 then None else Some(curl[attempt - 2].cause)
    {
      // the steps of this attempt
      ghost var current: seq<Step> := [];
      if attempt > 1 {
        current := [Remove(tmp)];
      }
      current := current + [Exec(CurlCommand(tmp, url))];
      var result := curl[attempt - 1];
      if result.Failed? {
        lastErr := Some(result.cause);
        if attempt < maxRetries {
          current := current + [Sleep(Pow2(attempt - 1))];
        }
        assert current == AttemptSteps(tmp, url, attempt, true, maxRetries);
        steps := steps + current;
        attempt := attempt + 1;
        continue;
      }
      assert current == AttemptSteps(tmp, url, attempt, false, maxRetries);
      return Pass, steps + current;
    }
    if lastErr.None? {
      r := Pass;
    } else {
      r := Fail(lastErr.value);
    }
  }

  /** Whether the whole installation succeeds, given each step's outcome. */
  predicate InstallSucceeds(binaryPath: string, curl: seq<RunResult>, extract: RunResult,
                            rename: RunResult, chmod: RunResult)
    requires MaxRetries <= |curl|
  {
    && LeadingFailures(curl, MaxRetries) < MaxRetries
    && extract.Succeeded?
    && (binaryPath == ExtractedBinary || rename.Succeeded?)
    && chmod.Succeeded?
  }

  /** What `downloadBinary` returns: success iff every step succeeds, and
      otherwise the error of the first step that failed. */
  predicate InstallOutcome(r: Outcome<DownloadError>, binaryPath: string, curl: seq<RunResult>,
                           extract: RunResult, rename: RunResult, chmod: RunResult)
    requires MaxRetries <= |curl|
  {
    var downloaded := LeadingFailures(curl, MaxRetries) < MaxRetries;
    && (r.Pass? <==> InstallSucceeds(binaryPath, curl, extract, rename, chmod))
    && (!downloaded ==> r == Fail(DownloadFailed(MaxRetries, curl[MaxRetries - 1].cause)))
    && (downloaded && extract.Failed? ==> r == Fail(ExtractFailed(extract.cause)))
    && ((downloaded && extract.Succeeded? && binaryPath != ExtractedBinary && rename.Failed?) ==>
          r == Fail(RenameFailed(rename.cause)))
    && ((downloaded && extract.Succeeded? && (binaryPath == ExtractedBinary || rename.Succeeded?)
         && chmod.Failed?) ==>
          r == Fail(ChmodFailed(chmod.cause)))
  }

  /** Whether every step after a successful download succeeds. */
  predicate InstallsAfterDownload(binaryPath: string, extract: RunResult, rename: RunResult, chmod: RunResult)
  {
    extract.Succeeded? && (binaryPath == ExtractedBinary || rename.Succeeded?) && chmod.Succeeded?
  }

  /** The steps `downloadBinary` takes after a successful download, in order
      and cut off at the first failure: the extraction, the rename when the
      target path is not the extracted binary, the chmod of the target path,
      and the removal of the archive. */
  function AfterDownload(binaryPath: string, extract: RunResult, rename: RunResult, chmod: RunResult): seq<Step>
  {
    var renamed := if binaryPath != ExtractedBinary then [Rename(ExtractedBinary, binaryPath)] else [];
    var finished := [Exec(ChmodCommand(binaryPath))] + (if chmod.Failed? then [] else [Remove(TempArchive)]);
    [Exec(ExtractCommand(TempArchive))]
    + (if extract.Failed? then []
       else renamed + (if binaryPath != ExtractedBinary && rename.Failed? then [] else finished))
  }

  /** The steps `downloadBinary` takes: the retry run, then, when it
      succeeded, the steps after the download. */
  function InstallLog(binaryPath: string, url: string, curl: seq<RunResult>, extract: RunResult,
                      rename: RunResult, chmod: RunResult): seq<Step>
    requires MaxRetries <= |curl|
  {
    RetrySteps(TempArchive, url, MaxRetries, curl)
    + (if LeadingFailures(curl, MaxRetries) == MaxRetries then [] else AfterDownload(binaryPath, extract, rename, chmod))
  }

  /** `downloadBinary`: download with at most `MaxRetries` attempts, extract
      the binary, rename it when the target path is not the extracted one,
      make it executable, then remove the archive (a failure there is only
      a warning). */
  method DownloadBinary(binaryPath: string, url: string, curl: seq<RunResult>, extract: RunResult,
                        rename: RunResult, chmod: RunResult, remove: RunResult)
    returns (r: Outcome<DownloadError>, ghost steps: seq<Step>)
    requires MaxRetries <= |curl|
    ensures InstallOutcome(r, binaryPath, curl, extract, rename, chmod)
    ensures steps == InstallLog(binaryPath, url, curl, extract, rename, chmod)
  {
    var downloaded;
    downloaded, steps := DownloadWithRetry(TempArchive, url, MaxRetries, curl);
    if downloaded.Fail? {
      return Fail(DownloadFailed(MaxRetries, downloaded.error)), steps;
    }
    steps := steps + [Exec(ExtractCommand(TempArchive))];
    if extract.Failed? {
      return Fail(ExtractFailed(extract.cause)), steps;
    }
    if binaryPath != ExtractedBinary {
      steps := steps + [Rename(ExtractedBinary, binaryPath)];
        if rename.Failed? {
        return Fail(RenameFailed(rename.cause)), steps;
      }
    }
    steps := steps + [Exec(ChmodCommand(binaryPath))];
    if chmod.Failed? {
      return Fail(ChmodFailed(chmod.cause)), steps;
    }
    // a failed removal is only logged
    steps := steps + [Remove(TempArchive)];
    r := Pass;
  }

  /** `EnsureBinary`: downloads only when the binary path does not exist,
      and then behaves exactly as `downloadBinary`. */
  method EnsureBinary(stat: StatResult, binaryPath: string, url: string, curl: seq<RunResult>,
                      extract: RunResult, rename: RunResult, chmod: RunResult, remove: RunResult)
    returns (r: Outcome<DownloadError>, ghost steps: seq<Step>)
    requires MaxRetries <= |curl|
    ensures stat != NotExist ==> r == Pass
    ensures stat == NotExist ==> InstallOutcome(r, binaryPath, curl, extract, rename, chmod)
    ensures stat != NotExist ==> steps == []
    ensures stat == NotExist ==> steps == InstallLog(binaryPath, url, curl, extract, rename, chmod)
  {
    if stat == NotExist {
      r, steps := DownloadBinary(binaryPath, url, curl, extract, rename, chmod, remove);
      return;
    }
    r, steps := Pass, [];
  }

  /** A missing binary whose five downloads all fail: `EnsureBinary`
      reports the download error with the attempt count and the last cause,
      waits 1, 2, 4 and 8 seconds, never renames, and ends with the fifth
      curl run. */
  method MissingBinaryDownloadsFail(binaryPath: string, url: string, extract: RunResult,
                                    rename: RunResult, chmod: RunResult, remove: RunResult)
    returns (r: Outcome<DownloadError>, ghost steps: seq<Step>)
    ensures r == Fail(DownloadFailed(5, "x"))
    ensures Sleeps(steps) == [1, 2, 4, 8]
    ensures forall s :: s in steps ==> !s.Rename?
    ensures |steps| > 0 && steps[|steps| - 1] == Exec(CurlCommand(TempArchive, url))
  {
    var curl := [Failed("a"), Failed("b"), Failed("c"), Failed("d"), Failed("x")];
    assert LeadingFailures(curl[4..], 1) == 1;
    assert LeadingFailures(curl[3..], 2) == 2;
    assert LeadingFailures(curl[2..], 3) == 3;
    assert LeadingFailures(curl[1..], 4) == 4;
    r, steps := EnsureBinary(NotExist, binaryPath, url, curl, extract, rename, chmod, remove);
    assert steps == FailedAttempts(TempArchive, url, MaxRetries, MaxRetries) + [];
    assert steps == FailedAttempts(TempArchive, url, MaxRetries, MaxRetries);
    AllAttemptsFailedWaits(TempArchive, url);
    NoRenameWhileDownloading(TempArchive, url, MaxRetries, MaxRetries);
  }

  /** After a successful download: the extraction always runs, the rename
      runs exactly when the extraction worked and the target path differs,
      and the archive is removed, as the last step, exactly when every step
      succeeded. */
  lemma AfterDownloadShape(binaryPath: string, extract: RunResult, rename: RunResult, chmod: RunResult)
    ensures var after := AfterDownload(binaryPath, extract, rename, chmod);
      |after| > 0 && after[0] == Exec(ExtractCommand(TempArchive))
    ensures Rename(ExtractedBinary, binaryPath) in AfterDownload(binaryPath, extract, rename, chmod) <==>
      extract.Succeeded? && binaryPath != ExtractedBinary
    ensures Remove(TempArchive) in AfterDownload(binaryPath, extract, rename, chmod) <==>
      InstallsAfterDownload(binaryPath, extract, rename, chmod)
    ensures var after := AfterDownload(binaryPath, extract, rename, chmod);
      after[|after| - 1] == Remove(TempArchive) <==> InstallsAfterDownload(binaryPath, extract, rename, chmod)
  {
    var after := AfterDownload(binaryPath, extract, rename, chmod);
    if extract.Failed? {
      assert after == [Exec(ExtractCommand(TempArchive))];
    } else if binaryPath != ExtractedBinary && rename.Failed? {
      assert after == [Exec(ExtractCommand(TempArchive)), Rename(ExtractedBinary, binaryPath)];
    } else if binaryPath != ExtractedBinary {
      assert after == [Exec(ExtractCommand(TempArchive)), Rename(ExtractedBinary, binaryPath),
                       Exec(ChmodCommand(binaryPath))] + (if chmod.Failed? then [] else [Remove(TempArchive)]);
    } else {
      assert after == [Exec(ExtractCommand(TempArchive)), Exec(ChmodCommand(binaryPath))]
                      + (if chmod.Failed? then [] else [Remove(TempArchive)]);
    }
  }

  /** The shape of an install log `log` that begins with the retry run
      `retry`: it starts with a curl run, it holds the rename exactly when
      `renames`, and the archive is removed after the retry run (and is then
      the last step) exactly when `succeeds`. */
  predicate ShapedInstallLog(log: seq<Step>, retry: seq<Step>, url: string, binaryPath: string,
                             renames: bool, succeeds: bool)
  {
    && 0 < |log| && |retry| <= |log| && log[0] == Exec(CurlCommand(TempArchive, url))
    && (Rename(ExtractedBinary, binaryPath) in log <==> renames)
    && (Remove(TempArchive) in log[|retry|..] <==> succeeds)
    && (log[|log| - 1] == Remove(TempArchive) <==> succeeds)
  }

  /** The whole install log starts with a curl run; the rename happens
      exactly when the download and extraction worked and the target path
      differs; the archive is removed after the retry run, and is then the
      last step, exactly when the installation succeeds, so a failed
      installation leaves the archive on disk. */
  lemma InstallLogShape(binaryPath: string, url: string, curl: seq<RunResult>, extract: RunResult,
                        rename: RunResult, chmod: RunResult)
    requires MaxRetries <= |curl|
    ensures ShapedInstallLog(InstallLog(binaryPath, url, curl, extract, rename, chmod),
                             RetrySteps(TempArchive, url, MaxRetries, curl), url, binaryPath,
                             LeadingFailures(curl, MaxRetries) < MaxRetries && extract.Succeeded?
                               && binaryPath != ExtractedBinary,
                             InstallSucceeds(binaryPath, curl, extract, rename, chmod))
  {
    var retry := RetrySteps(TempArchive, url, MaxRetries, curl);
    RetryStepsShape(TempArchive, url, MaxRetries, curl);
    if LeadingFailures(curl, MaxRetries) == MaxRetries {
      assert retry == FailedAttempts(TempArchive, url, MaxRetries, MaxRetries);
      LastFailedAttemptIsCurl(TempArchive, url, MaxRetries);
      RetryOnlyLogShape(retry, url, binaryPath);
      assert InstallLog(binaryPath, url, curl, extract, rename, chmod) == retry + [];
    } else {
      var after := AfterDownload(binaryPath, extract, rename, chmod);
      DownloadedLogShape(retry, url, binaryPath, extract, rename, chmod);
      assert InstallLog(binaryPath, url, curl, extract, rename, chmod) == retry + after;
    }
  }

  /** A retry run in which every download failed, and nothing after it. */
  lemma RetryOnlyLogShape(retry: seq<Step>, url: string, binaryPath: string)
    requires |retry| > 0 && retry[0] == Exec(CurlCommand(TempArchive, url))
    requires forall s :: s in retry ==> !s.Rename?
    requires retry[|retry| - 1] == Exec(CurlCommand(TempArchive, url))
    ensures ShapedInstallLog(retry + [], retry, url, binaryPath, false, false)
  {
    assert retry + [] == retry;
    assert retry[|retry|..] == [];
  }

  /** A retry run followed by the steps after a successful download. */
  lemma DownloadedLogShape(retry: seq<Step>, url: string, binaryPath: string,
                           extract: RunResult, rename: RunResult, chmod: RunResult)
    requires |retry| > 0 && retry[0] == Exec(CurlCommand(TempArchive, url))
    requires forall s :: s in retry ==> !s.Rename?
    ensures ShapedInstallLog(retry + AfterDownload(binaryPath, extract, rename, chmod), retry, url, binaryPath,
                             extract.Succeeded? && binaryPath != ExtractedBinary,
                             InstallsAfterDownload(binaryPath, extract, rename, chmod))
  {
    var after := AfterDownload(binaryPath, extract, rename, chmod);
    AfterDownloadShape(binaryPath, extract, rename, chmod);
    LogConcat(retry, after, Rename(ExtractedBinary, binaryPath));
  }

  /** What a log made of two parts shows of each. */
  lemma LogConcat(first: seq<Step>, second: seq<Step>, x: Step)
    requires |first| > 0 && |second| > 0
    ensures (first + second)[0] == first[0]
    ensures (first + second)[|first|..] == second
    ensures (first + second)[|first + second| - 1] == second[|second| - 1]
    ensures x in first + second <==> x in first || x in second
  {
  }

  /** A retry run with at least one attempt starts with a curl run and
      renames nothing. */
  lemma RetryStepsShape(tmp: string, url: string, maxRetries: int, curl: seq<RunResult>)
    requires 0 < maxRetries <= |curl|
    ensures var retry := RetrySteps(tmp, url, maxRetries, curl);
      |retry| > 0 && retry[0] == Exec(CurlCommand(tmp, url)) && forall s :: s in retry ==> !s.Rename?
  {
    var n := LeadingFailures(curl, maxRetries);
    NoRenameWhileDownloading(tmp, url, n, maxRetries);
    FirstStepIsCurl(tmp, url, n, maxRetries);
  }

  /** The last of k failed attempts, when k is the last allowed one, ends
      with its curl run: no wait follows it. */
  lemma LastFailedAttemptIsCurl(tmp: string, url: string, k: nat)
    requires k > 0
    ensures var steps := FailedAttempts(tmp, url, k, k);
      |steps| > 0 && steps[|steps| - 1] == Exec(CurlCommand(tmp, url))
  {
    var last := AttemptSteps(tmp, url, k, true, k);
    assert last[|last| - 1] == Exec(CurlCommand(tmp, url));
  }

  // ---------------------------------------------------------------------
  // Properties of the retry schedule

  /** The sleep durations in a step log, in order. */
  function Sleeps(steps: seq<Step>): seq<nat>
  {
    if steps == [] then []
    else (if steps[0].Sleep? then [steps[0].seconds] else []) + Sleeps(steps[1..])
  }

  lemma {:induction false} SleepsAppend(a: seq<Step>, b: seq<Step>)
    ensures Sleeps(a + b) == Sleeps(a) + Sleeps(b)
  {
    if a == [] {
      assert a + b == b;
    } else {
      assert (a + b)[0] == a[0];
      assert (a + b)[1..] == a[1..] + b;
      SleepsAppend(a[1..], b);
    }
  }

  /** Exponential backoff: 1, 2, 4, ..., 2^(k-1) seconds. */
  function Backoff(k: nat): seq<nat>
  {
    if k == 0 then [] else Backoff(k - 1) + [Pow2(k - 1)]
  }

  function Sum(s: seq<nat>): nat
  {
    if s == [] then 0 else Sum(s[..|s| - 1]) + s[|s| - 1]
  }

  /** After k failed attempts the waits requested are 1, 2, 4, ... seconds,
      one per failed attempt except the last of all `maxRetries`. */
  lemma {:induction false} FailedAttemptsWaits(tmp: string, url: string, k: nat, maxRetries: int)
    requires k <= maxRetries
    ensures Sleeps(FailedAttempts(tmp, url, k, maxRetries)) == Backoff(if 0 < k == maxRetries then k - 1 else k)
  {
    if k > 0 {
      FailedAttemptsWaits(tmp, url, k - 1, maxRetries);
      var pre := if k > 1 then [Remove(tmp)] else [];
      var post := if k < maxRetries then [Sleep(Pow2(k - 1))] else [];
      assert AttemptSteps(tmp, url, k, true, maxRetries) == pre + [Exec(CurlCommand(tmp, url))] + post;
      SleepsAppend(FailedAttempts(tmp, url, k - 1, maxRetries), pre + [Exec(CurlCommand(tmp, url))] + post);
      SleepsAppend(pre, [Exec(CurlCommand(tmp, url))]);
      SleepsAppend(pre + [Exec(CurlCommand(tmp, url))], post);
      SleepsSingle(Exec(CurlCommand(tmp, url)));
      SleepsSingle(Remove(tmp));
      SleepsSingle(Sleep(Pow2(k - 1)));
      assert Sleeps(pre) == [];
      assert Sleeps(post) == (if k < maxRetries then [Pow2(k - 1)] else []);
    }
  }

  lemma SleepsSingle(s: Step)
    ensures Sleeps([s]) == if s.Sleep? then [s.seconds] else []
  {
    assert [s][1..] == [];
  }

  lemma {:induction false} BackoffTotal(k: nat)
    ensures Sum(Backoff(k)) == Pow2(k) - 1
  {
    if k > 0 {
      BackoffTotal(k - 1);
      assert Backoff(k)[..|Backoff(k)| - 1] == Backoff(k - 1);
    }
  }

  /** When every one of the `MaxRetries` attempts fails, the waits are 1, 2,
      4 and 8 seconds, 15 in all, and none follows the last attempt. */
  lemma AllAttemptsFailedWaits(tmp: string, url: string)
    ensures Sleeps(FailedAttempts(tmp, url, MaxRetries, MaxRetries)) == [1, 2, 4, 8]
    ensures Sum(Sleeps(FailedAttempts(tmp, url, MaxRetries, MaxRetries))) == 15
    ensures FailedAttempts(tmp, url, MaxRetries, MaxRetries)[|FailedAttempts(tmp, url, MaxRetries, MaxRetries)| - 1]
            == Exec(CurlCommand(tmp, url))
  {
    FailedAttemptsWaits(tmp, url, MaxRetries, MaxRetries);
    BackoffTotal(MaxRetries - 1);
    assert Backoff(4) == [1, 2, 4, 8] by {
      assert Pow2(1) == 2 && Pow2(2) == 4 && Pow2(3) == 8;
    }
  }

  /** The number of curl runs in a step log. */
  function Attempts(steps: seq<Step>): nat
  {
    if steps == [] then 0
    else (if steps[0].Exec? && |steps[0].argv| > 0 && steps[0].argv[0] == "curl" then 1 else 0) + Attempts(steps[1..])
  }

  lemma {:induction false} AttemptsAppend(a: seq<Step>, b: seq<Step>)
    ensures Attempts(a + b) == Attempts(a) + Attempts(b)
  {
    if a == [] {
      assert a + b == b;
    } else {
      assert (a + b)[0] == a[0];
      assert (a + b)[1..] == a[1..] + b;
      AttemptsAppend(a[1..], b);
    }
  }

  lemma AttemptStepsCount(tmp: string, url: string, attempt: nat, failed: bool, maxRetries: int)
    requires attempt >= 1
    ensures Attempts(AttemptSteps(tmp, url, attempt, failed, maxRetries)) == 1
  {
    var pre := if attempt > 1 then [Remove(tmp)] else [];
    var post := if failed && attempt < maxRetries then [Sleep(Pow2(attempt - 1))] else [];
    AttemptsAppend(pre, [Exec(CurlCommand(tmp, url))]);
    AttemptsAppend(pre + [Exec(CurlCommand(tmp, url))], post);
  }

  /** k failed attempts run curl exactly k times. */
  lemma {:induction false} FailedAttemptsCount(tmp: string, url: string, k: nat, maxRetries: int)
    ensures Attempts(FailedAttempts(tmp, url, k, maxRetries)) == k
  {
    if k > 0 {
      FailedAttemptsCount(tmp, url, k - 1, maxRetries);
      AttemptsAppend(FailedAttempts(tmp, url, k - 1, maxRetries), AttemptSteps(tmp, url, k, true, maxRetries));
      AttemptStepsCount(tmp, url, k, true, maxRetries);
    }
  }

  /** At most `maxRetries` attempts are made, and none at all when
      `maxRetries` is not positive (the loop body never runs and nil is returned). */
  lemma AttemptsBounded(tmp: string, url: string, maxRetries: int, curl: seq<RunResult>)
    requires maxRetries <= |curl|
    ensures Attempts(RetrySteps(tmp, url, maxRetries, curl)) <= (if maxRetries < 0 then 0 else maxRetries)
  {
    var n := LeadingFailures(curl, maxRetries);
    FailedAttemptsCount(tmp, url, n, maxRetries);
    if n < maxRetries {
      AttemptsAppend(FailedAttempts(tmp, url, n, maxRetries), AttemptSteps(tmp, url, n + 1, false, maxRetries));
      AttemptStepsCount(tmp, url, n + 1, false, maxRetries);
    }
  }

  /** Every curl run in `steps` but one at the very start is immediately
      preceded by removing the temp archive. */
  predicate RemovedBeforeRetries(steps: seq<Step>, tmp: string, url: string)
  {
    forall j :: 0 < j < |steps| && steps[j] == Exec(CurlCommand(tmp, url)) ==> steps[j - 1] == Remove(tmp)
  }

  /** Appending attempt k to the log of the attempts before it keeps every
      later curl run preceded by a removal. */
  lemma AttemptKeepsRemovals(tmp: string, url: string, pre: seq<Step>, k: nat, failed: bool, maxRetries: int)
    requires k >= 1 && (k == 1 ==> pre == [])
    requires RemovedBeforeRetries(pre, tmp, url)
    ensures RemovedBeforeRetries(pre + AttemptSteps(tmp, url, k, failed, maxRetries), tmp, url)
  {
    var last := AttemptSteps(tmp, url, k, failed, maxRetries);
    var steps := pre + last;
    forall j | 0 < j < |steps| && steps[j] == Exec(CurlCommand(tmp, url))
      ensures steps[j - 1] == Remove(tmp)
    {
      if j < |pre| {
        assert steps[j] == pre[j] && steps[j - 1] == pre[j - 1];
        assert 0 < j < |pre| && pre[j] == Exec(CurlCommand(tmp, url));
      } else {
        assert steps[j] == last[j - |pre|];
        if k > 1 {
          assert last[0] == Remove(tmp) && last[1] == Exec(CurlCommand(tmp, url));
          assert |last| == 3 ==> last[2].Sleep?;
          assert j == |pre| + 1;
          assert steps[j - 1] == last[0];
        } else {
          // the first attempt's curl run is the first step
          assert false;
        }
      }
    }
  }

  lemma {:induction false} FailedAttemptsKeepRemovals(tmp: string, url: string, k: nat, maxRetries: int)
    ensures RemovedBeforeRetries(FailedAttempts(tmp, url, k, maxRetries), tmp, url)
  {
    if k > 0 {
      FailedAttemptsKeepRemovals(tmp, url, k - 1, maxRetries);
      AttemptKeepsRemovals(tmp, url, FailedAttempts(tmp, url, k - 1, maxRetries), k, true, maxRetries);
    }
  }

  /** The temp archive is removed before every attempt after the first,
      whether the run ends with a successful attempt or with all failed. */
  lemma RemoveBeforeEveryRetry(tmp: string, url: string, maxRetries: int, curl: seq<RunResult>)
    requires maxRetries <= |curl|
    ensures RemovedBeforeRetries(RetrySteps(tmp, url, maxRetries, curl), tmp, url)
  {
    var n := LeadingFailures(curl, maxRetries);
    FailedAttemptsKeepRemovals(tmp, url, n, maxRetries);
    if n < maxRetries {
      AttemptKeepsRemovals(tmp, url, FailedAttempts(tmp, url, n, maxRetries), n + 1, false, maxRetries);
    }
  }

  /** The retry loop never renames anything. */
  lemma {:induction false} NoRenameWhileDownloading(tmp: string, url: string, k: nat, maxRetries: int)
    ensures forall s :: s in FailedAttempts(tmp, url, k, maxRetries) ==> !s.Rename?
    ensures forall s :: s in AttemptSteps(tmp, url, k + 1, false, maxRetries) ==> !s.Rename?
  {
    if k > 0 {
      NoRenameWhileDownloading(tmp, url, k - 1, maxRetries);
    }
  }

  /** The first step of a download is always a curl run. */
  lemma {:induction false} FirstStepIsCurl(tmp: string, url: string, k: nat, maxRetries: int)
    ensures var steps := FailedAttempts(tmp, url, k, maxRetries);
      (k > 0 ==> steps[0] == Exec(CurlCommand(tmp, url)))
      && (steps + AttemptSteps(tmp, url, k + 1, false, maxRetries))[0] == Exec(CurlCommand(tmp, url))
  {
    if k > 1 {
      FirstStepIsCurl(tmp, url, k - 1, maxRetries);
    }
  }
}
