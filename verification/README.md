# Batch enhancement client: a Dafny model

This project models the decision logic of a small client for a remote audio
enhancement service. The client uploads each audio file and polls until the
enhanced file is ready, then downloads it. It does this for a batch of files
and collects one failure line per file that did not succeed. A web upload
handler in front of it saves each upload under a `temp_` name, predicts the
output path it reports back, and runs the batch on the temporary copies.

Network answers, file sizes and clock readings are inputs to the model. With
those fixed, every step is a pure function:

- **Validation and timeout policy** (`config.dfy`). The path, lowercased, must
  end in one of `.wav .aac .opus .ogg .mp3 .flac .pcm .mp4`.
  - Compressed formats get 600 seconds per MiB; the others get 60.
  - The timeout is `floor(bytes * factor / 2^20)`.
- **The poll loop** (`poll.dfy`). This is a state machine driven by a trace.
  `codes[j]` is the status the `j`-th poll received. `clock[k]` is the elapsed
  time at the `k`-th test of the loop condition.
  - The loop keeps polling while the status is 412 and time is left.
  - `PollRun` states declaratively which run the loop makes. The recursive
    `Poll`, the literal `PollLoop` and `PollRunUnique` tie that statement to
    the code.
  - The last status is then classified as success (200), timeout (still 412)
    or remote failure (anything else).
- **Status handling** (`transfer.dfy`).
  - Upload: 201 yields the uid. Anything else yields `None`, without raising.
  - Download: a status other than 200 is returned before any directory or
    file is touched.
- **Output names** (`paths.dfy`, `replace.dfy`). These model Python's
  `posixpath.join` and `splitext`, and the single left-to-right
  `str.replace('temp_', '')` pass. That pass is not idempotent.
- **Per-file run and batch** (`batch.dfy`).
  - An unsupported file is rejected before any upload.
  - A rejected upload still polls, under the uid `None`, exactly as the code
    does.
  - The batch is a left-to-right fold. Each file adds no entry on success and
    exactly one otherwise, so one file's failure never stops the others.
- **Upload handler** (`app.dfy`, `agreement.dfy`).
  - There is one temporary path and one reported output path per upload, in
    upload order.
  - The default folder is `uploads` and the default model is `LARK_V2`.
  - An empty folder field or an unknown model name raises.
  - Otherwise the handler answers `success` with exactly the batch's failure
    list.
  - The reported output path equals the written path when the output folder
    is absolute with no `temp_` in it and the upload name has no separator
    and does not start with a dot. This condition is sufficient, not
    necessary: some dot-leading names also agree, such as `.a.wav` under `/dir`.
  - With a relative, `temp_`-free folder, such as the default, the batch
    joins the folder twice.
  - A folder containing `temp_` is rewritten by the batch's removal pass as
    well. For example, the relative folder `temp_` sends the file to `/`, the
    filesystem root.
  - For a plain name the two paths differ whenever the folder is relative,
    and whenever it is absolute and contains `temp_`.

The program keeps no record of jobs: each request is handled synchronously.
It does not check for an existing output file before uploading. An upload
answered with a status other than 201 does not end the file: the program goes
on to poll `.../medias/None/file` (api.py:93, api.py:130-133).

## Model

| member | source | states |
|---|---|---|
| `Paths.JoinLaws` | api.py:155 | `os.path.join`: the result ends with the second part; an absolute second part replaces the first; an empty first part adds nothing; otherwise the second part follows the first, with a separator added only when the first does not already end in one; an absolute first part gives an absolute result |
| `Paths.SplitExtLaws` | api.py:154 | `os.path.splitext`: root + ext is the path; ext is empty or one dot with no further dot or separator; ext is non-empty exactly when the final component has a dot after a non-dot character |
| `Replace.RemoveTempShrinks` | api.py:154 | the `temp_` removal only deletes: the result is shorter by a multiple of five and keeps only characters of the input |
| `Replace.RemoveTempFixedIff` | api.py:154 | the removal leaves a string unchanged if and only if `temp_` does not occur in it |
| `Replace.RemoveTempDropsPrefix` | app.py:28 | the `temp_` prefix given to every temporary copy is always removed again |
| `Replace.RemoveTempNotIdempotent` | api.py:154 | one pass over `temptemp__` leaves `temp_`, so a second pass changes the result again |
| `Replace.RemoveTempAppend` | api.py:154-155 | when the left part ends in a character that does not occur in `temp_`, the removal works on the two parts independently |
| `Replace.RemoveTempScan` | api.py:154 | the scanning loop of `str.replace` computes the same left-to-right pass |
| `Config.Lookup` | app.py:37 | `EnhancementModel[name]` succeeds exactly for `LARK_V2` and `FINCH`, and returns the member whose value is that name |
| `Config.LookupValue` | api.py:28-30 | every model's value names that model again |
| `Config.EndsWithAny` | api.py:153 | `endswith` with a tuple holds exactly when some listed suffix ends the string |
| `Config.CompressedIsAccepted` | api.py:22 | every compressed extension is among the accepted ones |
| `Config.RawExtensions` | api.py:86 | `.wav` and `.pcm` files are accepted but get the raw factor |
| `Config.ExtensionCaseInsensitive` | api.py:153 | both extension tests give the same answer for a path and its lowercased form |
| `Config.TimeoutSeconds` | api.py:84-87 | the timeout is the largest whole number of seconds not above size/2^20 times the factor |
| `Config.TimeoutMonotone` | api.py:84-87 | the timeout never decreases with file size, and for equal size a compressed file's is at least a raw file's |
| `Config.ZeroTimeoutSizes` | api.py:84-87 | the timeout is zero exactly for raw files up to 17476 bytes and compressed files up to 1747 bytes |
| `Config.UploadArguments` | api.py:65-72 | the upload parameters name the chosen model by a value that resolves back to it, target -14 LUFS loudness and -1 dBTP true peak, ask for enhancement level 100 (the batch's `int(100.0)`), and carry the input path as file name |
| `Transfer.UploadUid` | api.py:130-138 | the upload returns the body's uid on 201 and `None` on any other status |
| `Transfer.PollAfterUpload` | api.py:93 | after a rejected upload the poll URL is `.../medias/None/file`; after an accepted one it carries the uid |
| `Transfer.Download` | api.py:51-58 | one download attempt: a status other than 200 is returned before the directory is made or the file written; 200 makes the directory and writes the file |
| `Polling.ClockLowerBound` | api.py:91-92 | with a five-second sleep before every poll, at least 5k seconds have elapsed at the k-th test |
| `Polling.PollFrom` | api.py:91-100 | from any test on, the loop polls only while the code is 412 and time is left, stops at the first other answer or when time is up, and makes at most ceil(timeout/5) polls in all |
| `Polling.Poll` | api.py:88-100 | the loop from its start makes a run satisfying `PollRun`, with at most ceil(timeout/5) polls |
| `Polling.PollLoop` | api.py:88-100 | the while loop as written makes a run satisfying `PollRun`, with at most ceil(timeout/5) polls |
| `Polling.PollRunUnique` | api.py:91 | the answers and the clock determine the run: the number of polls and the final code |
| `Polling.ZeroTimeoutNoPolls` | api.py:87-91 | with a zero timeout no poll is made and the code stays 412 |
| `Polling.Classify` | api.py:101-106 | the outcome depends only on the last code: 412 is a timeout naming the timeout and size, 200 is success, any other code a remote failure carrying it |
| `Batch.ProcessFile` | api.py:148-166 | an unsupported file is rejected before any upload; otherwise it is uploaded with the batch's fixed parameters, the poll uses the upload's uid (possibly `None`), the output path is derived from the input path, and the outcome classifies the final code of the poll run; each poll performs one download, a 412 poll touches no directory and no file, only the last poll can write, and the output file is written exactly when the outcome is success |
| `Batch.WrittenOnlyOnReady` | api.py:94-106 | over a loop run, some download writes the output file exactly when the run ends holding 200 |
| `Batch.RejectedUploadStillPolls` | api.py:75-94 | a rejected upload does not stop the file: it is polled under uid `None`, and given the same poll answers the outcome does not depend on whether the upload was accepted; the code never branches on a `None` uid |
| `Batch.SmallFileTimesOut` | api.py:84-104 | accepted files up to the zero-timeout sizes (17476 raw bytes, 1747 compressed bytes, both included) time out with zero polls |
| `Batch.ProcessFiles` | api.py:172-180 | the batch records no more entries than it has files |
| `Batch.EntriesNameBatchFiles` | api.py:164-166 | every recorded entry names one of the batch's files and an outcome other than success |
| `Batch.BatchAccountsForEveryFile` | api.py:177 | the succeeded files and the failure entries together number exactly the files of the batch |
| `Batch.BatchSplits` | api.py:164-176 | failures are isolated: a concatenated batch records the first part's failures followed by the second part's |
| `Batch.FailedEntriesExactly` | api.py:164-166 | an entry is recorded exactly for each file whose outcome is not success, with that file's path and outcome |
| `Batch.UnsupportedIsRecorded` | api.py:162-166 | a file with an unsupported extension always leaves its "unsupported" entry |
| `App.CollectPaths` | app.py:24-34 | one temporary path and one reported output path per upload, in upload order; a missing filename becomes `unnamed` |
| `App.HandleUpload` | app.py:17-46 | the handler answers exactly when the folder is non-empty and the model name resolves; the answer has status `success`, one reported path per upload and exactly the batch's failure list; otherwise it names the error raised |
| `App.ModelNameRoundTrip` | app.py:23 | a resolved model's value is the requested name, and an absent name resolves to `LARK_V2` |
| `Agreement.SplitExtUnderTemp` | app.py:28 | for a plain name under a folder, the `temp_` prefix does not move the extension |
| `Agreement.PredictedUnderFolder` | app.py:31-33 | for a non-empty folder and a plain name (no `/`, no leading dot), the reported path is the folder prefix followed by the tagged name with `temp_` removed, and that cleaned name is relative |
| `Agreement.BatchNameFromTempPath` | api.py:154 | for a `temp_`-free folder and a plain name, the name the batch derives from the temporary path is the folder prefix followed by the handler's name |
| `Agreement.WrittenIsReportedJoinedAgain` | api.py:154-155 | under a `temp_`-free folder and for a plain name, the batch writes to the reported path joined under the folder again |
| `Agreement.AbsoluteFolderAgrees` | app.py:33 | with an absolute, `temp_`-free folder and a plain name, the reported path is the written path |
| `Agreement.TempFolderDisagrees` | api.py:154-155 | with an absolute folder containing `temp_` and a plain name, the removal pass also shortens the folder part, so the written path is shorter than the reported one and never equal to it |
| `Replace.RemoveTempSameLength` | api.py:154 | a pass that keeps the length changes nothing |
| `Agreement.RelativeFolderJoinsTwice` | app.py:28-33 | with a relative, `temp_`-free folder and a plain name, the written path is the reported path under the folder once more, so the two differ |
| `Agreement.RelativeFolderDisagrees` | app.py:28-33 | with any relative folder, with or without `temp_`, and a plain name, the written path is never the reported one |
| `Agreement.MarkerFolderWritesAtRoot` | api.py:154-155 | for a plain name (no `/`, no leading dot) under the relative folder `temp_`, the batch writes `/` followed by the cleaned name, at the filesystem root, while the handler reports the same name under `temp_/` |
| `Agreement.DefaultFolderJoinsTwice` | app.py:6 | for a plain name (no `/`, no leading dot) under the default folder `uploads`, the batch writes one `uploads/` deeper than the reported path |
| `Agreement.SplitDotName` | api.py:154 | `.wav` has no extension, but its temporary path `/out/temp_.wav` does, so dot-leading names are not covered by the agreement lemmas |
| `Agreement.StripTempFolder` | api.py:154 | the removal rewrites a folder containing `temp_`, e.g. `/temp_in/` becomes `/in/` |

## Left out

- Network I/O is not modelled. This covers HTTP sessions, TLS setup, multipart
  and JSON encoding, the uid read from the JSON body, and chunked streaming of
  the download (`CHUNK_SIZE`). Each call is reduced to its status code and uid.
- Transfer.Download: states only whether the output directory and file are
  written, not the bytes written, because the streamed body is not modelled.
- Transport failures are not modelled. A connection error, a TLS error or a
  missing input file raises inside the per-file `try`. It would become one
  more failure entry, like the modelled failures, but it is not a separate
  outcome here.
- Concurrency is not modelled. This covers the thread pool of 10 workers, the
  unsynchronised shared failure list and the unused lock. The batch is a
  sequential fold in input order. In the program the entries appear in
  completion order.
- `time.time`, `time.sleep` and `asyncio.run` are replaced by a clock trace.
  Its readings start at or after zero and grow by at least five seconds
  between loop tests.
- The model requires the answer and clock traces to reach `ceil(timeout/5)`
  polls. This is the most the loop can make.
- Floating point is not modelled. The timeout is computed exactly as
  `floor(bytes * factor / 2^20)`. This equals the float computation while
  `bytes * 600 < 2^53`. The enhancement level is the constant `int(100.0)` the
  batch passes.
- Filesystem effects are not modelled: folder creation, `getsize` (the size is
  an input), saving and removing temporary files. When the model name is
  unknown the handler raises before the removal loop, so the temporary copies
  stay on disk. The model only reports the error.
- Failure entries are kept as structured pairs (path, outcome). The formatted
  `"<path>: <message>"` text is not built; it includes a `.2f` size in MiB and
  the tuple of extensions.
- `str.lower` is modelled for ASCII letters only. No non-ASCII character
  lowercases to a character of the eight extensions, so the extension tests
  are unaffected.
- The API key, Flask routing, templates, the index page, environment lookup,
  GUI bootstrapping (`run_gui.py`) and all printing are not modelled.
- The batch's own folder creation (api.py:149-150) is not modelled. The
  handler always creates the folder first, or fails on an empty one. Called
  with an empty folder outside the handler, the batch would record every file
  as failed; the model does not cover that case.
- The model assumes a POSIX host, where `os.path` is `posixpath`. The program
  also ships as a desktop application (`run_gui.py`). On Windows, `ntpath.join`
  and `ntpath.splitext` treat `\` and drive letters differently, and that
  behaviour is not modelled.
