/** The remote calls reduced to what the orchestrator does with their
    answers: an upload yields a uid or nothing, a download either writes the
    output file or reports its status. */
module Transfer {
  import opened Results
  import opened Config

  /** What the service answered to `POST {base}/medias`. */
  datatype UploadResponse = UploadResponse(status: int, uid: string)

  /** The value the upload returns: the body's uid on 201 Created, and
      `None` (without raising) for any other status. */
  function UploadUid(response: UploadResponse): (r: Option<string>)
    ensures r.Some? <==> response.status == 201
    ensures r.Some? ==> r.value == response.uid
  {
    if response.status != 201 then None else Some(response.uid)
  }

  /** `str(uid)` as interpolated into the URL: `None` prints as "None". */
  function UidText(uid: Option<string>): string {
    match uid
    case Some(u) => u
    case None => "None"
  }

  /** The resource polled for the enhanced file of `uid`. */
  function PollUrl(uid: Option<string>): string {
    ApiUrl + "/medias/" + UidText(uid) + "/file"
  }

  /** After a rejected upload the poll still goes out, to the uid `None`;
      after an accepted one it goes to the returned uid. */
  lemma PollAfterUpload(response: UploadResponse)
    ensures response.status != 201 ==>
      PollUrl(UploadUid(response)) == "https://api.ai-coustics.io/v2/medias/None/file"
    ensures response.status == 201 ==>
      PollUrl(UploadUid(response)) == "https://api.ai-coustics.io/v2/medias/" + response.uid + "/file"
  {
  }

  /** What one download attempt did locally: the status it reports, and
      whether it created the output directory and wrote the output file. */
  datatype DownloadEffect = DownloadEffect(status: int, madeDirectory: bool, wroteFile: bool)

  /** `GET {base}/medias/{uid}/file`: any status other than 200 is returned
      before any directory is created or the output file is opened; 200
      creates the directory and streams the body into the file. */
  function Download(status: int): (r: DownloadEffect)
    ensures r.status == status
    ensures r.wroteFile <==> status == 200
    ensures r.madeDirectory <==> r.wroteFile
  {
    if status != 200 then DownloadEffect(status, false, false)
    else DownloadEffect(status, true, true)
  }
}
