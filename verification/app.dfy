/** The upload handler of the web front end: it saves each upload under a
    `temp_` name, predicts the output name it reports back, runs the batch on
    the temporary copies and assembles the response. */
module App {
  import opened Results
  import opened Paths
  import opened Replace
  import opened Config
  import opened Batch

  /** Output folder used when the form names none. */
  const UploadFolder: string := "uploads"
  /** Model name used when the form names none. */
  const DefaultModelName: string := "LARK_V2"
  /** Name given to an upload that arrives without a filename. */
  const Unnamed: string := "unnamed"

  /** The form fields and uploads of one request; absent fields are `None`. */
  datatype UploadRequest = UploadRequest(
    filenames: seq<Option<string>>,
    apiKey: Option<string>,
    outputFolder: Option<string>,
    modelName: Option<string>)

  /** The JSON body returned on completion. */
  datatype Response = Response(status: string, files: seq<string>, failedFiles: seq<FailureEntry>)

  /** Why the handler raises instead of answering: `os.makedirs('')` fails
      for an empty folder field, and an unknown model name is a `KeyError`. */
  datatype UploadError = CannotCreateFolder | UnknownModel(name: string)

  function Folder(req: UploadRequest): string {
    req.outputFolder.GetOr(UploadFolder)
  }

  function ModelName(req: UploadRequest): string {
    req.modelName.GetOr(DefaultModelName)
  }

  function FileName(filename: Option<string>): string {
    filename.GetOr(Unnamed)
  }

  /** Where an upload is saved before processing. */
  function TempPath(folder: string, name: string): string {
    Join(folder, TempMarker + name)
  }

  /** The output path the handler reports for an upload. */
  function PredictedPath(folder: string, name: string, modelName: string): string {
    Join(folder, RemoveTemp(TaggedName(name, modelName)))
  }

  /** The temporary paths of all uploads, in upload order. */
  function TempPaths(folder: string, filenames: seq<Option<string>>): seq<string> {
    seq(|filenames|, i requires 0 <= i < |filenames| => TempPath(folder, FileName(filenames[i])))
  }

  /** The loop over the uploads: one temporary path and one reported output
      path per upload, in upload order, a missing filename counting as "unnamed". */
  method CollectPaths(folder: string, filenames: seq<Option<string>>, modelName: string)
    returns (tempPaths: seq<string>, outputFiles: seq<string>)
    ensures |tempPaths| == |filenames| && |outputFiles| == |filenames|
    ensures forall i :: 0 <= i < |filenames| ==>
      tempPaths[i] == TempPath(folder, FileName(filenames[i]))
    ensures forall i :: 0 <= i < |filenames| ==>
      outputFiles[i] == PredictedPath(folder, FileName(filenames[i]), modelName)
    ensures forall i :: 0 <= i < |filenames| && filenames[i] == None ==>
      tempPaths[i] == TempPath(folder, Unnamed)
  {
    tempPaths, outputFiles := [], [];
    for k := 0 to |filenames|
      invariant |tempPaths| == k && |outputFiles| == k
      invariant forall i :: 0 <= i < k ==> tempPaths[i] == TempPath(folder, FileName(filenames[i]))
      invariant forall i :: 0 <= i < k ==> outputFiles[i] == PredictedPath(folder, FileName(filenames[i]), modelName)
    {
      var name := FileName(filenames[k]);
      tempPaths := tempPaths + [TempPath(folder, name)];
      outputFiles := outputFiles + [PredictedPath(folder, name, modelName)];
    }
  }

  /** The request handler: create the folder (an empty name cannot be
      created), collect the paths, resolve the model by name, run the batch on
      the temporary copies and answer "success" with the reported output
      paths and exactly the batch's failure list. */
  method HandleUpload(req: UploadRequest, remotes: seq<Remote>) returns (r: Result<Response, UploadError>)
    requires AllServiceable(TempPaths(Folder(req), req.filenames), remotes)
    ensures r.Ok? <==> Folder(req) != "" && Lookup(ModelName(req)).Some?
    ensures Folder(req) == "" ==> r == Err(CannotCreateFolder)
    ensures Folder(req) != "" && Lookup(ModelName(req)).None? ==> r == Err(UnknownModel(ModelName(req)))
    ensures r.Ok? ==> r.value.status == "success"
    ensures r.Ok? ==> |r.value.files| == |req.filenames|
    ensures r.Ok? ==> forall i :: 0 <= i < |req.filenames| ==>
      r.value.files[i] == PredictedPath(Folder(req), FileName(req.filenames[i]), ModelName(req))
    ensures r.Ok? ==> (r.value.failedFiles ==
      ProcessFiles(TempPaths(Folder(req), req.filenames), Folder(req), Lookup(ModelName(req)).value, remotes))
  {
    var folder := Folder(req);
    if folder == "" {
      return Err(CannotCreateFolder);
    }
    var modelName := ModelName(req);
    var tempPaths, outputFiles := CollectPaths(folder, req.filenames, modelName);
    assert tempPaths == TempPaths(folder, req.filenames);
    var model := Lookup(modelName);
    if model.None? {
      return Err(UnknownModel(modelName));
    }
    var failed := ProcessFiles(tempPaths, folder, model.value, remotes);
    r := Ok(Response("success", outputFiles, failed));
  }

  /** The handler refers to each model by the same string the batch sends. */
  lemma ModelNameRoundTrip(req: UploadRequest)
    requires Lookup(ModelName(req)).Some?
    ensures Lookup(ModelName(req)).value.Value() == ModelName(req)
    ensures req.modelName == None ==> Lookup(ModelName(req)) == Some(LarkV2)
  {
  }
}
