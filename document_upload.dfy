/**
 * The document upload component: local validation of the chosen file, then
 * upload, then the embedding request, then following the embedding task
 * until it ends.
 */
module DocumentUpload {
  import opened Wrappers
  import opened ApiClient
  import opened I18n
  import TaskProgress

  const MaxFileSize := 50 * 1024 * 1024
  const AllowedTypes := [
    "application/pdf",
    "application/vnd.openxmlformats-officedocument.wordprocessingml.document",
    "application/msword"
  ]

  const UnsupportedTypeKey := "documents.upload.errors.unsupportedType"
  const TooLargeKey := "documents.upload.errors.tooLarge"
  const UploadFailedKey := "documents.upload.errors.uploadFailed"

  /** A chosen file: its name, declared media type and size in bytes. */
  datatype File = File(name: string, mediaType: string, size: int)

  datatype ValidationError = UnsupportedType | TooLarge

  /** `validateFile`: the type is checked before the size. */
  function ValidateFile(f: File): (v: Option<ValidationError>)
    ensures v == Some(UnsupportedType) <==> f.mediaType !in AllowedTypes
    ensures v == Some(TooLarge) <==> f.mediaType in AllowedTypes && f.size > MaxFileSize
    ensures v == None <==> f.mediaType in AllowedTypes && f.size <= MaxFileSize
  {
    if f.mediaType !in AllowedTypes then Some(UnsupportedType)
    else if f.size > MaxFileSize then Some(TooLarge)
    else None
  }

  /** The ceiling is inclusive: exactly 50 MiB passes, 51 MiB does not. */
  lemma CeilingIsInclusive(name: string, mediaType: string)
    requires mediaType in AllowedTypes
    ensures ValidateFile(File(name, mediaType, 52428800)) == None
    ensures ValidateFile(File(name, mediaType, 52428801)) == Some(TooLarge)
    ensures ValidateFile(File(name, mediaType, 51 * 1024 * 1024)) == Some(TooLarge)
  {
  }

  /** An oversized file of the wrong type reports the type. */
  lemma TypeIsCheckedFirst(f: File)
    requires f.mediaType !in AllowedTypes && f.size > MaxFileSize
    ensures ValidateFile(f) == Some(UnsupportedType)
  {
  }

  function ValidationText(e: ValidationError): Text {
    match e
    case UnsupportedType => Translated(UnsupportedTypeKey)
    case TooLarge => Translated(TooLargeKey)
  }

  /** `err.detail || t('errors.uploadFailed')`. */
  function FailureText(reason: Thrown): (t: Text)
    ensures Truthy(reason.Detail()) ==> t == Literal(reason.error.detail)
    ensures !Truthy(reason.Detail()) ==> t == Translated(UploadFailedKey)
  {
    if Truthy(reason.Detail()) then Literal(reason.Detail().value) else Translated(UploadFailedKey)
  }

  /** An upload rejected by the server shows its classified detail, never the generic key. */
  lemma ServerRejectionShowsDetail<T>(resp: Response, decodeError: string -> Result<ErrorBody, string>,
                                      decodeBody: string -> Result<T, string>)
    requires !IsOk(resp.status)
    ensures var r := UploadDocument(Success(resp), decodeError, decodeBody);
      r.Failure? && FailureText(r.error) == Literal(ClassifyFailure(resp, UploadFailedMessage, decodeError).detail)
  {
    DetailNeverEmpty(resp, UploadFailedMessage, decodeError);
  }

  /** The state of the `DocumentUpload` component. */
  class Uploader {
    var file: Option<File>
    var uploading: bool
    var error: Option<Text>
    var taskId: Option<string>
    /** The backend calls issued, in order. */
    var calls: seq<Operation>
    /** How many times `onUploadComplete` has been called. */
    var completions: nat

    constructor ()
      ensures file == None && !uploading && error == None && taskId == None && calls == [] && completions == 0
    {
      file, uploading, error, taskId := None, false, None, None;
      calls, completions := [], 0;
    }

    /** The drop zone and file picker are shown while no task is being followed. */
    predicate ShowsDropZone()
      reads this
      ensures ShowsDropZone() <==> !ShowsTaskProgress()
    {
      taskId.None? || taskId.value == ""
    }

    /** The upload button: a chosen file, and no task being followed. */
    predicate ShowsUploadButton()
      reads this
      ensures ShowsUploadButton() <==> file.Some? && ShowsDropZone()
      ensures ShowsUploadButton() ==> !ShowsTaskProgress()
    {
      file.Some? && (taskId.None? || taskId.value == "")
    }

    /**
     * The task progress panel replaces the drop zone and the button while a
     * task is followed; the source tests the task id for truthiness, so an
     * empty id shows no panel.
     */
    predicate ShowsTaskProgress()
      reads this
    {
      taskId.Some? && taskId.value != ""
    }

    /** `handleFileSelect`: a rejected file only sets the error; an accepted one replaces the file. */
    method HandleFileSelect(f: File)
      modifies this
      ensures ValidateFile(f).Some? ==> error == Some(ValidationText(ValidateFile(f).value)) && file == old(file)
      ensures ValidateFile(f).None? ==> file == Some(f) && error == None
      ensures uploading == old(uploading) && taskId == old(taskId)
      ensures calls == old(calls) && completions == old(completions)
    {
      var invalid := ValidateFile(f);
      if invalid.Some? {
        error := Some(ValidationText(invalid.value));
        return;
      }
      file := Some(f);
      error := None;
    }

    /** The remove button next to the chosen file. */
    method RemoveFile()
      modifies this
      ensures file == None
      ensures uploading == old(uploading) && error == old(error) && taskId == old(taskId)
      ensures calls == old(calls) && completions == old(completions)
    {
      file := None;
    }

    /**
     * `handleUpload`: upload the file, then request embeddings for the
     * returned file id; the task id is set only when both succeed, and
     * `uploading` stays set while the task is followed.
     */
    method HandleUpload(uploaded: Result<UploadResponse, Thrown>, embedded: Result<EmbeddingResponse, ApiError>)
      modifies this
      ensures old(file).None? ==>
        file == old(file) && uploading == old(uploading) && error == old(error) && taskId == old(taskId) &&
        calls == old(calls)
      ensures old(file).Some? ==>
        calls == old(calls) + [UploadFile] + (if uploaded.Success? then [GenerateEmbeddings(uploaded.value.fileId)] else [])
      ensures old(file).Some? && uploaded.Success? && embedded.Success? ==>
        taskId == Some(embedded.value.taskId) && uploading && error == None &&
        (ShowsTaskProgress() <==> embedded.value.taskId != "")
      ensures old(file).Some? && uploaded.Failure? ==>
        error == Some(FailureText(uploaded.error)) && !uploading && taskId == old(taskId)
      ensures old(file).Some? && uploaded.Success? && embedded.Failure? ==>
        error == Some(FailureText(Api(embedded.error))) && !uploading && taskId == old(taskId)
      ensures file == old(file) && completions == old(completions)
    {
      if file.None? {
        return;
      }
      uploading := true;
      error := None;
      calls := calls + [UploadFile];
      match uploaded {
        case Failure(reason) =>
          error := Some(FailureText(reason));
          uploading := false;
        case Success(upload) =>
          calls := calls + [GenerateEmbeddings(upload.fileId)];
          match embedded {
            case Failure(e) =>
              error := Some(FailureText(Api(e)));
              uploading := false;
            case Success(embedding) =>
              taskId := Some(embedding.taskId);
          }
      }
    }

    /** `handleTaskComplete`. */
    method HandleTaskComplete()
      modifies this
      ensures !uploading && file == None && taskId == None && completions == old(completions) + 1
      ensures ShowsDropZone() && !ShowsUploadButton()
      ensures error == old(error) && calls == old(calls)
    {
      uploading := false;
      file := None;
      taskId := None;
      completions := completions + 1;
    }

    /** `handleTaskError`: the file is kept so the user can retry. */
    method HandleTaskError(text: string)
      modifies this
      ensures error == Some(Literal(text)) && !uploading && taskId == None
      ensures ShowsDropZone() && (ShowsUploadButton() <==> old(file).Some?)
      ensures file == old(file) && calls == old(calls) && completions == old(completions)
    {
      error := Some(Literal(text));
      uploading := false;
      taskId := None;
    }

    /**
     * The task progress panel for the current task, wired to
     * `handleTaskComplete` and `handleTaskError`.
     */
    method FollowTask(script: seq<PollResult>) returns (view: TaskProgress.TaskProgressView)
      requires ShowsTaskProgress()
      modifies this
      ensures fresh(view) && view.taskId == old(taskId).value
      ensures var outcome := PollSpec(script, true, TaskProgress.PollInterval).outcome;
        (outcome.Resolved? ==>
          file == None && !uploading && taskId == None && error == old(error) &&
          completions == old(completions) + 1) &&
        (outcome.Rejected? ==>
          error == Some(Literal(TaskProgress.ErrorText(outcome.reason))) && !uploading && taskId == None &&
          file == old(file) && completions == old(completions)) &&
        (outcome.StillPolling? ==>
          file == old(file) && uploading == old(uploading) && error == old(error) && taskId == old(taskId) &&
          completions == old(completions))
      ensures calls == old(calls)
    {
      view := new TaskProgress.TaskProgressView(taskId.value);
      var requested, delays := view.RunEffect(script);
      var notices := view.notices;
      ghost var outcome := PollSpec(script, true, TaskProgress.PollInterval).outcome;
      assert notices == TaskProgress.NoticesFor(outcome);
      if notices == [TaskProgress.Completed] {
        HandleTaskComplete();
      } else if |notices| == 1 && notices[0].Failed? {
        HandleTaskError(notices[0].text);
      }
    }
  }

  /** The whole ingestion of a valid file whose task completes after some progress. */
  method IngestionScenario(f: File, upload: UploadResponse, embedding: EmbeddingResponse,
                           progress: TaskStatus, done: TaskStatus)
    requires ValidateFile(f).None?
    requires progress.status == TaskProgress.ProcessingStatus && done.status == CompletedStatus
    requires embedding.taskId != ""
  {
    var u := new Uploader();
    u.HandleFileSelect(f);
    assert u.file == Some(f) && u.ShowsUploadButton();
    u.HandleUpload(Success(upload), Success(embedding));
    assert u.calls == [UploadFile, GenerateEmbeddings(upload.fileId)];
    assert u.taskId == Some(embedding.taskId) && u.uploading && u.ShowsTaskProgress();
    var script := [Success(progress), Success(done)];
    assert PollSpec(script[1..], true, TaskProgress.PollInterval).outcome == Resolved(done);
    var view := u.FollowTask(script);
    assert u.file == None && u.taskId == None && !u.uploading && u.completions == 1;
  }
}
