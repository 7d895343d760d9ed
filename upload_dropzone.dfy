/** The drop zone (components/upload/UploadDropzone.tsx): the accepted-type
    table, the size limit handed to the drop library, and the drop handler,
    which either reports the first rejection or queues every accepted file. */
module UploadDropzone {
  import opened Externals
  import Content
  import opened UploadModel
  import opened UploadHook

  /** `ACCEPTED_FILE_TYPES`: each MIME type with its file extensions. */
  const ACCEPTED_FILE_TYPES: seq<(string, seq<string>)> := [
    ("text/plain", [".txt"]),
    ("text/markdown", [".md"]),
    ("application/pdf", [".pdf"]),
    ("audio/mpeg", [".mp3"]),
    ("audio/mp4", [".m4a"]),
    ("audio/wav", [".wav"]),
    ("video/mp4", [".mp4"])]

  /** `MAX_FILE_SIZE`, 100 MiB; the drop library enforces it, the queue does not. */
  const MAX_FILE_SIZE: nat := 100 * 1024 * 1024

  /** The content type each accepted MIME type is stored as. */
  const ACCEPTED_KINDS: seq<Content.ContentType> :=
    [Content.Text, Content.Text, Content.Pdf, Content.Audio, Content.Audio, Content.Audio, Content.Video]

  /** Every type the drop zone accepts classifies, as the kind listed beside
      it, so a dropped file of an accepted type is queued and never fails with
      an unsupported-type error. */
  lemma AcceptedTypesClassify(i: int, file: FileInfo, next: Uuid)
    requires 0 <= i < |ACCEPTED_FILE_TYPES| && file.mimeType == ACCEPTED_FILE_TYPES[i].0
    ensures GetContentType(file.mimeType) == Ok(ACCEPTED_KINDS[i])
    ensures NewEntry(file, next).status == Queued && NewEntry(file, next).contentId.Some?
    ensures MAX_FILE_SIZE == 104857600
  {
    var mime := file.mimeType;
    GetContentTypeCases(mime);
    if i < 2 {
      assert mime[..|TEXT_PREFIX|] == TEXT_PREFIX;
    } else if 3 <= i < 6 {
      assert mime[..|AUDIO_PREFIX|] == AUDIO_PREFIX;
    } else if i == 6 {
      assert mime[..|VIDEO_PREFIX|] == VIDEO_PREFIX;
    }
  }

  /** One problem the drop library found with a file. */
  datatype FileError = FileError(code: string, message: string)

  /** A rejected file with its problems. */
  datatype FileRejection = FileRejection(file: FileInfo, errors: seq<FileError>)

  const TOO_LARGE_MESSAGE := "File is too large. Maximum size is 100MB."
  const INVALID_TYPE_MESSAGE := "Invalid file type. Supported: .txt, .md, .pdf, .mp3, .m4a, .wav, .mp4"

  /** The message for a rejected drop, from the first problem of its first
      rejected file: `errors[0]?.code` and `errors[0]?.message || 'File rejected'`. */
  function RejectionMessage(r: FileRejection): (m: string)
    ensures |r.errors| > 0 && r.errors[0].code == "file-too-large" ==> m == TOO_LARGE_MESSAGE
    ensures |r.errors| > 0 && r.errors[0].code == "file-invalid-type" ==> m == INVALID_TYPE_MESSAGE
    ensures (|r.errors| > 0 && r.errors[0].code != "file-too-large" && r.errors[0].code != "file-invalid-type"
      && r.errors[0].message != "") ==> m == r.errors[0].message
    ensures (|r.errors| == 0 || (r.errors[0].code != "file-too-large" && r.errors[0].code != "file-invalid-type"
      && r.errors[0].message == "")) ==> m == "File rejected"
  {
    if |r.errors| > 0 && r.errors[0].code == "file-too-large" then TOO_LARGE_MESSAGE
    else if |r.errors| > 0 && r.errors[0].code == "file-invalid-type" then INVALID_TYPE_MESSAGE
    else if |r.errors| > 0 && r.errors[0].message != "" then r.errors[0].message
    else "File rejected"
  }

  /** The message never is empty: a rejected drop always shows an error. */
  lemma RejectionMessageNonEmpty(r: FileRejection)
    ensures RejectionMessage(r) != ""
  {
    if |r.errors| > 0 && r.errors[0].code == "file-too-large" {
      assert |TOO_LARGE_MESSAGE| > 0;
    } else if |r.errors| > 0 && r.errors[0].code == "file-invalid-type" {
      assert |INVALID_TYPE_MESSAGE| > 0;
    } else if !(|r.errors| > 0 && r.errors[0].message != "") {
      assert |"File rejected"| > 0;
    }
  }

  /** The drop zone's own state (the error it shows) and the upload hook it
      queues into. */
  class Dropzone {
    var error: Option<string>
    const queue: ContentUpload

    ghost predicate Valid()
      reads this, queue
    {
      queue.Valid()
    }

    constructor(queue: ContentUpload)
      requires queue.Valid()
      ensures Valid() && this.queue == queue && error.None?
    {
      this.queue := queue;
      error := None;
    }

    /** `onDrop(acceptedFiles, rejectedFiles)`: any rejection shows the first
        one's message and queues nothing, not even the accepted files;
        otherwise the error is cleared and each accepted file is queued once,
        in drop order. */
    method OnDrop(accepted: seq<FileInfo>, rejected: seq<FileRejection>)
      requires Valid()
      modifies this, queue
      ensures Valid()
      ensures rejected != [] ==> error == Some(RejectionMessage(rejected[0])) && unchanged(queue)
      ensures rejected == [] ==>
        && error.None?
        && queue.uploads == old(queue.uploads) + NewEntries(accepted, old(queue.nextId)).0
        && queue.nextId == NewEntries(accepted, old(queue.nextId)).1
        && queue.isUploading == old(queue.isUploading) && queue.calls == old(queue.calls)
        && queue.controllers == old(queue.controllers) && queue.ticking == old(queue.ticking)
        && queue.invalidations == old(queue.invalidations)
    {
      error := None;
      if rejected != [] {
        error := Some(RejectionMessage(rejected[0]));
        return;
      }
      var i := 0;
      while i < |accepted|
        invariant 0 <= i <= |accepted|
        invariant queue.Valid()
        invariant queue.uploads == old(queue.uploads) + NewEntries(accepted[..i], old(queue.nextId)).0
        invariant queue.nextId == NewEntries(accepted[..i], old(queue.nextId)).1
        invariant queue.isUploading == old(queue.isUploading) && queue.calls == old(queue.calls)
        invariant queue.controllers == old(queue.controllers) && queue.ticking == old(queue.ticking)
        invariant queue.invalidations == old(queue.invalidations)
        invariant error.None?
      {
        NewEntriesSnoc(accepted[..i], accepted[i], old(queue.nextId));
        assert accepted[..i + 1] == accepted[..i] + [accepted[i]];
        queue.QueueFile(accepted[i]);
        i := i + 1;
      }
      assert accepted[..i] == accepted;
    }
  }
}
