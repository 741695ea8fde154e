/**
 * The image drop handler of the card editor: a size check, then a type
 * check, then the upload, and which of the two callbacks fires. The upload
 * itself is outside the model; its answer is a parameter.
 */
module ImageUploader {
  import opened Wrappers

  /** The part of a dropped `File` the handler reads. */
  datatype File = File(size: int, mimeType: string)

  /** What the storage upload answered. */
  datatype UploadResult =
    | Answered(url: Option<string>, error: bool)
    | Threw

  /** A call the handler makes to its owner. */
  datatype Callback = OnError(message: string) | OnUploadComplete(url: string)

  /** The handler either ran to its end or failed reading a file that was not there. */
  datatype DropOutcome =
    | NoFile
    | Handled(uploaded: bool, calls: seq<Callback>)

  const MAX_SIZE := 5 * 1024 * 1024
  const ALLOWED_TYPES := ["image/jpeg", "image/png", "image/webp", "image/gif"]

  const SIZE_ERROR := "L'image ne doit pas dépasser 5Mo"
  const TYPE_ERROR := "Format d'image non supporté"
  const UPLOAD_ERROR := "Erreur lors de l'upload de l'image. Veuillez vérifier vos permissions."

  /** The validation before any upload: the size first, then the type. */
  function Validate(f: File): (err: Option<string>)
    ensures f.size > MAX_SIZE ==> err == Some(SIZE_ERROR)
    ensures f.size <= MAX_SIZE && f.mimeType !in ALLOWED_TYPES ==> err == Some(TYPE_ERROR)
    ensures err.None? <==> f.size <= MAX_SIZE && f.mimeType in ALLOWED_TYPES
  {
    if f.size > MAX_SIZE then Some(SIZE_ERROR)
    else if f.mimeType !in ALLOWED_TYPES then Some(TYPE_ERROR)
    else None
  }

  /**
   * `onDrop`: reads the first dropped file, validates it, uploads it and
   * reports through the callbacks. An upload error and a thrown upload both
   * end in the upload message; an answer without a URL reports nothing.
   */
  method OnDrop(files: seq<File>, upload: UploadResult) returns (outcome: DropOutcome)
    ensures files == [] <==> outcome.NoFile?
    ensures files != [] && Validate(files[0]).Some? ==>
      outcome == Handled(false, [OnError(Validate(files[0]).value)])
    ensures files != [] && Validate(files[0]).None? ==> outcome.Handled? && outcome.uploaded
    ensures outcome.Handled? && outcome.uploaded ==>
      (upload.Threw? || upload.error ==> outcome.calls == [OnError(UPLOAD_ERROR)])
      && (upload.Answered? && !upload.error && upload.url.Some? && upload.url.value != "" ==>
          outcome.calls == [OnUploadComplete(upload.url.value)])
      && (upload.Answered? && !upload.error && (upload.url.None? || upload.url.value == "") ==>
          outcome.calls == [])
  {
    if files == [] {
      return NoFile;
    }
    var file := files[0];
    if file.size > MAX_SIZE {
      return Handled(false, [OnError(SIZE_ERROR)]);
    }
    if file.mimeType !in ALLOWED_TYPES {
      return Handled(false, [OnError(TYPE_ERROR)]);
    }
    var calls: seq<Callback> := [];
    if upload.Threw? || upload.error {
      calls := calls + [OnError(UPLOAD_ERROR)];
    } else if upload.url.Some? && upload.url.value != "" {
      calls := calls + [OnUploadComplete(upload.url.value)];
    }
    outcome := Handled(true, calls);
  }

  /** A rejection carries the size or the type message, never the upload one. */
  lemma RejectionMessages(f: File)
    ensures Validate(f).Some? ==> Validate(f).value in {SIZE_ERROR, TYPE_ERROR}
    ensures Validate(f).Some? ==> Validate(f).value != UPLOAD_ERROR
  {
  }

  /** A file of exactly 5 MiB passes the size check; one byte more does not. */
  lemma SizeBoundary(t: string)
    ensures Validate(File(5 * 1024 * 1024, t)) != Some(SIZE_ERROR)
    ensures Validate(File(5 * 1024 * 1024 + 1, t)) == Some(SIZE_ERROR)
  {
    assert SIZE_ERROR != TYPE_ERROR;
  }

  /** An oversized file reports the size error even when its type is also wrong. */
  lemma SizeCheckedBeforeType()
    ensures Validate(File(MAX_SIZE + 1, "application/pdf")) == Some(SIZE_ERROR)
    ensures Validate(File(MAX_SIZE, "application/pdf")) == Some(TYPE_ERROR)
    ensures Validate(File(MAX_SIZE, "image/png")) == None
  {
  }
}
