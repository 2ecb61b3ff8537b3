/**
 * The candidate's resume upload page: the check a chosen or dropped file
 * passes before the page keeps it for upload.
 */
module UploadResumePage {
  import opened Wrappers
  import ResumesRouter

  /** The browser `File` as far as the check looks at it. */
  datatype FileInfo = FileInfo(name: string, mimeType: string, size: nat)

  const AcceptedTypes: seq<string> := [
    "application/pdf",
    "application/vnd.openxmlformats-officedocument.wordprocessingml.document",
    "application/msword",
    "text/rtf"]
  const MaxSizeMb: nat := 5

  const InvalidTypeError: string := "Invalid file type. Please upload a PDF, DOCX, or RTF file."
  const TooLargeError: string := "File is too large. Max size is 5MB."

  /** The error a file draws, or `None` when it is kept (lines 34-41). */
  function FileError(f: FileInfo): Option<string> {
    if f.mimeType !in AcceptedTypes then Some(InvalidTypeError)
    else if f.size > MaxSizeMb * 1024 * 1024 then Some(TooLargeError)
    else None
  }

  /** The page state the check touches. */
  class UploadPage {
    var file: Option<FileInfo>
    var error: Option<string>

    constructor ()
      ensures file == None && error == None
    {
      file := None;
      error := None;
    }

    /** `validateAndSetFile(selected)` (lines 31-43). */
    method ValidateAndSetFile(selected: Option<FileInfo>)
      modifies this
      ensures selected.None? ==> error == None && file == old(file)
      ensures selected.Some? ==> error == FileError(selected.value)
      ensures selected.Some? ==> file == if FileError(selected.value).None? then selected else old(file)
    {
      error := None;
      if selected.None? {
        return;
      }
      var f := selected.value;
      if f.mimeType !in AcceptedTypes {
        error := Some(InvalidTypeError);
        return;
      }
      if f.size > MaxSizeMb * 1024 * 1024 {
        error := Some(TooLargeError);
        return;
      }
      file := selected;
    }
  }

  // ---------------------------------------------------------------------------
  // Properties
  // ---------------------------------------------------------------------------

  /** The type is checked before the size; exactly 5 MiB is still accepted. */
  lemma TypeBeforeSize(f: FileInfo)
    ensures f.mimeType !in AcceptedTypes ==> FileError(f) == Some(InvalidTypeError)
    ensures f.mimeType in AcceptedTypes ==> (FileError(f) == Some(TooLargeError) <==> f.size > 5242880)
    ensures FileError(f).None? <==> f.mimeType in AcceptedTypes && f.size <= 5242880
  {
  }

  /** The page keeps exactly the files the upload route would accept by type and size. */
  lemma PageAgreesWithServer(f: FileInfo)
    ensures FileError(f).None? <==>
      f.mimeType in ResumesRouter.AcceptedResumeTypes && f.size <= ResumesRouter.MaxResumeBytes
  {
  }
}
