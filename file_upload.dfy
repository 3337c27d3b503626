/** `validateFileUpload` (src/components/FileUploadSecurity.tsx): three
    checks on a file before it is uploaded, in order — its size against a
    limit in megabytes, its MIME type against a list of six, and its name
    against a set of forbidden characters. The first failing check decides
    the error; a file passing all three is accepted. */
module FileUpload {
  import opened Wrappers

  /** The default limit, in megabytes. */
  const DefaultMaxSizeMB: real := 10.0

  /** Bytes in a megabyte as the check counts them (`1024 * 1024`). */
  const BytesPerMB: real := 1048576.0

  /** The six accepted MIME types: JPEG, PNG and GIF images, PDF, and Word
      documents in both formats. */
  const AllowedTypes: seq<string> := [
    "image/jpeg", "image/png", "image/gif",
    "application/pdf",
    "application/msword",
    "application/vnd.openxmlformats-officedocument.wordprocessingml.document"
  ]

  /** The characters `/[<>:"/\\|?*]/` looks for in a file name. */
  const ForbiddenNameChars: set<char> := {'<', '>', ':', '"', '/', '\\', '|', '?', '*'}

  /** The parts of a browser `File` the check reads. */
  datatype UploadFile = UploadFile(name: string, size: nat, mimeType: string)

  /** The three errors the check throws. */
  datatype UploadError = TooLarge(maxSizeMB: real) | TypeNotAllowed | InvalidFileName

  predicate HasForbiddenChar(name: string) {
    exists i | 0 <= i < |name| :: name[i] in ForbiddenNameChars
  }

  /** `validateFileUpload(file, maxSizeMB)`. */
  function ValidateFileUpload(file: UploadFile, maxSizeMB: real): (r: Outcome<UploadError>)
    ensures r.Pass? <==>
      file.size as real <= maxSizeMB * BytesPerMB && file.mimeType in AllowedTypes && !HasForbiddenChar(file.name)
    ensures file.size as real > maxSizeMB * BytesPerMB ==> r == Fail(TooLarge(maxSizeMB))
    ensures file.size as real <= maxSizeMB * BytesPerMB && file.mimeType !in AllowedTypes ==> r == Fail(TypeNotAllowed)
    ensures r == Fail(InvalidFileName) <==>
      file.size as real <= maxSizeMB * BytesPerMB && file.mimeType in AllowedTypes && HasForbiddenChar(file.name)
  {
    if file.size as real > maxSizeMB * BytesPerMB then Fail(TooLarge(maxSizeMB))
    else if file.mimeType !in AllowedTypes then Fail(TypeNotAllowed)
    else if HasForbiddenChar(file.name) then Fail(InvalidFileName)
    else Pass
  }

  /** With the default limit a file of exactly 10 MB is accepted and one
      byte more is refused for its size, whatever its type and name. */
  lemma DefaultLimitIsInclusive(name: string, mimeType: string)
    requires mimeType in AllowedTypes && !HasForbiddenChar(name)
    ensures ValidateFileUpload(UploadFile(name, 10485760, mimeType), DefaultMaxSizeMB) == Pass
    ensures ValidateFileUpload(UploadFile(name, 10485761, mimeType), DefaultMaxSizeMB) == Fail(TooLarge(10.0))
  {
  }

  /** There are exactly six accepted types, no two alike, and an executable
      is not one of them. */
  lemma SixDistinctTypes()
    ensures |AllowedTypes| == 6
    ensures forall i, j :: 0 <= i < j < |AllowedTypes| ==> AllowedTypes[i] != AllowedTypes[j]
    ensures "application/x-msdownload" !in AllowedTypes
  {
  }

  /** A name with a path separator is refused even when size and type are
      fine; an ordinary name is accepted. */
  lemma PathInNameRefused()
    ensures ValidateFileUpload(UploadFile("../lease.pdf", 1024, "application/pdf"), DefaultMaxSizeMB)
      == Fail(InvalidFileName)
    ensures ValidateFileUpload(UploadFile("lease.pdf", 1024, "application/pdf"), DefaultMaxSizeMB) == Pass
  {
    assert "../lease.pdf"[2] == '/';
    assert AllowedTypes[3] == "application/pdf";
  }
}
