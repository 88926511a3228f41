/**
 * The admin image picker: the file validator, the drag/drop/click guards,
 * and the preview and callback updates around an upload. Reading the file
 * and the upload itself are asynchronous; here they are the events
 * `ReaderLoaded`, `UploadSucceeded` and `UploadFailed`.
 */
module ImageUpload {
  import opened Wrappers

  /** What the browser reports about a chosen file. */
  datatype FileInfo = FileInfo(mimeType: string, size: nat)

  datatype FileCheck = Accepted | WrongType | TooLarge

  /** 10 MiB. */
  const MaxImageBytes: nat := 10 * 1024 * 1024

  predicate StartsWith(s: string, prefix: string) {
    |prefix| <= |s| && s[..|prefix|] == prefix
  }

  /** The type check comes first, then the size check; the bound itself is allowed. */
  function CheckFile(f: FileInfo): (r: FileCheck)
    ensures r == Accepted <==> StartsWith(f.mimeType, "image/") && f.size <= MaxImageBytes
    ensures r == WrongType <==> !StartsWith(f.mimeType, "image/")
    ensures r == TooLarge <==> StartsWith(f.mimeType, "image/") && f.size > MaxImageBytes
  {
    if !StartsWith(f.mimeType, "image/") then WrongType
    else if f.size > MaxImageBytes then TooLarge
    else Accepted
  }

  /** The error toast each rejection shows. */
  function RejectionMessage(c: FileCheck): string
    requires c != Accepted
  {
    if c == WrongType then "Please select a valid image file" else "Image size must be less than 10MB"
  }

  /** Exactly 10 MiB passes; one byte more does not. */
  lemma SizeBoundary(mimeType: string)
    requires StartsWith(mimeType, "image/")
    ensures CheckFile(FileInfo(mimeType, 10485760)) == Accepted
    ensures CheckFile(FileInfo(mimeType, 10485761)) == TooLarge
  {
  }

  /** An oversized file that is not an image gets the type error. */
  lemma TypeCheckedFirst(f: FileInfo)
    requires !StartsWith(f.mimeType, "image/") && f.size > MaxImageBytes
    ensures RejectionMessage(CheckFile(f)) == "Please select a valid image file"
  {
  }

  /** A call the component makes to its parent. */
  datatype Callback = OnChange(url: string) | OnPublicIdChange(publicId: string)

  class ImageUploader {
    const disabled: bool
    /** Whether the parent passed `onPublicIdChange`. */
    const hasPublicIdCallback: bool
    var preview: Option<string>
    var isDragging: bool
    /** `uploadMutation.isPending`. */
    var pending: bool
    /** A file accepted by the validator whose contents are being read. */
    var reading: Option<FileInfo>
    /** Every call made to the parent's callbacks, oldest first. */
    var calls: seq<Callback>

    /** `useState(value || null)`. */
    constructor (value: Option<string>, disabled: bool, hasPublicIdCallback: bool)
      ensures this.disabled == disabled && this.hasPublicIdCallback == hasPublicIdCallback
      ensures preview == (if value == Some("") then None else value)
      ensures !isDragging && !pending && reading.None? && calls == []
    {
      this.disabled := disabled;
      this.hasPublicIdCallback := hasPublicIdCallback;
      preview := if value.Some? && value.value != "" then value else None;
      isDragging, pending, reading, calls := false, false, None, [];
    }

    /** `handleFileSelect`: a rejected file changes nothing; an accepted one starts the read. */
    method HandleFileSelect(file: FileInfo) returns (check: FileCheck)
      modifies this`reading
      ensures check == CheckFile(file)
      ensures reading == if check == Accepted then Some(file) else old(reading)
    {
      if !StartsWith(file.mimeType, "image/") {
        return WrongType;
      }
      if file.size > MaxImageBytes {
        return TooLarge;
      }
      reading := Some(file);
      check := Accepted;
    }

    /** The reader's `onload`: the data URL becomes the preview and is uploaded. */
    method ReaderLoaded(dataUrl: string)
      requires reading.Some?
      modifies this`preview, this`pending, this`reading
      ensures preview == Some(dataUrl) && pending && reading.None?
    {
      preview := Some(dataUrl);
      pending := true;
      reading := None;
    }

    /** `onSuccess`: report the URL (and the public id, if asked), then show it. */
    method UploadSucceeded(secureUrl: string, publicId: string)
      modifies this`calls, this`preview, this`pending
      ensures calls == old(calls) + [OnChange(secureUrl)]
                       + (if hasPublicIdCallback then [OnPublicIdChange(publicId)] else [])
      ensures preview == Some(secureUrl) && !pending
    {
      calls := calls + [OnChange(secureUrl)];
      if hasPublicIdCallback {
        calls := calls + [OnPublicIdChange(publicId)];
      }
      preview := Some(secureUrl);
      pending := false;
    }

    /** `onError`: only a toast; the preview of the read file stays. */
    method UploadFailed()
      modifies this`pending
      ensures !pending
    {
      pending := false;
    }

    /** `handleDrop`: ignored while disabled or uploading; only the first file counts. */
    method HandleDrop(files: seq<FileInfo>) returns (check: Option<FileCheck>)
      modifies this`isDragging, this`reading
      ensures !isDragging
      ensures disabled || pending || files == [] ==> check.None? && reading == old(reading)
      ensures !(disabled || pending) && files != [] ==> check == Some(CheckFile(files[0]))
      ensures !(disabled || pending) && files != [] && CheckFile(files[0]) == Accepted ==> reading == Some(files[0])
      ensures !(disabled || pending) && files != [] && CheckFile(files[0]) != Accepted ==> reading == old(reading)
    {
      isDragging := false;
      if disabled || pending {
        return None;
      }
      if |files| > 0 {
        var c := HandleFileSelect(files[0]);
        check := Some(c);
      } else {
        check := None;
      }
    }

    method HandleDragOver()
      modifies this`isDragging
      ensures isDragging == if !disabled && !pending then true else old(isDragging)
    {
      if !disabled && !pending {
        isDragging := true;
      }
    }

    method HandleDragLeave()
      modifies this`isDragging
      ensures !isDragging
    {
      isDragging := false;
    }

    /** `handleClick`: whether the file picker opens. */
    method HandleClick() returns (opensPicker: bool)
      ensures opensPicker <==> !disabled && !pending
    {
      if disabled || pending {
        return false;
      }
      opensPicker := true;
    }

    /** `handleFileInputChange`: the picker's first file, if any, is validated. */
    method HandleFileInputChange(file: Option<FileInfo>) returns (check: Option<FileCheck>)
      modifies this`reading
      ensures file.None? ==> check.None? && reading == old(reading)
      ensures file.Some? ==> check == Some(CheckFile(file.value))
      ensures file.Some? && CheckFile(file.value) == Accepted ==> reading == file
      ensures file.Some? && CheckFile(file.value) != Accepted ==> reading == old(reading)
    {
      if file.Some? {
        var c := HandleFileSelect(file.value);
        check := Some(c);
      } else {
        check := None;
      }
    }

    /** `clearImage`: no preview, and `''` reported to both callbacks (the second if present). */
    method ClearImage()
      modifies this`preview, this`calls
      ensures preview.None?
      ensures calls == old(calls) + [OnChange("")] + (if hasPublicIdCallback then [OnPublicIdChange("")] else [])
    {
      preview := None;
      calls := calls + [OnChange("")];
      if hasPublicIdCallback {
        calls := calls + [OnPublicIdChange("")];
      }
    }
  }
}
