/** The file upload control: when a file is chosen and the upload token has
    arrived, it marks itself busy, slugifies the file name, PUTs the file to the
    token's storage URL, reports the token-free file URL on success or raises an
    alert on any failure, and always clears the busy flag at the end. The
    handler runs in two halves around the awaited PUT; the name slugifier is a
    parameter, `None` standing for a slugifier that throws, and the PUT's
    outcome an input. */
module FileUploader {
  import opened Values

  /** The upload token response: the container URL and its access token. */
  datatype SasToken = SasToken(url: string, sasToken: string)

  datatype FileInfo = FileInfo(name: string, fileType: string)

  /** What the handler does, in order: flag changes, the PUT request, the
      success callback, the alert. */
  datatype Event =
    | SetUploading(on: bool)
    | Put(target: string, blobType: string, contentType: string)
    | UploadSuccess(fileUrl: string)
    | Alert(message: string, severity: string)

  const BlobType := "BlockBlob"
  const ErrorMessage := "Error uploading file to Azure Storage"
  const ErrorSeverity := "error"

  /** The PUT target: `${url}/${slug}?${sasToken}`. */
  function PutTarget(sas: SasToken, slug: string): string {
    sas.url + "/" + slug + "?" + sas.sasToken
  }

  /** The reported file URL: `${url}/${slug}`. */
  function FileUrl(sas: SasToken, slug: string): string {
    sas.url + "/" + slug
  }

  /** The reported URL is the PUT target with `?` and the token removed from its end. */
  lemma FileUrlIsPutTargetWithoutToken(sas: SasToken, slug: string)
    ensures PutTarget(sas, slug) == FileUrl(sas, slug) + "?" + sas.sasToken
    ensures |FileUrl(sas, slug)| < |PutTarget(sas, slug)|
    ensures PutTarget(sas, slug)[..|FileUrl(sas, slug)|] == FileUrl(sas, slug)
  {
    assert PutTarget(sas, slug) == FileUrl(sas, slug) + ("?" + sas.sasToken);
  }

  /** The upload waiting on its PUT, with the URL to report if it succeeds. */
  datatype Pending = Pending(fileUrl: string)

  /** What the whole handler does for one change event. */
  function UploadEffects(sas: Option<SasToken>, file: Option<FileInfo>, slugify: string -> Option<string>, putSucceeds: bool): seq<Event> {
    if sas.None? || file.None? then []
    else
      var slugified := slugify(file.value.name);
      if !TruthyString(slugified) then
        [SetUploading(true), Alert(ErrorMessage, ErrorSeverity), SetUploading(false)]
      else
        var slug := slugified.value;
        var put := Put(PutTarget(sas.value, slug), BlobType, file.value.fileType);
        if putSucceeds then
          [SetUploading(true), put, UploadSuccess(FileUrl(sas.value, slug)), SetUploading(false)]
        else
          [SetUploading(true), put, Alert(ErrorMessage, ErrorSeverity), SetUploading(false)]
  }

  /** Without an upload token or without a chosen file the handler does nothing;
      in particular it leaves the busy flag alone. */
  lemma NothingWithoutTokenOrFile(sas: Option<SasToken>, file: Option<FileInfo>, slugify: string -> Option<string>, putSucceeds: bool)
    requires sas.None? || file.None?
    ensures UploadEffects(sas, file, slugify, putSucceeds) == []
  {
  }

  /** Whenever the handler starts, it sets the flag first, clears it last and
      touches it nowhere else, and the event just before the clearing is its one
      outcome: the success report or the alert. */
  lemma UploadIsBracketed(sas: Option<SasToken>, file: Option<FileInfo>, slugify: string -> Option<string>, putSucceeds: bool)
    requires sas.Some? && file.Some?
    ensures var e := UploadEffects(sas, file, slugify, putSucceeds);
      |e| >= 3 && e[0] == SetUploading(true) && e[|e| - 1] == SetUploading(false) &&
      (forall i :: 0 < i < |e| - 1 ==> !e[i].SetUploading?) &&
      (e[|e| - 2].UploadSuccess? || e[|e| - 2].Alert?) &&
      (forall i :: 0 <= i < |e| - 2 ==> !e[i].UploadSuccess? && !e[i].Alert?)
  {
  }

  /** An empty slug, or a slugifier that throws, alerts without PUT and without success. */
  lemma EmptySlugAlerts(sas: SasToken, file: FileInfo, slugify: string -> Option<string>, putSucceeds: bool)
    requires !TruthyString(slugify(file.name))
    ensures UploadEffects(Some(sas), Some(file), slugify, putSucceeds) ==
      [SetUploading(true), Alert(ErrorMessage, ErrorSeverity), SetUploading(false)]
  {
  }

  /** With a non-empty slug the file is PUT once, to the token URL, as a block
      blob of the file's type; success reports the token-free URL, failure alerts. */
  lemma PutOutcomes(sas: SasToken, file: FileInfo, slugify: string -> Option<string>, putSucceeds: bool)
    requires TruthyString(slugify(file.name))
    ensures var e := UploadEffects(Some(sas), Some(file), slugify, putSucceeds);
      e[1] == Put(PutTarget(sas, slugify(file.name).value), BlobType, file.fileType) &&
      (putSucceeds ==> e[2] == UploadSuccess(FileUrl(sas, slugify(file.name).value))) &&
      (!putSucceeds ==> e[2] == Alert(ErrorMessage, ErrorSeverity) && forall i :: 0 <= i < |e| ==> !e[i].UploadSuccess?)
  {
  }

  /** The uploader's busy flag. */
  class Uploader {
    var uploading: bool
    const disabled: bool

    constructor (disabled: bool)
      ensures !uploading && this.disabled == disabled
    {
      uploading := false;
      this.disabled := disabled;
    }

    /** The input is disabled while uploading or when the caller disables it. */
    predicate InputDisabled()
      reads this
    {
      uploading || disabled
    }

    /** "Uploading..." shows while uploading. */
    predicate ShowsUploading()
      reads this
    {
      uploading
    }

    /** The handler up to the awaited PUT: the guard, the flag, the slug, the
        request. A slugifier that throws, or an empty slug (thrown), is caught
        here, so the handler ends. While a PUT is pending the input is disabled
        and "Uploading..." shows. */
    method Start(sas: Option<SasToken>, file: Option<FileInfo>, slugify: string -> Option<string>)
      returns (events: seq<Event>, pending: Option<Pending>)
      modifies this`uploading
      ensures sas.None? || file.None? ==> events == [] && pending == None && uploading == old(uploading)
      ensures sas.Some? && file.Some? && !TruthyString(slugify(file.value.name)) ==>
        events == [SetUploading(true), Alert(ErrorMessage, ErrorSeverity), SetUploading(false)]
        && pending == None && !uploading
      ensures sas.Some? && file.Some? && TruthyString(slugify(file.value.name)) ==>
        events == [SetUploading(true), Put(PutTarget(sas.value, slugify(file.value.name).value), BlobType, file.value.fileType)]
        && pending == Some(Pending(FileUrl(sas.value, slugify(file.value.name).value))) && uploading
      ensures pending.Some? ==> InputDisabled() && ShowsUploading()
    {
      events := [];
      pending := None;
      if sas.None? {
        return;
      }
      if file.None? {
        return;
      }
      uploading := true;
      events := events + [SetUploading(true)];
      var uploadUrl := sas.value.url;
      var slugified := slugify(file.value.name);
      if slugified.None? || slugified.value == "" {
        events := events + [Alert(ErrorMessage, ErrorSeverity)];
        uploading := false;
        events := events + [SetUploading(false)];
        return;
      }
      var slugifiedName := slugified.value;
      events := events + [Put(uploadUrl + "/" + slugifiedName + "?" + sas.value.sasToken, BlobType, file.value.fileType)];
      pending := Some(Pending(uploadUrl + "/" + slugifiedName));
    }

    /** The handler after the PUT settles: report or alert, then clear the flag. */
    method Finish(pending: Pending, putSucceeds: bool) returns (events: seq<Event>)
      modifies this`uploading
      ensures putSucceeds ==> events == [UploadSuccess(pending.fileUrl), SetUploading(false)]
      ensures !putSucceeds ==> events == [Alert(ErrorMessage, ErrorSeverity), SetUploading(false)]
      ensures !uploading
    {
      if putSucceeds {
        events := [UploadSuccess(pending.fileUrl)];
      } else {
        events := [Alert(ErrorMessage, ErrorSeverity)];
      }
      uploading := false;
      events := events + [SetUploading(false)];
    }

    /** One change event from start to end: afterwards the flag is clear on every
        path that started. */
    method HandleFileChange(sas: Option<SasToken>, file: Option<FileInfo>, slugify: string -> Option<string>, putSucceeds: bool)
      returns (events: seq<Event>)
      modifies this`uploading
      ensures events == UploadEffects(sas, file, slugify, putSucceeds)
      ensures events == [] ==> uploading == old(uploading)
      ensures events != [] ==> !uploading
    {
      var pending;
      events, pending := Start(sas, file, slugify);
      if pending.Some? {
        var rest := Finish(pending.value, putSucceeds);
        events := events + rest;
      }
    }
  }

  /** A successful upload of `test.png` with a slugifier that prefixes the name:
      the PUT goes to the token URL and the token-free URL is reported. */
  lemma UploadExample(slugify: string -> Option<string>)
    requires slugify("test.png") == Some("slugified-test.png")
    ensures UploadEffects(Some(SasToken("https://example.blob.core.windows.net", "sas-token")),
                          Some(FileInfo("test.png", "image/png")), slugify, true) ==
      [SetUploading(true),
       Put("https://example.blob.core.windows.net/slugified-test.png?sas-token", "BlockBlob", "image/png"),
       UploadSuccess("https://example.blob.core.windows.net/slugified-test.png"),
       SetUploading(false)]
  {
    var sas := SasToken("https://example.blob.core.windows.net", "sas-token");
    assert FileUrl(sas, "slugified-test.png") == "https://example.blob.core.windows.net/slugified-test.png";
    assert PutTarget(sas, "slugified-test.png") == "https://example.blob.core.windows.net/slugified-test.png?sas-token" by {
      FileUrlIsPutTargetWithoutToken(sas, "slugified-test.png");
    }
  }

  /** A control created disabled keeps its input disabled. */
  method DisabledControl() returns (inputDisabled: bool)
    ensures inputDisabled
  {
    var u := new Uploader(true);
    inputDisabled := u.InputDisabled();
  }
}
