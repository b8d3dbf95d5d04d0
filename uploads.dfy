/**
 * The field's private `_getUploadedFiles`: the files that arrived with the
 * request, gathered from the two channels the field's input accepts
 * (inline `data:` URIs with optional suggested names, and multipart
 * uploads) into one ordered list.
 */
module Uploads {
  import opened Php
  import DataUri

  /** One multipart upload as the host's `UploadedFile` describes it. */
  datatype MultipartFile = MultipartFile(name: string, tempName: string)

  /**
   * What the request carries for the field: the `data` list of the posted
   * value (empty when absent or not a list), its `filenames` entries by
   * index, and the request parameter name of the field's file input
   * (`requestParamName`, None for null).
   */
  datatype Submission = Submission(data: seq<string>, filenames: map<nat, string>, paramName: Option<string>)

  /**
   * The host functions the extraction calls: `base64_decode` (None for
   * `false`), the MIME-type-to-extensions lookup, and
   * `UploadedFile::getInstancesByName`.
   */
  datatype Host = Host(
    base64Decode: string -> Option<string>,
    extensionsByMimeType: string -> seq<string>,
    instancesByName: string -> seq<MultipartFile>)

  /** One record of the result: `type` 'data' with the decoded bytes, or `type` 'upload' with the temporary location. */
  datatype UploadedFile =
    | DataFile(filename: string, data: string)
    | FormFile(filename: string, location: string)

  /** The name given to an inline upload without a usable suggested name. */
  function SynthesizedName(extension: string): string {
    "Uploaded_file." + extension
  }

  /** `!empty($value['filenames'][$index])`: a suggested name exists and is neither "" nor "0". */
  predicate HasSuggestedName(submission: Submission, index: nat): (r: bool)
    ensures r <==> index in submission.filenames && submission.filenames[index] !in {"", "0"}
  {
    index in submission.filenames && !EmptyString(submission.filenames[index])
  }

  /** The record one `data` entry yields, or None when the loop `continue`s past it or the pattern fails. */
  function DataFileAt(host: Host, submission: Submission, index: nat, dataString: string): (r: Option<UploadedFile>)
    ensures DataUri.Parse(dataString).None? ==> r.None?
    ensures r.Some? ==> r.value.DataFile? && r.value.data !in {"", "0"}
    ensures r.Some? && !HasSuggestedName(submission, index) ==>
      14 <= |r.value.filename| && r.value.filename[..14] == "Uploaded_file."
  {
    match DataUri.Parse(dataString)
    case None => None
    case Some(m) =>
      var data := host.base64Decode(m.payload);
      if Falsy(data) then None
      else if HasSuggestedName(submission, index) then Some(DataFile(submission.filenames[index], data.value))
      else
        var extensions := host.extensionsByMimeType(m.mimeType);
        if extensions == [] then None
        else Some(DataFile(SynthesizedName(extensions[0]), data.value))
  }

  /** The records of the `data` entries, in entry order; an entry's index is its position. */
  function DataFiles(host: Host, submission: Submission, data: seq<string>): (r: seq<UploadedFile>)
    ensures |r| <= |data|
    ensures forall i :: 0 <= i < |r| ==> r[i].DataFile?
  {
    if data == [] then []
    else
      var n := |data| - 1;
      DataFiles(host, submission, data[..n]) +
        match DataFileAt(host, submission, n, data[n]) case Some(f) => [f] case None => []
  }

  /** The records of the multipart uploads, in the order the host lists them. */
  function FormFiles(files: seq<MultipartFile>): (r: seq<UploadedFile>)
    ensures |r| == |files|
    ensures forall j :: 0 <= j < |r| ==> r[j].FormFile? && r[j].filename == files[j].name
  {
    if files == [] then []
    else
      var n := |files| - 1;
      FormFiles(files[..n]) + [FormFile(files[n].name, files[n].tempName)]
  }

  /** The uploads found under the field's request parameter (none when it has no parameter name). */
  function Multipart(host: Host, submission: Submission): seq<MultipartFile> {
    match submission.paramName
    case None => []
    case Some(name) => host.instancesByName(name)
  }

  /** All uploaded files: the inline ones first, then the multipart ones. */
  function UploadedFiles(submission: Submission, host: Host): seq<UploadedFile> {
    DataFiles(host, submission, submission.data) + FormFiles(Multipart(host, submission))
  }

  /** `_getUploadedFiles`: the inline records, then one record per multipart upload. */
  method GetUploadedFiles(submission: Submission, host: Host) returns (uploadedFiles: seq<UploadedFile>)
    ensures uploadedFiles == UploadedFiles(submission, host)
  {
    uploadedFiles := InlineFiles(submission, host);
    ghost var inline := uploadedFiles;
    if submission.paramName.Some? {
      var files := host.instancesByName(submission.paramName.value);
      for i := 0 to |files|
        invariant uploadedFiles == inline + FormFiles(files[..i])
      {
        assert files[..i + 1][..i] == files[..i];
        var record := FormFile(files[i].name, files[i].tempName);
        assert inline + FormFiles(files[..i]) + [record] == inline + (FormFiles(files[..i]) + [record]);
        uploadedFiles := uploadedFiles + [record];
      }
      assert files[..|files|] == files;
    } else {
      assert inline + FormFiles([]) == inline;
    }
  }

  /** The first loop of `_getUploadedFiles`: one record for each `data` entry that yields one. */
  method InlineFiles(submission: Submission, host: Host) returns (uploadedFiles: seq<UploadedFile>)
    ensures uploadedFiles == DataFiles(host, submission, submission.data)
  {
    uploadedFiles := [];
    for index := 0 to |submission.data|
      invariant uploadedFiles == DataFiles(host, submission, submission.data[..index])
    {
      DataFilesStep(host, submission, submission.data, index);
      var dataString := submission.data[index];
      ghost var expected := DataFileAt(host, submission, index, dataString);
      var matches := DataUri.Parse(dataString);
      if matches.Some? {
        var data := host.base64Decode(matches.value.payload);
        if Falsy(data) {
          assert expected.None?;
          continue;
        }
        var filename;
        if HasSuggestedName(submission, index) {
          filename := submission.filenames[index];
        } else {
          var extensions := host.extensionsByMimeType(matches.value.mimeType);
          if extensions == [] {
            assert expected.None?;
            continue;
          }
          filename := SynthesizedName(extensions[0]);
        }
        assert expected == Some(DataFile(filename, data.value));
        uploadedFiles := uploadedFiles + [DataFile(filename, data.value)];
      } else {
        assert expected.None?;
      }
    }
    assert submission.data[..|submission.data|] == submission.data;
  }

  /**
   * An inline entry yields a record exactly when it matches the pattern, its
   * payload decodes to something truthy, and it has a suggested name or its
   * MIME type has an extension; the record holds the decoded data and the
   * suggested name, or else the name made from the first extension.
   */
  lemma DataFileAtIff(host: Host, submission: Submission, index: nat, dataString: string)
    ensures DataFileAt(host, submission, index, dataString).Some? <==>
      && DataUri.Parse(dataString).Some?
      && !Falsy(host.base64Decode(DataUri.Parse(dataString).value.payload))
      && (HasSuggestedName(submission, index)
          || host.extensionsByMimeType(DataUri.Parse(dataString).value.mimeType) != [])
    ensures DataFileAt(host, submission, index, dataString).Some? ==>
      var m := DataUri.Parse(dataString).value;
      var f := DataFileAt(host, submission, index, dataString).value;
      && f.DataFile?
      && Some(f.data) == host.base64Decode(m.payload)
      && f.filename == if HasSuggestedName(submission, index) then submission.filenames[index]
                       else SynthesizedName(host.extensionsByMimeType(m.mimeType)[0])
  {
  }

  /** Every inline record comes from one `data` entry: the record that entry yields at its own index. */
  lemma {:induction false} DataFilesProvenance(host: Host, submission: Submission, data: seq<string>, f: UploadedFile)
    requires f in DataFiles(host, submission, data)
    ensures exists i :: 0 <= i < |data| && DataFileAt(host, submission, i, data[i]) == Some(f)
    decreases |data|
  {
    var n := |data| - 1;
    var prefix := DataFiles(host, submission, data[..n]);
    if f in prefix {
      DataFilesProvenance(host, submission, data[..n], f);
      var i :| 0 <= i < n && DataFileAt(host, submission, i, data[..n][i]) == Some(f);
      assert data[..n][i] == data[i];
    } else {
      assert DataFileAt(host, submission, n, data[n]) == Some(f);
    }
  }

  /** Every record an entry yields at its own index is among the inline records. */
  lemma {:induction false} DataFilesComplete(host: Host, submission: Submission, data: seq<string>, i: nat)
    requires i < |data| && DataFileAt(host, submission, i, data[i]).Some?
    ensures DataFileAt(host, submission, i, data[i]).value in DataFiles(host, submission, data)
    decreases |data|
  {
    var n := |data| - 1;
    var prefix := data[..n];
    var record := DataFileAt(host, submission, i, data[i]).value;
    assert data[..n + 1] == data;
    DataFilesStep(host, submission, data, n);
    if i < n {
      assert prefix[i] == data[i];
      DataFilesComplete(host, submission, prefix, i);
      assert record in DataFiles(host, submission, prefix);
    } else {
      assert DataFileAt(host, submission, n, data[n]) == Some(record);
    }
  }

  /** The records of one more entry are those of the entries before it plus the record it yields. */
  lemma DataFilesStep(host: Host, submission: Submission, data: seq<string>, index: nat)
    requires index < |data|
    ensures DataFiles(host, submission, data[..index + 1]) ==
      DataFiles(host, submission, data[..index]) +
        match DataFileAt(host, submission, index, data[index]) case Some(f) => [f] case None => []
  {
    assert data[..index + 1][..index] == data[..index];
  }

  /**
   * The result is the inline records (at most one per entry) followed by one
   * record per multipart upload, each keeping the upload's original name.
   */
  lemma UploadedFilesLayout(submission: Submission, host: Host)
    ensures var r := UploadedFiles(submission, host);
      var k := |DataFiles(host, submission, submission.data)|;
      var files := Multipart(host, submission);
      && k <= |submission.data|
      && |r| == k + |files|
      && (forall i :: 0 <= i < k ==> r[i].DataFile?)
      && (forall j :: 0 <= j < |files| ==> r[k + j].FormFile? && r[k + j].filename == files[j].name)
  {
    var inline := DataFiles(host, submission, submission.data);
    var files := Multipart(host, submission);
    var form := FormFiles(files);
    var r := inline + form;
    assert UploadedFiles(submission, host) == r;
    forall i | 0 <= i < |inline|
      ensures r[i].DataFile?
    {
      assert r[i] == inline[i];
    }
    forall j | 0 <= j < |files|
      ensures r[|inline| + j].FormFile? && r[|inline| + j].filename == files[j].name
    {
      assert r[|inline| + j] == form[j];
    }
  }

  /** `data:image/png;base64,<payload>` is of the shape the pattern accepts. */
  lemma PngPieces(payload: string)
    requires payload != [] && '\n' !in payload
    ensures DataUri.WellFormedPieces("data:", "image", "png", ";base64,", payload, "")
  {
    assert DataUri.StartsWithAt("data:", 0, "data:");
    assert DataUri.StartsWithAt(";base64,", 0, ";base64,");
  }

  /** `data:image/png;base64,<payload>` matches with MIME type `image/png` and the whole payload. */
  lemma ParsePng(payload: string)
    requires payload != [] && '\n' !in payload
    ensures DataUri.Parse("data:image/png;base64," + payload) == Some(DataUri.Match("image/png", payload))
  {
    PngPieces(payload);
    DataUri.ParseFormatted("data:", "image", "png", ";base64,", payload, "");
    PngSubject(payload);
  }

  /** The subject assembled from its pieces is the literal PNG prefix followed by the payload. */
  lemma PngSubject(payload: string)
    ensures "data:" + "image" + "/" + "png" + ";base64," + payload + "" == "data:image/png;base64," + payload
    ensures "image" + "/" + "png" == "image/png"
  {
    assert "data:" + "image" + "/" + "png" + ";base64," == "data:image/png;base64,";
  }

  /**
   * An unnamed inline PNG upload, `data:image/png;base64,<payload>`, whose
   * payload decodes to something truthy is named after the first extension
   * the host gives for `image/png`, and is dropped when the host gives none.
   */
  lemma UnnamedInlineUpload(host: Host, submission: Submission, index: nat, payload: string)
    requires payload != [] && '\n' !in payload
    requires !HasSuggestedName(submission, index)
    requires !Falsy(host.base64Decode(payload))
    ensures var extensions := host.extensionsByMimeType("image/png");
      DataFileAt(host, submission, index, "data:image/png;base64," + payload) ==
        if extensions == [] then None
        else Some(DataFile(SynthesizedName(extensions[0]), host.base64Decode(payload).value))
  {
    ParsePng(payload);
  }
}
