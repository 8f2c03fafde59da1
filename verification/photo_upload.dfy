/** The photo upload page (src/pages/PhotoUpload.jsx): choosing files,
    removing one, and submitting, which sends one request per file. The
    requests are built as the server's multipart parts, so the page can be
    run against the server's upload route. */
module PhotoUpload {
  import opened JsValues
  import opened Text
  import opened Seqs
  import opened Backend
  import opened Upload

  /** A file the browser offers: its name, its MIME `type` and its size. */
  datatype ClientFile = ClientFile(name: string, kind: string, size: nat)

  /** A preview entry; the object URL is the browser's and is left out. */
  datatype Preview = Preview(file: ClientFile, name: string)

  datatype FormFields = FormFields(title: string, description: string, location: string,
                                   category: string, tags: string)

  /** `uploadStatus`: `type` ("", "warning", "error" or "success") and text. */
  datatype Status = Status(kind: string, message: string)

  datatype Page = Page(form: FormFields, selected: seq<ClientFile>, previews: seq<Preview>,
                       uploading: bool, status: Status)

  const ClientMaxBytes: nat := 5 * 1024 * 1024
  const SkippedMessage := "Some files were skipped. Only images under 5MB are allowed."
  const EmptySelectionMessage := "Please select at least one image to upload."
  const FallbackFailureMessage := "Upload failed. Please try again."
  /** The page's file field; the server reads `photos`. */
  const PageField := "photo"

  const EmptyForm := FormFields("", "", "", "destinations", "")
  const NoStatus := Status("", "")
  const Initial := Page(EmptyForm, [], [], false, NoStatus)

  /* ---------- choosing files ---------- */

  /** An image type and at most 5 MB. */
  predicate Acceptable(f: ClientFile)
  {
    StartsWith(f.kind, "image/") && f.size <= ClientMaxBytes
  }

  /** One preview per selected file, in the same order. */
  predicate Aligned(s: Page)
  {
    |s.previews| == |s.selected|
    && forall i :: 0 <= i < |s.selected| ==> s.previews[i].file == s.selected[i]
  }

  function PreviewsOf(files: seq<ClientFile>): (ps: seq<Preview>)
    ensures |ps| == |files|
    ensures forall i :: 0 <= i < |files| ==> ps[i] == Preview(files[i], files[i].name)
  {
    seq(|files|, i requires 0 <= i < |files| => Preview(files[i], files[i].name))
  }

  /** `handleFileSelect`: the acceptable files replace the selection; a
      warning is set when any file was dropped, otherwise the status stays. */
  function SelectFiles(s: Page, files: seq<ClientFile>): (t: Page)
    ensures Aligned(t)
    ensures t.form == s.form && t.uploading == s.uploading
  {
    var valid := Filter(files, Acceptable);
    var status := if |valid| != |files| then Status("warning", SkippedMessage) else s.status;
    s.(selected := valid, previews := PreviewsOf(valid), status := status)
  }

  /** The selection is exactly the acceptable files, in order and with their
      multiplicities, whatever was selected before. */
  lemma SelectKeepsAcceptable(s: Page, files: seq<ClientFile>, f: ClientFile)
    ensures IsSubsequence(SelectFiles(s, files).selected, files)
    ensures multiset(SelectFiles(s, files).selected)[f] == if Acceptable(f) then multiset(files)[f] else 0
  {
    FilterIsSubsequence(files, Acceptable);
    FilterMultiplicity(files, Acceptable, f);
  }

  /** The warning is set exactly when some chosen file was dropped. */
  lemma SelectWarnsIffDropped(s: Page, files: seq<ClientFile>)
    ensures (exists i :: 0 <= i < |files| && !Acceptable(files[i]))
            ==> SelectFiles(s, files).status == Status("warning", SkippedMessage)
    ensures (forall i :: 0 <= i < |files| ==> Acceptable(files[i]))
            ==> SelectFiles(s, files).status == s.status && SelectFiles(s, files).selected == files
  {
    FilterKeepsLength(files, Acceptable);
    if forall i :: 0 <= i < |files| ==> Acceptable(files[i]) {
      FilterAll(files, Acceptable);
    }
  }

  /* ---------- removing a file ---------- */

  /** `removeFile(index)`: drops entry `index` from both lists. An index
      without a preview makes the handler throw before any state is set. */
  function RemoveFile(s: Page, index: int): Page
  {
    if 0 <= index < |s.previews| then
      s.(selected := WithoutIndex(s.selected, index), previews := WithoutIndex(s.previews, index))
    else s
  }

  /** On an aligned page, removing entry `index` deletes that file and its
      preview, keeps the rest in order, and keeps the lists aligned. */
  lemma RemoveFileSpec(s: Page, index: nat)
    requires Aligned(s) && index < |s.selected|
    ensures RemoveFile(s, index).selected == s.selected[..index] + s.selected[index + 1..]
    ensures Aligned(RemoveFile(s, index))
    ensures RemoveFile(s, index).form == s.form && RemoveFile(s, index).status == s.status
  {
    WithoutIndexSpec(s.selected, index);
    WithoutIndexSpec(s.previews, index);
    var t := RemoveFile(s, index);
    forall i | 0 <= i < |t.selected|
      ensures t.previews[i].file == t.selected[i]
    {
      if i >= index {
        assert t.selected[i] == s.selected[i + 1] && t.previews[i] == s.previews[i + 1];
      }
    }
  }

  /* ---------- submitting ---------- */

  /** One request of the page: its file parts, its text fields, and `tags`,
      which the server ignores. */
  datatype Request = Request(parts: seq<Part>, fields: Fields, tags: string)

  function RequestFor(form: FormFields, f: ClientFile): Request
  {
    Request([Part(PageField, f.name, f.kind, f.size)],
            Fields(Some(form.title), Some(form.location), Some(form.description), Some(form.category)),
            form.tags)
  }

  /** What pressing submit does at once: the new page and the requests sent. */
  datatype Submission = Submission(page: Page, requests: seq<Request>)

  /** `handleSubmit` up to the requests: an empty selection sets an error
      and sends nothing; otherwise one request per selected file. */
  function Submit(s: Page): (r: Submission)
    ensures r.page.form == s.form && r.page.selected == s.selected && r.page.previews == s.previews
  {
    if |s.selected| == 0 then Submission(s.(status := Status("error", EmptySelectionMessage)), [])
    else
      Submission(s.(uploading := true, status := NoStatus),
                 seq(|s.selected|, i requires 0 <= i < |s.selected| => RequestFor(s.form, s.selected[i])))
  }

  /** No request is sent exactly when nothing is selected, and then the page
      shows the error. */
  lemma EmptySubmitSendsNothing(s: Page)
    ensures Submit(s).requests == [] <==> s.selected == []
    ensures s.selected == [] ==> Submit(s).page.status == Status("error", EmptySelectionMessage)
                                 && Submit(s).page.uploading == s.uploading
  {
  }

  /** Request `i` carries file `i` alone under the page's field, with the
      form's text fields. */
  lemma SubmitPayload(s: Page, i: nat)
    requires i < |s.selected|
    ensures |Submit(s).requests| == |s.selected|
    ensures var q := Submit(s).requests[i];
            |q.parts| == 1 && q.parts[0].fieldname == PageField
            && q.parts[0].originalName == s.selected[i].name
            && q.parts[0].mimetype == s.selected[i].kind && q.parts[0].size == s.selected[i].size
            && q.fields.title == Some(s.form.title) && q.fields.location == Some(s.form.location)
  {
    assert Submit(s).requests[i] == RequestFor(s.form, s.selected[i]);
  }

  /** How a request ended for the browser: a response, or a network error
      carrying its message. */
  datatype Response = Answered(ok: bool, statusText: string) | NetworkError(message: string)

  predicate Failed(r: Response)
  {
    r.NetworkError? || !r.ok
  }

  const FailurePrefix := "Upload failed: "

  /** `error.message || "Upload failed. Please try again."`, where a refused
      response throws `Upload failed: ${statusText}` and a network failure
      throws its own error. The page always shows some text. */
  function FailureMessage(r: Response): (m: string)
    ensures m != ""
    ensures r.Answered? ==> StartsWith(m, FailurePrefix) && m[|FailurePrefix|..] == r.statusText
    ensures r.NetworkError? && r.message != "" ==> m == r.message
    ensures r.NetworkError? && r.message == "" ==> m == FallbackFailureMessage
  {
    if r.Answered? then FailurePrefix + r.statusText
    else if r.message != "" then r.message
    else FallbackFailureMessage
  }

  function SuccessText(n: nat): string
  {
    "Successfully uploaded " + NatToString(n) + " image(s)!"
  }

  /** The rest of `handleSubmit`, given one response per request: all fine
      resets the form and clears the selection; a failure reports itself and
      keeps everything. */
  function Settle(s: Page, responses: seq<Response>): (t: Page)
    requires |responses| == |s.selected|
    ensures !t.uploading
  {
    match Find(responses, Failed)
    case None =>
      Page(EmptyForm, [], [], false, Status("success", SuccessText(|s.selected|)))
    case Some(r) =>
      s.(uploading := false, status := Status("error", FailureMessage(r)))
  }

  /** Success exactly when every request succeeded; then the form is back to
      its defaults and the selection is empty, otherwise the selection stays
      for another try. Either way the lists stay aligned. */
  lemma SettleSpec(s: Page, responses: seq<Response>)
    requires |responses| == |s.selected| && Aligned(s)
    ensures var t := Settle(s, responses);
            (t.status.kind == "success" <==> forall i :: 0 <= i < |responses| ==> !Failed(responses[i]))
            && (t.status.kind == "success" ==> t.form == EmptyForm && t.selected == [] && t.previews == [])
            && (t.status.kind != "success" ==> t.selected == s.selected && t.form == s.form)
            && Aligned(t)
  {
  }

  /* ---------- against the server ---------- */

  /** As written: the server's multer accepts files only under `photos`, so
      every request the page sends is answered 500 and the server's disk is
      left as it was, and the page then reports the failure. */
  lemma PageUploadRejected(svc: Services, s: Page, i: nat, disk: Disk, write: CatalogWrite)
    requires i < |s.selected|
    ensures var q := Submit(s).requests[i];
            PostUpload(svc, q.parts, q.fields, disk, write) == Outcome(Fail(500, InternalErrorMessage), disk)
  {
    var q := Submit(s).requests[i];
    SubmitPayload(s, i);
    assert q.parts[..0] == [];
    UploadUnexpectedFile(svc, q.parts, q.fields, disk, write, 0);
  }

  /** A failed batch reports the first failing response in request order. */
  lemma SettleReportsFirstFailure(s: Page, responses: seq<Response>, k: nat)
    requires |responses| == |s.selected| && k < |responses| && Failed(responses[k])
    requires forall i :: 0 <= i < k ==> !Failed(responses[i])
    ensures Settle(s, responses).status == Status("error", FailureMessage(responses[k]))
  {
    FirstFailureFound(responses, k);
  }

  lemma {:induction false} FirstFailureFound(responses: seq<Response>, k: nat)
    requires k < |responses| && Failed(responses[k])
    requires forall i :: 0 <= i < k ==> !Failed(responses[i])
    ensures Find(responses, Failed) == Some(responses[k])
  {
    var r := Find(responses, Failed);
    var j :| 0 <= j < |responses| && responses[j] == r.value && Failed(responses[j])
             && forall i :: 0 <= i < j ==> !Failed(responses[i]);
    assert j == k;
  }

  /** A server 500 settles the page with an error and keeps the selection;
      when it is the first failure, the page shows "Upload failed: Internal
      Server Error". */
  lemma RejectedUploadKeepsSelection(s: Page, responses: seq<Response>, k: nat)
    requires |responses| == |s.selected| && k < |responses|
    requires responses[k] == Answered(false, "Internal Server Error")
    ensures Settle(s, responses).status.kind == "error"
    ensures Settle(s, responses).selected == s.selected
    ensures (forall i :: 0 <= i < k ==> !Failed(responses[i])) ==>
              Settle(s, responses).status == Status("error", FailurePrefix + "Internal Server Error")
  {
    if forall i :: 0 <= i < k ==> !Failed(responses[i]) {
      SettleReportsFirstFailure(s, responses, k);
    }
  }

  /** Corrected: the request for file `f` built under `photos`. */
  function CorrectedRequestFor(form: FormFields, f: ClientFile): (q: Request)
    ensures q == RequestFor(form, f).(parts := [RequestFor(form, f).parts[0].(fieldname := UploadField)])
  {
    Request([Part(UploadField, f.name, f.kind, f.size)],
            Fields(Some(form.title), Some(form.location), Some(form.description), Some(form.category)),
            form.tags)
  }

  /** Corrected: a file the server's type filter accepts, sent under
      `photos` with a title and a location, is stored and answered 200 with
      one record appended to the catalog. */
  lemma CorrectedRequestAccepted(svc: Services, form: FormFields, f: ClientFile, disk: Disk)
    requires Acceptable(f) && AcceptsType(Part(UploadField, f.name, f.kind, f.size))
    requires form.title != "" && form.location != ""
    ensures var q := CorrectedRequestFor(form, f);
            var o := PostUpload(svc, q.parts, q.fields, disk, Written);
            o.reply.status == 200 && o.reply.success
            && o.reply.data.Some? && |o.reply.data.value| == 1
            && o.disk.catalog == Stored(Load(disk.catalog) + o.reply.data.value)
  {
    var q := CorrectedRequestFor(form, f);
    assert AllAccepted(q.parts);
    HandlerSuccess(svc, q.parts, q.fields, disk);
  }
}
