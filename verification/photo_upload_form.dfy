/** The upload form of the gallery (src/components/PhotoUploadForm.jsx):
    choosing files appends to the selection, removing drops one, and
    submitting sends every file in one request under `photos`, then reacts
    to the server's JSON reply. */
module PhotoUploadForm {
  import opened JsValues
  import opened Text
  import opened Seqs
  import opened Backend
  import opened Upload
  import PU = PhotoUpload

  type ClientFile = PU.ClientFile

  datatype FormFields = FormFields(title: string, location: string, category: string, description: string)

  /** The form state; the FileReader previews fill in asynchronously and are
      left out. */
  datatype Form = Form(fields: FormFields, selected: seq<ClientFile>, uploading: bool)

  const FormMaxBytes: nat := 10 * 1024 * 1024
  const EmptySelectionAlert := "Please select at least one image to upload."
  const SuccessAlert := "Photos uploaded successfully!"

  const Initial := Form(FormFields("", "", "destinations", ""), [], false)

  /* ---------- choosing and removing files ---------- */

  /** An image type and at most 10 MB. */
  predicate Acceptable(f: ClientFile)
  {
    StartsWith(f.kind, "image/") && f.size <= FormMaxBytes
  }

  /** `handleFileSelect`: the acceptable new files go after those already
      selected. */
  function SelectFiles(s: Form, files: seq<ClientFile>): (t: Form)
    ensures t.fields == s.fields && t.uploading == s.uploading
  {
    s.(selected := s.selected + Filter(files, Acceptable))
  }

  /** The earlier selection is kept as a prefix and the acceptable new files
      follow it, in order and with their multiplicities. */
  lemma SelectAppends(s: Form, files: seq<ClientFile>, f: ClientFile)
    ensures var t := SelectFiles(s, files).selected;
            t[..|s.selected|] == s.selected
            && IsSubsequence(t[|s.selected|..], files)
            && multiset(t)[f] == multiset(s.selected)[f] + (if Acceptable(f) then multiset(files)[f] else 0)
  {
    var t := SelectFiles(s, files).selected;
    assert t[|s.selected|..] == Filter(files, Acceptable);
    FilterIsSubsequence(files, Acceptable);
    FilterMultiplicity(files, Acceptable, f);
  }

  /** `removeFile(index)`. */
  function RemoveFile(s: Form, index: int): Form
  {
    s.(selected := WithoutIndex(s.selected, index))
  }

  /** Removing entry `index` drops exactly that file; an index outside the
      list changes nothing. */
  lemma RemoveFileSpec(s: Form, index: int)
    ensures 0 <= index < |s.selected| ==>
              RemoveFile(s, index).selected == s.selected[..index] + s.selected[index + 1..]
    ensures !(0 <= index < |s.selected|) ==> RemoveFile(s, index) == s
  {
    WithoutIndexSpec(s.selected, index);
  }

  /** Choosing files and then removing each new one again, last first,
      brings the selection back. */
  lemma SelectThenRemoveLast(s: Form, f: ClientFile)
    requires Acceptable(f)
    ensures RemoveFile(SelectFiles(s, [f]), |s.selected|) == s
  {
    assert Filter([f], Acceptable) == [f];
    var t := SelectFiles(s, [f]);
    WithoutIndexSpec(t.selected, |s.selected|);
    assert t.selected[..|s.selected|] == s.selected;
  }

  /* ---------- submitting ---------- */

  /** The single request: the text fields, then every file under `photos`. */
  datatype Request = Request(parts: seq<Part>, fields: Fields)

  function PartOf(f: ClientFile): Part
  {
    Part(UploadField, f.name, f.kind, f.size)
  }

  /** Every selected file, in order, as a part under the field the server
      reads, with its name, type and size; and the four text fields. */
  function RequestOf(s: Form): (q: Request)
    ensures |q.parts| == |s.selected|
    ensures forall i :: 0 <= i < |s.selected| ==>
              q.parts[i].fieldname == UploadField && q.parts[i].originalName == s.selected[i].name
              && q.parts[i].mimetype == s.selected[i].kind && q.parts[i].size == s.selected[i].size
    ensures q.fields == Fields(Some(s.fields.title), Some(s.fields.location),
                               Some(s.fields.description), Some(s.fields.category))
  {
    Request(seq(|s.selected|, i requires 0 <= i < |s.selected| => PartOf(s.selected[i])),
            Fields(Some(s.fields.title), Some(s.fields.location),
                   Some(s.fields.description), Some(s.fields.category)))
  }

  /** What pressing submit does at once: an alert, or the request. */
  datatype Submission = Alerted(message: string) | Sent(form: Form, request: Request)

  function Submit(s: Form): (r: Submission)
    ensures r.Alerted? <==> s.selected == []
  {
    if |s.selected| == 0 then Alerted(EmptySelectionAlert)
    else Sent(s.(uploading := true), RequestOf(s))
  }

  /** An empty selection only alerts; otherwise exactly one request goes out
      and every part of it is under the field the server reads. */
  lemma SubmitSendsOneRequest(s: Form)
    ensures s.selected == [] ==> Submit(s) == Alerted(EmptySelectionAlert)
    ensures s.selected != [] ==>
              Submit(s).Sent? && |Submit(s).request.parts| == |s.selected|
              && (forall i :: 0 <= i < |s.selected| ==> Submit(s).request.parts[i].fieldname == UploadField)
              && Submit(s).request.fields.title == Some(s.fields.title)
              && Submit(s).request.fields.location == Some(s.fields.location)
  {
  }

  /** How the request ended: the server's JSON reply, or an exception with
      its message (no connection, a body that is not JSON). */
  datatype Response = Replied(reply: Reply<PhotoRecord>) | Thrown(message: string)

  /** What the form does with the response: the alert shown and whether it
      closes and reloads the page. */
  datatype Reaction = Reaction(form: Form, alert: string, closes: bool)

  /** `response.ok`: a status from 200 to 299. */
  predicate Ok(status: nat)
  {
    200 <= status <= 299
  }

  function React(s: Form, r: Response): (x: Reaction)
    ensures !x.form.uploading && x.form.selected == s.selected
  {
    match r
    case Replied(reply) =>
      if Ok(reply.status) && reply.success then Reaction(s.(uploading := false), SuccessAlert, true)
      else Reaction(s.(uploading := false), "Upload failed: " + OrElse(reply.message, "Unknown error"), false)
    case Thrown(m) =>
      Reaction(s.(uploading := false), "Failed to upload photos: " + m + ". Please try again.", false)
  }

  /** The form reports success and closes exactly when the status is 2xx and
      the body says `success`; any other reply shows the server's message. */
  lemma ReactSpec(s: Form, r: Response)
    ensures React(s, r).closes <==> r.Replied? && Ok(r.reply.status) && r.reply.success
    ensures React(s, r).closes <==> React(s, r).alert == SuccessAlert
    ensures r.Replied? && !React(s, r).closes && Truthy(r.reply.message) ==>
              React(s, r).alert == "Upload failed: " + r.reply.message.value
  {
    assert SuccessAlert[0] == 'P';
    if !React(s, r).closes {
      assert React(s, r).alert[0] != 'P';
    }
  }

  /* ---------- against the server ---------- */

  /** A file the server stores: its type filter accepts it and it is within
      the server's 5 MB. */
  predicate ServerAccepts(f: ClientFile)
  {
    AcceptsType(PartOf(f)) && f.size <= MaxFileBytes
  }

  /** Up to ten files the server accepts, with a title and a location, are
      stored in one request; the server answers 200 with one record per
      file and the form reports success and closes. */
  lemma FormUploadSucceeds(svc: Services, s: Form, disk: Disk)
    requires 0 < |s.selected| <= MaxFiles
    requires forall i :: 0 <= i < |s.selected| ==> ServerAccepts(s.selected[i])
    requires s.fields.title != "" && s.fields.location != ""
    ensures var q := Submit(s).request;
            var o := PostUpload(svc, q.parts, q.fields, disk, Written);
            o.reply.status == 200 && |o.reply.data.value| == |s.selected|
            && React(s, Replied(o.reply)).closes
  {
    var q := Submit(s).request;
    assert AllAccepted(q.parts);
    HandlerSuccess(svc, q.parts, q.fields, disk);
  }

  /** The form lets through files up to 10 MB, but the server stops at 5 MB:
      such a file, sent first, is answered 400 and the form shows the
      server's size message. */
  lemma FormSizeLimitExceedsServer(svc: Services, s: Form, disk: Disk, write: CatalogWrite)
    requires |s.selected| > 0 && AcceptsType(PartOf(s.selected[0]))
    requires MaxFileBytes < s.selected[0].size
    ensures var q := Submit(s).request;
            var o := PostUpload(svc, q.parts, q.fields, disk, write);
            o == Outcome(Fail(400, TooLargeMessage), disk)
            && React(s, Replied(o.reply)).alert == "Upload failed: " + TooLargeMessage
  {
    var q := Submit(s).request;
    assert q.parts[..0] == [];
    UploadTooLarge(svc, q.parts, q.fields, disk, write, 0);
  }

  /** The form sets no limit on the number of files; an eleventh file makes
      the server answer 500. */
  lemma EleventhFileRefused(svc: Services, s: Form, disk: Disk, write: CatalogWrite)
    requires |s.selected| > MaxFiles
    requires forall i :: 0 <= i < MaxFiles ==> ServerAccepts(s.selected[i])
    ensures var q := Submit(s).request;
            PostUpload(svc, q.parts, q.fields, disk, write) == Outcome(Fail(500, InternalErrorMessage), disk)
  {
    var q := Submit(s).request;
    assert AllAccepted(q.parts[..MaxFiles]);
    UploadUnexpectedFile(svc, q.parts, q.fields, disk, write, MaxFiles);
  }
}
