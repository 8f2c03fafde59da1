/** The gallery upload-and-catalog pipeline of the server:
    multer's per-file stage (`filename`, `fileFilter`, the size limit and
    the `photos` field with at most 10 files), the `/api/gallery/upload`
    handler that appends one record per file to the JSON catalog, and the
    `/api/gallery` reader that decorates every record with its URL.

    The catalog file is a value (`CatalogFile`) and the uploads directory is
    the sequence of file names written to it (`Disk.files`). Identifiers,
    clocks and random numbers come from `Services`. */
module Upload {
  import opened JsValues
  import opened Text
  import opened Seqs
  import opened Backend
  import Cors

  const MaxFileBytes: nat := 5 * 1024 * 1024
  const MaxFiles: nat := 10
  const UploadField := "photos"
  const UnexpectedFileCode := "LIMIT_UNEXPECTED_FILE"
  const FileTypeMessage := "Only image files (JPEG, JPG, PNG, WEBP) are allowed!"
  const NoFilesMessage := "Please select at least one photo to upload."
  const MissingFieldsMessage := "Title and location are required."
  const StorageFailureMessage := "Sorry, there was an error uploading your photos. Please try again later."
  const DefaultCategory := "destinations"
  const UploadsPath := "/api/uploads/"

  /** One file part of the multipart body, as multer describes it. */
  datatype Part = Part(fieldname: string, originalName: string, mimetype: string, size: nat)

  /** A part multer accepted and wrote to the uploads directory. */
  datatype StoredFile = StoredFile(part: Part, filename: string)

  /** The text fields of the upload form (each may be missing). */
  datatype Fields = Fields(title: Option<string>, location: Option<string>,
                           description: Option<string>, category: Option<string>)

  /** One catalog entry; `kind` is the JSON field `type`. */
  datatype PhotoRecord = PhotoRecord(
    id: string, filename: string, originalName: string, title: string,
    location: string, category: string, description: string,
    uploadDate: string, src: string, kind: string)

  /** The catalog file `gallery.json`: absent, not valid JSON, or an array. */
  datatype CatalogFile = Missing | Unparsable | Stored(records: seq<PhotoRecord>)

  /** Everything the upload reads from outside: the validator, `uuidv4()`,
      `Date.now()`, `Math.random()` and `new Date().toISOString()`, each
      indexed by the position of the file in the request. */
  datatype Services = Services(
    validator: Validator,
    uuid: nat -> string,
    clock: nat -> nat,
    random: nat -> nat,
    isoNow: nat -> string)

  /** The persistent state: the catalog file and the names of the files in
      the uploads directory, oldest first. */
  datatype Disk = Disk(catalog: CatalogFile, files: seq<string>)

  /* ---------- file names ---------- */

  /** The position of the last '.' in `s`. */
  function LastDot(s: string): (r: Option<nat>)
    ensures r.Some? ==> r.value < |s| && s[r.value] == '.'
                        && forall j :: r.value < j < |s| ==> s[j] != '.'
    ensures r.None? ==> forall j :: 0 <= j < |s| ==> s[j] != '.'
  {
    if |s| == 0 then None
    else if s[|s| - 1] == '.' then Some(|s| - 1)
    else LastDot(s[..|s| - 1])
  }

  /** `path.extname` of a bare file name: from the last '.' to the end,
      except that a name without a dot, a name whose only dot leads it
      (".bashrc"), and ".." have no extension. */
  function Extname(name: string): (e: string)
    ensures e == "" || (e[0] == '.' && forall j :: 0 < j < |e| ==> e[j] != '.')
    ensures |e| <= |name| && e == name[|name| - |e|..]
  {
    match LastDot(name)
    case None => ""
    case Some(d) => if d == 0 || name == ".." then "" else name[d..]
  }

  /** The name multer's `filename` callback gives a stored file:
      `<fieldname>-<Date.now()>-<Math.round(Math.random() * 1e9)><ext>`
      (backend/server.js:83-89); the rounded random number lies in
      [0, 10^9]. */
  function StorageName(svc: Services, index: nat, p: Part): string
  {
    p.fieldname + "-" + NatToString(svc.clock(index)) + "-"
    + NatToString(svc.random(index) % 1000000001) + Extname(p.originalName)
  }

  /** The stored name keeps the original extension. */
  lemma {:induction false} StorageNameKeepsExtension(svc: Services, index: nat, p: Part)
    requires Extname(p.originalName) != ""
    ensures Extname(StorageName(svc, index, p)) == Extname(p.originalName)
  {
    var e := Extname(p.originalName);
    var prefix := p.fieldname + "-" + NatToString(svc.clock(index)) + "-"
                  + NatToString(svc.random(index) % 1000000001);
    var s := StorageName(svc, index, p);
    assert s == prefix + e;
    var digits := NatToString(svc.random(index) % 1000000001);
    assert prefix[|prefix| - 1] == digits[|digits| - 1];
    assert IsDigit(prefix[|prefix| - 1]);
    LastDotOfSuffix(prefix, e);
    assert s != ".." by {
      assert s[|prefix| - 1] != '.';
    }
    assert s[|prefix|..] == e;
  }

  lemma LastDotOfSuffix(prefix: string, e: string)
    requires |e| > 0 && e[0] == '.' && forall j :: 0 < j < |e| ==> e[j] != '.'
    ensures LastDot(prefix + e) == Some(|prefix|)
  {
    var s := prefix + e;
    assert s[|prefix|] == '.';
    assert forall j :: |prefix| < j < |s| ==> s[j] == e[j - |prefix|];
  }

  /** The extension of a name made of a stem without dots and an extension. */
  lemma ExtnameOfStem(stem: string, e: string)
    requires |stem| > 0 && forall j :: 0 <= j < |stem| ==> stem[j] != '.'
    requires |e| > 0 && e[0] == '.' && forall j :: 0 < j < |e| ==> e[j] != '.'
    ensures Extname(stem + e) == e
  {
    LastDotOfSuffix(stem, e);
    assert (stem + e)[0] != '.';
    assert (stem + e)[|stem|..] == e;
  }

  /* ---------- the file filter ---------- */

  /** `/jpeg|jpg|png|webp/.test(s)`: the pattern is not anchored, so it asks
      whether one of the four words occurs anywhere in `s`. */
  predicate ImagePattern(s: string)
  {
    Contains(s, "jpeg") || Contains(s, "jpg") || Contains(s, "png") || Contains(s, "webp")
  }

  /** The `fileFilter` decision (backend/server.js:97-109): the lower-cased
      extension and the mimetype, as sent, must both match. */
  predicate AcceptsType(p: Part)
  {
    ImagePattern(Lower(Extname(p.originalName))) && ImagePattern(p.mimetype)
  }

  /** A file without an extension is refused whatever its mimetype. */
  lemma NoExtensionRefused(p: Part)
    requires Extname(p.originalName) == ""
    ensures !AcceptsType(p)
  {
  }

  /** The pattern is unanchored: a file "beach.pngx" sent as "image/png" passes. */
  lemma UnanchoredExtensionAccepted(p: Part)
    requires p.originalName == "beach.pngx" && p.mimetype == "image/png"
    ensures AcceptsType(p)
  {
    PngxName(p);
    PngMimetype(p);
  }

  lemma PngxName(p: Part)
    requires p.originalName == "beach.pngx"
    ensures ImagePattern(Lower(Extname(p.originalName)))
  {
    NameMatches(p.originalName, "beach", ".pngx", ".pngx", "png", 1);
  }

  lemma PngMimetype(p: Part)
    requires p.mimetype == "image/png"
    ensures ImagePattern(p.mimetype)
  {
    ImageMimetype(p.mimetype, "png");
  }

  /** The extension is lower-cased first, so "beach.JPG" sent as "image/jpeg" passes. */
  lemma UpperCaseExtensionAccepted(p: Part)
    requires p.originalName == "beach.JPG" && p.mimetype == "image/jpeg"
    ensures AcceptsType(p)
  {
    UpperJpgName(p);
    JpegMimetype(p);
  }

  lemma UpperJpgName(p: Part)
    requires p.originalName == "beach.JPG"
    ensures ImagePattern(Lower(Extname(p.originalName)))
  {
    NameMatches(p.originalName, "beach", ".JPG", ".jpg", "jpg", 1);
  }

  lemma JpegMimetype(p: Part)
    requires p.mimetype == "image/jpeg"
    ensures ImagePattern(p.mimetype)
  {
    ImageMimetype(p.mimetype, "jpeg");
  }

  /** The mimetype is tested as sent, so "image/PNG" is refused whatever the
      file is called. */
  lemma UpperCaseMimetypeRefused(p: Part)
    requires p.mimetype == "image/PNG"
    ensures !AcceptsType(p)
  {
    MimetypeRefused(p);
  }

  lemma MimetypeRefused(p: Part)
    requires p.mimetype == "image/PNG"
    ensures !ImagePattern(p.mimetype)
  {
    NotImagePattern("image/PNG");
  }

  /** A file called `stem + ext` passes the extension half of the filter when
      `word` occurs in the lower-cased extension. */
  lemma NameMatches(name: string, stem: string, ext: string, lowered: string, word: string, at: int)
    requires name == stem + ext
    requires |stem| > 0 && forall j :: 0 <= j < |stem| ==> stem[j] != '.'
    requires |ext| > 0 && ext[0] == '.' && forall j :: 0 < j < |ext| ==> ext[j] != '.'
    requires Lower(ext) == lowered && word in ["jpeg", "jpg", "png", "webp"] && OccursAt(lowered, word, at)
    ensures ImagePattern(Lower(Extname(name)))
  {
    ExtnameOfStem(stem, ext);
    ContainsIffOccurs(lowered, word);
    WordMatchesPattern(lowered, word);
  }

  /** Containing any one of the four words is enough for the pattern. */
  lemma WordMatchesPattern(s: string, word: string)
    requires word in ["jpeg", "jpg", "png", "webp"] && Contains(s, word)
    ensures ImagePattern(s)
  {
  }

  /** "image/<word>" matches the pattern for each of the four words. */
  lemma ImageMimetype(mimetype: string, word: string)
    requires mimetype == "image/" + word
    requires word in ["jpeg", "jpg", "png", "webp"]
    ensures ImagePattern(mimetype)
  {
    ContainsIffOccurs(mimetype, word);
    assert OccursAt(mimetype, word, 6);
  }

  /** A string with no lower-case 'j', 'p' or 'w' matches none of the words. */
  lemma NotImagePattern(s: string)
    requires forall i :: 0 <= i < |s| ==> s[i] != 'j' && s[i] != 'p' && s[i] != 'w'
    ensures !ImagePattern(s)
  {
    forall t | t in ["jpeg", "jpg", "png", "webp"]
      ensures !Contains(s, t)
    {
      ContainsIffOccurs(s, t);
      assert forall i :: OccursAt(s, t, i) ==> s[i] == t[0];
    }
  }

  /* ---------- the multer stage ---------- */

  /** Why multer stops at the part in position `index`, if it does: a part
      that is not under `photos` or beyond the tenth, one the file filter
      refuses, or one over the size limit. */
  function PartError(index: nat, p: Part): Option<ServerError>
  {
    if p.fieldname != UploadField || index >= MaxFiles then Some(MulterError(UnexpectedFileCode))
    else if !AcceptsType(p) then Some(PlainError(FileTypeMessage))
    else if p.size > MaxFileBytes then Some(MulterError(FileSizeLimitCode))
    else None
  }

  function StoreAs(svc: Services, index: nat, p: Part): StoredFile
  {
    StoredFile(p, StorageName(svc, index, p))
  }

  /** Storing a part at a position. */
  function Storer(svc: Services): (nat, Part) -> StoredFile
  {
    (i: nat, p: Part) => StoreAs(svc, i, p)
  }

  /** The result of the multer stage. */
  datatype Received = Received(files: seq<StoredFile>) | Aborted(error: ServerError)

  /** Runs the multer stage over `parts[from..]`, given the per-part check
      and how a part is stored: the first failing part aborts the request
      with its error; otherwise every part is stored. */
  function ReceiveFrom(check: (nat, Part) -> Option<ServerError>, store: (nat, Part) -> StoredFile,
                       parts: seq<Part>, from: nat): Received
    requires from <= |parts|
    decreases |parts| - from
  {
    if from == |parts| then Received([])
    else
      match check(from, parts[from])
      case Some(e) => Aborted(e)
      case None =>
        match ReceiveFrom(check, store, parts, from + 1)
        case Received(files) => Received([store(from, parts[from])] + files)
        case Aborted(e) => Aborted(e)
  }

  function Receive(svc: Services, parts: seq<Part>): Received
  {
    ReceiveFrom(PartError, Storer(svc), parts, 0)
  }

  /** Part `k` fails and none of `parts[from..k]` does. */
  predicate FirstFailure(parts: seq<Part>, from: nat, k: nat)
    requires k < |parts|
  {
    PartError(k, parts[k]).Some? && forall j :: from <= j < k ==> PartError(j, parts[j]).None?
  }

  /** No part of `parts[from..]` fails the check. */
  predicate NoFailureFrom(check: (nat, Part) -> Option<ServerError>, parts: seq<Part>, from: nat)
    requires from <= |parts|
    decreases |parts| - from
  {
    from == |parts| || (check(from, parts[from]).None? && NoFailureFrom(check, parts, from + 1))
  }

  /** When no part fails, every part is stored in order. */
  lemma {:induction false} ReceiveAllAccepted(check: (nat, Part) -> Option<ServerError>,
                                              store: (nat, Part) -> StoredFile, parts: seq<Part>, from: nat)
    requires from <= |parts| && NoFailureFrom(check, parts, from)
    ensures ReceiveFrom(check, store, parts, from) == Received(MapFrom(store, parts, from))
    decreases |parts| - from
  {
    if from < |parts| {
      ReceiveAllAccepted(check, store, parts, from + 1);
    }
  }

  lemma {:induction false} NoFailureFromAll(check: (nat, Part) -> Option<ServerError>, parts: seq<Part>, from: nat)
    requires from <= |parts|
    requires forall k :: from <= k < |parts| ==> check(k, parts[k]).None?
    ensures NoFailureFrom(check, parts, from)
    decreases |parts| - from
  {
    if from < |parts| {
      NoFailureFromAll(check, parts, from + 1);
    }
  }

  /** The first failing part decides the error and nothing is stored. */
  lemma {:induction false} ReceiveStopsAtFirstFailure(check: (nat, Part) -> Option<ServerError>,
                                                      store: (nat, Part) -> StoredFile,
                                                      parts: seq<Part>, from: nat, k: nat)
    requires from <= k < |parts| && check(k, parts[k]).Some?
    requires forall j :: from <= j < k ==> check(j, parts[j]).None?
    ensures ReceiveFrom(check, store, parts, from) == Aborted(check(k, parts[k]).value)
    decreases k - from
  {
    if from < k {
      ReceiveStopsAtFirstFailure(check, store, parts, from + 1, k);
    }
  }

  /** When some part fails, there is a first one. */
  lemma {:induction false} FirstFailureExists(check: (nat, Part) -> Option<ServerError>, parts: seq<Part>, from: nat)
    requires from <= |parts|
    requires exists k :: from <= k < |parts| && check(k, parts[k]).Some?
    ensures exists k :: from <= k < |parts| && check(k, parts[k]).Some?
                        && forall j :: from <= j < k ==> check(j, parts[j]).None?
    decreases |parts| - from
  {
    if check(from, parts[from]).None? {
      var k :| from <= k < |parts| && check(k, parts[k]).Some?;
      assert k != from;
      FirstFailureExists(check, parts, from + 1);
    }
  }

  /** When no part fails, the stored files are the parts in order. */
  lemma ReceiveAllStored(svc: Services, parts: seq<Part>)
    requires forall k :: 0 <= k < |parts| ==> PartError(k, parts[k]).None?
    ensures Receive(svc, parts) == Received(MapFrom(Storer(svc), parts, 0))
  {
    NoFailureFromAll(PartError, parts, 0);
    ReceiveAllAccepted(PartError, Storer(svc), parts, 0);
  }

  /** File `k` of the stored parts is part `k` stored at position `k`. */
  lemma StoredAt(svc: Services, parts: seq<Part>)
    ensures forall k :: 0 <= k < |parts| ==> MapFrom(Storer(svc), parts, 0)[k] == StoreAs(svc, k, parts[k])
  {
    var files := MapFrom(Storer(svc), parts, 0);
    forall k | 0 <= k < |parts|
      ensures files[k] == StoreAs(svc, k, parts[k])
    {
      MapFromAt(Storer(svc), parts, 0, k);
      assert files[k] == Storer(svc)(k, parts[k]);
    }
  }

  /** The first failing part of a request decides the error. */
  lemma ReceiveFirstFailure(svc: Services, parts: seq<Part>, k: nat)
    requires k < |parts| && FirstFailure(parts, 0, k)
    ensures Receive(svc, parts) == Aborted(PartError(k, parts[k]).value)
  {
    ReceiveStopsAtFirstFailure(PartError, Storer(svc), parts, 0, k);
  }

  /** The multer stage stores every part, in order, exactly when no part
      fails; otherwise the request fails with the error of the first failing
      part. */
  lemma ReceiveSpec(svc: Services, parts: seq<Part>)
    ensures Receive(svc, parts).Received? <==> forall k :: 0 <= k < |parts| ==> PartError(k, parts[k]).None?
    ensures Receive(svc, parts).Received? ==>
              |Receive(svc, parts).files| == |parts|
              && forall k :: 0 <= k < |parts| ==> Receive(svc, parts).files[k] == StoreAs(svc, k, parts[k])
    ensures Receive(svc, parts).Aborted? ==>
              exists k :: 0 <= k < |parts| && FirstFailure(parts, 0, k)
                          && Receive(svc, parts).error == PartError(k, parts[k]).value
  {
    if forall k :: 0 <= k < |parts| ==> PartError(k, parts[k]).None? {
      ReceiveAllStored(svc, parts);
      StoredAt(svc, parts);
    } else {
      var k0 :| 0 <= k0 < |parts| && PartError(k0, parts[k0]).Some?;
      FirstFailureExists(PartError, parts, 0);
      var k :| 0 <= k < |parts| && PartError(k, parts[k]).Some?
               && forall j :: 0 <= j < k ==> PartError(j, parts[j]).None?;
      assert FirstFailure(parts, 0, k);
      ReceiveFirstFailure(svc, parts, k);
    }
  }

  function Filenames(files: seq<StoredFile>): (names: seq<string>)
    ensures |names| == |files| && forall i :: 0 <= i < |files| ==> names[i] == files[i].filename
  {
    seq(|files|, i requires 0 <= i < |files| => files[i].filename)
  }

  /* ---------- the upload handler ---------- */

  /** The catalog as the handlers read it: a missing or unparsable file reads
      as the empty list. */
  function Load(c: CatalogFile): (rs: seq<PhotoRecord>)
    ensures c.Stored? ==> rs == c.records
    ensures !c.Stored? ==> rs == []
  {
    if c.Stored? then c.records else []
  }

  /** The title of the file at position `index`: the sanitised title, and
      from the second file on a space and the 1-based position. */
  function TitleAt(v: Validator, title: string, index: nat): string
  {
    if index == 0 then Sanitize(v, title) else Sanitize(v, title) + " " + NatToString(index + 1)
  }

  /** The record built for the file at position `index` (backend/server.js:526-540). */
  function MakeRecord(svc: Services, f: Fields, file: StoredFile, index: nat): PhotoRecord
    requires Truthy(f.title) && Truthy(f.location)
  {
    PhotoRecord(
      id := svc.uuid(index),
      filename := file.filename,
      originalName := file.part.originalName,
      title := TitleAt(svc.validator, f.title.value, index),
      location := Sanitize(svc.validator, f.location.value),
      category := OrElse(f.category, DefaultCategory),
      description := if Truthy(f.description) then Sanitize(svc.validator, f.description.value) else "",
      uploadDate := svc.isoNow(index),
      src := UploadsPath + file.filename,
      kind := "image")
  }

  /** The records of one request: record `i` describes stored file `i`, and
      no two records share a title. */
  function MakeRecords(svc: Services, f: Fields, files: seq<StoredFile>): (rs: seq<PhotoRecord>)
    requires Truthy(f.title) && Truthy(f.location)
    ensures |rs| == |files|
    ensures forall i :: 0 <= i < |files| ==> Describes(rs[i], svc, f, files[i], i)
    ensures forall i, j :: 0 <= i < j < |files| ==> rs[i].title != rs[j].title
  {
    TitlesAllDistinct(svc.validator, f.title.value, |files|);
    seq(|files|, i requires 0 <= i < |files| => MakeRecord(svc, f, files[i], i))
  }

  function SuccessMessage(n: nat): string
  {
    NatToString(n) + " photo(s) uploaded successfully!"
  }

  /** What a request leaves behind: the reply and the new disk state. */
  datatype Outcome = Outcome(reply: Reply<PhotoRecord>, disk: Disk)

  /** How the catalog step (backend/server.js:511-546) ends. `Written`: the
      new catalog is on disk. `FailsUntouched`: something throws before the
      file is opened for writing, or the open itself is refused. Reading can
      fail, and so can `push` on a catalog whose JSON is not an array. The
      file stays as it was. `FailsTruncated`: `writeFileSync` has opened the
      file with truncation and then fails, say on a full disk. What remains
      is empty or a proper prefix of the JSON text, and neither parses. */
  datatype CatalogWrite = Written | FailsUntouched | FailsTruncated

  /** The catalog file a failed write leaves behind. */
  function AfterFailedWrite(c: CatalogFile, write: CatalogWrite): CatalogFile
  {
    if write.FailsTruncated? then Unparsable else c
  }

  /** The route handler (backend/server.js:487-561), run on the files multer
      stored. */
  function HandleUpload(svc: Services, f: Fields, files: seq<StoredFile>, disk: Disk, write: CatalogWrite): Outcome
  {
    if |files| == 0 then Outcome(Fail(400, NoFilesMessage), disk)
    else if !Truthy(f.title) || !Truthy(f.location) then Outcome(Fail(400, MissingFieldsMessage), disk)
    else if !write.Written? then
      Outcome(Fail(500, StorageFailureMessage), disk.(catalog := AfterFailedWrite(disk.catalog, write)))
    else
      var created := MakeRecords(svc, f, files);
      Outcome(Reply(200, true, Some(SuccessMessage(|created|)), Some(created)),
              disk.(catalog := Stored(Load(disk.catalog) + created)))
  }

  /** `POST /api/gallery/upload`: the multer stage, then either the error
      handler (multer removes what it wrote) or the route handler with the
      stored files added to the uploads directory. */
  function PostUpload(svc: Services, parts: seq<Part>, f: Fields, disk: Disk, write: CatalogWrite): Outcome
  {
    match Receive(svc, parts)
    case Aborted(e) => Outcome(HandleError(e), disk)
    case Received(files) =>
      HandleUpload(svc, f, files, disk.(files := disk.files + Filenames(files)), write)
  }

  /** The whole upload request. The global `cors` stage
      (backend/server.js:24-51) runs before multer. A refused origin goes to
      the error handler, which answers 500, and nothing is written. */
  function UploadRequest(origin: Option<string>, frontendUrl: Option<string>, svc: Services,
                         parts: seq<Part>, f: Fields, disk: Disk, write: CatalogWrite): (o: Outcome)
    ensures Cors.CheckOrigin(origin, frontendUrl) == Cors.Reject ==>
              o == Outcome(Fail(500, InternalErrorMessage), disk)
    ensures Cors.CheckOrigin(origin, frontendUrl) == Cors.Allow ==> o == PostUpload(svc, parts, f, disk, write)
  {
    match Cors.CorsReply<PhotoRecord>(origin, frontendUrl)
    case Some(reply) => Outcome(reply, disk)
    case None => PostUpload(svc, parts, f, disk, write)
  }

  /** A request from a foreign origin stores nothing and is answered 500,
      whatever it carries. */
  lemma ForeignOriginUploadsNothing(frontendUrl: Option<string>, svc: Services, parts: seq<Part>,
                                    f: Fields, disk: Disk, write: CatalogWrite)
    requires frontendUrl != Some(Cors.EvilOrigin)
    ensures UploadRequest(Some(Cors.EvilOrigin), frontendUrl, svc, parts, f, disk, write)
            == Outcome(Fail(500, InternalErrorMessage), disk)
  {
    Cors.EvilOriginRejected(frontendUrl);
  }

  /* ---------- the catalog reader ---------- */

  /** A record as `GET /api/gallery` returns it: every stored field plus `imageUrl`. */
  datatype PhotoView = PhotoView(record: PhotoRecord, imageUrl: string)

  /** `process.env.BASE_URL || \`http://localhost:${PORT}\`` with
      `PORT = process.env.PORT || 5002`. */
  function BaseUrl(baseUrlEnv: Option<string>, portEnv: Option<string>): (url: string)
    ensures Truthy(baseUrlEnv) ==> url == baseUrlEnv.value
    ensures !Truthy(baseUrlEnv) && Truthy(portEnv) ==> url == "http://localhost:" + portEnv.value
    ensures !Truthy(baseUrlEnv) && !Truthy(portEnv) ==> url == "http://localhost:5002"
  {
    OrElse(baseUrlEnv, "http://localhost:" + OrElse(portEnv, "5002"))
  }

  function View(baseUrl: string, r: PhotoRecord): PhotoView
  {
    PhotoView(r, baseUrl + UploadsPath + r.filename)
  }

  function Views(baseUrl: string, rs: seq<PhotoRecord>): (vs: seq<PhotoView>)
    ensures |vs| == |rs|
    ensures forall i :: 0 <= i < |rs| ==>
              vs[i].record == rs[i] && vs[i].imageUrl == baseUrl + UploadsPath + rs[i].filename
  {
    seq(|rs|, i requires 0 <= i < |rs| => View(baseUrl, rs[i]))
  }

  const GalleryFetchMessage := "Error fetching gallery photos."

  /** `GET /api/gallery` (backend/server.js:565-597). It takes the catalog
      and returns only a reply: it never writes. `readOk` is false when the
      handler throws: the file exists but cannot be read, or its JSON is not
      an array. */
  function GetGallery(baseUrl: string, catalog: CatalogFile, readOk: bool): (r: Reply<PhotoView>)
    ensures r.success <==> readOk
    ensures readOk ==> r.status == 200 && r.data.Some? && |r.data.value| == |Load(catalog)|
    ensures !readOk ==> r.status == 500 && r.message == Some(GalleryFetchMessage) && r.data.None?
  {
    if !readOk then Fail(500, GalleryFetchMessage)
    else Reply(200, true, None, Some(Views(baseUrl, Load(catalog))))
  }

  /** `GET /api/gallery` behind the `cors` stage: a refused origin gets the
      error handler's 500 before the catalog is read. */
  function GalleryRequest(origin: Option<string>, frontendUrl: Option<string>, baseUrl: string,
                          catalog: CatalogFile, readOk: bool): (r: Reply<PhotoView>)
    ensures r.success <==> Cors.CheckOrigin(origin, frontendUrl) == Cors.Allow && readOk
    ensures Cors.CheckOrigin(origin, frontendUrl) == Cors.Reject ==> r == Fail(500, InternalErrorMessage)
    ensures Cors.CheckOrigin(origin, frontendUrl) == Cors.Allow ==> r == GetGallery(baseUrl, catalog, readOk)
  {
    match Cors.CorsReply<PhotoView>(origin, frontendUrl)
    case Some(reply) => reply
    case None => GetGallery(baseUrl, catalog, readOk)
  }

  /* ---------- properties of the upload ---------- */

  /** The names multer gives the parts of a request, in order. */
  function StorageNames(svc: Services, parts: seq<Part>): (names: seq<string>)
    ensures |names| == |parts|
    ensures forall k :: 0 <= k < |parts| ==> names[k] == StorageName(svc, k, parts[k])
  {
    seq(|parts|, k requires 0 <= k < |parts| => StorageName(svc, k, parts[k]))
  }

  /** Every part passes multer. */
  predicate AllAccepted(parts: seq<Part>)
  {
    forall k :: 0 <= k < |parts| ==> PartError(k, parts[k]).None?
  }

  lemma ReceivedNames(svc: Services, parts: seq<Part>)
    requires AllAccepted(parts)
    ensures Receive(svc, parts).Received?
    ensures Filenames(Receive(svc, parts).files) == StorageNames(svc, parts)
  {
    ReceiveSpec(svc, parts);
  }

  /** A request without files is answered 400 and changes nothing. */
  lemma UploadWithoutFiles(svc: Services, f: Fields, disk: Disk, write: CatalogWrite)
    ensures PostUpload(svc, [], f, disk, write) == Outcome(Fail(400, NoFilesMessage), disk)
  {
    assert disk.files + [] == disk.files;
  }

  /** A missing or empty title or location is answered 400 after multer has
      stored the files: the catalog is unchanged and the files stay behind. */
  lemma UploadMissingFields(svc: Services, parts: seq<Part>, f: Fields, disk: Disk, write: CatalogWrite)
    requires |parts| > 0 && AllAccepted(parts)
    requires !Truthy(f.title) || !Truthy(f.location)
    ensures PostUpload(svc, parts, f, disk, write).reply == Fail(400, MissingFieldsMessage)
    ensures PostUpload(svc, parts, f, disk, write).disk
            == Disk(disk.catalog, disk.files + StorageNames(svc, parts))
  {
    ReceivedNames(svc, parts);
  }

  /** A title made only of white space is truthy, so it passes the check and
      is stored as the escape of the empty string. */
  lemma BlankTitleAccepted(svc: Services, f: Fields, file: StoredFile)
    requires f.title == Some(" ") && Truthy(f.location)
    ensures MakeRecord(svc, f, file, 0).title == svc.validator.escape("")
  {
    TrimAllSpace(" ");
  }

  /** When a part fails, the error handler answers and the disk is as it was:
      multer removes the files it had written for the request. */
  lemma UploadRejectedPart(svc: Services, parts: seq<Part>, f: Fields, disk: Disk, write: CatalogWrite, k: nat)
    requires k < |parts| && FirstFailure(parts, 0, k)
    ensures PostUpload(svc, parts, f, disk, write) == Outcome(HandleError(PartError(k, parts[k]).value), disk)
  {
    ReceiveFirstFailure(svc, parts, k);
  }

  /** A file over 5 MB (that passed the type filter) is answered 400 with the
      size message. */
  lemma UploadTooLarge(svc: Services, parts: seq<Part>, f: Fields, disk: Disk, write: CatalogWrite, k: nat)
    requires k < |parts| && k < MaxFiles && AllAccepted(parts[..k])
    requires parts[k].fieldname == UploadField && AcceptsType(parts[k]) && parts[k].size > MaxFileBytes
    ensures PostUpload(svc, parts, f, disk, write) == Outcome(Fail(400, TooLargeMessage), disk)
  {
    PrefixFailure(parts, k);
    UploadRejectedPart(svc, parts, f, disk, write, k);
  }

  /** A file the type filter refuses is answered 500, not 400: the filter's
      plain `Error` is not a `MulterError`. */
  lemma UploadWrongType(svc: Services, parts: seq<Part>, f: Fields, disk: Disk, write: CatalogWrite, k: nat)
    requires k < |parts| && k < MaxFiles && AllAccepted(parts[..k])
    requires parts[k].fieldname == UploadField && !AcceptsType(parts[k])
    ensures PostUpload(svc, parts, f, disk, write) == Outcome(Fail(500, InternalErrorMessage), disk)
  {
    PrefixFailure(parts, k);
    UploadRejectedPart(svc, parts, f, disk, write, k);
  }

  /** An eleventh file, or a file under any field other than `photos`, is
      answered 500. */
  lemma UploadUnexpectedFile(svc: Services, parts: seq<Part>, f: Fields, disk: Disk, write: CatalogWrite, k: nat)
    requires k < |parts| && AllAccepted(parts[..k])
    requires parts[k].fieldname != UploadField || k == MaxFiles
    ensures PostUpload(svc, parts, f, disk, write) == Outcome(Fail(500, InternalErrorMessage), disk)
  {
    PrefixFailure(parts, k);
    UploadRejectedPart(svc, parts, f, disk, write, k);
  }

  lemma PrefixFailure(parts: seq<Part>, k: nat)
    requires k < |parts| && AllAccepted(parts[..k]) && PartError(k, parts[k]).Some?
    ensures FirstFailure(parts, 0, k)
  {
    forall j | 0 <= j < k
      ensures PartError(j, parts[j]).None?
    {
      assert parts[..k][j] == parts[j];
    }
  }

  /** When the catalog step throws, the request is answered 500 and the
      stored files stay behind. The catalog is unchanged unless the write had
      already truncated it, in which case it no longer parses. */
  lemma UploadStorageFailure(svc: Services, parts: seq<Part>, f: Fields, disk: Disk, write: CatalogWrite)
    requires |parts| > 0 && AllAccepted(parts) && Truthy(f.title) && Truthy(f.location)
    requires !write.Written?
    ensures PostUpload(svc, parts, f, disk, write).reply == Fail(500, StorageFailureMessage)
    ensures write.FailsUntouched? ==>
              PostUpload(svc, parts, f, disk, write).disk == Disk(disk.catalog, disk.files + StorageNames(svc, parts))
    ensures write.FailsTruncated? ==>
              PostUpload(svc, parts, f, disk, write).disk == Disk(Unparsable, disk.files + StorageNames(svc, parts))
  {
    ReceivedNames(svc, parts);
  }

  /** A write that fails after truncating the catalog loses every earlier
      record. The reader then lists nothing, and the next successful upload
      stores only its own records. */
  lemma TruncatedWriteLosesCatalog(svc: Services, parts: seq<Part>, f: Fields, disk: Disk,
                                   svc': Services, parts': seq<Part>, f': Fields)
    requires |parts| > 0 && AllAccepted(parts) && Truthy(f.title) && Truthy(f.location)
    requires |parts'| > 0 && AllAccepted(parts') && Truthy(f'.title) && Truthy(f'.location)
    ensures var failed := PostUpload(svc, parts, f, disk, FailsTruncated).disk;
            var next := PostUpload(svc', parts', f', failed, Written);
            Load(failed.catalog) == []
            && next.reply.data.Some? && next.disk.catalog == Stored(next.reply.data.value)
  {
    UploadStorageFailure(svc, parts, f, disk, FailsTruncated);
    var failed := PostUpload(svc, parts, f, disk, FailsTruncated).disk;
    UnparsableCatalogReplaced(svc', parts', f', failed.files);
  }

  /** An upload from an admitted origin answers 200 with one record per file
      and appends exactly those records to the catalog, after the ones it
      held. */
  lemma UploadSuccess(origin: Option<string>, frontendUrl: Option<string>,
                      svc: Services, parts: seq<Part>, f: Fields, disk: Disk)
    requires Cors.CheckOrigin(origin, frontendUrl) == Cors.Allow
    requires |parts| > 0 && AllAccepted(parts) && Truthy(f.title) && Truthy(f.location)
    ensures var o := UploadRequest(origin, frontendUrl, svc, parts, f, disk, Written);
            && o.reply.status == 200 && o.reply.success
            && o.reply.message == Some(NatToString(|parts|) + " photo(s) uploaded successfully!")
            && o.reply.data.Some? && |o.reply.data.value| == |parts|
            && o.disk.catalog == Stored(Load(disk.catalog) + o.reply.data.value)
            && o.disk.files == disk.files + StorageNames(svc, parts)
            && forall k :: 0 <= k < |parts| ==> Describes(o.reply.data.value[k], svc, f, StoreAs(svc, k, parts[k]), k)
  {
    HandlerSuccess(svc, parts, f, disk);
  }

  /** The route after the `cors` stage: a valid upload answers 200 and
      appends its records. */
  lemma HandlerSuccess(svc: Services, parts: seq<Part>, f: Fields, disk: Disk)
    requires |parts| > 0 && AllAccepted(parts) && Truthy(f.title) && Truthy(f.location)
    ensures var o := PostUpload(svc, parts, f, disk, Written);
            && o.reply.status == 200 && o.reply.success
            && o.reply.message == Some(NatToString(|parts|) + " photo(s) uploaded successfully!")
            && o.reply.data.Some? && |o.reply.data.value| == |parts|
            && o.disk.catalog == Stored(Load(disk.catalog) + o.reply.data.value)
            && o.disk.files == disk.files + StorageNames(svc, parts)
            && forall k :: 0 <= k < |parts| ==> Describes(o.reply.data.value[k], svc, f, StoreAs(svc, k, parts[k]), k)
  {
    ReceiveSpec(svc, parts);
    ReceivedNames(svc, parts);
    var files := Receive(svc, parts).files;
    HandleUploadSuccess(svc, f, files, disk.(files := disk.files + Filenames(files)));
    forall k | 0 <= k < |parts|
      ensures Describes(MakeRecords(svc, f, files)[k], svc, f, StoreAs(svc, k, parts[k]), k)
    {
      assert files[k] == StoreAs(svc, k, parts[k]);
    }
  }

  lemma HandleUploadSuccess(svc: Services, f: Fields, files: seq<StoredFile>, disk: Disk)
    requires |files| > 0 && Truthy(f.title) && Truthy(f.location)
    ensures HandleUpload(svc, f, files, disk, Written)
            == Outcome(Reply(200, true, Some(SuccessMessage(|files|)), Some(MakeRecords(svc, f, files))),
                       disk.(catalog := Stored(Load(disk.catalog) + MakeRecords(svc, f, files))))
  {
  }

  /** What the record of the file stored as `file` at position `k` holds:
      the file's names, the services' id and date for that position, the
      sanitised fields, and from the second file on the position after the
      title. */
  predicate Describes(r: PhotoRecord, svc: Services, f: Fields, file: StoredFile, k: nat)
  {
    && r.id == svc.uuid(k)
    && r.filename == file.filename
    && r.originalName == file.part.originalName
    && r.src == UploadsPath + file.filename
    && r.kind == "image"
    && r.uploadDate == svc.isoNow(k)
    && (f.title.Some? && k == 0 ==> r.title == Sanitize(svc.validator, f.title.value))
    && (f.title.Some? && k > 0 ==> r.title == Sanitize(svc.validator, f.title.value) + " " + NatToString(k + 1))
    && (f.location.Some? ==> r.location == Sanitize(svc.validator, f.location.value))
    && (Truthy(f.category) ==> r.category == f.category.value)
    && (!Truthy(f.category) ==> r.category == DefaultCategory)
    && (Truthy(f.description) ==> r.description == Sanitize(svc.validator, f.description.value))
    && (!Truthy(f.description) ==> r.description == "")
  }

  /** The files of one request get pairwise different titles. */
  lemma TitlesDistinct(v: Validator, title: string, j: nat, k: nat)
    requires j != k
    ensures TitleAt(v, title, j) != TitleAt(v, title, k)
  {
    if j != 0 && k != 0 {
      TitleNamesPosition(v, title, j);
      TitleNamesPosition(v, title, k);
    }
  }

  lemma TitlesAllDistinct(v: Validator, title: string, n: nat)
    ensures forall i, j :: 0 <= i < j < n ==> TitleAt(v, title, i) != TitleAt(v, title, j)
  {
    forall i, j | 0 <= i < j < n
      ensures TitleAt(v, title, i) != TitleAt(v, title, j)
    {
      TitlesDistinct(v, title, i, j);
    }
  }

  /** The first file keeps the sanitised title; every later one has it
      followed by a space and a number that reads back as its 1-based
      position. */
  lemma TitleNamesPosition(v: Validator, title: string, k: nat)
    ensures k == 0 ==> TitleAt(v, title, k) == Sanitize(v, title)
    ensures k > 0 ==> StartsWith(TitleAt(v, title, k), Sanitize(v, title) + " ")
                      && ParseInt(TitleAt(v, title, k)[|Sanitize(v, title)| + 1..]) == Some(k + 1)
  {
    if k > 0 {
      var t := Sanitize(v, title);
      assert TitleAt(v, title, k)[..|t + " "|] == t + " ";
      assert TitleAt(v, title, k)[|t| + 1..] == NatToString(k + 1) + "";
      ParseIntOfPrinted(k + 1, "");
    }
  }

  /* ---------- the catalog invariant ---------- */

  /** Every catalog record points at a file in the uploads directory through
      `src`. */
  predicate CatalogBacked(disk: Disk)
  {
    forall r :: r in Load(disk.catalog) ==> r.src == UploadsPath + r.filename && r.filename in disk.files
  }

  /** Every request keeps the catalog backed by the uploads directory. */
  lemma UploadKeepsCatalogBacked(svc: Services, parts: seq<Part>, f: Fields, disk: Disk, write: CatalogWrite)
    requires CatalogBacked(disk)
    ensures CatalogBacked(PostUpload(svc, parts, f, disk, write).disk)
  {
    ReceiveSpec(svc, parts);
    var o := PostUpload(svc, parts, f, disk, write);
    if Receive(svc, parts).Received? {
      var files := Receive(svc, parts).files;
      var disk' := disk.(files := disk.files + Filenames(files));
      forall r | r in Load(o.disk.catalog)
        ensures r.src == UploadsPath + r.filename && r.filename in o.disk.files
      {
        if r in Load(disk.catalog) {
          assert r.filename in disk'.files;
        } else {
          var created := MakeRecords(svc, f, files);
          var k :| 0 <= k < |created| && created[k] == r;
          assert Filenames(files)[k] == files[k].filename;
          assert r.filename in disk'.files;
        }
      }
    }
  }

  /** A catalog that is not valid JSON is replaced by the records of the
      upload: the old content is lost. */
  lemma UnparsableCatalogReplaced(svc: Services, parts: seq<Part>, f: Fields, files: seq<string>)
    requires |parts| > 0 && AllAccepted(parts) && Truthy(f.title) && Truthy(f.location)
    ensures var o := PostUpload(svc, parts, f, Disk(Unparsable, files), Written);
            o.reply.data.Some? && o.disk.catalog == Stored(o.reply.data.value)
  {
    HandlerSuccess(svc, parts, f, Disk(Unparsable, files));
  }

  /* ---------- the reader against the upload ---------- */

  /** Every record the reader returns carries the URL under which the
      uploads directory serves its `src`. */
  lemma ReaderUrlsFollowSrc(baseUrl: string, disk: Disk)
    requires CatalogBacked(disk)
    ensures var data := GetGallery(baseUrl, disk.catalog, true).data.value;
            |data| == |Load(disk.catalog)|
            && forall i :: 0 <= i < |data| ==>
                 data[i].record == Load(disk.catalog)[i] && data[i].imageUrl == baseUrl + data[i].record.src
  {
    var rs := Load(disk.catalog);
    forall i | 0 <= i < |rs|
      ensures baseUrl + UploadsPath + rs[i].filename == baseUrl + rs[i].src
    {
      assert rs[i] in rs;
    }
  }

  /** After a successful upload the reader lists the old records followed by
      the new ones, each as the upload returned it. */
  lemma UploadThenRead(svc: Services, parts: seq<Part>, f: Fields, disk: Disk, baseUrl: string)
    requires |parts| > 0 && AllAccepted(parts) && Truthy(f.title) && Truthy(f.location)
    ensures var o := PostUpload(svc, parts, f, disk, Written);
            var before := Load(disk.catalog);
            var data := GetGallery(baseUrl, o.disk.catalog, true).data.value;
            |data| == |before| + |parts|
            && (forall i :: 0 <= i < |before| ==> data[i].record == before[i])
            && forall k :: 0 <= k < |parts| ==> data[|before| + k].record == o.reply.data.value[k]
  {
    HandlerSuccess(svc, parts, f, disk);
    var o := PostUpload(svc, parts, f, disk, Written);
    ReadsAppended(baseUrl, Load(disk.catalog), o.reply.data.value);
  }

  /** Reading a catalog stored as `before + added` lists `before`, then `added`. */
  lemma ReadsAppended(baseUrl: string, before: seq<PhotoRecord>, added: seq<PhotoRecord>)
    ensures var data := GetGallery(baseUrl, Stored(before + added), true).data.value;
            |data| == |before| + |added|
            && (forall i :: 0 <= i < |before| ==> data[i].record == before[i])
            && forall k :: 0 <= k < |added| ==> data[|before| + k].record == added[k]
  {
    var data := GetGallery(baseUrl, Stored(before + added), true).data.value;
    forall k | 0 <= k < |added|
      ensures data[|before| + k].record == added[k]
    {
      assert (before + added)[|before| + k] == added[k];
    }
  }
}
