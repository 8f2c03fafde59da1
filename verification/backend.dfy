/** Pieces of the Express server shared by every route: the JSON reply
    envelope, the errors that reach the error-handling middleware, and the
    input helpers built on the `validator` package. */
module Backend {
  import opened JsValues
  import opened Text

  /** The JSON body every route answers with: `{success, message?, data?}`
      plus the HTTP status. */
  datatype Reply<T> = Reply(status: nat, success: bool, message: Option<string>, data: Option<seq<T>>)

  function Fail<T>(status: nat, message: string): (r: Reply<T>)
    ensures !r.success && r.data.None?
  {
    Reply(status, false, Some(message), None)
  }

  /** An error passed to `next(err)`: one raised by multer with its code, or
      any other `Error` (the file-type filter, the CORS callback). */
  datatype ServerError = MulterError(code: string) | PlainError(message: string)

  const FileSizeLimitCode := "LIMIT_FILE_SIZE"
  const TooLargeMessage := "File too large. Maximum size is 5MB."
  const InternalErrorMessage := "Internal server error."

  /** The error-handling middleware (backend/server.js:642-657). */
  function HandleError<T>(e: ServerError): (r: Reply<T>)
    ensures !r.success && r.data.None?
    ensures r.status == 400 <==> e == MulterError(FileSizeLimitCode)
    ensures r.status == 400 ==> r.message == Some(TooLargeMessage)
    ensures r.status != 400 ==> r.status == 500 && r.message == Some(InternalErrorMessage)
  {
    match e
    case MulterError(code) =>
      if code == FileSizeLimitCode then Fail(400, TooLargeMessage) else Fail(500, InternalErrorMessage)
    case PlainError(_) => Fail(500, InternalErrorMessage)
  }

  /** The two functions of the `validator` package the server calls; their
      behaviour is not part of this model. */
  datatype Validator = Validator(escape: string -> string, isEmail: string -> bool)

  /** `sanitizeInput`: trim, then HTML-escape. */
  function Sanitize(v: Validator, s: string): string
  {
    v.escape(Trim(s))
  }

  /** Surrounding white space never reaches the escaper. */
  lemma SanitizeIgnoresSurroundingSpace(v: Validator, s: string, pad: string)
    requires forall i :: 0 <= i < |pad| ==> IsJsSpace(pad[i])
    ensures Sanitize(v, pad + s + pad) == Sanitize(v, s)
  {
    TrimPadded(s, pad);
  }

  lemma {:induction false} TrimPadded(s: string, pad: string)
    requires forall i :: 0 <= i < |pad| ==> IsJsSpace(pad[i])
    ensures Trim(pad + s + pad) == Trim(s)
  {
    assert pad + s + pad == pad + (s + pad);
    TrimStartPadded(s + pad, pad);
    if exists i :: 0 <= i < |s| && !IsJsSpace(s[i]) {
      TrimStartSuffix(s, pad);
      TrimEndPadded(TrimStart(s), pad);
    } else {
      TrimAllSpace(s);
      TrimAllSpace(s + pad);
    }
  }

  lemma {:induction false} TrimStartPadded(s: string, pad: string)
    requires forall i :: 0 <= i < |pad| ==> IsJsSpace(pad[i])
    ensures TrimStart(pad + s) == TrimStart(s)
    decreases |pad|
  {
    if |pad| > 0 {
      assert (pad + s)[1..] == pad[1..] + s;
      TrimStartPadded(s, pad[1..]);
    } else {
      assert pad + s == s;
    }
  }

  lemma {:induction false} TrimStartSuffix(s: string, pad: string)
    requires forall i :: 0 <= i < |pad| ==> IsJsSpace(pad[i])
    requires exists i :: 0 <= i < |s| && !IsJsSpace(s[i])
    ensures TrimStart(s + pad) == TrimStart(s) + pad
    decreases |s|
  {
    if IsJsSpace(s[0]) {
      assert (s + pad)[1..] == s[1..] + pad;
      var i :| 0 <= i < |s| && !IsJsSpace(s[i]);
      assert i > 0 && s[1..][i - 1] == s[i];
      TrimStartSuffix(s[1..], pad);
    }
  }

  lemma {:induction false} TrimEndPadded(s: string, pad: string)
    requires forall i :: 0 <= i < |pad| ==> IsJsSpace(pad[i])
    ensures TrimEnd(s + pad) == TrimEnd(s)
    decreases |pad|
  {
    if |pad| > 0 {
      assert (s + pad)[..|s + pad| - 1] == s + pad[..|pad| - 1];
      TrimEndPadded(s, pad[..|pad| - 1]);
    } else {
      assert s + pad == s;
    }
  }
}
