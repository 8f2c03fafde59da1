/** The two e-mail routes of the server, `POST /api/contact` and
    `POST /api/booking`: the ordered required-field and e-mail checks, the
    defaults filled in before sanitising, and the replies. Sending the two
    e-mails is a parameter (`mailOk`); their HTML is not modelled. */
module MailForms {
  import opened JsValues
  import opened Text
  import opened Backend
  import Cors

  const InvalidEmailMessage := "Please provide a valid email address."

  /** The outcome of the checks: a 400 message, or the sanitised data. */
  datatype Checked<T> = Rejected(message: string) | Accepted(data: T)

  /** `sanitizeInput(field || fallback)`. */
  function SanitizeOr(v: Validator, field: Option<string>, fallback: string): (r: string)
    ensures Truthy(field) ==> r == Sanitize(v, field.value)
    ensures !Truthy(field) ==> r == Sanitize(v, fallback)
  {
    Sanitize(v, OrElse(field, fallback))
  }

  /** `field ? sanitizeInput(field) : ""`: a missing field is the empty string
      itself, not the escape of it. */
  function SanitizeIfPresent(v: Validator, field: Option<string>): (r: string)
    ensures Truthy(field) ==> r == Sanitize(v, field.value)
    ensures !Truthy(field) ==> r == ""
  {
    if Truthy(field) then Sanitize(v, field.value) else ""
  }

  /* ---------- contact ---------- */

  const ContactRequiredMessage := "Name, email, and message are required fields."
  const ContactSentMessage := "Thank you for your message! We'll get back to you within 24 hours."
  const ContactFailedMessage := "Sorry, there was an error sending your message. Please try again later."

  /** The JSON body of `POST /api/contact`; an absent field is `None`. */
  datatype ContactBody = ContactBody(
    name: Option<string>, email: Option<string>, phone: Option<string>,
    subject: Option<string>, travelDates: Option<string>, travelers: Option<string>,
    budget: Option<string>, message: Option<string>)

  datatype ContactData = ContactData(
    name: string, email: string, phone: string, subject: string,
    travelDates: string, travelers: string, budget: string, message: string)

  predicate ContactComplete(b: ContactBody)
  {
    Truthy(b.name) && Truthy(b.email) && Truthy(b.message)
  }

  /** backend/server.js:155-179: the required fields first, then the e-mail
      address, then sanitising with the defaults filled in. */
  function CheckContact(v: Validator, b: ContactBody): (c: Checked<ContactData>)
    ensures c.Accepted? <==> ContactComplete(b) && v.isEmail(b.email.value)
    ensures !ContactComplete(b) ==> c == Rejected(ContactRequiredMessage)
    ensures ContactComplete(b) && !v.isEmail(b.email.value) ==> c == Rejected(InvalidEmailMessage)
  {
    if !ContactComplete(b) then Rejected(ContactRequiredMessage)
    else if !v.isEmail(b.email.value) then Rejected(InvalidEmailMessage)
    else Accepted(ContactData(
      name := Sanitize(v, b.name.value),
      email := Sanitize(v, b.email.value),
      phone := SanitizeIfPresent(v, b.phone),
      subject := SanitizeOr(v, b.subject, "general"),
      travelDates := SanitizeOr(v, b.travelDates, ""),
      travelers := SanitizeOr(v, b.travelers, "1"),
      budget := SanitizeOr(v, b.budget, ""),
      message := Sanitize(v, b.message.value)))
  }

  /** The whole route; `mailOk` is false when sending either e-mail throws. */
  function PostContact(v: Validator, b: ContactBody, mailOk: bool): (r: Reply<()>)
    ensures r.success <==> r.status == 200
    ensures r.status == 200 <==> CheckContact(v, b).Accepted? && mailOk
    ensures r.status == 500 <==> CheckContact(v, b).Accepted? && !mailOk
    ensures CheckContact(v, b).Rejected? ==> r == Fail(400, CheckContact(v, b).message)
    ensures r.status == 200 ==> r == Reply(200, true, Some(ContactSentMessage), None)
    ensures r.status == 500 ==> r == Fail(500, ContactFailedMessage)
  {
    match CheckContact(v, b)
    case Rejected(m) => Fail(400, m)
    case Accepted(_) =>
      if mailOk then Reply(200, true, Some(ContactSentMessage), None)
      else Fail(500, ContactFailedMessage)
  }

  /** The whole contact request. The global `cors` stage
      (backend/server.js:24-51) runs before the route, and a refused origin
      gets the error handler's 500 before any check or e-mail. */
  function ContactRequest(origin: Option<string>, frontendUrl: Option<string>,
                          v: Validator, b: ContactBody, mailOk: bool): (r: Reply<()>)
    ensures r.status == 200 <==>
              Cors.CheckOrigin(origin, frontendUrl) == Cors.Allow && CheckContact(v, b).Accepted? && mailOk
    ensures Cors.CheckOrigin(origin, frontendUrl) == Cors.Reject ==> r == Fail(500, InternalErrorMessage)
    ensures Cors.CheckOrigin(origin, frontendUrl) == Cors.Allow ==> r == PostContact(v, b, mailOk)
  {
    match Cors.CorsReply<()>(origin, frontendUrl)
    case Some(reply) => reply
    case None => PostContact(v, b, mailOk)
  }

  /** A contact request with only the three required fields gets the
      documented defaults: subject "general", one traveller, the other
      optional fields empty. */
  lemma ContactDefaults(v: Validator, name: string, email: string, message: string)
    requires name != "" && email != "" && message != "" && v.isEmail(email)
    ensures var c := CheckContact(v, ContactBody(Some(name), Some(email), None, None, None, None, None, Some(message)));
            c.Accepted?
            && c.data.subject == Sanitize(v, "general")
            && c.data.travelers == Sanitize(v, "1")
            && c.data.travelDates == Sanitize(v, "") && c.data.budget == Sanitize(v, "")
            && c.data.phone == ""
  {
  }

  /** The required-field check comes first: an incomplete request never
      reaches the e-mail validator, and the route sends nothing. */
  lemma ContactMissingFieldFirst(v: Validator, b: ContactBody, mailOk: bool)
    requires !ContactComplete(b)
    ensures PostContact(v, b, mailOk) == Fail(400, ContactRequiredMessage)
    ensures forall w: Validator :: CheckContact(w, b) == CheckContact(v, b)
  {
  }

  /** A complete request with an address the validator refuses gets 400
      with the e-mail message, and nothing is sent. */
  lemma ContactInvalidEmail(v: Validator, b: ContactBody, mailOk: bool)
    requires ContactComplete(b) && !v.isEmail(b.email.value)
    ensures PostContact(v, b, mailOk) == Fail(400, InvalidEmailMessage)
  {
  }

  /** Padding the name with white space does not change what is sent. */
  lemma ContactNamePadding(v: Validator, b: ContactBody, pad: string)
    requires ContactComplete(b) && v.isEmail(b.email.value)
    requires |pad| > 0 && forall i :: 0 <= i < |pad| ==> IsJsSpace(pad[i])
    ensures CheckContact(v, b.(name := Some(pad + b.name.value + pad))) == CheckContact(v, b)
  {
    SanitizeIgnoresSurroundingSpace(v, b.name.value, pad);
  }

  /* ---------- booking ---------- */

  const BookingRequiredMessage := "Package name, name, email, travel dates, and number of travelers are required."
  const BookingSentMessage := "Booking request submitted successfully! We'll contact you within 24 hours."
  const BookingFailedMessage := "Sorry, there was an error processing your booking. Please try again later."

  /** The JSON body of `POST /api/booking`. */
  datatype BookingBody = BookingBody(
    packageName: Option<string>, packagePrice: Option<string>, name: Option<string>,
    email: Option<string>, phone: Option<string>, travelDates: Option<string>,
    travelers: Option<string>, specialRequests: Option<string>)

  datatype BookingData = BookingData(
    packageName: string, packagePrice: string, name: string, email: string,
    phone: string, travelDates: string, travelers: string, specialRequests: string)

  predicate BookingComplete(b: BookingBody)
  {
    Truthy(b.packageName) && Truthy(b.name) && Truthy(b.email)
    && Truthy(b.travelDates) && Truthy(b.travelers)
  }

  /** backend/server.js:326-351. */
  function CheckBooking(v: Validator, b: BookingBody): (c: Checked<BookingData>)
    ensures c.Accepted? <==> BookingComplete(b) && v.isEmail(b.email.value)
    ensures !BookingComplete(b) ==> c == Rejected(BookingRequiredMessage)
    ensures BookingComplete(b) && !v.isEmail(b.email.value) ==> c == Rejected(InvalidEmailMessage)
  {
    if !BookingComplete(b) then Rejected(BookingRequiredMessage)
    else if !v.isEmail(b.email.value) then Rejected(InvalidEmailMessage)
    else Accepted(BookingData(
      packageName := Sanitize(v, b.packageName.value),
      packagePrice := SanitizeOr(v, b.packagePrice, ""),
      name := Sanitize(v, b.name.value),
      email := Sanitize(v, b.email.value),
      phone := SanitizeIfPresent(v, b.phone),
      travelDates := Sanitize(v, b.travelDates.value),
      travelers := Sanitize(v, b.travelers.value),
      specialRequests := SanitizeIfPresent(v, b.specialRequests)))
  }

  function PostBooking(v: Validator, b: BookingBody, mailOk: bool): (r: Reply<()>)
    ensures r.success <==> r.status == 200
    ensures r.status == 200 <==> CheckBooking(v, b).Accepted? && mailOk
    ensures r.status == 500 <==> CheckBooking(v, b).Accepted? && !mailOk
    ensures CheckBooking(v, b).Rejected? ==> r == Fail(400, CheckBooking(v, b).message)
    ensures r.status == 200 ==> r == Reply(200, true, Some(BookingSentMessage), None)
    ensures r.status == 500 ==> r == Fail(500, BookingFailedMessage)
  {
    match CheckBooking(v, b)
    case Rejected(m) => Fail(400, m)
    case Accepted(_) =>
      if mailOk then Reply(200, true, Some(BookingSentMessage), None)
      else Fail(500, BookingFailedMessage)
  }

  /** The whole booking request, behind the `cors` stage like the contact
      request. */
  function BookingRequest(origin: Option<string>, frontendUrl: Option<string>,
                          v: Validator, b: BookingBody, mailOk: bool): (r: Reply<()>)
    ensures r.status == 200 <==>
              Cors.CheckOrigin(origin, frontendUrl) == Cors.Allow && CheckBooking(v, b).Accepted? && mailOk
    ensures Cors.CheckOrigin(origin, frontendUrl) == Cors.Reject ==> r == Fail(500, InternalErrorMessage)
    ensures Cors.CheckOrigin(origin, frontendUrl) == Cors.Allow ==> r == PostBooking(v, b, mailOk)
  {
    match Cors.CorsReply<()>(origin, frontendUrl)
    case Some(reply) => reply
    case None => PostBooking(v, b, mailOk)
  }

  /** A foreign origin is refused 500 on both e-mail routes, even with a
      working transport and a complete, valid body: nothing is sent. */
  lemma ForeignOriginSendsNothing(frontendUrl: Option<string>, v: Validator, c: ContactBody,
                                  b: BookingBody, mailOk: bool)
    requires frontendUrl != Some(Cors.EvilOrigin)
    ensures ContactRequest(Some(Cors.EvilOrigin), frontendUrl, v, c, mailOk) == Fail(500, InternalErrorMessage)
    ensures BookingRequest(Some(Cors.EvilOrigin), frontendUrl, v, b, mailOk) == Fail(500, InternalErrorMessage)
  {
    Cors.EvilOriginRejected(frontendUrl);
  }

  /** A booking without price, phone or special requests: the price is the
      escape of the empty string, the other two the empty string itself. */
  lemma BookingDefaults(v: Validator, b: BookingBody)
    requires BookingComplete(b) && v.isEmail(b.email.value)
    requires b.packagePrice.None? && b.phone.None? && b.specialRequests.None?
    ensures var c := CheckBooking(v, b);
            c.Accepted? && c.data.packagePrice == Sanitize(v, "")
            && c.data.phone == "" && c.data.specialRequests == ""
  {
  }

  /** A complete booking with an address the validator refuses gets 400
      with the e-mail message, and nothing is sent. */
  lemma BookingInvalidEmail(v: Validator, b: BookingBody, mailOk: bool)
    requires BookingComplete(b) && !v.isEmail(b.email.value)
    ensures PostBooking(v, b, mailOk) == Fail(400, InvalidEmailMessage)
  {
  }

  /** An empty string counts as missing, exactly like an absent field. */
  lemma BookingEmptyIsMissing(v: Validator, b: BookingBody)
    ensures CheckBooking(v, b.(travelDates := Some(""))) == CheckBooking(v, b.(travelDates := None))
  {
  }

  /* ---------- the mail transport ---------- */

  /** What `createTransporter()` yields: the factory named in the code does
      not exist on the nodemailer module (its factory is `createTransport`),
      so the call throws; a working transport either delivers both e-mails
      or throws while sending. */
  datatype Mailer = NoSuchFactory | Transport(delivers: bool)

  /** Whether the two `sendMail` calls complete. */
  predicate MailSent(m: Mailer)
  {
    m.Transport? && m.delivers
  }

  /** The transport the routes obtain as written. */
  const AsWrittenMailer := NoSuchFactory

  /** As written: every contact request that passes the checks is answered
      500, because obtaining the transport throws. */
  lemma ContactAsWrittenFails(v: Validator, b: ContactBody)
    requires ContactComplete(b) && v.isEmail(b.email.value)
    ensures PostContact(v, b, MailSent(AsWrittenMailer)) == Fail(500, ContactFailedMessage)
  {
  }

  /** As written: likewise every booking that passes the checks. */
  lemma BookingAsWrittenFails(v: Validator, b: BookingBody)
    requires BookingComplete(b) && v.isEmail(b.email.value)
    ensures PostBooking(v, b, MailSent(AsWrittenMailer)) == Fail(500, BookingFailedMessage)
  {
  }

  /** Corrected: with nodemailer's `createTransport` and a transport that
      delivers, a request passing the checks is answered 200 with the
      confirmation, for both routes. */
  lemma CorrectedMailerConfirms(v: Validator, c: ContactBody, b: BookingBody)
    ensures ContactComplete(c) && v.isEmail(c.email.value) ==>
              PostContact(v, c, MailSent(Transport(true))) == Reply(200, true, Some(ContactSentMessage), None)
    ensures BookingComplete(b) && v.isEmail(b.email.value) ==>
              PostBooking(v, b, MailSent(Transport(true))) == Reply(200, true, Some(BookingSentMessage), None)
  {
  }
}
