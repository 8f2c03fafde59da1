/** The booking form (src/components/BookingModal.jsx): the form data as the
    object React keeps (a map from field names to strings, where a missing
    key is `undefined`), the field and package-type transitions, the option
    list, the JSON payload sent to `POST /api/booking`, and the reaction to
    the reply. */
module BookingModal {
  import opened JsValues
  import opened Text
  import opened Backend
  import opened MailForms
  import Tours

  type FormData = map<string, string>

  const InitialData: FormData := map[
    "name" := "", "email" := "", "phone" := "", "travelDates" := "",
    "travelers" := "2", "specialRequests" := "", "selectedPackage" := "",
    "packageType" := "destination"]

  /** The object the form is reset to after a successful booking: it has no
      `selectedPackage` and no `packageType`. */
  const ResetData: FormData := map[
    "name" := "", "email" := "", "phone" := "", "travelDates" := "",
    "travelers" := "2", "specialRequests" := ""]

  const CustomPackage := "Custom Package"
  const ReplyFallbackAlert := "An error occurred. Please try again."
  const ThrownAlert := "An error occurred. Please try again later."

  /** `formData[key]`. */
  function Get(d: FormData, key: string): (r: Option<string>)
    ensures r.Some? <==> key in d
  {
    if key in d then Some(d[key]) else None
  }

  /** Only the given field changes; the other keys keep their values. */
  ghost predicate OnlyChanged(before: FormData, after: FormData, key: string)
  {
    forall k :: k != key ==> Get(after, k) == Get(before, k)
  }

  /* ---------- transitions ---------- */

  /** `handleChange`: `{...formData, [name]: value}`. */
  function HandleChange(d: FormData, name: string, value: string): (e: FormData)
    ensures Get(e, name) == Some(value)
    ensures OnlyChanged(d, e, name)
  {
    d[name := value]
  }

  /** A package-type button: sets the type and clears the chosen package. */
  function SelectType(d: FormData, kind: string): (e: FormData)
    ensures Get(e, "packageType") == Some(kind) && Get(e, "selectedPackage") == Some("")
    ensures forall k :: k != "packageType" && k != "selectedPackage" ==> Get(e, k) == Get(d, k)
  {
    d["packageType" := kind]["selectedPackage" := ""]
  }

  /** Pressing a type button twice is pressing it once, and a later choice of
      package is kept only until the next press. */
  lemma SelectTypeIdempotent(d: FormData, kind: string, choice: string)
    ensures SelectType(SelectType(d, kind), kind) == SelectType(d, kind)
    ensures SelectType(HandleChange(SelectType(d, kind), "selectedPackage", choice), kind) == SelectType(d, kind)
  {
  }

  /* ---------- the option list ---------- */

  datatype Offer = Offer(id: string, name: string, price: string)

  const DestinationOffers: seq<Offer> := [
    Offer("maldives", "Maldives Paradise", "From $2,999"),
    Offer("swiss-alps", "Swiss Alps Adventure", "From $1,899"),
    Offer("tokyo", "Tokyo Culture Tour", "From $2,499"),
    Offer("santorini", "Santorini Sunset", "From $1,699"),
    Offer("safari", "Safari Experience", "From $3,299"),
    Offer("northern-lights", "Northern Lights", "From $2,199")
  ]

  const TourOffers: seq<Offer> := [
    Offer("adventure", "Adventure Tours", "From $899"),
    Offer("cultural", "Cultural Heritage Tours", "From $1,299"),
    Offer("luxury", "Luxury Escapes", "From $2,999"),
    Offer("family", "Family Adventures", "From $599"),
    Offer("honeymoon", "Romantic Getaways", "From $1,999"),
    Offer("group", "Group Expeditions", "From $799")
  ]

  function OptionValue(o: Offer): string
  {
    o.name + " - " + o.price
  }

  /** The list shown: destinations exactly when the type is "destination",
      the tours for any other value, `undefined` included. */
  function OfferList(d: FormData): seq<Offer>
  {
    if Get(d, "packageType") == Some("destination") then DestinationOffers else TourOffers
  }

  /** The option values after the empty placeholder. */
  function Options(d: FormData): (r: seq<string>)
    ensures |r| == |OfferList(d)|
    ensures forall i :: 0 <= i < |r| ==> r[i] == OptionValue(OfferList(d)[i])
  {
    seq(|OfferList(d)|, i requires 0 <= i < |OfferList(d)| => OptionValue(OfferList(d)[i]))
  }

  /** The two buttons switch between the two lists. */
  lemma TypeButtonsSwitchLists(d: FormData)
    ensures OfferList(SelectType(d, "destination")) == DestinationOffers
    ensures OfferList(SelectType(d, "tour")) == TourOffers
  {
    assert "tour" != "destination";
  }

  /** Every option reads as the offer's name, " - ", and its price. */
  lemma OptionNamesOffer(d: FormData, i: nat)
    requires i < |OfferList(d)|
    ensures StartsWith(Options(d)[i], OfferList(d)[i].name)
    ensures Options(d)[i][|OfferList(d)[i].name|..] == " - " + OfferList(d)[i].price
  {
    OptionValueSplits(OfferList(d)[i]);
  }

  lemma OptionValueSplits(o: Offer)
    ensures StartsWith(OptionValue(o), o.name)
    ensures OptionValue(o)[|o.name|..] == " - " + o.price
  {
    assert OptionValue(o) == o.name + (" - " + o.price);
  }

  /* ---------- the payload ---------- */

  /** `packageData?.name || formData.selectedPackage || "Custom Package"`. */
  function PackageName(packageData: Option<Tours.Package>, d: FormData): (r: string)
    ensures r != ""
    ensures packageData.Some? && packageData.value.name != "" ==> r == packageData.value.name
    ensures !(packageData.Some? && packageData.value.name != "") && Truthy(Get(d, "selectedPackage"))
            ==> r == d["selectedPackage"]
    ensures !(packageData.Some? && packageData.value.name != "") && !Truthy(Get(d, "selectedPackage"))
            ==> r == CustomPackage
  {
    var fromPackage := if packageData.Some? then Some(packageData.value.name) else None;
    if Truthy(fromPackage) then fromPackage.value
    else OrElse(Get(d, "selectedPackage"), CustomPackage)
  }

  /** `packageData?.price || ""`. */
  function PackagePrice(packageData: Option<Tours.Package>): string
  {
    if packageData.Some? then packageData.value.price else ""
  }

  /** The JSON body: the form data with the package name and price added;
      `packageType: undefined` is dropped by `JSON.stringify`, so the key is
      present exactly when the form data holds it. */
  function Payload(packageData: Option<Tours.Package>, d: FormData): (p: FormData)
    ensures Get(p, "packageName") == Some(PackageName(packageData, d))
    ensures Get(p, "packagePrice") == Some(PackagePrice(packageData))
    ensures Get(p, "packageType") == Get(d, "packageType")
    ensures forall k :: k != "packageName" && k != "packagePrice" ==> Get(p, k) == Get(d, k)
  {
    d["packageName" := PackageName(packageData, d)]["packagePrice" := PackagePrice(packageData)]
  }

  /** The body as the server's booking route reads it. */
  function AsBookingBody(p: FormData): BookingBody
  {
    BookingBody(Get(p, "packageName"), Get(p, "packagePrice"), Get(p, "name"), Get(p, "email"),
                Get(p, "phone"), Get(p, "travelDates"), Get(p, "travelers"), Get(p, "specialRequests"))
  }

  /** The modal always names a package, so the server rejects its requests
      as incomplete exactly when name, e-mail or travel date is empty or
      the travellers field is missing or empty. */
  lemma ModalBookingCompleteness(packageData: Option<Tours.Package>, d: FormData)
    ensures var b := AsBookingBody(Payload(packageData, d));
            Truthy(b.packageName)
            && (BookingComplete(b) <==>
                  (Truthy(Get(d, "name")) && Truthy(Get(d, "email"))
                   && Truthy(Get(d, "travelDates")) && Truthy(Get(d, "travelers"))))
  {
  }

  /** Opened from a tour card, the request names that tour and its price,
      whatever the form's own package fields hold. */
  lemma TourBookingNamesTour(t: Tours.Tour, d: FormData)
    requires t.title != ""
    ensures var b := AsBookingBody(Payload(Some(Tours.BookingPackage(t)), d));
            b.packageName == Some(t.title) && b.packagePrice == Some(Tours.BookingPackage(t).price)
  {
  }

  /** The initial form sends an incomplete booking: the server answers 400
      and sends no e-mail. */
  lemma InitialFormRejected(v: Validator, packageData: Option<Tours.Package>, mailOk: bool)
    ensures PostBooking(v, AsBookingBody(Payload(packageData, InitialData)), mailOk)
            == Fail(400, BookingRequiredMessage)
  {
    assert Get(Payload(packageData, InitialData), "name") == Some("");
  }

  /* ---------- the reply ---------- */

  /** How the request ended: the server's JSON reply, or an exception. */
  datatype Response = Replied(reply: Reply<()>) | Thrown

  /** The alert shown, the form data afterwards, and whether the modal
      closes. */
  datatype Reaction = Reaction(alert: string, data: FormData, closes: bool)

  /** `alert(result.message)` shows "undefined" for a missing message. */
  function AlertText(m: Option<string>): string
  {
    if m.Some? then m.value else "undefined"
  }

  function React(d: FormData, r: Response): (x: Reaction)
    ensures x.closes <==> r.Replied? && r.reply.success
    ensures x.closes ==> x.data == ResetData
    ensures !x.closes ==> x.data == d
  {
    match r
    case Thrown => Reaction(ThrownAlert, d, false)
    case Replied(reply) =>
      if reply.success then Reaction(AlertText(reply.message), ResetData, true)
      else Reaction(OrElse(reply.message, ReplyFallbackAlert), d, false)
  }

  /** Run against the server's route: the modal closes exactly when the
      booking passes the server's checks and the e-mails go out, and then it
      shows the server's confirmation. */
  lemma ModalAgreesWithServer(v: Validator, packageData: Option<Tours.Package>, d: FormData, mailOk: bool)
    ensures var reply := PostBooking(v, AsBookingBody(Payload(packageData, d)), mailOk);
            var x := React(d, Replied(reply));
            (x.closes <==> CheckBooking(v, AsBookingBody(Payload(packageData, d))).Accepted? && mailOk)
            && (x.closes ==> x.alert == BookingSentMessage)
  {
  }

  /** The reset leaves out the package fields, so afterwards the form no
      longer says "destination" and the option list falls back to the tours,
      unlike the initial form. */
  lemma ResetDropsPackageChoice()
    ensures Get(ResetData, "packageType").None? && Get(ResetData, "selectedPackage").None?
    ensures OfferList(InitialData) == DestinationOffers
    ensures OfferList(ResetData) == TourOffers
    ensures forall k :: k != "packageType" && k != "selectedPackage" ==> Get(ResetData, k) == Get(InitialData, k)
  {
  }

  /* ---------- rendering ---------- */

  /** What the modal renders when open: whether the package section is shown
      (only without a package handed in) and the options it offers. */
  datatype Shown = Shown(packageSection: bool, options: seq<string>)

  function Render(isOpen: bool, packageData: Option<Tours.Package>, d: FormData): (r: Option<Shown>)
    ensures r.None? <==> !isOpen
    ensures r.Some? ==> (r.value.packageSection <==> packageData.None?)
  {
    if !isOpen then None else Some(Shown(packageData.None?, Options(d)))
  }
}
