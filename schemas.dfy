/** The entity schemas of the auto-detailing backend: Service, Booking,
    Testimonial and ContactMessage, each a set of required and optional
    fields with bounds and defaults, and the BookingResponse shape.
    Validation turns a document into a typed entity or into the list of
    every offending field, in declaration order. */
module Schemas {
  import opened Wrappers
  import opened Documents

  /** Which constraint a field broke. */
  datatype ErrorKind = Missing | WrongType | BelowMinimum | AboveMaximum | TooShort | NotEmail

  datatype FieldError = FieldError(field: string, kind: ErrorKind)

  /** The email-format check performed by the validation library; the model
      keeps it abstract, so every property below holds for any such check. */
  type EmailCheck = string -> bool

  function ErrorsOf<T>(r: Result<T, FieldError>): seq<FieldError>
  {
    if r.Success? then [] else [r.error]
  }

  // ---------------------------------------------------------------------
  // Field readers: one per kind of field declaration.

  /** A required string field. */
  function RequiredText(d: Document, k: string): Result<string, FieldError>
  {
    if k !in d then Failure(FieldError(k, Missing))
    else if d[k].Text? then Success(d[k].s)
    else Failure(FieldError(k, WrongType))
  }

  /** A string field with a default value. */
  function TextOr(d: Document, k: string, default: string): Result<string, FieldError>
  {
    if k !in d then Success(default)
    else if d[k].Text? then Success(d[k].s)
    else Failure(FieldError(k, WrongType))
  }

  /** An optional field is left out or sent as null. */
  predicate AbsentOrNull(d: Document, k: string)
  {
    k !in d || d[k].Null?
  }

  /** An optional string field defaulting to None. */
  function OptionalText(d: Document, k: string): Result<Option<string>, FieldError>
  {
    if AbsentOrNull(d, k) then Success(None)
    else if d[k].Text? then Success(Some(d[k].s))
    else Failure(FieldError(k, WrongType))
  }

  /** A required string field with a minimum length. */
  function TextAtLeast(d: Document, k: string, minLength: nat): Result<string, FieldError>
  {
    match RequiredText(d, k)
    case Failure(e) => Failure(e)
    case Success(s) => if |s| < minLength then Failure(FieldError(k, TooShort)) else Success(s)
  }

  /** A required string field holding an email address. */
  function RequiredEmail(d: Document, k: string, isEmail: EmailCheck): Result<string, FieldError>
  {
    match RequiredText(d, k)
    case Failure(e) => Failure(e)
    case Success(s) => if isEmail(s) then Success(s) else Failure(FieldError(k, NotEmail))
  }

  /** The bound check `ge=lo, le=hi` on an integer. */
  function Bounded(k: string, x: int, lo: int, hi: int): Result<int, FieldError>
  {
    if x < lo then Failure(FieldError(k, BelowMinimum))
    else if x > hi then Failure(FieldError(k, AboveMaximum))
    else Success(x)
  }

  /** A required integer field with bounds. */
  function RequiredIntIn(d: Document, k: string, lo: int, hi: int): Result<int, FieldError>
  {
    if k !in d then Failure(FieldError(k, Missing))
    else if d[k].Integer? then Bounded(k, d[k].i, lo, hi)
    else Failure(FieldError(k, WrongType))
  }

  /** An optional integer field defaulting to None, without bounds. */
  function OptionalInt(d: Document, k: string): Result<Option<int>, FieldError>
  {
    if AbsentOrNull(d, k) then Success(None)
    else if d[k].Integer? then Success(Some(d[k].i))
    else Failure(FieldError(k, WrongType))
  }

  /** An optional integer field defaulting to None; the bounds apply only
      to a present integer. */
  function OptionalIntIn(d: Document, k: string, lo: int, hi: int): Result<Option<int>, FieldError>
  {
    match OptionalInt(d, k)
    case Success(Some(x)) =>
      (match Bounded(k, x, lo, hi)
       case Success(_) => Success(Some(x))
       case Failure(e) => Failure(e))
    case other => other
  }

  /** A value a number field accepts: an integer or a number. */
  predicate Numeric(v: Value)
  {
    v.Integer? || v.Number?
  }

  /** The numeric value of an integer or a number. */
  function RealOf(v: Value): real
    requires Numeric(v)
  {
    if v.Integer? then v.i as real else v.r
  }

  /** A required number field (an integer is accepted as a number) with a
      lower bound. */
  function RequiredNumberAtLeast(d: Document, k: string, lo: real): Result<real, FieldError>
  {
    if k !in d then Failure(FieldError(k, Missing))
    else if !Numeric(d[k]) then Failure(FieldError(k, WrongType))
    else if RealOf(d[k]) < lo then Failure(FieldError(k, BelowMinimum))
    else Success(RealOf(d[k]))
  }

  function TextValue(o: Option<string>): Value
  {
    if o.Some? then Text(o.value) else Null
  }

  function IntValue(o: Option<int>): Value
  {
    if o.Some? then Integer(o.value) else Null
  }

  // ---------------------------------------------------------------------
  // Service

  const MinDuration := 15
  const MaxDuration := 600
  const MinPrice := 0.0
  const DefaultCategory := "Exterior"

  const ServiceFields: set<string> := {"title", "description", "duration_minutes", "price", "category"}
  const ServiceRequired: set<string> := {"title", "description", "duration_minutes", "price"}

  datatype Service = Service(title: string, description: string, durationMinutes: int, price: real, category: string)
  {
    predicate Valid()
    {
      MinDuration <= durationMinutes <= MaxDuration && price >= MinPrice
    }
  }

  /** What a document must hold to be a Service: title and description as
      text, an integer duration in 15..600, an integer or number price of at
      least 0, and a text category or none. */
  predicate ServiceAccepted(d: Document)
  {
    "title" in d && d["title"].Text? && "description" in d && d["description"].Text?
    && "duration_minutes" in d && d["duration_minutes"].Integer?
    && MinDuration <= d["duration_minutes"].i <= MaxDuration
    && "price" in d && Numeric(d["price"]) && RealOf(d["price"]) >= MinPrice
    && ("category" !in d || d["category"].Text?)
  }

  /** Validates a document as a Service. */
  function ServiceFrom(d: Document): (r: Result<Service, seq<FieldError>>)
    ensures r.Success? ==> r.value.Valid()
    ensures r.Success? ==>
              ServiceAccepted(d)
              && r.value == Service(d["title"].s, d["description"].s, d["duration_minutes"].i, RealOf(d["price"]),
                                    if "category" in d then d["category"].s else DefaultCategory)
    ensures r.Failure? ==> r.error != []
  {
    var title := RequiredText(d, "title");
    var description := RequiredText(d, "description");
    var duration := RequiredIntIn(d, "duration_minutes", MinDuration, MaxDuration);
    var price := RequiredNumberAtLeast(d, "price", MinPrice);
    var category := TextOr(d, "category", DefaultCategory);
    if title.Success? && description.Success? && duration.Success? && price.Success? && category.Success? then
      Success(Service(title.value, description.value, duration.value, price.value, category.value))
    else
      Failure(ErrorsOf(title) + ErrorsOf(description) + ErrorsOf(duration) + ErrorsOf(price) + ErrorsOf(category))
  }

  /** The document a Service serialises to: its five fields and nothing else. */
  function ServiceToDoc(s: Service): (d: Document)
    ensures d.Keys == ServiceFields
  {
    map["title" := Text(s.title), "description" := Text(s.description),
        "duration_minutes" := Integer(s.durationMinutes), "price" := Number(s.price),
        "category" := Text(s.category)]
  }

  /** A document validates as a Service exactly when it holds the fields a
      Service needs; a duration outside 15..600 or a negative price, given
      as an integer or a number, is rejected with an error on that field. */
  lemma ServiceAcceptance(d: Document)
    ensures ServiceFrom(d).Success? <==> ServiceAccepted(d)
    ensures "duration_minutes" in d && d["duration_minutes"].Integer? && d["duration_minutes"].i > MaxDuration ==>
              ServiceFrom(d).Failure? && FieldError("duration_minutes", AboveMaximum) in ServiceFrom(d).error
    ensures "duration_minutes" in d && d["duration_minutes"].Integer? && d["duration_minutes"].i < MinDuration ==>
              ServiceFrom(d).Failure? && FieldError("duration_minutes", BelowMinimum) in ServiceFrom(d).error
    ensures "price" in d && Numeric(d["price"]) && RealOf(d["price"]) < MinPrice ==>
              ServiceFrom(d).Failure? && FieldError("price", BelowMinimum) in ServiceFrom(d).error
  {
  }

  /** Serialising a Service and validating the document gives the Service
      back exactly when it satisfies the bounds; otherwise validation fails. */
  lemma ServiceRoundTrip(s: Service)
    ensures ServiceFrom(ServiceToDoc(s)).Success? <==> s.Valid()
    ensures s.Valid() ==> ServiceFrom(ServiceToDoc(s)) == Success(s)
  {
  }

  /** A document without a category validates exactly as one whose category
      is "Exterior". */
  lemma ServiceCategoryDefault(d: Document)
    requires "category" !in d
    ensures ServiceFrom(d) == ServiceFrom(d["category" := Text(DefaultCategory)])
    ensures ServiceFrom(d).Success? ==> ServiceFrom(d).value.category == DefaultCategory
  {
  }

  /** Validation looks only at the five Service fields: any other field,
      the storage identifier included, is ignored. */
  lemma ServiceIgnoresOtherFields(d: Document, e: Document)
    requires forall k :: k in ServiceFields ==> (k in d <==> k in e)
    requires forall k :: k in ServiceFields && k in d ==> d[k] == e[k]
    ensures ServiceFrom(d) == ServiceFrom(e)
  {
    assert "title" in ServiceFields && "description" in ServiceFields;
    assert "duration_minutes" in ServiceFields && "price" in ServiceFields && "category" in ServiceFields;
  }

  // ---------------------------------------------------------------------
  // Booking

  const MinVehicleYear := 1900
  const MaxVehicleYear := 2100
  const DefaultStatus := "pending"

  const BookingFields: set<string> :=
    {"name", "email", "phone", "vehicle_make", "vehicle_model", "vehicle_year",
     "service_id", "preferred_date", "notes", "status"}
  const BookingRequired: set<string> := {"name", "email", "phone", "vehicle_make", "vehicle_model"}

  /** An absent vehicle year is accepted; a present one must lie in range. */
  predicate YearAccepted(year: Option<int>)
  {
    year.None? || MinVehicleYear <= year.value <= MaxVehicleYear
  }

  datatype Booking = Booking(
    name: string, email: string, phone: string, vehicleMake: string, vehicleModel: string,
    vehicleYear: Option<int>, serviceId: Option<string>, preferredDate: Option<string>,
    notes: Option<string>, status: string)
  {
    /** The only constraints: the email check and the year range. The status
        is free text and the optional strings are unconstrained. */
    predicate Valid(isEmail: EmailCheck)
    {
      isEmail(email) && YearAccepted(vehicleYear)
    }
  }

  /** Validates a document as a Booking. */
  function BookingFrom(d: Document, isEmail: EmailCheck): (r: Result<Booking, seq<FieldError>>)
    ensures r.Success? ==> r.value.Valid(isEmail)
    ensures r.Success? ==> (r.value.vehicleYear.None? <==> AbsentOrNull(d, "vehicle_year"))
    ensures r.Success? ==> (r.value.serviceId.None? <==> AbsentOrNull(d, "service_id"))
    ensures r.Success? ==> (r.value.preferredDate.None? <==> AbsentOrNull(d, "preferred_date"))
    ensures r.Success? ==> (r.value.notes.None? <==> AbsentOrNull(d, "notes"))
    ensures r.Success? ==>
              (forall k :: k in BookingRequired ==> k in d && d[k].Text?)
              && r.value.name == d["name"].s && r.value.email == d["email"].s && r.value.phone == d["phone"].s
              && r.value.vehicleMake == d["vehicle_make"].s && r.value.vehicleModel == d["vehicle_model"].s
    ensures r.Success? && !AbsentOrNull(d, "vehicle_year") ==>
              d["vehicle_year"].Integer? && r.value.vehicleYear == Some(d["vehicle_year"].i)
    ensures r.Success? && !AbsentOrNull(d, "service_id") ==>
              d["service_id"].Text? && r.value.serviceId == Some(d["service_id"].s)
    ensures r.Success? && !AbsentOrNull(d, "preferred_date") ==>
              d["preferred_date"].Text? && r.value.preferredDate == Some(d["preferred_date"].s)
    ensures r.Success? && !AbsentOrNull(d, "notes") ==>
              d["notes"].Text? && r.value.notes == Some(d["notes"].s)
    ensures r.Success? && "status" in d ==> d["status"].Text? && r.value.status == d["status"].s
    ensures r.Success? && "status" !in d ==> r.value.status == DefaultStatus
    ensures r.Failure? ==> r.error != []
  {
    var name := RequiredText(d, "name");
    var email := RequiredEmail(d, "email", isEmail);
    var phone := RequiredText(d, "phone");
    var make := RequiredText(d, "vehicle_make");
    var model := RequiredText(d, "vehicle_model");
    var year := OptionalIntIn(d, "vehicle_year", MinVehicleYear, MaxVehicleYear);
    var serviceId := OptionalText(d, "service_id");
    var preferredDate := OptionalText(d, "preferred_date");
    var notes := OptionalText(d, "notes");
    var status := TextOr(d, "status", DefaultStatus);
    if name.Success? && email.Success? && phone.Success? && make.Success? && model.Success?
       && year.Success? && serviceId.Success? && preferredDate.Success? && notes.Success? && status.Success?
    then
      Success(Booking(name.value, email.value, phone.value, make.value, model.value,
                      year.value, serviceId.value, preferredDate.value, notes.value, status.value))
    else
      Failure(ErrorsOf(name) + ErrorsOf(email) + ErrorsOf(phone) + ErrorsOf(make) + ErrorsOf(model)
              + ErrorsOf(year) + ErrorsOf(serviceId) + ErrorsOf(preferredDate) + ErrorsOf(notes)
              + ErrorsOf(status))
  }

  /** The document a Booking serialises to: its ten fields, absent optional
      values as null. */
  function BookingToDoc(b: Booking): (d: Document)
    ensures d.Keys == BookingFields
  {
    map["name" := Text(b.name), "email" := Text(b.email), "phone" := Text(b.phone),
        "vehicle_make" := Text(b.vehicleMake), "vehicle_model" := Text(b.vehicleModel),
        "vehicle_year" := IntValue(b.vehicleYear), "service_id" := TextValue(b.serviceId),
        "preferred_date" := TextValue(b.preferredDate), "notes" := TextValue(b.notes),
        "status" := Text(b.status)]
  }

  /** Any string is accepted as a status, not only the four documented ones:
      replacing the status text never changes whether a booking validates,
      and the given text is kept. */
  lemma BookingStatusIsFreeText(d: Document, status: string, isEmail: EmailCheck)
    ensures BookingFrom(d["status" := Text(status)], isEmail).Success?
            <==> BookingFrom(d - {"status"}, isEmail).Success?
    ensures BookingFrom(d["status" := Text(status)], isEmail).Success?
            ==> BookingFrom(d["status" := Text(status)], isEmail).value.status == status
    ensures BookingFrom(d - {"status"}, isEmail).Success?
            ==> BookingFrom(d - {"status"}, isEmail).value.status == DefaultStatus
  {
  }

  /** A body with only the five required fields, all text, validates
      exactly when the email passes the check, into a Booking with no
      optional value and status "pending". */
  lemma BookingOptionalDefaults(d: Document, isEmail: EmailCheck)
    requires d.Keys == BookingRequired
    requires forall k :: k in d ==> d[k].Text?
    ensures BookingFrom(d, isEmail).Success? <==> isEmail(d["email"].s)
    ensures isEmail(d["email"].s) ==>
              BookingFrom(d, isEmail)
              == Success(Booking(d["name"].s, d["email"].s, d["phone"].s, d["vehicle_make"].s,
                                 d["vehicle_model"].s, None, None, None, None, DefaultStatus))
  {
    assert "status" !in d && "vehicle_year" !in d;
  }

  /** Serialising a Booking and validating the document gives it back
      exactly when it is valid. */
  lemma BookingRoundTrip(b: Booking, isEmail: EmailCheck)
    ensures BookingFrom(BookingToDoc(b), isEmail).Success? <==> b.Valid(isEmail)
    ensures b.Valid(isEmail) ==> BookingFrom(BookingToDoc(b), isEmail) == Success(b)
  {
  }

  // ---------------------------------------------------------------------
  // Testimonial

  const MinRating := 1
  const MaxRating := 5

  const TestimonialRequired: set<string> := {"name", "rating", "comment"}

  datatype Testimonial = Testimonial(name: string, rating: int, comment: string)
  {
    predicate Valid()
    {
      MinRating <= rating <= MaxRating
    }
  }

  /** Validates a document as a Testimonial. */
  function TestimonialFrom(d: Document): (r: Result<Testimonial, seq<FieldError>>)
    ensures r.Success? ==> r.value.Valid()
    ensures r.Success? ==>
              (forall k :: k in TestimonialRequired ==> k in d)
              && d["name"].Text? && d["rating"].Integer? && d["comment"].Text?
              && r.value == Testimonial(d["name"].s, d["rating"].i, d["comment"].s)
    ensures r.Failure? ==> r.error != []
  {
    var name := RequiredText(d, "name");
    var rating := RequiredIntIn(d, "rating", MinRating, MaxRating);
    var comment := RequiredText(d, "comment");
    if name.Success? && rating.Success? && comment.Success? then
      Success(Testimonial(name.value, rating.value, comment.value))
    else
      Failure(ErrorsOf(name) + ErrorsOf(rating) + ErrorsOf(comment))
  }

  function TestimonialToDoc(t: Testimonial): (d: Document)
    ensures d.Keys == TestimonialRequired
  {
    map["name" := Text(t.name), "rating" := Integer(t.rating), "comment" := Text(t.comment)]
  }

  /** A testimonial validates exactly when its rating lies in 1..5. */
  lemma TestimonialRoundTrip(t: Testimonial)
    ensures TestimonialFrom(TestimonialToDoc(t)).Success? <==> t.Valid()
    ensures t.Valid() ==> TestimonialFrom(TestimonialToDoc(t)) == Success(t)
  {
  }

  // ---------------------------------------------------------------------
  // ContactMessage

  const MinMessageLength := 5

  const ContactMessageFields: set<string> := {"name", "email", "message"}

  datatype ContactMessage = ContactMessage(name: string, email: string, message: string)
  {
    predicate Valid(isEmail: EmailCheck)
    {
      isEmail(email) && |message| >= MinMessageLength
    }
  }

  /** Validates a document as a ContactMessage. */
  function ContactMessageFrom(d: Document, isEmail: EmailCheck): (r: Result<ContactMessage, seq<FieldError>>)
    ensures r.Success? ==> r.value.Valid(isEmail)
    ensures r.Success? ==>
              (forall k :: k in ContactMessageFields ==> k in d && d[k].Text?)
              && r.value == ContactMessage(d["name"].s, d["email"].s, d["message"].s)
    ensures r.Failure? ==> r.error != []
  {
    var name := RequiredText(d, "name");
    var email := RequiredEmail(d, "email", isEmail);
    var message := TextAtLeast(d, "message", MinMessageLength);
    if name.Success? && email.Success? && message.Success? then
      Success(ContactMessage(name.value, email.value, message.value))
    else
      Failure(ErrorsOf(name) + ErrorsOf(email) + ErrorsOf(message))
  }

  function ContactMessageToDoc(m: ContactMessage): (d: Document)
    ensures d.Keys == ContactMessageFields
  {
    map["name" := Text(m.name), "email" := Text(m.email), "message" := Text(m.message)]
  }

  /** A contact message validates exactly when the email passes the check and
      the message has at least five characters: four are rejected, five
      accepted. */
  lemma ContactMessageRule(name: string, email: string, message: string, isEmail: EmailCheck)
    ensures ContactMessageFrom(ContactMessageToDoc(ContactMessage(name, email, message)), isEmail).Success?
            <==> isEmail(email) && |message| >= MinMessageLength
    ensures isEmail(email) && |message| == 4
            ==> ContactMessageFrom(ContactMessageToDoc(ContactMessage(name, email, message)), isEmail)
                == Failure([FieldError("message", TooShort)])
    ensures isEmail(email) && |message| == 5
            ==> ContactMessageFrom(ContactMessageToDoc(ContactMessage(name, email, message)), isEmail)
                == Success(ContactMessage(name, email, message))
  {
    var d := ContactMessageToDoc(ContactMessage(name, email, message));
    assert RequiredText(d, "name") == Success(name);
    assert RequiredText(d, "message") == Success(message);
    if isEmail(email) {
      assert RequiredEmail(d, "email", isEmail) == Success(email);
      if |message| == 4 {
        assert TextAtLeast(d, "message", MinMessageLength) == Failure(FieldError("message", TooShort));
        assert [] + [] + [FieldError("message", TooShort)] == [FieldError("message", TooShort)];
      }
    }
  }

  // ---------------------------------------------------------------------
  // Missing required fields

  /** A document that lacks a required field of an entity never validates
      as that entity, and the error names the missing field. */
  lemma MissingRequiredFieldFails(d: Document, k: string, isEmail: EmailCheck)
    requires k !in d
    ensures k in ServiceRequired ==>
              ServiceFrom(d).Failure? && FieldError(k, Missing) in ServiceFrom(d).error
    ensures k in BookingRequired ==>
              BookingFrom(d, isEmail).Failure? && FieldError(k, Missing) in BookingFrom(d, isEmail).error
    ensures k in TestimonialRequired ==>
              TestimonialFrom(d).Failure? && FieldError(k, Missing) in TestimonialFrom(d).error
    ensures k in ContactMessageFields ==>
              ContactMessageFrom(d, isEmail).Failure? && FieldError(k, Missing) in ContactMessageFrom(d, isEmail).error
  {
  }

  // ---------------------------------------------------------------------
  // BookingResponse

  /** The reply to a booking: the new record's identifier and a message.
      The optional creation time is never set and is not modelled. */
  datatype BookingResponse = BookingResponse(id: nat, message: string)
}
