/** The request handlers of the auto-detailing backend over the shared
    document store: list services, create a booking, submit a contact
    message and seed the sample services. Each handler that changes the
    store is a method on a `Store`, tied by its postcondition to a
    specification function on `StoreState`; the lemmas below state what
    the handlers promise in terms of those functions. */
module Handlers {
  import opened Wrappers
  import opened Documents
  import opened Schemas
  import opened DocStore

  const ServiceCollection := "service"
  const BookingCollection := "booking"
  const ContactCollection := "contactmessage"

  /** `read_root`'s message. */
  const ReadyMessage := "Auto Detailer Backend Ready"
  const BookingReceived := "Booking received. We'll confirm shortly."
  const ContactReceived := "Thanks for reaching out! We'll get back soon."
  const Seeded := "Seeded sample services"
  const AlreadySeeded := "Services already seeded"

  /** How a request fails: its body does not validate as the handler's
      parameter type (the framework rejects it before the handler runs),
      the store is not connected, or an entity failed validation inside the
      handler (an uncaught validation error). */
  datatype HandlerError = RequestRejected(errors: seq<FieldError>) | Unavailable | ValidationFailed(errors: seq<FieldError>)

  /** The HTTP status each failure is reported with. */
  function StatusCode(e: HandlerError): int
  {
    match e
    case RequestRejected(_) => 422
    case Unavailable => 503
    case ValidationFailed(_) => 500
  }

  /** A handler's outcome: the store afterwards and the response. */
  datatype Step<T> = Step(state: StoreState, response: Result<T, HandlerError>)

  // ---------------------------------------------------------------------
  // BookingCreate: the request body of POST /book

  const BookingCreateFields: set<string> :=
    {"name", "email", "phone", "vehicle_make", "vehicle_model", "vehicle_year",
     "service_id", "preferred_date", "notes"}

  /** The booking request: email is plain text and the year has no bounds. */
  datatype BookingCreate = BookingCreate(
    name: string, email: string, phone: string, vehicleMake: string, vehicleModel: string,
    vehicleYear: Option<int>, serviceId: Option<string>, preferredDate: Option<string>,
    notes: Option<string>)

  /** Parses a request body as a BookingCreate. */
  function BookingCreateFrom(d: Document): (r: Result<BookingCreate, seq<FieldError>>)
    ensures r.Failure? ==> r.error != []
    ensures r.Success? ==> forall k :: k in BookingRequired ==> k in d && d[k].Text?
    ensures r.Success? ==> (r.value.vehicleYear.None? <==> AbsentOrNull(d, "vehicle_year"))
    ensures r.Success? ==> (r.value.serviceId.None? <==> AbsentOrNull(d, "service_id"))
    ensures r.Success? ==> (r.value.preferredDate.None? <==> AbsentOrNull(d, "preferred_date"))
    ensures r.Success? ==> (r.value.notes.None? <==> AbsentOrNull(d, "notes"))
    ensures r.Success? ==>
              r.value.name == d["name"].s && r.value.email == d["email"].s && r.value.phone == d["phone"].s
              && r.value.vehicleMake == d["vehicle_make"].s && r.value.vehicleModel == d["vehicle_model"].s
    ensures r.Success? && !AbsentOrNull(d, "vehicle_year") ==>
              d["vehicle_year"].Integer? && r.value.vehicleYear == Some(d["vehicle_year"].i)
    ensures r.Success? && !AbsentOrNull(d, "service_id") ==>
              d["service_id"].Text? && r.value.serviceId == Some(d["service_id"].s)
    ensures r.Success? && !AbsentOrNull(d, "preferred_date") ==>
              d["preferred_date"].Text? && r.value.preferredDate == Some(d["preferred_date"].s)
    ensures r.Success? && !AbsentOrNull(d, "notes") ==>
              d["notes"].Text? && r.value.notes == Some(d["notes"].s)
  {
    var name := RequiredText(d, "name");
    var email := RequiredText(d, "email");
    var phone := RequiredText(d, "phone");
    var make := RequiredText(d, "vehicle_make");
    var model := RequiredText(d, "vehicle_model");
    var year := OptionalInt(d, "vehicle_year");
    var serviceId := OptionalText(d, "service_id");
    var preferredDate := OptionalText(d, "preferred_date");
    var notes := OptionalText(d, "notes");
    if name.Success? && email.Success? && phone.Success? && make.Success? && model.Success?
       && year.Success? && serviceId.Success? && preferredDate.Success? && notes.Success?
    then
      Success(BookingCreate(name.value, email.value, phone.value, make.value, model.value,
                            year.value, serviceId.value, preferredDate.value, notes.value))
    else
      Failure(ErrorsOf(name) + ErrorsOf(email) + ErrorsOf(phone) + ErrorsOf(make) + ErrorsOf(model)
              + ErrorsOf(year) + ErrorsOf(serviceId) + ErrorsOf(preferredDate) + ErrorsOf(notes))
  }

  /** `payload.model_dump()`: all nine fields, absent optional values as null. */
  function BookingCreateDump(p: BookingCreate): (d: Document)
    ensures d.Keys == BookingCreateFields
  {
    map["name" := Text(p.name), "email" := Text(p.email), "phone" := Text(p.phone),
        "vehicle_make" := Text(p.vehicleMake), "vehicle_model" := Text(p.vehicleModel),
        "vehicle_year" := IntValue(p.vehicleYear), "service_id" := TextValue(p.serviceId),
        "preferred_date" := TextValue(p.preferredDate), "notes" := TextValue(p.notes)]
  }

  /** Dumping a request and parsing it again gives the request back. */
  lemma BookingCreateRoundTrip(p: BookingCreate)
    ensures BookingCreateFrom(BookingCreateDump(p)) == Success(p)
  {
  }

  /** A body missing a required field is rejected, with a Missing error
      naming that field. */
  lemma BookingCreateMissingField(d: Document, k: string)
    requires k in BookingRequired && k !in d
    ensures BookingCreateFrom(d).Failure? && FieldError(k, Missing) in BookingCreateFrom(d).error
  {
  }

  /** A body with only the five required fields, all text, is a request
      with no optional value. */
  lemma BookingCreateOptionalDefaults(d: Document)
    requires d.Keys == BookingRequired
    requires forall k :: k in d ==> d[k].Text?
    ensures BookingCreateFrom(d)
            == Success(BookingCreate(d["name"].s, d["email"].s, d["phone"].s, d["vehicle_make"].s,
                                     d["vehicle_model"].s, None, None, None, None))
  {
    assert "vehicle_year" !in d;
  }

  /** `Booking(**payload.model_dump())`. */
  function BookingOf(p: BookingCreate, isEmail: EmailCheck): Result<Booking, seq<FieldError>>
  {
    BookingFrom(BookingCreateDump(p), isEmail)
  }

  /** The stricter Booking accepts a request exactly when its email passes
      the check and its year, if given, lies in 1900..2100; the booking
      then carries the request's nine fields and the status "pending". */
  lemma BookingOfRequest(p: BookingCreate, isEmail: EmailCheck)
    ensures BookingOf(p, isEmail).Success? <==> isEmail(p.email) && YearAccepted(p.vehicleYear)
    ensures BookingOf(p, isEmail).Success? ==>
              BookingOf(p, isEmail).value
              == Booking(p.name, p.email, p.phone, p.vehicleMake, p.vehicleModel, p.vehicleYear,
                         p.serviceId, p.preferredDate, p.notes, DefaultStatus)
  {
    var d := BookingCreateDump(p);
    assert "status" !in d;
    assert RequiredText(d, "email") == Success(p.email);
    assert OptionalInt(d, "vehicle_year") == Success(p.vehicleYear);
  }

  /** The booking built from a request is stored as the request's dump plus
      the status field. */
  lemma BookingStoredForm(p: BookingCreate)
    ensures BookingToDoc(Booking(p.name, p.email, p.phone, p.vehicleMake, p.vehicleModel, p.vehicleYear,
                                 p.serviceId, p.preferredDate, p.notes, DefaultStatus))
            == BookingCreateDump(p)["status" := Text(DefaultStatus)]
  {
  }

  // ---------------------------------------------------------------------
  // GET /services

  /** `Service(**d)` after `d.pop("_id", None)`: a stored document
      validated as a Service once its identifier is removed. */
  function ServiceOfStored(d: Document): Result<Service, seq<FieldError>>
  {
    ServiceFrom(WithoutId(d))
  }

  /** Removing the identifier before validation changes nothing: a Service
      ignores every field it does not declare. */
  lemma StrippingIdIsIrrelevant(d: Document)
    ensures ServiceOfStored(d) == ServiceFrom(d)
  {
    ServiceIgnoresOtherFields(WithoutId(d), d);
  }

  /** Validates each document with `parse`, in store order; the first
      document that fails decides the error. */
  function ValidateAll<T>(docs: seq<Document>, parse: Document -> Result<T, seq<FieldError>>)
    : (r: Result<seq<T>, seq<FieldError>>)
    ensures r.Success? ==>
              |r.value| == |docs| && forall i :: 0 <= i < |docs| ==> parse(docs[i]) == Success(r.value[i])
    ensures r.Failure? ==>
              exists i :: 0 <= i < |docs| && parse(docs[i]) == Failure(r.error)
                          && forall j :: 0 <= j < i ==> parse(docs[j]).Success?
    decreases |docs|
  {
    if docs == [] then Success([])
    else
      var n := |docs| - 1;
      var prefix := docs[..n];
      assert forall j :: 0 <= j < n ==> prefix[j] == docs[j];
      match ValidateAll(prefix, parse)
      case Failure(e) => Failure(e)
      case Success(xs) =>
        match parse(docs[n])
        case Failure(e) => Failure(e)
        case Success(x) => Success(xs + [x])
  }

  /** Once a prefix of the documents fails, validating them all fails with
      the same error. */
  lemma {:induction false} FailurePersists<T>(docs: seq<Document>, parse: Document -> Result<T, seq<FieldError>>, j: nat)
    requires j <= |docs|
    requires ValidateAll(docs[..j], parse).Failure?
    ensures ValidateAll(docs, parse) == ValidateAll(docs[..j], parse)
    decreases |docs| - j
  {
    if j < |docs| {
      var m := |docs[..j + 1]| - 1;
      assert docs[..j + 1][..m] == docs[..j];
      FailurePersists(docs, parse, j + 1);
    } else {
      assert docs[..j] == docs;
    }
  }

  /** What GET /services answers for a store. */
  function ListServicesSpec(s: StoreState): (r: Result<seq<Service>, HandlerError>)
    ensures r.Success? && s.available ==>
              |r.value| == |Docs(s, ServiceCollection)|
              && forall i :: 0 <= i < |r.value| ==> ServiceOfStored(Docs(s, ServiceCollection)[i]) == Success(r.value[i])
    ensures r.Success? ==> forall x :: x in r.value ==> x.Valid()
  {
    if !s.available then Success([])
    else
      match ValidateAll(Docs(s, ServiceCollection), ServiceOfStored)
      case Success(xs) => Success(xs)
      case Failure(e) => Failure(ValidationFailed(e))
  }

  /** `list_services`. */
  method ListServices(store: Store) returns (r: Result<seq<Service>, HandlerError>)
    ensures r == ListServicesSpec(store.State())
  {
    if !store.available {
      return Success([]);
    }
    var docs := store.GetDocuments(ServiceCollection, None);
    var results: seq<Service> := [];
    var i := 0;
    while i < |docs|
      invariant 0 <= i <= |docs|
      invariant ValidateAll(docs[..i], ServiceOfStored) == Success(results)
    {
      var parsed := ServiceOfStored(docs[i]);
      assert docs[..i + 1][..i] == docs[..i];
      if parsed.Failure? {
        FailurePersists(docs, ServiceOfStored, i + 1);
        return Failure(ValidationFailed(parsed.error));
      }
      results := results + [parsed.value];
      i := i + 1;
    }
    assert docs[..i] == docs;
    r := Success(results);
  }

  // ---------------------------------------------------------------------
  // POST /book

  /** What POST /book does to a store. */
  function CreateBookingSpec(s: StoreState, p: BookingCreate, isEmail: EmailCheck): Step<BookingResponse>
  {
    if !s.available then Step(s, Failure(Unavailable))
    else
      match BookingOf(p, isEmail)
      case Failure(e) => Step(s, Failure(ValidationFailed(e)))
      case Success(b) =>
        Step(Insert(s, BookingCollection, BookingToDoc(b)), Success(BookingResponse(s.nextId, BookingReceived)))
  }

  /** `create_booking`. */
  method CreateBooking(store: Store, payload: BookingCreate, isEmail: EmailCheck)
    returns (r: Result<BookingResponse, HandlerError>)
    requires store.Valid()
    modifies store
    ensures store.Valid()
    ensures Step(store.State(), r) == CreateBookingSpec(old(store.State()), payload, isEmail)
  {
    if !store.available {
      return Failure(Unavailable);
    }
    var booking := BookingOf(payload, isEmail);
    if booking.Failure? {
      return Failure(ValidationFailed(booking.error));
    }
    var id := store.CreateDocument(BookingCollection, BookingToDoc(booking.value));
    r := Success(BookingResponse(id, BookingReceived));
  }

  /** A booking that passes validation appends exactly one document to
      "booking" (the request's nine fields and status "pending") under a
      fresh identifier, which is returned; no other collection changes. */
  lemma CreateBookingStores(s: StoreState, p: BookingCreate, isEmail: EmailCheck)
    requires s.available && WellFormed(s)
    requires isEmail(p.email) && YearAccepted(p.vehicleYear)
    ensures CreateBookingSpec(s, p, isEmail).response == Success(BookingResponse(s.nextId, BookingReceived))
    ensures Docs(CreateBookingSpec(s, p, isEmail).state, BookingCollection)
            == Docs(s, BookingCollection) + [Stamp(BookingCreateDump(p)["status" := Text(DefaultStatus)], s.nextId)]
    ensures forall c :: c != BookingCollection ==> Docs(CreateBookingSpec(s, p, isEmail).state, c) == Docs(s, c)
    ensures forall c, i | 0 <= i < |Docs(s, c)| :: Docs(s, c)[i][IdKey] != ObjectId(s.nextId)
    ensures WellFormed(CreateBookingSpec(s, p, isEmail).state)
  {
    BookingOfRequest(p, isEmail);
    BookingStoredForm(p);
    InsertKeepsWellFormed(s, BookingCollection, BookingToDoc(BookingOf(p, isEmail).value));
  }

  /** A request that BookingCreate accepts but Booking rejects (a bad email
      or a year outside 1900..2100) inserts nothing and fails with 500. */
  lemma CreateBookingRejects(s: StoreState, p: BookingCreate, isEmail: EmailCheck)
    requires s.available
    requires !isEmail(p.email) || !YearAccepted(p.vehicleYear)
    ensures CreateBookingSpec(s, p, isEmail).state == s
    ensures CreateBookingSpec(s, p, isEmail).response.Failure?
    ensures StatusCode(CreateBookingSpec(s, p, isEmail).response.error) == 500
  {
    BookingOfRequest(p, isEmail);
  }

  // ---------------------------------------------------------------------
  // POST /contact

  /** What POST /contact does to a store. */
  function SubmitContactSpec(s: StoreState, m: ContactMessage): Step<BookingResponse>
  {
    if !s.available then Step(s, Failure(Unavailable))
    else Step(Insert(s, ContactCollection, ContactMessageToDoc(m)), Success(BookingResponse(s.nextId, ContactReceived)))
  }

  /** `submit_contact`: the framework hands it only a message that passed
      ContactMessage validation. */
  method SubmitContact(store: Store, message: ContactMessage, isEmail: EmailCheck)
    returns (r: Result<BookingResponse, HandlerError>)
    requires store.Valid()
    requires message.Valid(isEmail)
    modifies store
    ensures store.Valid()
    ensures Step(store.State(), r) == SubmitContactSpec(old(store.State()), message)
  {
    if !store.available {
      return Failure(Unavailable);
    }
    var id := store.CreateDocument(ContactCollection, ContactMessageToDoc(message));
    r := Success(BookingResponse(id, ContactReceived));
  }

  /** A contact submission appends exactly its message to "contactmessage"
      under a fresh identifier, which is returned; nothing else changes.
      The stored document, read back without its identifier, validates as
      the same message. */
  lemma SubmitContactStores(s: StoreState, m: ContactMessage, isEmail: EmailCheck)
    requires s.available && WellFormed(s)
    requires m.Valid(isEmail)
    ensures SubmitContactSpec(s, m).response == Success(BookingResponse(s.nextId, ContactReceived))
    ensures Docs(SubmitContactSpec(s, m).state, ContactCollection)
            == Docs(s, ContactCollection) + [Stamp(ContactMessageToDoc(m), s.nextId)]
    ensures forall c :: c != ContactCollection ==> Docs(SubmitContactSpec(s, m).state, c) == Docs(s, c)
    ensures forall c, i | 0 <= i < |Docs(s, c)| :: Docs(s, c)[i][IdKey] != ObjectId(s.nextId)
    ensures WellFormed(SubmitContactSpec(s, m).state)
    ensures ContactMessageFrom(WithoutId(Stamp(ContactMessageToDoc(m), s.nextId)), isEmail) == Success(m)
  {
    InsertKeepsWellFormed(s, ContactCollection, ContactMessageToDoc(m));
    var d := ContactMessageToDoc(m);
    assert WithoutId(Stamp(d, s.nextId)) == WithoutId(d) == d;
    ContactMessageRule(m.name, m.email, m.message, isEmail);
  }

  // ---------------------------------------------------------------------
  // Whole requests: the framework validates the body as the handler's
  // parameter type first, and answers 422 without calling the handler
  // when that fails.

  /** POST /book for a raw request body. */
  function BookingRequestSpec(s: StoreState, body: Document, isEmail: EmailCheck): Step<BookingResponse>
  {
    match BookingCreateFrom(body)
    case Failure(e) => Step(s, Failure(RequestRejected(e)))
    case Success(p) => CreateBookingSpec(s, p, isEmail)
  }

  /** POST /contact for a raw request body. */
  function ContactRequestSpec(s: StoreState, body: Document, isEmail: EmailCheck): Step<BookingResponse>
  {
    match ContactMessageFrom(body, isEmail)
    case Failure(e) => Step(s, Failure(RequestRejected(e)))
    case Success(m) => SubmitContactSpec(s, m)
  }

  /** Serves POST /book: validates the body, then calls `create_booking`. */
  method PostBooking(store: Store, body: Document, isEmail: EmailCheck)
    returns (r: Result<BookingResponse, HandlerError>)
    requires store.Valid()
    modifies store
    ensures store.Valid()
    ensures Step(store.State(), r) == BookingRequestSpec(old(store.State()), body, isEmail)
  {
    var payload := BookingCreateFrom(body);
    if payload.Failure? {
      return Failure(RequestRejected(payload.error));
    }
    r := CreateBooking(store, payload.value, isEmail);
  }

  /** Serves POST /contact: validates the body, then calls `submit_contact`. */
  method PostContact(store: Store, body: Document, isEmail: EmailCheck)
    returns (r: Result<BookingResponse, HandlerError>)
    requires store.Valid()
    modifies store
    ensures store.Valid()
    ensures Step(store.State(), r) == ContactRequestSpec(old(store.State()), body, isEmail)
  {
    var message := ContactMessageFrom(body, isEmail);
    if message.Failure? {
      return Failure(RequestRejected(message.error));
    }
    r := SubmitContact(store, message.value, isEmail);
  }

  /** A booking body missing a required field is answered with 422 naming
      that field, whether or not a store is connected, and changes nothing. */
  lemma BookingRequestMissingField(s: StoreState, body: Document, k: string, isEmail: EmailCheck)
    requires k in BookingRequired && k !in body
    ensures BookingRequestSpec(s, body, isEmail).state == s
    ensures BookingRequestSpec(s, body, isEmail).response.Failure?
    ensures StatusCode(BookingRequestSpec(s, body, isEmail).response.error) == 422
    ensures FieldError(k, Missing) in BookingRequestSpec(s, body, isEmail).response.error.errors
  {
    BookingCreateMissingField(body, k);
  }

  /** A contact body that fails ContactMessage validation is answered with
      422, whether or not a store is connected, and changes nothing; a
      body that changes the store is a valid message, appended to
      "contactmessage" alone, and reads back as that message. */
  lemma ContactRequestStoresOnlyValid(s: StoreState, body: Document, isEmail: EmailCheck)
    requires WellFormed(s)
    ensures ContactMessageFrom(body, isEmail).Failure? ==>
              ContactRequestSpec(s, body, isEmail).state == s
              && ContactRequestSpec(s, body, isEmail).response.Failure?
              && StatusCode(ContactRequestSpec(s, body, isEmail).response.error) == 422
    ensures ContactRequestSpec(s, body, isEmail).state != s ==>
              ContactMessageFrom(body, isEmail).Success?
              && ContactMessageFrom(body, isEmail).value.Valid(isEmail)
              && |Docs(ContactRequestSpec(s, body, isEmail).state, ContactCollection)| == |Docs(s, ContactCollection)| + 1
              && ContactMessageFrom(WithoutId(Docs(ContactRequestSpec(s, body, isEmail).state, ContactCollection)[|Docs(s, ContactCollection)|]), isEmail)
                 == ContactMessageFrom(body, isEmail)
    ensures WellFormed(ContactRequestSpec(s, body, isEmail).state)
  {
    var parsed := ContactMessageFrom(body, isEmail);
    if parsed.Success? && s.available {
      SubmitContactStores(s, parsed.value, isEmail);
    }
  }

  // ---------------------------------------------------------------------
  // POST /seed

  /** The four sample services, in the order they are inserted. */
  function SampleServices(): (r: seq<Service>)
    ensures |r| == 4
    ensures forall x :: x in r ==> x.Valid()
  {
    [ Service("Exterior Wash", "Hand wash, dry, wheels & tires", 45, 39.0, "Exterior"),
      Service("Interior Detail", "Vacuum, steam clean, interior surfaces", 90, 129.0, "Interior"),
      Service("Full Detail", "Complete inside & out detailing", 180, 259.0, "Packages"),
      Service("Ceramic Coating", "2-year protection, deep gloss", 240, 699.0, "Add-ons") ]
  }

  function ServiceDocs(xs: seq<Service>): seq<Document>
  {
    seq(|xs|, i requires 0 <= i < |xs| => ServiceToDoc(xs[i]))
  }

  /** What POST /seed does to a store. */
  function SeedSpec(s: StoreState): Step<string>
  {
    if !s.available then Step(s, Failure(Unavailable))
    else if Query(s, ServiceCollection, Some(1)) != [] then Step(s, Success(AlreadySeeded))
    else Step(InsertAll(s, ServiceCollection, ServiceDocs(SampleServices())), Success(Seeded))
  }

  /** `seed_services`. */
  method SeedServices(store: Store) returns (r: Result<string, HandlerError>)
    requires store.Valid()
    modifies store
    ensures store.Valid()
    ensures Step(store.State(), r) == SeedSpec(old(store.State()))
  {
    if !store.available {
      return Failure(Unavailable);
    }
    var existing := store.GetDocuments(ServiceCollection, Some(1));
    if |existing| > 0 {
      return Success(AlreadySeeded);
    }
    var samples := ServiceDocs(SampleServices());
    ghost var s0 := store.State();
    var i := 0;
    while i < |samples|
      invariant 0 <= i <= |samples|
      invariant store.Valid() && store.available
      invariant store.State() == InsertAll(s0, ServiceCollection, samples[..i])
    {
      assert samples[..i + 1][..i] == samples[..i];
      var _ := store.CreateDocument(ServiceCollection, samples[i]);
      i := i + 1;
    }
    assert samples[..i] == samples;
    r := Success(Seeded);
  }

  /** Seeding an available store with no services appends exactly the four
      samples, in order, with consecutive fresh identifiers, and touches no
      other collection. */
  lemma SeedOnEmpty(s: StoreState)
    requires s.available && Docs(s, ServiceCollection) == []
    ensures SeedSpec(s).response == Success(Seeded)
    ensures Docs(SeedSpec(s).state, ServiceCollection) == Stamped(ServiceDocs(SampleServices()), s.nextId)
    ensures forall c :: c != ServiceCollection ==> Docs(SeedSpec(s).state, c) == Docs(s, c)
    ensures SeedSpec(s).state.available
  {
    InsertAllEffect(s, ServiceCollection, ServiceDocs(SampleServices()));
  }

  /** Seeding a store that already holds a service changes nothing. */
  lemma SeedOnNonEmpty(s: StoreState)
    requires s.available && Docs(s, ServiceCollection) != []
    ensures SeedSpec(s) == Step(s, Success(AlreadySeeded))
  {
  }

  /** Seeding twice leaves the store as seeding once, and the second call
      reports that the services were already seeded (or, without a store,
      503 both times). */
  lemma SeedIdempotent(s: StoreState)
    ensures SeedSpec(SeedSpec(s).state).state == SeedSpec(s).state
    ensures s.available ==> SeedSpec(SeedSpec(s).state).response == Success(AlreadySeeded)
  {
    if s.available && Docs(s, ServiceCollection) == [] {
      SeedOnEmpty(s);
    }
  }

  /** A valid service, serialised and stored under any identifier, reads
      back as itself. */
  lemma StoredServiceParses(x: Service, id: nat)
    requires x.Valid()
    ensures ServiceOfStored(Stamp(ServiceToDoc(x), id)) == Success(x)
  {
    var d := ServiceToDoc(x);
    assert WithoutId(Stamp(d, id)) == WithoutId(d) == d;
    ServiceRoundTrip(x);
  }

  /** When every document parses, validating them all succeeds with the
      parsed values in store order. */
  lemma {:induction false} ValidateAllSucceeds<T>(docs: seq<Document>, parse: Document -> Result<T, seq<FieldError>>, xs: seq<T>)
    requires |docs| == |xs|
    requires forall i :: 0 <= i < |docs| ==> parse(docs[i]) == Success(xs[i])
    ensures ValidateAll(docs, parse) == Success(xs)
    decreases |docs|
  {
    if docs != [] {
      var n := |docs| - 1;
      ValidateAllSucceeds(docs[..n], parse, xs[..n]);
      assert docs[..n][..n] == docs[..n];
      assert xs[..n] + [xs[n]] == xs;
    }
  }

  /** Valid services, serialised and stored under consecutive identifiers,
      list back as exactly those services. */
  lemma ParseStoredServices(xs: seq<Service>, first: nat)
    requires forall x :: x in xs ==> x.Valid()
    ensures ValidateAll(Stamped(ServiceDocs(xs), first), ServiceOfStored) == Success(xs)
  {
    var docs := Stamped(ServiceDocs(xs), first);
    forall i | 0 <= i < |docs| ensures ServiceOfStored(docs[i]) == Success(xs[i]) {
      StoredServiceParses(xs[i], first + i);
    }
    ValidateAllSucceeds(docs, ServiceOfStored, xs);
  }

  /** After seeding an available store with no services, listing returns
      exactly the four samples, none of them carrying an identifier. */
  lemma ListAfterSeed(s: StoreState)
    requires s.available && Docs(s, ServiceCollection) == []
    ensures ListServicesSpec(s) == Success([])
    ensures ListServicesSpec(SeedSpec(s).state) == Success(SampleServices())
  {
    SeedOnEmpty(s);
    ParseStoredServices(SampleServices(), s.nextId);
  }

  /** Without a store connection, listing fails open to the empty list, and
      the three writing handlers fail with 503 and change nothing. */
  lemma UnavailableStore(s: StoreState, p: BookingCreate, m: ContactMessage, isEmail: EmailCheck)
    requires !s.available
    ensures ListServicesSpec(s) == Success([])
    ensures CreateBookingSpec(s, p, isEmail) == Step(s, Failure(Unavailable))
    ensures SubmitContactSpec(s, m) == Step(s, Failure(Unavailable))
    ensures SeedSpec(s) == Step(s, Failure(Unavailable))
    ensures StatusCode(Unavailable) == 503
  {
  }
}
