# Auto Detailer backend: entity schemas and request handlers

This project models the core of a small CRUD backend for an auto-detailing
business, written in Dafny. The backend keeps four kinds of entity in a
document store:

- services on offer;
- customer bookings;
- testimonials;
- contact messages.

It has two parts, and the model follows them.

- **Entity schemas** (`schemas.py`, module `Schemas` in `schemas.dfy`). Each
  entity is a declarative validator with required and optional fields, bounds
  and defaults. A document (`map<string, Value>`, module `Documents`) either
  validates into a typed entity or fails with the list of every offending
  field, in declaration order. Each entity has a `Valid` predicate. The
  validators ignore fields they do not declare. The email-format check is a
  parameter `isEmail: string -> bool`, so every property holds for any email
  check.
- **Request handlers** (`main.py`, module `Handlers` in `handlers.dfy`). These
  run over the shared document store (module `DocStore` in `store.dfy`). The
  store is a class `Store` with three fields:
  - an `available` flag, which stands for a database connection that was
    established;
  - a map from collection name to that collection's documents, in insertion
    order;
  - a counter that produces fresh identifiers.

  Its adapter (`database.py`) is not part of this model. It is specified by
  contract only:
  - `Insert` / `Store.CreateDocument` append one document, stamped with
    `_id := ObjectId(n)`, and return the fresh `n`;
  - `Query` / `Store.GetDocuments` return a collection's documents in store
    order, at most `limit` of them (a limit of 0 means no limit, as in
    MongoDB).

  `WellFormed` is kept by every write. It says every stored identifier is
  below the counter and no two stored documents share one.

Each handler that writes is a method on a `Store`. Its postcondition ties the
new state and the response to a specification function on the value
`StoreState`: `CreateBookingSpec`, `SubmitContactSpec` or `SeedSpec`. The
lemmas state the handlers' promises about those functions. `ListServices`
only reads the store. Its loop is proved against `ListServicesSpec`.
`PostBooking` and `PostContact` serve a whole request: they validate the raw
body first and answer 422 when it fails, as the framework does, and are tied
to `BookingRequestSpec` and `ContactRequestSpec`.

Behaviour worth knowing, as the code does it:

- `list_services` fails open to `[]` without a store. It fails with HTTP 500
  when a stored service document does not validate.
- `create_booking` checks the request body with the loose `BookingCreate`:
  email is plain text and the year has no bound. It then builds the stricter
  `Booking`. A bad email or a year outside 1900..2100 therefore passes the
  request check and is rejected inside the handler. That is an uncaught
  validation error, so HTTP 500, and nothing is inserted. The status field
  is free text with default "pending".
- `seed_services` checks once whether any service exists. It inserts the four
  samples only into an empty `service` collection, so seeding twice equals
  seeding once.

A query returns documents in the store's default order. The model takes
that order to be insertion order.

## Model

| member | source | states |
|---|---|---|
| Documents.WithoutId | main.py:73 | removing `_id` leaves every other field and its value, and no `_id` |
| Schemas.ServiceFrom | schemas.py:16-21 | a validated Service satisfies 15 ≤ duration ≤ 600 and price ≥ 0, and holds the document's title, description, duration, price (an integer price taken as its numeric value) and category, or "Exterior" when there is none; a failure lists at least one field error |
| Schemas.ServiceAcceptance | schemas.py:16-21 | a document validates as a Service exactly when title and description are text, duration is an integer in 15..600, price is an integer or number ≥ 0 and category is absent or text; a duration above 600 or below 15, or a negative price, is rejected with that error on that field |
| Schemas.ServiceToDoc | schemas.py:16-21 | a Service serialises to exactly its five fields |
| Schemas.ServiceRoundTrip | schemas.py:19-20 | a serialised Service validates back to itself exactly when it is within both bounds, and fails otherwise |
| Schemas.ServiceCategoryDefault | schemas.py:21 | a missing category validates as "Exterior" |
| Schemas.ServiceIgnoresOtherFields | schemas.py:16-21 | Service validation depends only on its five declared fields |
| Schemas.BookingFrom | schemas.py:23-33 | a validated Booking passes the email check and has no year or one in 1900..2100; it holds the document's five required texts; each optional field (year, service id, preferred date, notes) is None exactly when the document leaves it out or sends null, and otherwise `Some` of the document's value; the status is the document's text, or "pending" when there is none; a failure lists at least one field error |
| Schemas.BookingOptionalDefaults | schemas.py:24-33 | a body of only the five required text fields validates exactly when the email passes, into a Booking with those five values, all four optional fields None and status "pending" |
| Schemas.BookingToDoc | schemas.py:23-33 | a Booking serialises to exactly its ten fields |
| Schemas.BookingStatusIsFreeText | schemas.py:33 | any status text is accepted and kept, not only the four documented values; a missing status becomes "pending" |
| Schemas.BookingRoundTrip | schemas.py:24-32 | a serialised Booking validates back to itself exactly when the email passes and the year is absent or in range |
| Schemas.TestimonialFrom | schemas.py:35-38 | a validated Testimonial has 1 ≤ rating ≤ 5 and holds the document's name, rating and comment; a failure lists at least one field error |
| Schemas.TestimonialToDoc | schemas.py:35-38 | a Testimonial serialises to exactly its three fields |
| Schemas.TestimonialRoundTrip | schemas.py:37 | a serialised Testimonial validates back to itself exactly when 1 ≤ rating ≤ 5 |
| Schemas.ContactMessageFrom | schemas.py:40-43 | a validated ContactMessage passes the email check, has a message of length ≥ 5 and holds the document's three text values, whatever other fields the document has; a failure lists at least one field error |
| Schemas.ContactMessageToDoc | schemas.py:40-43 | a ContactMessage serialises to exactly its three fields |
| Schemas.ContactMessageRule | schemas.py:43 | a contact message validates exactly when the email passes and the message has ≥ 5 characters; 4 characters fail with a too-short error on `message`, 5 succeed |
| Schemas.MissingRequiredFieldFails | schemas.py:16-43 | a document missing a required field of Service, Booking, Testimonial or ContactMessage fails, with a Missing error for that field |
| DocStore.Stamp | main.py:93 | a stored document carries the new identifier under `_id` and is otherwise the inserted document |
| DocStore.Insert | main.py:93 | an insert appends one stamped document to its collection, leaves every other collection alone and advances the counter |
| DocStore.InsertKeepsWellFormed | main.py:93 | the identifier handed out is held by no stored document, and identifiers stay below the counter and pairwise distinct |
| DocStore.Query | main.py:108 | a query returns a prefix of the collection in store order: all of it without a limit or with limit 0, min(limit, size) documents with a positive limit |
| DocStore.InsertAllEffect | main.py:117-118 | inserting documents one by one appends them, stamped with consecutive identifiers, to that collection only |
| DocStore.InsertAllKeepsWellFormed | main.py:117-118 | a sequence of inserts keeps the identifiers below the counter and pairwise distinct |
| DocStore.Store.constructor | main.py:7 | a new store is empty, well formed and available or not as given |
| DocStore.Store.CreateDocument | main.py:93 | the store becomes `Insert` of the old one, and the returned identifier is fresh |
| DocStore.Store.GetDocuments | main.py:69 | returns `Query` of the current store, with the store unchanged |
| Handlers.BookingCreateFrom | main.py:77-86 | a parsed request holds the body's own values: its five required fields present as text with those texts; each optional field None exactly when the body leaves it out or sends null, and otherwise `Some` of the body's value, which is of the declared type; a failure lists at least one field error |
| Handlers.BookingCreateOptionalDefaults | main.py:78-86 | a body of only the five required text fields parses to a request with those five values and all four optional fields None |
| Handlers.BookingCreateDump | main.py:92 | a request dumps to exactly its nine fields |
| Handlers.BookingCreateRoundTrip | main.py:77-86 | a dumped request parses back to itself |
| Handlers.BookingCreateMissingField | main.py:77-81 | a body missing a required field is rejected with a Missing error for that field |
| Handlers.BookingOfRequest | main.py:92 | `Booking(**payload.model_dump())` succeeds exactly when the email passes and the year is absent or in 1900..2100, and then holds the request's nine fields and status "pending" |
| Handlers.BookingStoredForm | main.py:92-93 | the stored booking is the request's dump plus `status: "pending"` |
| Handlers.StrippingIdIsIrrelevant | main.py:73-74 | validating a stored document after popping `_id` gives the same result as validating it with `_id` |
| Handlers.ValidateAll | main.py:71-75 | on success, one entity per document, in store order, each the document's own validation result; on failure, the error of the first document that fails |
| Handlers.FailurePersists | main.py:72-74 | once a prefix of the documents fails, the whole listing fails with that error |
| Handlers.ListServicesSpec | main.py:65-75 | with a store, a successful listing has one service per stored `service` document, in store order, each that document's own validation result after dropping `_id`; every listed service is valid |
| Handlers.ListServices | main.py:66-75 | the loop returns exactly `ListServicesSpec` of the store: `[]` without a store, else the stored services validated in order, or the first failure |
| Handlers.CreateBooking | main.py:89-94 | the new store and the response are `CreateBookingSpec` of the old store |
| Handlers.CreateBookingStores | main.py:92-94 | an accepted booking appends exactly one document (nine request fields plus status "pending") to `booking` under a fresh identifier, which is returned; no other collection changes |
| Handlers.CreateBookingRejects | main.py:92 | a request with a bad email or an out-of-range year leaves the store unchanged and fails with status 500 |
| Handlers.SubmitContact | main.py:97-101 | given a message that passed validation, the new store and the response are `SubmitContactSpec` of the old store |
| Handlers.SubmitContactStores | main.py:100-101 | a valid submission appends exactly its message to `contactmessage` under a fresh identifier, which is returned; no other collection changes; the stored document reads back as the same message |
| Handlers.PostBooking | main.py:89-94 | validating the body and then calling `create_booking` gives `BookingRequestSpec` of the old store |
| Handlers.PostContact | main.py:97-101 | validating the body and then calling `submit_contact` gives `ContactRequestSpec` of the old store |
| Handlers.BookingRequestMissingField | main.py:77-89 | a booking body missing a required field gets 422 naming that field, with or without a store, and changes nothing |
| Handlers.ContactRequestStoresOnlyValid | main.py:97-101 | a contact body that fails validation gets 422 and changes nothing; a body that changes the store is a valid message, appended to `contactmessage` as one document that reads back as that message; the store stays well formed |
| Handlers.SampleServices | main.py:111-116 | there are four samples and each satisfies Service validity |
| Handlers.SeedServices | main.py:105-119 | the new store and the response are `SeedSpec` of the old store |
| Handlers.SeedOnEmpty | main.py:111-119 | on an empty `service` collection, seeding appends exactly the four samples in order with consecutive fresh identifiers and answers "Seeded sample services" |
| Handlers.SeedOnNonEmpty | main.py:108-110 | on a non-empty `service` collection, seeding answers "Services already seeded" and changes nothing |
| Handlers.SeedIdempotent | main.py:108-119 | seeding twice leaves the store as seeding once; the second call answers "Services already seeded" |
| Handlers.StoredServiceParses | main.py:73-74 | a valid service, stored under any identifier, lists back as itself |
| Handlers.ValidateAllSucceeds | main.py:71-75 | when every document validates, the listing is the validated values in store order |
| Handlers.ParseStoredServices | main.py:71-75 | valid services stored under consecutive identifiers list back as exactly those services |
| Handlers.ListAfterSeed | main.py:65-75 | an empty store lists `[]`; after seeding it, listing returns exactly the four samples |
| Handlers.UnavailableStore | main.py:66-107 | without a store, listing returns `[]`, and booking, contact and seed fail with 503 and leave the store unchanged |

## Left out

- The database adapter `database.py` is not part of this model. The model
  assumes only its contract: append with a fresh identifier, and read in
  store order. Not modelled:
  - timestamps the adapter may add;
  - the concrete ObjectId format and its rendering as a string (identifiers
    are natural numbers here);
  - query filters other than the empty filter, which is the only one used;
  - errors the store raises after a connection exists.
- Framework plumbing is left out because it is I/O and wiring: CORS, routing
  decorators, reading `PORT` from the environment, and the JSON encoding of
  responses. `read_root` is only its constant message `ReadyMessage`.
- The `/test` diagnostics endpoint is left out. It does environment lookups,
  lists collections and truncates exception text, which is I/O.
- The `/schema` endpoint is left out. It returns JSON Schema text generated by
  the validation library.
- The rules inside `EmailStr` are a parameter `isEmail`, so the model does not
  say which addresses are accepted. The library's normalisation of an accepted
  address is not modelled; the address is kept as given.
- The validation library's lax coercions are not modelled. These include a
  numeric string accepted as a number, a boolean as an integer, and an
  integral float as an integer. Fields are matched by JSON type: strings take
  text, integers take integers, and `price` takes an integer or a number.
- `price` is a `real`. Floating-point rounding, NaN and infinities are not
  modelled. Only the bound price ≥ 0 and the sample values matter.
- Validation errors carry only the field name and the kind of violation, not
  the library's messages.
- FastAPI checks a request body before the handler runs, answering 422 on
  failure. The model does this in `PostBooking` and `PostContact`, which
  validate a raw body with `BookingCreateFrom` or `ContactMessageFrom` and
  only then call the handler method. The rest of the framework's request
  handling is not modelled: JSON decoding, content types, and the wording of
  its error responses.
- Concurrent requests are not modelled, and so neither is the double-seed race
  between two seeds.
- `BookingResponse.created_at` is never set by the code and is not modelled.
  `submit_contact`'s reply dictionary has the same two keys as a
  `BookingResponse` and reuses that type.
- Testimonial has no handler in the core. Only its schema is modelled.
