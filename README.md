# Identity-provider web service: response and error handling

A model of the pure core of a small Rust web service (warp over sqlx) that
registers users, logs them in and serves profiles. What the service decides
without touching the database or the network is modelled here:

- the `Gender` field of a profile and its conversions from and to text
  (`From<String>`, `Into<String>`);
- `ToResponse`: how a handler's `Option` or `Result` becomes either a reply
  or a warp rejection;
- `handle_rejections`: the ordered, first-match mapping of a rejection to an
  HTTP status and message, answered with an `ErrorResponse` JSON body whose
  `code` repeats the status;
- the identity provider's error type `IDPError`, its display messages, its
  serialised form and its reply (always 401), and `MockIDPContext`, the only
  identity provider the repository implements;
- the `unit()` extensions that erase the payload of an `Option` or `Result`.

A reply is modelled as the pair of its status and its JSON body (`Http.Reply`),
a rejection as warp's not-found rejection or a rejection carrying one cause
(`Rejections.Rejection`). The `ToReply` implementation of a payload is passed
to `into_response` as a function, which stands for the trait bound.

The handler matches an `IDPError::CryptoError` variant and the guard's
`auth::AuthenticationError::{InternalError, NoSessionIdHeader, InvalidSessionId}`,
none of which src/auth.rs defines, and src/handlers/mod.rs:3 declares only
`user_handler`, so src/handlers/rejection_handler.rs is not part of the
crate's module tree as the repository stands. The model gives the rejection cause its own
datatype (`Rejections.Cause`) covering exactly the variants the handler matches
plus an unrecognised cause; for the variants whose definition is not part of
this model, the cause carries the text their `Display` implementation produces.

The identity provider is a trait (src/auth.rs:16-33) whose only
implementation is the mock, which accepts everything. A `RegistrationError`
is answered 401 (src/handlers/rejection_handler.rs:29-31), as is an
`AuthenticationError`.

## Model

| member | source | states |
|---|---|---|
| User.GenderFromString | src/domain.rs:70-78 | reading is exact and case-sensitive: Male exactly for "Male", Female exactly for "Female", Unknown for every other string |
| User.Gender.ToString | src/domain.rs:80-88 | the printed name is one of "Male", "Female", "Unknown" and reads back as the same gender (round trip) |
| User.FromStringThenToString | src/domain.rs:70-88 | reading then printing is the identity on the three names and gives "Unknown" for any other string |
| User.ToStringInjective | src/domain.rs:80-88 | different genders print differently |
| User.EveryGenderIsParsed | src/domain.rs:70-78 | every gender is the reading of some string |
| User.OtherSpellingsAreUnknown | src/domain.rs:72-75 | "male", "FEMALE", "Unknown" and "" all read as Unknown |
| Protocol.OptionIntoResponse | src/domain.rs:12-19 | a response is a rejection exactly when the value is missing, and that rejection is not-found; a present value gets its own reply |
| Protocol.ResultIntoResponse | src/domain.rs:21-32 | never a rejection: a value gets its reply and an error gets the error's reply |
| RejectionHandler.HandleRejection | src/handlers/rejection_handler.rs:13-54 | the body's code equals the status and its message fits the cause; 404 exactly for not-found, 400 exactly for UsernameTaken, 500 exactly for a crypto error, a guard internal error or an unrecognised cause, 401 for every other cause |
| RejectionHandler.HandlerStatuses | src/handlers/rejection_handler.rs:17-47 | the statuses the handler can answer are exactly 400, 401, 404 and 500 |
| RejectionHandler.DbErrorIsNotExposed | src/handlers/rejection_handler.rs:26-31 | the answer to AuthenticationError or RegistrationError does not depend on the wrapped DB error |
| RejectionHandler.MissingValueAnswersNotFound | src/domain.rs:14-15 | a missing Option value, once rejected and handled, is answered 404 with message "Not found" |
| RejectionHandler.IdpErrorFromHandlerIsUnauthorized | src/auth.rs:74-78 | an IDPError returned by a Result handler is replied to directly with 401, UsernameTaken included, although handle_rejections would answer UsernameTaken with 400 |
| Auth.IdpError.IntoReply | src/auth.rs:74-78 | every IDPError variant is replied to with 401 and its serialised form |
| Auth.IdpError.Message | src/auth.rs:62-72 | each variant's fixed Display text: "Incorrect username or password", "Requested username is occupied", "Authentication error", "Registration error", whatever DB error is wrapped |
| Auth.IdpError.ToJson | src/auth.rs:62-72 | an IDPError serialises to a JSON string |
| Auth.MessageIdentifiesVariant | src/auth.rs:62-72 | two errors have the same display message exactly when they are the same variant |
| Auth.JsonIdentifiesVariant | src/auth.rs:62-72 | two errors serialise the same exactly when they are the same variant: the wrapped DB error is skipped |
| Auth.MockAuthenticate | src/auth.rs:40-50 | authentication succeeds for every login and password, with session id "mock session id" and an expiry no instant is later than |
| Auth.MockAddUser | src/auth.rs:52-59 | registration succeeds for every login and password |
| Auth.MockIgnoresCredentials | src/auth.rs:39-60 | the mock's answers depend on neither the login nor the password |
| Extensions.OptionUnit | src/extensions/mod.rs:7-13 | the result is Some exactly when the input is |
| Extensions.ResultUnit | src/extensions/mod.rs:15-21 | the result is Ok exactly when the input is, and an error is kept unchanged |
| Extensions.OptionUnitIdempotent | src/extensions/mod.rs:10-12 | erasing the payload twice is erasing it once |
| Extensions.ResultUnitIdempotent | src/extensions/mod.rs:18-20 | erasing the payload twice is erasing it once |
| Extensions.ResultUnitForgetsPayload | src/extensions/mod.rs:18-20 | two results erase to the same value exactly when both are Ok, or both are Err with the same error |

## Left out

- Session cache, lazy expiry, invalidation queue and session validation: the code has no implementation of any of them.
- The transaction parameter of `IDPContext::authenticate` and `add_user`: the mock ignores it, and transactions are database I/O.
- src/handlers/user_handler.rs, src/repo/, src/pool.rs, src/main.rs, src/config.rs, src/handlers/mod.rs and build.rs: route wiring, SQL through sqlx, random UUIDs, configuration and bootstrap, all I/O.
- `ToReply` for `User` and `AuthenticationResponse` (src/domain.rs:57-61, 107-111): JSON serialisation of records; `into_response` takes any reply function in their place.
- The structs `User`, `Interest`, `AuthenticationResponse`, `RegistrationRequest` and `Credentials`: data carriers with no logic of their own.
- The derived serde and sqlx conversions of `Gender` (JSON, Postgres VARCHAR): generated code, not the `From`/`Into` pair.
- chrono's calendar: instants are whole seconds and `MAX_UTC` is an abstract instant later than every other.
- The text of a JSON body on the wire: a body is a JSON value.
- warp's combined rejections and its own known rejections: a rejection carries one cause, and every cause the handler does not match is `Unrecognised`.
- The `Infallible` error of `handle_rejections`: no value has that type, so the model returns the reply itself.
- The display texts of `IDPError::CryptoError` and of the guard's error type: not part of this model, so a cause carries its text.
- Auth.IdpError.ToJson: its own contract says only that the result is a JSON string; which errors it tells apart is stated by Auth.JsonIdentifiesVariant.
