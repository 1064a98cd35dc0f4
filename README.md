# Ecocampus in Dafny

Ecocampus is a campus sustainability web application. Students sign up and log
eco-friendly activities (tree planting, recycling, clean-ups, biking,
composting and others) with photos. Administrators approve those activities,
which earns green points. Administrators also publish events that students
register for, moderate the registrations, and award or claw back event points.
Points climb a five-level growth ladder (Seed, Sprout, Sapling, Tree,
Guardian). A public leaderboard ranks the top members, and a small calculator
(deterministic, or phrased through a chatbot) estimates the CO2 an activity saves.

This project models the application's core and proves properties of it:
- the four MongoDB schemas;
- the authentication helpers and the sign-in, sign-up and "me" handlers;
- the activity, event, registration, leaderboard and carbon API handlers;
- the carbon estimator;
- the client-side logic of the dashboard, leaderboard, events, admin events and login pages, and of the carbon chatbot.

## Layout

There is one module per source file. Modules are named after the file, and
the file name says which one it is (`events_route.dfy` is `EventsRoute`,
modelling `app/api/events/route.js`).

- `Wrappers` holds `Option` and `Result`.
- `Common` holds the HTTP response model, shared scalars and the ObjectId cast of an id given as text.
- `JsString` models the JavaScript string builtins the code relies on: `includes`, `toLowerCase` (ASCII), `trim`, `split`, `join`, `replace` of the first occurrence, `parseInt` of a leading digit run, and `startsWith`.
- `JsValue` models JSON values as a request body or a `fetch` reply carries them, with JavaScript truthiness, `??`, property access, and conversion to string and to number.
- `SchemaCast` models the casts Mongoose applies to a value stored in a Number, String, Boolean or Date path.
- `Query` models the MongoDB query operators the handlers use: filter, stable sort by a key, and `limit`.
- `UserModel`, `EventModel`, `RegistrationModel` and `ActivityModel` model the schemas: enums, defaults, `required`, `min`, and unique indexes as predicates on the collections.
- `Db.Store` is a class whose fields are the four collections, as `map`s from id to document.
  - The handlers that write to the database are methods with `modifies store`.
  - Their contracts state the whole new state and the invariants they keep.
  - Read-only handlers are functions over the collections.
- `Stages` holds the growth-level table that the dashboard and leaderboard pages share, with its lookup.
- The page modules model each React component's computation on its state.
  - The stateful parts are classes with the component's state hooks as fields: the login form and the chatbot.
  - Rendering is reduced to the values shown: texts, labels, colour classes and which buttons are enabled.

What the code receives from outside is passed in as a parameter:
- the bcrypt hash and compare;
- JWT sign and verify;
- the Cloudinary upload;
- the Gemini reply;
- `JSON.parse` and `JSON.stringify`;
- number formatting;
- `new Date(...)` parsing;
- the current time;
- ids of new documents;
- the activity-type table from `utils/constants`.

Where the code can fail through any of these (a throw, a rejected promise), the
failure is an input, and the model follows the code's `catch` branch.

Points are integers. JSON numbers are `real` with no NaN or Infinity; where the
code can produce NaN, the model says so with `Option` (`None` is NaN). Carbon
factors are exact decimals.

### Behaviour of the code worth knowing

The model follows the code in each case.
- A user's green points have no lower bound. Clawing back an event's points can take a user below zero (`UserRegistrationsRoute.ClawBackHasNoFloor`).
- Fetch `Headers.get` is case-insensitive, so the fallback to an upper-case `Authorization` header in `lib/auth.js` never changes the result. Headers are keyed by lower-case name.
- The header `"Bearer "` with nothing after it yields the empty token, not null. Every handler treats that empty token as falsy and answers 401 Unauthorized.
- An email sent as a query operator, such as `{"$ne": ""}`, reaches `User.findOne` as a filter: sign-in then tries the password against whichever user the filter returns (`LoginRoute.OperatorEmailSignsInFirstMatch`).
- A request body that is JSON null makes the destructuring throw, so the sign-in, sign-up and event-creation handlers answer 500, not a 400 or 401.
- The event handler checks the date with `new Date(date)`, but the document stores the body's own `date` through Mongoose's Date cast, which refuses a boolean: `date: true` is a 500 (`EventsRoute.BooleanDateIsServerError`).
- The leaderboard page's `stages` array is built again on every render. `stages.reverse()` therefore flips it once per render and does not accumulate between renders. Within one render, the level filter and the figures look stages up before the reverse, and the rows look them up after it (see Findings).

## Model

Each row names a member, the source lines it models, and what its contract states.

| member | source | states |
|---|---|---|
| UserModel.ParseRole | models/User.js:18-22 | the role enum accepts a text exactly when it is "user" or "admin", and names back what it accepted |
| UserModel.RoleNameRoundTrip | models/User.js:18-22 | every role's stored name passes the enum check as that role |
| UserModel.NewUser | models/User.js:4-34 | a created user keeps the given name, email, hash and id, gets role "user", 0 points, no badges and the creation time; it passes `required` exactly when name, email and hash are non-empty |
| UserModel.AddKeepsUnique | models/User.js:9-13 | adding a user whose email nobody has keeps the unique email index intact |
| UserModel.PointsUpdateKeepsUnique | models/User.js:23-26 | changing one user's green points keeps emails unique |
| UserModel.WithoutHash | app/api/auth/me/route.js:20 | the `-passwordHash` projection keeps id, name, email, role, points, badges and creation time |
| UserModel.SessionView | app/api/auth/login/route.js:27-32 | the session's user object carries id, name, email and role of the stored user |
| UserModel.ViewsIgnoreHash | app/api/auth/login/route.js:25-33 | neither the profile view nor the session view depends on the password hash |
| RegistrationModel.ParseStatus | models/Registration.js:15-19 | the status enum accepts exactly its six names and names back the status it accepted |
| RegistrationModel.StatusNameRoundTrip | models/Registration.js:15-19 | every registration status's name passes the enum check as that status |
| RegistrationModel.ParseTShirt | models/Registration.js:34-37 | the t-shirt enum accepts exactly XS..XXL and names back the size it accepted |
| RegistrationModel.NewRegistration | models/Registration.js:5-42 | a registration made from an event and a user is pending, has 0 points awarded, is stamped with the creation time and has no approval, check-in, award time or size |
| RegistrationModel.RemoveKeepsUnique | models/Registration.js:58 | deleting a registration keeps the unique (event, user) index intact |
| ActivityModel.ParseStatus | models/Activity.js:23-27 | the status enum accepts exactly "pending", "approved", "rejected" and names back what it accepted |
| ActivityModel.NewActivity | models/Activity.js:4-33 | a created activity keeps owner, type, images, points and location, starts pending with no approval or comment; it passes `required` exactly when the type is non-empty |
| EventModel.ParseCategory | models/Event.js:49-53 | the category enum accepts exactly its seven names and names back what it accepted |
| EventModel.CategoryNameRoundTrip | models/Event.js:49-53 | every category's name passes the enum check as that category |
| EventModel.ParseEventStatus | models/Event.js:54-58 | the status enum accepts exactly draft, published, cancelled, completed |
| EventModel.EventStatusNameRoundTrip | models/Event.js:54-58 | every event status's name passes the enum check as that status |
| EventModel.Materialize | models/Event.js:5-62 | a new event document has its title trimmed and the defaults applied: points 0, carbon 0, category "other", status draft, auto-approve unless false was given |
| EventModel.Save | models/Event.js:5-62 | saving succeeds exactly when the materialised document passes the validators, and then needs at least one participant and a title that is not all blank |
| EventModel.BlankTitleRejected | models/Event.js:5-9 | a title of only white space trims to "" and the save fails |
| EventModel.RegistrationCount | models/Event.js:90-95 | the registration count never exceeds the number of registrations |
| EventModel.ApprovedRegistrationCount | models/Event.js:98-104 | the approved count never exceeds the number of registrations |
| EventModel.ApprovedAtMostRegistered | models/Event.js:90-104 | an event never has more approved registrations than registrations |
| SchemaCast.CastNumber | models/Activity.js:15-19 | a Number path is unset for null, undefined and ""; a number is kept, a boolean is 1 or 0, another string is its `Number` value and fails when that is NaN; arrays and objects fail |
| SchemaCast.CastString | models/Activity.js:15-19 | a String path is unset for null and undefined; a string is kept, a number or boolean becomes its text, an object with a non-empty string `_id` becomes that id; other objects and arrays fail |
| SchemaCast.CastBoolean | models/Event.js:59-62 | a Boolean path is unset exactly for null and undefined, true exactly for true, "true", 1, "1", "yes", false exactly for false, "false", 0, "0", "no", and fails exactly otherwise |
| SchemaCast.CastDate | models/Event.js:14-17 | a Date path is unset for null, undefined and ""; a boolean fails; a string that is a number out of the year range is read as milliseconds; any other value is `new Date(value)` and fails exactly when that is invalid |
| SchemaCast.CastStringIdempotent | models/Activity.js:15-19 | a text the String cast stores is stored unchanged when cast again |
| SchemaCast.CastNumberIdempotent | models/Activity.js:15-19 | a number the Number cast stores is stored unchanged when cast again |
| Common.CastObjectId | app/api/user/registrations/route.js:78 | an id text casts exactly when it is 24 hex digits, to its lower-case form |
| Common.CastObjectIdCanonical | app/api/user/registrations/route.js:78 | a cast id casts to itself, and texts equal up to letter case name the same id |
| JsString.OrElse | app/api/activities/route.js:33 | `s \|\| fallback`: a missing or empty string gives the fallback, any other is kept |
| JsValue.ToNumber | app/api/events/route.js:169 | `Number(v)`: a number is kept, undefined is NaN, null is 0, a boolean 1 or 0, other values convert through the given conversion |
| AuthLib.HeaderGet | lib/auth.js:29-33 | a header lookup finds a value exactly when the lower-cased name is present |
| AuthLib.GetTokenFromRequest | lib/auth.js:27-41 | a token is returned exactly when the authorization header starts with "Bearer "; it is the text after the prefix up to the next space |
| AuthLib.FirstPiece | lib/auth.js:37 | the first piece of `split` is the longest prefix free of the separator |
| AuthLib.TokenOfBearer | lib/auth.js:36-38 | "Bearer " followed by a space-free token gives that token back |
| AuthLib.TokenWhole | lib/auth.js:36-38 | "Bearer abc" gives "abc" |
| AuthLib.TokenUpToSpace | lib/auth.js:37 | "Bearer a b" gives "a" |
| AuthLib.TokenStopsAtSpace | lib/auth.js:37 | whatever follows the token after a space is ignored |
| AuthLib.TokenEdgeCases | lib/auth.js:36-40 | "Bearer " gives the empty token, another scheme or no header gives null |
| AuthLib.VerifyToken | lib/auth.js:11-17 | the decoded user id when the JWT verifies, null exactly when verification throws |
| AuthLib.Authenticate | app/api/user/registrations/route.js:14-22 | a missing or empty token is 401 Unauthorized, a token that does not verify is 401 Invalid token, otherwise the decoded id |
| AuthLib.RequireAdmin | app/api/activities/pending/route.js:9-25 | after the token checks, an unknown user or one whose role is not admin gets 403; success exactly for an admin in the store, returning that user |
| UserModel.FindByEmail | app/api/auth/login/route.js:13 | with unique emails, finds the one stored user with a given string email, and only when one exists |
| UserModel.FindOne | app/api/auth/login/route.js:13 | `findOne({ email })` for a JSON email: null and undefined match nobody; an array or an object with a `$` key is an operator filter, whose answer (a throw, no match, or a stored user) is the database's; any other value is matched by its String cast, and a value that does not cast throws; a string finds a user exactly when one has it |
| UserModel.ScalarEmailIsItsString | app/api/auth/register/route.js:14 | a number or boolean email is looked up as its text |
| RegisterRoute.RequiredString | models/User.js:5-13 | a required String path holds a value exactly when the String cast gives a non-empty text |
| RegisterRoute.Candidate | app/api/auth/register/route.js:20-25 | a user is built exactly when the password is a string, name and email cast to non-empty texts and the hash is non-empty; it has those values, role user, 0 points, no badges |
| RegisterRoute.Register | app/api/auth/register/route.js:7-42 | a body that is not JSON or is null is "Registration failed"; an email query that throws is "Registration failed"; one that finds a user is "User already exists"; otherwise the candidate is stored exactly when it exists and its email is free (else the unique index fails the create), and a token and session view come back; a failure leaves the store as it was, other collections are untouched and the store stays valid |
| RegisterRoute.StringFieldsCreate | app/api/auth/register/route.js:11-25 | string name, email and password with a free email find nobody and build exactly the new user |
| RegisterRoute.OperatorEmailCreatesNobody | app/api/auth/register/route.js:21-25 | an operator email without a string `_id` never becomes a user |
| LoginRoute.Login | app/api/auth/login/route.js:7-38 | a body that is not JSON or is null, an email query that throws and a non-string password for a found user are "Login failed" (500); no user found is "Invalid credentials"; success exactly when the query finds a user, the password is a string and it matches the hash; the token is signed for that user's id |
| LoginRoute.StringCredentials | app/api/auth/login/route.js:11-21 | with a string email and password, success exactly when a stored user has the email and the password matches, with that user's token; every failure is "Invalid credentials" |
| LoginRoute.NullBodyFails | app/api/auth/login/route.js:11-36 | a body that is JSON null or not JSON is "Login failed" |
| LoginRoute.OperatorEmailSignsInFirstMatch | app/api/auth/login/route.js:11-33 | an email `{"$ne": ""}` signs in as whichever user the database returns for it, given that user's password |
| LoginRoute.UniformFailure | app/api/auth/login/route.js:14-21 | an unknown email and a wrong password for a known one give the same response |
| MeRoute.Me | app/api/auth/me/route.js:7-31 | token failures pass through; success exactly when the decoded id is a stored user, giving it without the hash; otherwise "User not found" |
| MeRoute.TokenChecksFirst | app/api/auth/me/route.js:9-17 | a request failing a token check gets the same answer whatever the database holds |
| UserRegistrationsRoute.CancelCheckFor | app/api/user/registrations/route.js:71-113 | the DELETE guards in order: no id is 400; text that is not an ObjectId (24 hex digits) makes `findById` throw, answered with the 500 "Failed to cancel registration"; an unknown registration is 404, somebody else's 403, an event already started 400 (skipped when the event is gone); otherwise the cast id and the registration to cancel |
| UserRegistrationsRoute.MalformedIdIsServerError | app/api/user/registrations/route.js:78-113 | only a well-formed id naming no registration gets 404; text that is not an ObjectId gets a 500 |
| UserRegistrationsRoute.CancelCheck | app/api/user/registrations/route.js:61-92 | token failures come first and pass through; then the guards above for the decoded caller |
| UserRegistrationsRoute.MissingEventNeverBlocks | app/api/user/registrations/route.js:78-92 | an own registration, named by its id, whose event no longer exists can always be cancelled |
| UserRegistrationsRoute.ClawBack | app/api/user/registrations/route.js:95-100 | only the caller's record changes, and only its points, which drop by the awarded points when those are positive; other users are untouched |
| UserRegistrationsRoute.ClawBackKeepsValid | app/api/user/registrations/route.js:95-100 | the clawback keeps users keyed by id and emails unique |
| UserRegistrationsRoute.ClawBackHasNoFloor | app/api/user/registrations/route.js:96-99 | 5 points minus 10 awarded points leaves -5: the balance can go negative |
| UserRegistrationsRoute.Cancel | app/api/user/registrations/route.js:57-114 | a failing guard answers its error and changes nothing; on success the registration with the cast id is deleted, the caller's points clawed back, events and activities untouched, the store stays valid |
| UserRegistrationsRoute.CancelAs | app/api/user/registrations/route.js:71-106 | the same, once the caller is known |
| UserRegistrationsRoute.FindFirst | app/api/user/registrations/route.js:34 | `findOne` gives a registration of the caller for that event, and none exactly when no such registration exists |
| UserRegistrationsRoute.RegistrationsOf | app/api/user/registrations/route.js:24-53 | an `eventId` that is not an ObjectId is the 500 "Failed to fetch registrations"; with a valid one, a single lookup of a registration of the caller for that event, null exactly when there is none; without, every registration of the caller sorted newest first, as a permutation of the caller's registrations |
| UserRegistrationsRoute.MyRegistrations | app/api/user/registrations/route.js:10-54 | token failures pass through, otherwise the selection above for the decoded caller |
| UserRegistrationsRoute.ListingIsExactlyMine | app/api/user/registrations/route.js:41-43 | a registration is in the listing exactly when it is stored and belongs to the caller |
| ActivitiesRoute.CastLocation | app/api/activities/route.js:33 | null gives the empty location; an object stores `lat` and `lng` through the Number cast and `placeName` through the String cast, and fails exactly when one of those casts fails; any other value fails |
| ActivitiesRoute.NumericStringCoordinates | models/Activity.js:15-19 | coordinates given as numeric strings are stored as their numbers |
| ActivitiesRoute.ParseLocation | app/api/activities/route.js:33 | `JSON.parse(location || '{}')`: a syntax error fails, otherwise the cast of the parsed value |
| ActivitiesRoute.AbsentLocationIsEmpty | app/api/activities/route.js:33 | with no location field the activity gets the empty location |
| ActivitiesRoute.UploadAll | app/api/activities/route.js:38-46 | uploading entries one by one gives one URL per entry, in order, or fails |
| ActivitiesRoute.UploadAllSnoc | app/api/activities/route.js:43-44 | one more upload appends its URL, or fails the whole list |
| ActivitiesRoute.UploadAllFails | app/api/activities/route.js:38-46 | the uploads fail exactly when one of them fails |
| ActivitiesRoute.UploadSendableIsUploadAll | app/api/activities/route.js:38-46 | the loop uploads exactly the non-empty files, in form order |
| ActivitiesRoute.UploadSendableStep | app/api/activities/route.js:38-46 | one more form entry keeps the loop equal to uploading the non-empty files |
| ActivitiesRoute.StepSkipped | app/api/activities/route.js:39 | an entry that is not a non-empty file adds no upload |
| ActivitiesRoute.StepSendable | app/api/activities/route.js:39-44 | a non-empty file is uploaded after the earlier ones |
| ActivitiesRoute.UploadLoop | app/api/activities/route.js:36-46 | the imperative loop (failing on the first failed upload) computes the recursive description of the loop |
| ActivitiesRoute.UploadImages | app/api/activities/route.js:35-46 | the URLs are those of uploading the non-empty files in order, or none when one upload fails |
| ActivitiesRoute.UploadSendablePrefixFails | app/api/activities/route.js:43 | a failed upload early in the form fails the whole request |
| ActivitiesRoute.PointsFor | app/api/activities/route.js:50 | the type's points from the table when present and non-zero, 10 otherwise; never 0 |
| ActivitiesRoute.SubmissionFor | app/api/activities/route.js:30-63 | the activity is stored exactly when the location parses and casts, every upload succeeds and the type is non-empty; it is pending, owned by the caller, with the cast location, the uploaded URLs, the type's points and the carbon estimate for quantity 1; every failure is the 500 "Failed to create activity" |
| ActivitiesRoute.CreateActivity | app/api/activities/route.js:18-68 | token failures answer 401 and store nothing; otherwise the submission above, added under the new id and nothing else changed |
| ActivitiesRoute.CreateActivityAs | app/api/activities/route.js:30-63 | the same, once the caller is known |
| ActivitiesRoute.ListActivities | app/api/activities/route.js:70-88 | at most 20 activities of the requested status, newest first, drawn from the stored ones; all of them when there are at most 20, and any left out is no newer than the last one shown |
| ActivitiesPendingRoute.PendingOf | app/api/activities/pending/route.js:27-29 | only pending activities, newest first, a permutation of the pending ones |
| ActivitiesPendingRoute.QueueIsExactlyPending | app/api/activities/pending/route.js:27-29 | an activity is in the queue exactly when it is stored and pending |
| ActivitiesPendingRoute.PendingActivities | app/api/activities/pending/route.js:7-35 | the administrator gate's refusals pass through; an administrator gets the pending queue |
| ActivitiesPendingRoute.UnknownCallerIsForbidden | app/api/activities/pending/route.js:22-25 | a verified token whose user no longer exists gets 403, not 404 |
| EventsRoute.IntParamOr | app/api/events/route.js:17-18 | `parseInt(param) \|\| fallback` is never 0: it is the fallback or the parsed integer |
| EventsRoute.AbsentParamFallsBack | app/api/events/route.js:17-18 | an absent page or limit takes the default |
| EventsRoute.ZeroParamFallsBack | app/api/events/route.js:17-18 | "0" is falsy after parsing and also takes the default |
| EventsRoute.DecimalParamRead | app/api/events/route.js:17-18 | a positive numeral, possibly followed by non-digits, is read as that number |
| EventsRoute.FloorDiv | app/api/events/route.js:96 | the floor of a / b for a non-zero divisor, stated by its bounds |
| EventsRoute.CeilDiv | app/api/events/route.js:96 | `Math.ceil(total / limit)`, stated by its bounds |
| EventsRoute.IsAdmin | app/api/events/route.js:26-41 | GET treats the caller as an administrator exactly when the administrator gate would let them through; every failure on the way means "not admin" |
| EventsRoute.BuildFilter | app/api/events/route.js:23-61 | non-administrators see only published events; an administrator's status restricts unless absent or "all"; category restricts unless absent or "all"; `upcoming=true` adds "from now on" and forces published |
| EventsRoute.FindEvents | app/api/events/route.js:65-69 | a negative skip fails; otherwise the page is the window at the skip, of length `limit`, of the matching events put in date order: each page entry matches and is from the collection, none more often than in the collection, and the length is exactly what the window leaves of the matching total |
| EventsRoute.EventsOf | app/api/events/route.js:80-86 | the events of a listing, position by position, without their counts |
| EventsRoute.AsWrittenAlwaysZero | app/api/events/route.js:80-86 | as written, every listed event's approved count is 0 |
| EventsRoute.AsWrittenMissesApproved | app/api/events/route.js:82-84 | an event with one approved registration is still listed with 0, where the corrected count says 1 |
| EventsRoute.ApprovedCountCorrected | models/Event.js:98-104 | the count of the event's approved registrations, at most its registration count |
| EventsRoute.WithCountsCorrected | models/Event.js:98-104 | the listing the corrected count would give: each event in place with its number of approved registrations |
| EventsRoute.CorrectedListingDiffers | app/api/events/route.js:80-86 | the listing as written and the corrected one agree on an event exactly when it has no approved registration |
| EventsRoute.WithCounts | app/api/events/route.js:80-86 | each listed event keeps its position and carries the count as written, which is 0 for every event |
| EventsRoute.Respond | app/api/events/route.js:17-98 | the page and limit parameters with their fallbacks, the 500 of a negative skip, the total of matching events and `ceil(total / limit)` pages; the page's events are exactly what `find` returns for the skip and limit, each with the count 0 |
| EventsRoute.RespondMeets | app/api/events/route.js:43-98 | for a filter that admits exactly the events the caller may see, the total is the number of visible events and the page is the date-ordered window of them at the skip, with the exact length, no event more often than stored, each visible, with count 0, in date order |
| EventsRoute.FoundPageMeets | app/api/events/route.js:65-98 | the page built from what `find` returns has the visible total, the exact length and the date-ordered window |
| EventsRoute.FoundEvents | app/api/events/route.js:65-86 | each event `find` returns is visible to the caller, the listing is in date order and every count is 0 |
| EventsRoute.ListEventsFor | app/api/events/route.js:43-98 | once `isAdmin` is known, the listing keeps every promise above |
| EventsRoute.ListEvents | app/api/events/route.js:9-106 | a negative skip is the 500; otherwise the total counts exactly the events visible to the caller (published for non-administrators and for `upcoming`, from now on for `upcoming`, matching category and an administrator's status), the page is the date-ordered window of those events at the skip, of the exact length, each with the count 0, and the pagination figures follow from the parameters |
| EventsRoute.CheckBody | app/api/events/route.js:142-164 | the validation chain in order: a falsy title, description, date or maxParticipants is 400 "Missing required fields"; then an unparsable date 400; then a maxParticipants that is not a positive integer 400; success exactly when none fires |
| EventsRoute.ZeroParticipantsIsMissing | app/api/events/route.js:142 | a maxParticipants of 0 is reported as a missing field, not as a bad number |
| EventsRoute.PointsReward | app/api/events/route.js:137-169 | `Math.max(0, pointsReward)` with default 0: never negative, 0 when absent, the given number when positive |
| EventsRoute.CastEnum | models/Event.js:49-58 | an enum path goes through the String cast; unset stays unset, a cast text is kept exactly when it is one of the names |
| EventsRoute.EventData | app/api/events/route.js:166-174 | the spread body with organizer, points and both timestamps overwritten by the handler's values; title and description go through the String cast, the date through the Date cast (so a boolean date fails), the carbon estimate through the Number cast, the auto-approve flag through the Boolean cast |
| EventsRoute.CreateDecision | app/api/events/route.js:113-188 | the administrator gate first; then a body that is not JSON or is null as 500; then the validation chain; then a schema failure as 500 with the error's message, or "Failed to create event" when it has none; a created event has the new id, the caller as organizer, the clamped points, the body's date through the Date cast (the checked date unless it is a millisecond string), the checked capacity, and passes the validators |
| EventsRoute.NullBodyIsServerError | app/api/events/route.js:128-140 | an administrator's body that is JSON null or not JSON is a 500, not the 400 for missing fields |
| EventsRoute.BooleanDateIsServerError | app/api/events/route.js:142-176 | `date: true` passes the handler's checks but the Date cast refuses it, so the answer is the 500 |
| EventsRoute.CaughtError | app/api/events/route.js:183-188 | the catch answers 500 with the error's message, or "Failed to create event" when the message is empty |
| EventsRoute.CreateEvent | app/api/events/route.js:109-190 | a refused request stores nothing; an accepted one adds exactly the new event and answers 201 "Event created successfully"; the other collections are untouched |
| EventsRoute.PutCollection | app/api/events/route.js:193-199 | PUT on the collection answers 404 |
| CarbonEstimator.FactorTable | lib/carbonEstimator.js:3-26 | the per-unit factors are 21.77 per tree, 0.5 per bag, 0.16 per km and 0.8 per kg composted |
| CarbonEstimator.RecyclingFactor | lib/carbonEstimator.js:36-38 | plastic 2.5, paper 3.5, metal 4.0, and 2.5 for any other material |
| CarbonEstimator.RecyclingFactorAgrees | lib/carbonEstimator.js:38 | the factor as written equals the corrected one for every subtype but "unit" |
| CarbonEstimator.UnitSubtypeIsNaN | lib/carbonEstimator.js:8-38 | as written, recycling with the subtype "unit" multiplies by the text "kg" and gives NaN; the corrected estimate uses 2.5 |
| CarbonEstimator.AsWrittenAgreesElsewhere | lib/carbonEstimator.js:28-59 | on every other input the written and the corrected estimate agree |
| CarbonEstimator.EstimateCarbonAsWritten | lib/carbonEstimator.js:28-59 | as written: the corrected estimate for every type but recycling; recycling is NaN exactly for the subtype "unit", and otherwise quantity times the recycling factor |
| CarbonEstimator.EstimateCarbon | lib/carbonEstimator.js:28-59 | quantity times the type's factor: 21.77 per tree, the recycling factor, 0.5 per bag, 0.16 per km, 0.8 per kg, and 1.0 for any other type |
| CarbonEstimator.ZeroQuantity | lib/carbonEstimator.js:28-59 | a quantity of 0 saves nothing, whatever the type |
| CarbonEstimator.FirstNumber | lib/carbonEstimator.js:66 | there is no number exactly when the text has no decimal digit |
| CarbonEstimator.FirstNumberSkips | lib/carbonEstimator.js:66-67 | text without digits before the first number is skipped |
| CarbonEstimator.FirstNumberReads | lib/carbonEstimator.js:66-67 | a numeral followed by a non-digit is read as its value |
| CarbonEstimator.EstimateCarbonWithAI | lib/carbonEstimator.js:62-70 | the estimate for the first number in the description, or for 1 when there is none, with no subtype |
| CarbonRoute.QuantityOrOne | app/api/carbon/estimate/route.js:15-22 | `quantity || 1`: a falsy quantity is 1, any other value is kept as it is, and the result is truthy |
| CarbonRoute.TypeArg | lib/carbonEstimator.js:31 | the `switch` matches only a string type, so any other value is an unknown type |
| CarbonRoute.SubTypeArg | lib/carbonEstimator.js:37-38 | a falsy subtype is none, any other is looked up by its string form |
| CarbonRoute.FactorOrNull | app/api/carbon/estimate/route.js:23 | the factor entry when the activity type's string form is a known type, null for any other |
| CarbonRoute.Estimate | app/api/carbon/estimate/route.js:4-31 | a body that is not JSON, is null, or has a truthy non-string description on the `useAI` path is the 500; the `useAI` path estimates from the description, anything else takes the estimator as written on `quantity || 1` converted to a number (null when that is NaN); the calculation echoes the type and `quantity || 1`, and the label says "ai-enhanced" whenever `useAI` is truthy |
| CarbonRoute.DeterministicEstimate | app/api/carbon/estimate/route.js:15 | the estimator as written on `quantity || 1` converted to a number; NaN when the quantity does not convert |
| CarbonRoute.UnitSubtypeAnswersNull | app/api/carbon/estimate/route.js:15-18 | recycling with the subtype "unit" answers `carbonSavedKg: null` |
| CarbonRoute.NumericStringQuantity | app/api/carbon/estimate/route.js:15-21 | a numeric string quantity is multiplied as its number and echoed as the string |
| CarbonRoute.NonStringTypeIsDefault | app/api/carbon/estimate/route.js:15 | an activity type that is not a string is estimated with the default factor 1.0 |
| CarbonRoute.NonStringDescriptionFails | app/api/carbon/estimate/route.js:10-12 | on the `useAI` path a truthy description that is not a string throws and answers 500 |
| CarbonRoute.AiLabelOnDeterministicValue | app/api/carbon/estimate/route.js:10-24 | with `useAI` but no description the value is the deterministic estimate as written while the label says "ai-enhanced" |
| CarbonRoute.AiPathIgnoresQuantity | app/api/carbon/estimate/route.js:10-12 | on the description path the given quantity and subtype play no part in the estimate |
| CarbonRoute.PlantedThreeTrees | app/api/carbon/estimate/route.js:10-12 | "planted 3 trees" with `useAI` estimates three trees |
| Stages.Find | app/leaderboard/page.jsx:52-54 | `stages.find` gives the first stage whose range holds the points, and nothing exactly when no range does |
| Stages.StageOf | app/leaderboard/page.jsx:53 | `find(...) \|\| stages[0]`: the found stage, or the first stage when none holds the points |
| Stages.TableIsPartition | app/leaderboard/page.jsx:44-50 | the five ranges increase, do not overlap, have no gaps and cover 0..1000 |
| Stages.AtMostOneStage | app/dashboard/page.jsx:43-49 | points fall in at most one stage |
| Stages.FindUnique | app/leaderboard/page.jsx:53 | in any order of a table with disjoint ranges, `find` gives the one stage that holds the points |
| Stages.TableLookup | app/dashboard/page.jsx:96-99 | 0..50 is Seed, 51..150 Sprout, 151..300 Sapling, 301..500 Tree, 501..1000 Guardian, and anything else falls back to Seed |
| Stages.Reversed | app/leaderboard/page.jsx:255 | the reversal puts element i at position n-1-i |
| Stages.ReversedTwice | app/leaderboard/page.jsx:255 | reversing twice gives the table back |
| Stages.ReversedMembers | app/leaderboard/page.jsx:255 | reversal keeps exactly the same members |
| Stages.ReversedLookupInRange | app/leaderboard/page.jsx:255-322 | within 0..1000 the lookup in the reversed table finds the same stage |
| Stages.ReversedLookupOutOfRange | app/leaderboard/page.jsx:255-322 | outside 0..1000 the reversed table falls back to Guardian, the declared one to Seed |
| LeaderboardRoute.Project | app/api/leaderboard/route.js:10 | each selected user is projected to its id, name, points and badges, in order |
| LeaderboardRoute.Leaders | app/api/leaderboard/route.js:9-12 | exactly ten users when more have positive points, otherwise all of them: each with positive points, none more often than stored, in non-increasing order of points; anyone with positive points left out has no more points than the tenth |
| LeaderboardRoute.Leaderboard | app/api/leaderboard/route.js:5-18 | a database failure is the 500 "Failed to get leaderboard"; otherwise the projection of the leaders |
| LeaderboardRoute.BoardEntriesArePositive | app/api/leaderboard/route.js:9 | every board entry is a stored user's projection with positive points |
| LeaderboardRoute.BoardIsOrdered | app/api/leaderboard/route.js:11 | the board is in non-increasing order of points |
| LeaderboardRoute.BoardKeepsTopTen | app/api/leaderboard/route.js:11-12 | the board has exactly ten entries, or as many as there are users with positive points when fewer, and nobody left off with positive points outranks the last entry |
| LeaderboardPage.RankIcon | app/leaderboard/page.jsx:56-63 | gold, silver and bronze medals for ranks 1 to 3, a plain medal after that |
| LeaderboardPage.FirstCodeUnit | app/leaderboard/page.jsx:77 | `charCodeAt(0)` is a 16-bit code unit, the character itself when it fits in one |
| LeaderboardPage.AvatarIndex | app/leaderboard/page.jsx:75-79 | the avatar index is within the ten avatars: 0 for a missing or empty name, otherwise the first code unit modulo 10 |
| LeaderboardPage.FilteredLeaders | app/leaderboard/page.jsx:81-83 | "all" keeps every leader; another level keeps, in order, exactly the leaders whose stage has that name |
| LeaderboardPage.Stats | app/leaderboard/page.jsx:85-110 | the warriors figure counts every leader whatever the filter, the guardians figure counts those whose stage is Guardian and is never more than the warriors, and the combined points and badges are the sums over all leaders |
| LeaderboardPage.SumsSplit | app/leaderboard/page.jsx:94-104 | the combined points and badge total of two lists put together are the sums of each, so every leader counts exactly once |
| LeaderboardPage.SumOfOne | app/leaderboard/page.jsx:94-104 | one leader contributes their points, 0 when missing, and the length of their badge list, 0 when missing |
| LeaderboardPage.CombinedAtLeastCount | app/leaderboard/page.jsx:94 | when every leader has positive points the combined points are at least the number of leaders |
| LeaderboardPage.MakeRow | app/leaderboard/page.jsx:321-390 | a row's stage is looked up for `greenPoints \|\| 0`, it has a crown icon exactly in the top three, an avatar in range, at most three badges shown as a prefix of the list and a "+n" for the rest |
| LeaderboardPage.Rows | app/leaderboard/page.jsx:321 | one row per filtered leader, in order, with its index as rank |
| LeaderboardPage.Names | app/leaderboard/page.jsx:255-262 | one level button per stage, named after it, in the table's order |
| LeaderboardPage.ReverseInPlace | app/leaderboard/page.jsx:255 | `Array.prototype.reverse` leaves the array holding the reversal of its old contents |
| LeaderboardPage.RenderAsWritten | app/leaderboard/page.jsx:44-330 | one render with the in-place `stages.reverse()` before the rows computes the as-written view |
| LeaderboardPage.AboveRangeRowDisagrees | app/leaderboard/page.jsx:81-322 | a leader with 1500 points is kept by the Seed filter and not counted as a Guardian, yet their row says Guardian |
| LeaderboardPage.DisplayedView | app/leaderboard/page.jsx:223-330 | buttons, rows and figures appear only once loaded, without error and with leaders; the buttons are in reversed order and the figures come from the declared table |
| LeaderboardPage.RowsMatchFilter | app/leaderboard/page.jsx:81-322 | in the corrected render every row under a level filter carries that level |
| LeaderboardPage.SameRowsInRange | app/leaderboard/page.jsx:255-322 | for points within 0..1000 the written and the corrected render show the same view |
| DashboardPage.PointsOf | app/dashboard/page.jsx:97 | `user?.greenPoints \|\| 0` |
| DashboardPage.CurrentStage | app/dashboard/page.jsx:96-99 | a stage of the table; the one holding the points when they are within 0..1000, Seed otherwise |
| DashboardPage.NoPointsIsSeed | app/dashboard/page.jsx:96-99 | no user, no points or more than 1000 points all show Seed |
| DashboardPage.FindIndexByName | app/dashboard/page.jsx:292 | `findIndex` gives the first position with that name, -1 exactly when there is none |
| DashboardPage.IndexOfStage | app/dashboard/page.jsx:292 | each stage's name is found at its own position |
| DashboardPage.LabelAfter | app/dashboard/page.jsx:292 | once the current stage is known, the label names the next stage or "Max Level" |
| DashboardPage.NextStageLabelCases | app/dashboard/page.jsx:292 | the label says "Max Level" exactly for 501..1000 points, names the following stage for 0..500, and says Sprout out of range |
| DashboardPage.Stats | app/dashboard/page.jsx:167-172 | the points, the number of activities (0 without a list), the level name and the number of badges (0 without a list) |
| DashboardPage.SomeOfType | app/dashboard/page.jsx:176 | `some` holds exactly when an activity has that type |
| DashboardPage.Achievements | app/dashboard/page.jsx:174-181 | six achievements in order: First Steps unlocked exactly by having an activity, each other one exactly by an activity of its type |
| DashboardPage.AchievementsIgnoreStatus | app/dashboard/page.jsx:174-181 | relabelling the activities' statuses (pending, rejected) changes no achievement |
| DashboardPage.TypeAchievementNeedsFirstSteps | app/dashboard/page.jsx:175-180 | any type achievement unlocked means First Steps is unlocked |
| EventsPage.AnyTagIncludes | app/events/page.jsx:43-45 | `tags.some(...)` holds exactly when a lower-cased tag contains the term |
| EventsPage.TextMatchMeans | app/events/page.jsx:40-46 | a search match means the lower-cased term occurs in the lower-cased title, in the description or in some tag |
| EventsPage.TextMatchIgnoresCase | app/events/page.jsx:41-44 | two terms that lower-case alike match the same events |
| EventsPage.TwoStepsAreOne | app/events/page.jsx:35-55 | the search filter followed by the category filter is one filter by "matches the term and the category" |
| EventsPage.FilterEvents | app/events/page.jsx:35-55 | the shown events keep their order and are exactly the events matching the non-empty term and the category other than "all"; no term and "all" show every event |
| EventsPage.StatusLabel | app/events/page.jsx:187-274 | "Registration Closed" exactly when registration is not open, "Event Full" exactly when open and full, "Registration Open" exactly when open and not full |
| EventsPage.OpenUntil | app/events/page.jsx:187 | registration is open until the deadline, or until the event starts when there is no deadline |
| EventsPage.ClosedBeforeFull | app/events/page.jsx:268-271 | a past deadline shows "Registration Closed" even for a full event |
| EventsPage.ZeroCountNeverFull | app/events/page.jsx:188-189 | with the count the listing reports (0) and a positive capacity, an open card always says "Registration Open" |
| AdminEventsPage.StatusColor | app/admin/events/page.jsx:91-99 | a status's own colour when it has one, the draft colour otherwise |
| AdminEventsPage.CategoryColor | app/admin/events/page.jsx:101-112 | a category's own colour when it has one, the "other" colour otherwise |
| AdminEventsPage.StatusColorsDistinct | app/admin/events/page.jsx:91-99 | different schema statuses look different, and unknown text looks like a draft |
| AdminEventsPage.CategoryColorsDistinct | app/admin/events/page.jsx:101-112 | different schema categories look different, and unknown text looks like "other" |
| AdminEventsPage.CategoryLabel | app/admin/events/page.jsx:372 | `replace('-', ' ')` keeps the length, leaves a name without hyphen alone and replaces only the first hyphen |
| AdminEventsPage.LabelOfOneHyphen | app/admin/events/page.jsx:372 | a name with at most one hyphen has a label with none |
| AdminEventsPage.CategoryLabels | app/admin/events/page.jsx:372 | every schema category's label has no hyphen |
| AdminEventsPage.SecondHyphenKept | app/admin/events/page.jsx:372 | "a-b-c" becomes "a b-c": a second hyphen stays |
| AdminEventsPage.SerialiseTags | app/admin/events/page.jsx:536 | no tags or an empty list give an empty field, one tag gives itself |
| AdminEventsPage.ParseTags | app/admin/events/page.jsx:558 | an empty field gives no tags and only an empty field does; every tag is trimmed and has no comma |
| AdminEventsPage.SplitJoined | app/admin/events/page.jsx:536-558 | splitting the joined tags at commas gives each tag with the blank the separator left |
| AdminEventsPage.TagsRoundTrip | app/admin/events/page.jsx:536-558 | editing and saving gives back tags that are non-empty, comma-free and trimmed |
| AdminEventsPage.EmptyTagLost | app/admin/events/page.jsx:536-558 | a single empty tag disappears on save |
| AdminEventsPage.CommaTagSplit | app/admin/events/page.jsx:536-558 | a tag with a comma comes back as two tags |
| AdminEventsPage.BlankTagTrimmed | app/admin/events/page.jsx:536-558 | surrounding blanks are trimmed off a tag |
| AdminEventsPage.StatusActions | app/admin/events/page.jsx:462-491 | a draft offers Publish; a published event offers Complete and Cancel; other statuses offer nothing; each target is a schema status different from the current one |
| AdminEventsPage.ActionsMoveForward | app/admin/events/page.jsx:462-491 | no status can be reached back from a status it offers, and the statuses offered from there offer nothing |
| AdminEventsPage.StatusChange | app/admin/events/page.jsx:44-54 | a status change is a PUT of `{status}` to the event's URL |
| AdminEventsPage.SaveTarget | app/admin/events/page.jsx:566-567 | saving an edited event is a PUT to its URL, a new event a POST to the collection |
| AdminEventsPage.SaveAndStatusShareUrl | app/admin/events/page.jsx:566-567 | a status change and an edit address the same URL, and a new event never an event's URL |
| CarbonChatbot.WithField | components/CarbonCalculatorChatbot.jsx:295-297 | a field update changes that one amount and keeps the others |
| CarbonChatbot.Toggled | components/CarbonCalculatorChatbot.jsx:241-246 | a button press selects the key exactly when it was not selected, appending it at the end, or removes it keeping the others in order; no other key changes |
| CarbonChatbot.SubsequenceNoDuplicates | components/CarbonCalculatorChatbot.jsx:244 | removing keys from a list without duplicates leaves none |
| CarbonChatbot.SubsequenceMembers | components/CarbonCalculatorChatbot.jsx:244 | removing keys adds no new key |
| CarbonChatbot.ToggleKeepsNoDuplicates | components/CarbonCalculatorChatbot.jsx:241-246 | toggling never selects a key twice |
| CarbonChatbot.ToggleTwice | components/CarbonCalculatorChatbot.jsx:241-246 | pressing the same button twice restores which keys are selected |
| CarbonChatbot.ToggleTwiceRestores | components/CarbonCalculatorChatbot.jsx:241-246 | for a key not selected, pressing twice gives the very same list back |
| CarbonChatbot.OrDefault | components/CarbonCalculatorChatbot.jsx:51-55 | `value \|\| default` is non-empty whenever the default is |
| CarbonChatbot.Clause | components/CarbonCalculatorChatbot.jsx:51-55 | each selected activity contributes a non-empty sentence |
| CarbonChatbot.PromptLines | components/CarbonCalculatorChatbot.jsx:49-57 | one prompt line per activity button: its sentence exactly when the activity is selected, empty otherwise |
| CarbonChatbot.EmptyAmountIsZero | components/CarbonCalculatorChatbot.jsx:51 | an empty tree amount is written as "Planted 0 trees. " |
| CarbonChatbot.PartsText | components/CarbonCalculatorChatbot.jsx:93-97 | the loop over `parts` only appends to the text |
| CarbonChatbot.ItemStep | components/CarbonCalculatorChatbot.jsx:92-102 | one `content` item only appends to the text |
| CarbonChatbot.ContentText | components/CarbonCalculatorChatbot.jsx:91-103 | the loop over a `content` array only appends to the text |
| CarbonChatbot.CandStep | components/CarbonCalculatorChatbot.jsx:86-110 | one candidate only appends to the text |
| CarbonChatbot.CandsText | components/CarbonCalculatorChatbot.jsx:85-111 | the loop over the candidates only appends to the text |
| CarbonChatbot.ResponseText | components/CarbonCalculatorChatbot.jsx:117 | the extracted text is trimmed |
| CarbonChatbot.ExtractResponseText | components/CarbonCalculatorChatbot.jsx:79-117 | the nested extraction loops compute the extracted, trimmed text |
| CarbonChatbot.ExtractContent | components/CarbonCalculatorChatbot.jsx:91-103 | the loop over a `content` array computes its recursive description |
| CarbonChatbot.ExtractParts | components/CarbonCalculatorChatbot.jsx:93-107 | the loop over a `parts` array computes its recursive description |
| CarbonChatbot.PartsOfTexts | components/CarbonCalculatorChatbot.jsx:93-97 | parts holding non-empty texts append each text on its own line |
| CarbonChatbot.TextPartStep | components/CarbonCalculatorChatbot.jsx:94-95 | a part with a non-empty text appends it |
| CarbonChatbot.CandidateStep | components/CarbonCalculatorChatbot.jsx:104-107 | a candidate whose content has parts contributes its part texts |
| CarbonChatbot.CandidatesText | components/CarbonCalculatorChatbot.jsx:84-111 | over conventional candidates the text is every part text in order |
| CarbonChatbot.AppendAllIsJoin | components/CarbonCalculatorChatbot.jsx:95 | appending non-empty pieces with "\n" between them is joining them with "\n" |
| CarbonChatbot.ConventionalResponse | components/CarbonCalculatorChatbot.jsx:79-114 | on Gemini's documented response shape with non-empty texts, the text is every part text joined by newlines |
| CarbonChatbot.GeminiCandidates | components/CarbonCalculatorChatbot.jsx:84-85 | the documented shape is read through its candidates |
| CarbonChatbot.CandidatesOverrideText | components/CarbonCalculatorChatbot.jsx:84-112 | with a candidates array the top-level `text` plays no part, and an empty array gives no text |
| CarbonChatbot.PlainTextResponse | components/CarbonCalculatorChatbot.jsx:112-114 | without candidates a string `text` is taken as it is |
| CarbonChatbot.Outcome | components/CarbonCalculatorChatbot.jsx:59-128 | the mock result exactly when there is no key, the request fails, the reply is not ok or not JSON, or no text is extracted; otherwise the non-empty trimmed text with no details |
| CarbonChatbot.Chatbot.constructor | components/CarbonCalculatorChatbot.jsx:28-41 | the widget starts closed at step 1 with "tree" selected, the default amounts, not loading and no result |
| CarbonChatbot.Chatbot.SetOpen | components/CarbonCalculatorChatbot.jsx:154-196 | opening or closing changes nothing else |
| CarbonChatbot.Chatbot.Toggle | components/CarbonCalculatorChatbot.jsx:241-246 | an activity button updates the selection by the toggle and keeps it free of duplicates and of unknown keys |
| CarbonChatbot.Chatbot.Next | components/CarbonCalculatorChatbot.jsx:264-265 | Next moves to step 2 exactly when something is selected, and otherwise does nothing |
| CarbonChatbot.Chatbot.SetInput | components/CarbonCalculatorChatbot.jsx:295-297 | typing in a field updates that amount only |
| CarbonChatbot.Chatbot.Reset | components/CarbonCalculatorChatbot.jsx:137-149 | the default amounts, step 1, "tree" selected and no result |
| CarbonChatbot.Chatbot.Calculate | components/CarbonCalculatorChatbot.jsx:45-134 | ends at step 3, not loading, with the outcome for the prompt built from the selection and amounts; selection and amounts unchanged |
| LoginPage.ErrorText | app/login/page.jsx:44 | the reply's error text when it is a non-empty string, "Login failed" when it is falsy |
| LoginPage.StoredAfter | app/login/page.jsx:50-51 | the token and the user are written exactly when the reply carries them; every other key is left alone |
| LoginPage.RawRole | app/login/page.jsx:54-56 | `user.role`, else `role`, else the role of the stored user, each taken when the earlier ones are null or undefined |
| LoginPage.ResolvedRole | app/login/page.jsx:58 | a role exactly when the raw role is a string, lower-cased |
| LoginPage.Destination | app/login/page.jsx:66-71 | "/admin" exactly for the role "admin", "/dashboard" otherwise |
| LoginPage.RoleCaseIgnored | app/login/page.jsx:58-67 | "ADMIN" and "Admin" go to the admin area, a number role to the dashboard |
| LoginPage.LoginForm.HandleSubmit | app/login/page.jsx:30-77 | loading ends false; a network error or an unreadable body shows "Something went wrong" and changes nothing; a refusal shows the error text and changes nothing; a success stores token and user, shows "Logged in as" the role (or "user") and redirects by role |
| LoginPage.ServerSuccessRedirect | app/login/page.jsx:50-71 | a successful login from the sign-in handler redirects an admin to "/admin" and everyone else to "/dashboard", whatever storage held, and keeps a non-empty token |
| LoginPage.ServerFailureToast | app/login/page.jsx:43-44 | a wrong email or password shows "Invalid credentials" |
| LoginPage.StaleStoredRole | app/login/page.jsx:54-56 | a reply with a token but no role falls back on the previously stored user, who may be an admin |

## Left out

- Rendering: JSX markup, styling beyond the colour lookups, animations, icons other than the rank medals, and the look of toasts. Only the values the pages compute are modelled.
- `lib/mongodb.js` (connection caching) and the seed script are not part of this model. The handlers' database is `Db.Store`.
- The internals of `jsonwebtoken` and `bcryptjs`: signing, verifying, hashing and comparing are parameters. Only their results and failures reach the model.
- The Cloudinary upload and the Gemini request are network calls. Each is a parameter that answers with a URL, a reply, or a failure.
- Rounding in `estimateCarbon` (`Math.round(x * 100) / 100`, lib/carbonEstimator.js:58): estimates are exact decimals and are not rounded to hundredths; no model of binary floating point.
- Progress-bar percentages (app/dashboard/page.jsx:101-106, app/events/page.jsx:293) are pure presentation over floating point and are not modelled.
- Dates and locale formatting: `new Date(...)` parsing, `toLocaleDateString`, and the `toLocaleString` of the combined points figure. The parse and the current time are parameters; instants are integers.
- Concurrency: requests are modelled one at a time. There are no interleavings between database reads and writes.
- `utils/constants.js` is not part of this model. `ACTIVITY_TYPES` is passed in as a map from type to points (`ActivitiesRoute.PointsFor`).
- Route handlers other than the ones modelled here are not part of this model. These include activity approval and event-by-id.
- Mongoose `populate` is not modelled: responses carry referenced documents (organizer, event, user) as their ids. Projection (`select`) is a record of the selected fields.
- Sort order between documents with equal keys is unspecified in MongoDB; the model sorts stably, so equal keys keep collection order, and contracts state only sortedness and permutation.
- `toLowerCase` folds ASCII letters only. Strings are sequences of characters, with no UTF-16 surrogate pairs.
- Property access on JSON bodies sees only own properties. Inherited object properties (`toString` and the like) are not modelled.
- EventsRoute.CreateEvent: an explicit null for a path that has a default (category, status, carbon estimate, auto-approve) is read as absent, so the model applies the default where Mongoose stores null. The casts of the paths no handler inspects (location, tags, skills and the like) are one parameter, `castDetails`.
- EventsRoute.CaughtError: the text of a thrown error (a body that is not JSON, a destructured null, Mongoose's cast and validation errors) is not modelled; it comes in as the parameter `errorMessage`.
- UserModel.FindOne: how MongoDB evaluates an operator filter or an array (`$in`) is the parameter `runFilter`, which answers a throw, no match, or the id of the first match.
- Common.CastObjectId: only the 24-hex-digit form is an ObjectId here. Older versions of the bson library also accept any 12-character string.
- CastLocation: a location that is neither an object nor null fails the cast, as Mongoose refuses a primitive for a nested path; keys other than `lat`, `lng` and `placeName` are dropped, as the schema is strict.
- `Number(...)` of a string, array or object is a parameter (`otherToNumber`), and so is the text of a number (`showNum`). Numbers, booleans, null and undefined are converted in the model.
- `console.log` and `console.error` output.
- CarbonChatbot.ResponseText: its own contract states only that the text is trimmed. What the text holds is stated by the extraction lemmas beside it.

## Findings

The handlers are modelled as written. Each corrected member stands beside the as-written one, with the intended property proved about it.

| source | as written | input that shows it | evidently intended | confidence | as-written member | corrected member |
|---|---|---|---|---|---|---|
| app/api/events/route.js:80-86 | `approvedRegistrationCount` counts the approved entries of `event.registrations`. The Event schema declares no `registrations` path, so the hydrated document has no value for it, `event.registrations` is undefined, and the count is always 0 | an event with one approved registration is listed with `approvedRegistrationCount: 0` (EventsRoute.AsWrittenMissesApproved) | the number of the event's registrations with status `approved`, as the schema's virtual defines it (models/Event.js:98-104) | not executed | EventsRoute.ApprovedCountAsWritten | EventsRoute.ApprovedCountCorrected |
| lib/carbonEstimator.js:38 | the recycling factor is `factors[subtype] \|\| factors.plastic`. The recycling table also holds the key `unit: 'kg'`, so the subtype `unit` picks up the text `'kg'`, and the estimate is a number times a string | `estimateCarbon('recycling', 3, 'unit')` is NaN (CarbonEstimator.UnitSubtypeIsNaN) | a material that is not in the table falls back to the plastic factor 2.5 | not executed | CarbonEstimator.EstimateCarbonAsWritten | CarbonEstimator.EstimateCarbon |
| app/leaderboard/page.jsx:255 | `stages.reverse()` reverses the stage table in place. It runs after the level filter and the figures, and before the rows (line 322) look up each leader's stage, so the out-of-range fallback `stages[0]` turns from Seed into Guardian | a leader with 1500 points is kept by the Seed filter and not counted among the Guardians, yet their row says Guardian (LeaderboardPage.AboveRangeRowDisagrees) | the level buttons are shown in reverse order without changing the table, so every lookup in one render gives the same stage | not executed | LeaderboardPage.ViewAsWritten | LeaderboardPage.DisplayedView |
