/** app/api/activities/route.js: POST records a submitted activity (after
    the token checks, with the uploaded images' URLs, the type's points and
    a basic carbon estimate) and GET lists the newest twenty, optionally of
    one status. */
module ActivitiesRoute {
  import opened Wrappers
  import opened Common
  import opened JsString
  import opened JsValue
  import opened SchemaCast
  import opened Query
  import opened ActivityModel
  import CarbonEstimator
  import AuthLib
  import Db

  // ---------------------------------------------------------------- POST

  /** An entry of the multipart form: an uploaded file or a plain text value. */
  datatype FormEntry =
    | FileEntry(name: string, mimeType: string, size: nat)
    | TextEntry(text: string)

  /** `formData.get(...)` of the three text fields and `getAll('images')`. */
  datatype ActivityForm = ActivityForm(
    activityType: Option<string>,
    description: Option<string>,
    location: Option<string>,
    images: seq<FormEntry>)

  const CreateFailed := HttpError(500, "Failed to create activity")

  /** `image && image.size > 0`: only a non-empty file is uploaded (a text
      entry has no `size`). */
  predicate Sendable(e: FormEntry) {
    e.FileEntry? && e.size > 0
  }

  /** The nested `location` path of the Activity schema cast from the parsed
      JSON: an object's `lat` and `lng` through the Number cast and its
      `placeName` through the String cast (other keys are dropped), null for
      no location; None when the cast fails, as it does for a value that is
      neither an object nor null. */
  function CastLocation(v: JsVal, otherToNumber: JsVal -> Option<real>, showNum: real -> string)
    : (r: Option<ActivityLocation>)
    ensures v.JNull? ==> r == Some(EmptyLocation())
    ensures v.JObj? ==>
              var lat := CastNumber(Get(v, "lat"), otherToNumber);
              var lng := CastNumber(Get(v, "lng"), otherToNumber);
              var place := CastString(Get(v, "placeName"), showNum);
              (r.Some? <==> lat.Some? && lng.Some? && place.Some?) &&
              (r.Some? ==> r.value == ActivityLocation(lat.value, lng.value, place.value))
    ensures r.Some? ==> v.JNull? || v.JObj?
  {
    match v
    case JNull => Some(EmptyLocation())
    case JObj(_) =>
      var lat := CastNumber(Get(v, "lat"), otherToNumber);
      var lng := CastNumber(Get(v, "lng"), otherToNumber);
      var place := CastString(Get(v, "placeName"), showNum);
      if lat.None? || lng.None? || place.None? then None
      else Some(ActivityLocation(lat.value, lng.value, place.value))
    case _ => None
  }

  /** A location whose coordinates come as numeric strings is stored with
      their numbers. */
  lemma NumericStringCoordinates(lat: string, lng: string, latValue: real, lngValue: real,
                                 otherToNumber: JsVal -> Option<real>, showNum: real -> string)
    requires lat != "" && lng != ""
    requires otherToNumber(JStr(lat)) == Some(latValue) && otherToNumber(JStr(lng)) == Some(lngValue)
    ensures CastLocation(JObj(map["lat" := JStr(lat), "lng" := JStr(lng)]), otherToNumber, showNum)
              == Some(ActivityLocation(Some(latValue), Some(lngValue), None))
  {
    var v := JObj(map["lat" := JStr(lat), "lng" := JStr(lng)]);
    assert Get(v, "lat") == JStr(lat) && Get(v, "lng") == JStr(lng) && Get(v, "placeName") == JUndefined;
  }

  /** `JSON.parse(formData.get('location') || '{}')`, cast to the schema.
      `parseJson` is JSON.parse, None for a syntax error. */
  function ParseLocation(location: Option<string>, parseJson: string -> Option<JsVal>,
                         otherToNumber: JsVal -> Option<real>, showNum: real -> string)
    : (r: Option<ActivityLocation>)
    ensures parseJson(OrElse(location, "{}")).None? ==> r.None?
    ensures parseJson(OrElse(location, "{}")).Some? ==>
              r == CastLocation(parseJson(OrElse(location, "{}")).value, otherToNumber, showNum)
  {
    match parseJson(OrElse(location, "{}"))
    case None => None
    case Some(v) => CastLocation(v, otherToNumber, showNum)
  }

  /** Without a location field the activity gets the empty location. */
  lemma AbsentLocationIsEmpty(parseJson: string -> Option<JsVal>, otherToNumber: JsVal -> Option<real>,
                              showNum: real -> string)
    requires parseJson("{}") == Some(JObj(map[]))
    ensures ParseLocation(None, parseJson, otherToNumber, showNum) == Some(EmptyLocation())
  {
  }

  /** The URLs of uploading `entries` one after the other; None when an
      upload fails.  `upload` is the image host, given the file. */
  function UploadAll(entries: seq<FormEntry>, upload: FormEntry -> Option<string>): (r: Option<seq<string>>)
    ensures r.Some? ==> |r.value| == |entries| &&
                        forall i :: 0 <= i < |entries| ==> upload(entries[i]) == Some(r.value[i])
  {
    if |entries| == 0 then Some([])
    else
      match UploadAll(entries[..|entries| - 1], upload)
      case None => None
      case Some(urls) =>
        match upload(entries[|entries| - 1])
        case None => None
        case Some(u) => Some(urls + [u])
  }

  /** Uploading one more entry appends its URL, or fails. */
  lemma UploadAllSnoc(entries: seq<FormEntry>, e: FormEntry, upload: FormEntry -> Option<string>)
    ensures UploadAll(entries + [e], upload) ==
            match UploadAll(entries, upload)
            case None => None
            case Some(urls) => (match upload(e) case None => None case Some(u) => Some(urls + [u]))
  {
    assert (entries + [e])[..|entries|] == entries;
  }

  /** The list fails exactly when one of its uploads fails. */
  lemma {:induction false} UploadAllFails(entries: seq<FormEntry>, upload: FormEntry -> Option<string>)
    ensures UploadAll(entries, upload).None? <==> exists i :: 0 <= i < |entries| && upload(entries[i]).None?
  {
    if |entries| > 0 {
      var front := entries[..|entries| - 1];
      UploadAllFails(front, upload);
      assert entries == front + [entries[|entries| - 1]];
      UploadAllSnoc(front, entries[|entries| - 1], upload);
      if UploadAll(front, upload).None? {
        var i :| 0 <= i < |front| && upload(front[i]).None?;
        assert entries[i] == front[i];
      }
    }
  }

  /** The handler's loop as a recursion over the form entries: the
      non-empty files are uploaded in order and the others skipped. */
  function UploadSendable(images: seq<FormEntry>, upload: FormEntry -> Option<string>): Option<seq<string>> {
    if |images| == 0 then Some([])
    else
      var last := images[|images| - 1];
      match UploadSendable(images[..|images| - 1], upload)
      case None => None
      case Some(urls) =>
        if !Sendable(last) then Some(urls)
        else match upload(last)
          case None => None
          case Some(u) => Some(urls + [u])
  }

  /** That recursion uploads exactly the sendable entries, in order. */
  lemma {:induction false} UploadSendableIsUploadAll(images: seq<FormEntry>, upload: FormEntry -> Option<string>)
    ensures UploadSendable(images, upload) == UploadAll(Filter(images, Sendable), upload)
  {
    if |images| == 0 {
      assert Filter(images, Sendable) == [];
    } else {
      UploadSendableIsUploadAll(images[..|images| - 1], upload);
      UploadSendableStep(images, upload);
    }
  }

  /** One more entry keeps the recursion and the filtered uploads equal. */
  lemma UploadSendableStep(images: seq<FormEntry>, upload: FormEntry -> Option<string>)
    requires |images| > 0
    requires var front := images[..|images| - 1];
      UploadSendable(front, upload) == UploadAll(Filter(front, Sendable), upload)
    ensures UploadSendable(images, upload) == UploadAll(Filter(images, Sendable), upload)
  {
    FilterLast(images, Sendable);
    if Sendable(images[|images| - 1]) {
      StepSendable(images, upload);
    } else {
      StepSkipped(images, upload);
    }
  }

  /** An entry that is not sendable changes nothing. */
  lemma StepSkipped(images: seq<FormEntry>, upload: FormEntry -> Option<string>)
    requires |images| > 0 && !Sendable(images[|images| - 1])
    requires var front := images[..|images| - 1];
      && UploadSendable(front, upload) == UploadAll(Filter(front, Sendable), upload)
      && Filter(images, Sendable) == Filter(front, Sendable)
    ensures UploadSendable(images, upload) == UploadAll(Filter(images, Sendable), upload)
  {
  }

  /** A sendable last entry is uploaded after the others. */
  lemma StepSendable(images: seq<FormEntry>, upload: FormEntry -> Option<string>)
    requires |images| > 0 && Sendable(images[|images| - 1])
    requires var front := images[..|images| - 1];
      && UploadSendable(front, upload) == UploadAll(Filter(front, Sendable), upload)
      && Filter(images, Sendable) == Filter(front, Sendable) + [images[|images| - 1]]
    ensures UploadSendable(images, upload) == UploadAll(Filter(images, Sendable), upload)
  {
    UploadAllSnoc(Filter(images[..|images| - 1], Sendable), images[|images| - 1], upload);
  }

  /** The upload loop: each non-empty file, in form order, has its URL
      appended to the list. */
  method UploadImages(images: seq<FormEntry>, upload: FormEntry -> Option<string>)
    returns (urls: Option<seq<string>>)
    ensures urls == UploadAll(Filter(images, Sendable), upload)
  {
    urls := UploadLoop(images, upload);
    UploadSendableIsUploadAll(images, upload);
  }

  /** The loop itself, against the recursion. */
  method UploadLoop(images: seq<FormEntry>, upload: FormEntry -> Option<string>)
    returns (urls: Option<seq<string>>)
    ensures urls == UploadSendable(images, upload)
  {
    var acc: seq<string> := [];
    var i := 0;
    while i < |images|
      invariant 0 <= i <= |images|
      invariant UploadSendable(images[..i], upload) == Some(acc)
    {
      assert images[..i + 1][..i] == images[..i];
      if Sendable(images[i]) {
        var u := upload(images[i]);
        if u.None? {
          UploadSendablePrefixFails(images, i + 1, upload);
          return None;
        }
        acc := acc + [u.value];
      }
      i := i + 1;
    }
    assert images[..i] == images;
    urls := Some(acc);
  }

  /** A failed upload among the first i entries fails the whole loop. */
  lemma {:induction false} UploadSendablePrefixFails(images: seq<FormEntry>, i: nat, upload: FormEntry -> Option<string>)
    requires i <= |images|
    requires UploadSendable(images[..i], upload).None?
    ensures UploadSendable(images, upload).None?
    decreases |images| - i
  {
    if i < |images| {
      assert images[..i + 1][..i] == images[..i];
      UploadSendablePrefixFails(images, i + 1, upload);
    } else {
      assert images[..i] == images;
    }
  }

  /** `String(type)`, the key `ACTIVITY_TYPES[type]` looks up. */
  function TypeKey(activityType: Option<string>): string {
    if activityType.Some? then activityType.value else "null"
  }

  /** `ACTIVITY_TYPES[type]?.points || 10`.  The table is not part of this
      model: `activityPoints` maps each type that has points to them. */
  function PointsFor(activityPoints: map<string, int>, activityType: Option<string>): (p: int)
    ensures TypeKey(activityType) in activityPoints && activityPoints[TypeKey(activityType)] != 0 ==>
              p == activityPoints[TypeKey(activityType)]
    ensures TypeKey(activityType) !in activityPoints || activityPoints[TypeKey(activityType)] == 0 ==> p == 10
    ensures p != 0
  {
    var key := TypeKey(activityType);
    if key in activityPoints && activityPoints[key] != 0 then activityPoints[key] else 10
  }

  /** What the handler stores for an authenticated `caller`, or the 500 it
      answers when the location does not parse, an upload fails or the
      required `type` is missing or empty. */
  function SubmissionFor(caller: Id, form: ActivityForm, parseJson: string -> Option<JsVal>,
                         otherToNumber: JsVal -> Option<real>, showNum: real -> string,
                         upload: FormEntry -> Option<string>, activityPoints: map<string, int>,
                         newId: Id, now: Instant): (r: Result<Activity, HttpError>)
    ensures r.Failure? ==> r.error == CreateFailed
    ensures r.Success? <==>
              && ParseLocation(form.location, parseJson, otherToNumber, showNum).Some?
              && UploadAll(Filter(form.images, Sendable), upload).Some?
              && form.activityType.Some? && form.activityType.value != ""
    ensures r.Success? ==>
              var a := r.value;
              && a.id == newId && a.user == caller && a.status == Pending && a.createdAt == now
              && Some(a.activityType) == form.activityType && a.description == form.description
              && a.location == ParseLocation(form.location, parseJson, otherToNumber, showNum).value
              && a.images == UploadAll(Filter(form.images, Sendable), upload).value
              && |a.images| <= |form.images|
              && a.points == PointsFor(activityPoints, form.activityType)
              && Some(a.carbonSavedEstimateKg) == CarbonEstimator.EstimateCarbon(form.activityType, 1.0, None)
              && a.approvedAt.None? && Valid(a)
  {
    var location := ParseLocation(form.location, parseJson, otherToNumber, showNum);
    var urls := UploadAll(Filter(form.images, Sendable), upload);
    if location.None? || urls.None? || form.activityType.None? || form.activityType.value == "" then
      Failure(CreateFailed)
    else
      var carbon := CarbonEstimator.EstimateCarbon(form.activityType, 1.0, None);
      Success(NewActivity(newId, caller, form.activityType.value, form.description, location.value,
                          urls.value, PointsFor(activityPoints, form.activityType), carbon.value, now))
  }

  /** `POST /api/activities`: 401 for a missing or invalid token, then the
      submission above is stored under the fresh id `newId`. */
  method CreateActivity(store: Db.Store, headers: AuthLib.Headers, jwtVerify: string -> Result<Id, string>,
                        form: ActivityForm, parseJson: string -> Option<JsVal>,
                        otherToNumber: JsVal -> Option<real>, showNum: real -> string,
                        upload: FormEntry -> Option<string>, activityPoints: map<string, int>,
                        newId: Id, now: Instant)
    returns (r: Result<Activity, HttpError>)
    requires store.Valid() && newId !in store.activities
    modifies store
    ensures store.Valid()
    ensures store.users == old(store.users) && store.events == old(store.events)
    ensures store.registrations == old(store.registrations)
    ensures var a := AuthLib.Authenticate(headers, jwtVerify);
      && (a.Failure? ==> r == Failure(a.error))
      && (a.Success? ==> r == SubmissionFor(a.value, form, parseJson, otherToNumber, showNum, upload, activityPoints, newId, now))
    ensures r.Failure? ==> store.activities == old(store.activities)
    ensures r.Success? ==> store.activities == old(store.activities)[newId := r.value]
  {
    var auth := AuthLib.Authenticate(headers, jwtVerify);
    if auth.Failure? {
      return Failure(auth.error);
    }
    r := CreateActivityAs(store, auth.value, form, parseJson, otherToNumber, showNum, upload, activityPoints, newId, now);
  }

  /** The handler after the token checks: parse, upload, then create. */
  method CreateActivityAs(store: Db.Store, caller: Id, form: ActivityForm, parseJson: string -> Option<JsVal>,
                          otherToNumber: JsVal -> Option<real>, showNum: real -> string,
                          upload: FormEntry -> Option<string>, activityPoints: map<string, int>,
                          newId: Id, now: Instant)
    returns (r: Result<Activity, HttpError>)
    requires store.Valid() && newId !in store.activities
    modifies store
    ensures store.Valid()
    ensures store.users == old(store.users) && store.events == old(store.events)
    ensures store.registrations == old(store.registrations)
    ensures r == SubmissionFor(caller, form, parseJson, otherToNumber, showNum, upload, activityPoints, newId, now)
    ensures r.Failure? ==> store.activities == old(store.activities)
    ensures r.Success? ==> store.activities == old(store.activities)[newId := r.value]
  {
    var location := ParseLocation(form.location, parseJson, otherToNumber, showNum);
    if location.None? {
      return Failure(CreateFailed);
    }
    var urls := UploadImages(form.images, upload);
    if urls.None? || form.activityType.None? || form.activityType.value == "" {
      return Failure(CreateFailed);
    }
    var points := PointsFor(activityPoints, form.activityType);
    var carbon := CarbonEstimator.EstimateCarbon(form.activityType, 1.0, None);
    var activity := NewActivity(newId, caller, form.activityType.value, form.description, location.value,
                                urls.value, points, carbon.value, now);
    store.activities := store.activities[newId := activity];
    r := Success(activity);
  }

  // ---------------------------------------------------------------- GET

  const ListLimit := 20

  function CreatedAt(a: Activity): int {
    a.createdAt
  }

  /** The `{ status }` query condition, or no condition when the parameter
      is absent or empty; a status outside the enum matches nothing. */
  function StatusSelector(status: Option<string>): Activity -> bool {
    (a: Activity) => !AuthLib.TruthyString(status) || StatusName(a.status) == status.value
  }

  /** `GET /api/activities[?status=…]`: sorted newest first, at most 20. */
  function ListActivities(status: Option<string>, activities: seq<Activity>): (r: seq<Activity>)
    ensures |r| <= ListLimit
    ensures forall i :: 0 <= i < |r| ==>
              r[i] in activities && (AuthLib.TruthyString(status) ==> StatusName(r[i].status) == status.value)
    ensures SortedDesc(r, CreatedAt)
    ensures multiset(r) <= multiset(Filter(activities, StatusSelector(status)))
    ensures |Filter(activities, StatusSelector(status))| <= ListLimit ==>
              multiset(r) == multiset(Filter(activities, StatusSelector(status)))
    ensures forall x :: x in activities && StatusSelector(status)(x) && x !in r ==>
              |r| == ListLimit && x.createdAt <= r[ListLimit - 1].createdAt
  {
    TopDesc(activities, StatusSelector(status), CreatedAt, ListLimit)
  }
}
