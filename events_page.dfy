/** app/events/page.jsx: the public list of upcoming events, narrowed by a
    search term and a category, and each card's registration status. */
module EventsPage {
  import opened Wrappers
  import opened Common
  import opened JsString
  import opened Query

  /** An event card's data as `/api/events` returns it. */
  datatype ClientEvent = ClientEvent(
    title: string,
    description: string,
    tags: Option<seq<string>>,
    category: string,
    date: Instant,
    registrationDeadline: Option<Instant>,
    approvedRegistrationCount: Option<int>,
    maxParticipants: int)

  // ------------------------------------------------------------- search

  /** `tags.some(tag => tag.toLowerCase().includes(term))`. */
  function AnyTagIncludes(tags: seq<string>, term: string): (b: bool)
    ensures b <==> exists i :: 0 <= i < |tags| && Includes(Lower(tags[i]), term)
  {
    if |tags| == 0 then false
    else if Includes(Lower(tags[0]), term) then true
    else
      assert forall i :: 0 < i < |tags| ==> tags[i] == tags[1..][i - 1];
      AnyTagIncludes(tags[1..], term)
  }

  /** The case-insensitive search on title, description and tags. */
  predicate TextMatch(e: ClientEvent, term: string) {
    var t := Lower(term);
    Includes(Lower(e.title), t) || Includes(Lower(e.description), t) ||
    (e.tags.Some? && AnyTagIncludes(e.tags.value, t))
  }

  /** What a match means: the lower-cased term occurs in the lower-cased
      title, description, or one of the tags. */
  lemma TextMatchMeans(e: ClientEvent, term: string)
    ensures TextMatch(e, term) <==>
              (exists i :: OccursAt(Lower(e.title), Lower(term), i)) ||
              (exists i :: OccursAt(Lower(e.description), Lower(term), i)) ||
              (e.tags.Some? && exists k :: 0 <= k < |e.tags.value| && Includes(Lower(e.tags.value[k]), Lower(term)))
  {
  }

  /** Matching ignores letter case in the term. */
  lemma TextMatchIgnoresCase(e: ClientEvent, term: string, other: string)
    requires Lower(term) == Lower(other)
    ensures TextMatch(e, term) == TextMatch(e, other)
  {
  }

  /** Whether the card is listed: the search applies only when the term is
      non-empty, the category only when it is not "all". */
  predicate Shown(term: string, category: string, e: ClientEvent) {
    (term == "" || TextMatch(e, term)) && (category == "all" || e.category == category)
  }

  function SearchSelector(term: string): ClientEvent -> bool {
    e => TextMatch(e, term)
  }

  function CategorySelector(category: string): ClientEvent -> bool {
    (e: ClientEvent) => e.category == category
  }

  function ShownSelector(term: string, category: string): ClientEvent -> bool {
    e => Shown(term, category, e)
  }

  /** The search filter (when the term is non-empty), then the category
      filter (unless "all"), as `filterEvents` applies them. */
  function BySearch(events: seq<ClientEvent>, term: string): seq<ClientEvent> {
    if term != "" then Filter(events, SearchSelector(term)) else events
  }

  function ByCategory(events: seq<ClientEvent>, category: string): seq<ClientEvent> {
    if category != "all" then Filter(events, CategorySelector(category)) else events
  }

  /** The two steps in a row are one filter by `Shown`. */
  lemma TwoStepsAreOne(events: seq<ClientEvent>, term: string, category: string)
    ensures ByCategory(BySearch(events, term), category) == Filter(events, ShownSelector(term, category))
  {
    if term != "" && category != "all" {
      var p, q := SearchSelector(term), CategorySelector(category);
      FilterFilter(events, p, q);
      FilterSame(events, Both(p, q), ShownSelector(term, category));
    } else if term != "" {
      FilterSame(events, SearchSelector(term), ShownSelector(term, category));
    } else if category != "all" {
      FilterSame(events, CategorySelector(category), ShownSelector(term, category));
    } else {
      FilterAll(events, ShownSelector(term, category));
    }
  }

  /** `filterEvents`. */
  function FilterEvents(events: seq<ClientEvent>, term: string, category: string): (r: seq<ClientEvent>)
    ensures r == Filter(events, ShownSelector(term, category))
    ensures Subsequence(r, events)
    ensures forall e :: e in r <==> e in events && Shown(term, category, e)
    ensures term == "" && category == "all" ==> r == events
  {
    TwoStepsAreOne(events, term, category);
    FilterSubsequence(events, ShownSelector(term, category));
    FilterMembers(events, ShownSelector(term, category));
    if term == "" && category == "all" then
      assert ByCategory(BySearch(events, term), category) == events;
      events
    else
      ByCategory(BySearch(events, term), category)
  }

  // ------------------------------------------------------------- cards

  /** `new Date() < new Date(event.registrationDeadline || event.date)`. */
  predicate IsRegistrationOpen(e: ClientEvent, now: Instant) {
    now < (if e.registrationDeadline.Some? then e.registrationDeadline.value else e.date)
  }

  /** `event.approvedRegistrationCount || 0`. */
  function ApprovedCount(e: ClientEvent): int {
    if e.approvedRegistrationCount.Some? then e.approvedRegistrationCount.value else 0
  }

  predicate IsFull(e: ClientEvent) {
    ApprovedCount(e) >= e.maxParticipants
  }

  const RegistrationClosed := "Registration Closed"
  const EventFull := "Event Full"
  const RegistrationOpen := "Registration Open"

  /** The status line of a card. */
  function StatusLabel(e: ClientEvent, now: Instant): (text: string)
    ensures text == RegistrationClosed <==> !IsRegistrationOpen(e, now)
    ensures text == EventFull <==> IsRegistrationOpen(e, now) && IsFull(e)
    ensures text == RegistrationOpen <==> IsRegistrationOpen(e, now) && !IsFull(e)
  {
    if !IsRegistrationOpen(e, now) then RegistrationClosed
    else if IsFull(e) then EventFull
    else RegistrationOpen
  }

  /** Without a deadline registration closes when the event starts; with
      one, at the deadline, even if the event is still ahead. */
  lemma OpenUntil(e: ClientEvent, now: Instant)
    ensures e.registrationDeadline.None? ==> (IsRegistrationOpen(e, now) <==> now < e.date)
    ensures e.registrationDeadline.Some? ==> (IsRegistrationOpen(e, now) <==> now < e.registrationDeadline.value)
  {
  }

  /** A past deadline closes a full event's registration first:
      "Registration Closed" is shown, not "Event Full". */
  lemma ClosedBeforeFull(e: ClientEvent, now: Instant)
    requires IsFull(e) && e.registrationDeadline.Some? && now >= e.registrationDeadline.value
    ensures StatusLabel(e, now) == RegistrationClosed
  {
  }

  /** With the count the list handler reports for every event (zero) and a
      positive capacity, an open card always says "Registration Open". */
  lemma ZeroCountNeverFull(e: ClientEvent, now: Instant)
    requires e.approvedRegistrationCount == Some(0) && e.maxParticipants >= 1
    requires IsRegistrationOpen(e, now)
    ensures StatusLabel(e, now) == RegistrationOpen
  {
  }
}
