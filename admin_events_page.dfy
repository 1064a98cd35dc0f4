/** app/admin/events/page.jsx: the admin's event list and event form —
    status and category badges, the tag field, the status actions and the
    request a save sends. */
module AdminEventsPage {
  import opened Wrappers
  import opened Common
  import opened JsString
  import opened EventModel
  import JsValue

  // ------------------------------------------------------------ badges

  const StatusColors: map<string, string> := map[
    "draft" := "bg-gray-100 text-gray-800",
    "published" := "bg-green-100 text-green-800",
    "cancelled" := "bg-red-100 text-red-800",
    "completed" := "bg-blue-100 text-blue-800"]

  const CategoryColors: map<string, string> := map[
    "tree-planting" := "bg-emerald-100 text-emerald-800",
    "cleanup" := "bg-blue-100 text-blue-800",
    "workshop" := "bg-purple-100 text-purple-800",
    "collection-drive" := "bg-orange-100 text-orange-800",
    "competition" := "bg-red-100 text-red-800",
    "awareness" := "bg-yellow-100 text-yellow-800",
    "other" := "bg-gray-100 text-gray-800"]

  /** `colors[status] || colors.draft`. */
  function StatusColor(status: string): (c: string)
    ensures status in StatusColors ==> c == StatusColors[status]
    ensures status !in StatusColors ==> c == StatusColors["draft"]
  {
    if status in StatusColors && StatusColors[status] != "" then StatusColors[status] else StatusColors["draft"]
  }

  /** `colors[category] || colors.other`. */
  function CategoryColor(category: string): (c: string)
    ensures category in CategoryColors ==> c == CategoryColors[category]
    ensures category !in CategoryColors ==> c == CategoryColors["other"]
  {
    if category in CategoryColors && CategoryColors[category] != "" then CategoryColors[category] else CategoryColors["other"]
  }

  /** Each schema status has a colour of its own, and any other text looks
      like a draft. */
  lemma StatusColorsDistinct(s: EventStatus, t: EventStatus, other: string)
    requires ParseEventStatus(other).None?
    ensures s != t ==> StatusColor(EventStatusName(s)) != StatusColor(EventStatusName(t))
    ensures StatusColor(other) == StatusColor(EventStatusName(Draft))
  {
  }

  /** Each schema category has a colour of its own, and any other text looks
      like "other". */
  lemma CategoryColorsDistinct(c: Category, d: Category, other: string)
    requires ParseCategory(other).None?
    ensures c != d ==> CategoryColor(CategoryName(c)) != CategoryColor(CategoryName(d))
    ensures CategoryColor(other) == CategoryColor(CategoryName(OtherCategory))
  {
  }

  /** `event.category.replace('-', ' ')`: only the first hyphen. */
  function CategoryLabel(category: string): (r: string)
    ensures |r| == |category|
    ensures '-' !in category ==> r == category
    ensures '-' in category ==> exists i :: FirstReplacedAt(category, r, '-', ' ', i)
  {
    ReplaceFirst(category, '-', ' ')
  }

  predicate AtMostOneHyphen(s: string) {
    forall j, k :: 0 <= j < k < |s| && s[j] == '-' ==> s[k] != '-'
  }

  /** A name with at most one hyphen has a label with none. */
  lemma LabelOfOneHyphen(n: string)
    requires AtMostOneHyphen(n)
    ensures '-' !in CategoryLabel(n)
  {
    if '-' in n {
      var r := CategoryLabel(n);
      var i :| FirstReplacedAt(n, r, '-', ' ', i);
      assert forall k :: i < k < |n| ==> n[k] != '-';
      assert r == n[..i] + [' '] + n[i + 1..];
    }
  }

  /** Every schema category has at most one hyphen, so its label has none. */
  lemma CategoryLabels(c: Category)
    ensures '-' !in CategoryLabel(CategoryName(c))
  {
    LabelOfOneHyphen(CategoryName(c));
  }

  /** A second hyphen is kept. */
  lemma SecondHyphenKept()
    ensures CategoryLabel("a-b-c") == "a b-c"
  {
    var r := CategoryLabel("a-b-c");
    var i :| FirstReplacedAt("a-b-c", r, '-', ' ', i);
    assert "a-b-c"[0] != '-';
    assert i == 1;
  }

  // -------------------------------------------------------------- tags

  const TagSeparator := ", "

  /** The form field for an event being edited: `event.tags?.join(', ') || ''`. */
  function SerialiseTags(tags: Option<seq<string>>): (s: string)
    ensures tags.None? || tags == Some([]) ==> s == ""
    ensures tags.Some? && |tags.value| == 1 ==> s == tags.value[0]
  {
    if tags.Some? then Join(tags.value, TagSeparator) else ""
  }

  /** The list submitted: `tags ? tags.split(',').map(t => t.trim()) : []`. */
  function ParseTags(field: string): (tags: seq<string>)
    ensures field == "" <==> tags == []
    ensures forall i :: 0 <= i < |tags| ==> Trimmed(tags[i]) && ',' !in tags[i]
  {
    if field == "" then []
    else
      var pieces := Split(field, ',');
      seq(|pieces|, i requires 0 <= i < |pieces| => TrimNoSep(pieces[i]))
  }

  /** `trim` of a piece that holds no comma holds none either. */
  function TrimNoSep(piece: string): (t: string)
    requires ',' !in piece
    ensures t == Trim(piece) && Trimmed(t) && ',' !in t
  {
    var t := Trim(piece);
    var i :| TrimmedAt(piece, t, i);
    assert forall k :: 0 <= k < |t| ==> t[k] == piece[i + k];
    t
  }

  /** The pieces `split(',')` cuts `lead + tags.join(', ')` into. */
  function Pieces(lead: string, tags: seq<string>): (r: seq<string>)
    requires |tags| >= 1
    ensures |r| == |tags|
  {
    [lead + tags[0]] + seq(|tags| - 1, i requires 0 <= i < |tags| - 1 => " " + tags[i + 1])
  }

  predicate TagWellFormed(t: string) {
    t != "" && ',' !in t && Trimmed(t)
  }

  lemma {:induction false} SplitJoined(lead: string, tags: seq<string>)
    requires |tags| >= 1
    requires ',' !in lead
    requires forall i :: 0 <= i < |tags| ==> ',' !in tags[i]
    ensures Split(lead + Join(tags, TagSeparator), ',') == Pieces(lead, tags)
    decreases |tags|
  {
    if |tags| == 1 {
      SplitNoSep(lead + tags[0], ',');
    } else {
      var rest := Join(tags[1..], TagSeparator);
      assert lead + Join(tags, TagSeparator) == (lead + tags[0]) + [','] + (" " + rest);
      SplitCons(lead + tags[0], ',', " " + rest);
      SplitJoined(" ", tags[1..]);
      assert Pieces(lead, tags) == [lead + tags[0]] + Pieces(" ", tags[1..]);
    }
  }

  /** Editing and saving an event gives back its tags when each is
      non-empty, holds no comma and has no surrounding white space. */
  lemma TagsRoundTrip(tags: seq<string>)
    requires forall i :: 0 <= i < |tags| ==> TagWellFormed(tags[i])
    ensures ParseTags(SerialiseTags(Some(tags))) == tags
  {
    if |tags| > 0 {
      var field := SerialiseTags(Some(tags));
      SplitJoined("", tags);
      assert "" + Join(tags, TagSeparator) == field;
      var pieces := Pieces("", tags);
      assert field != "";
      var parsed := ParseTags(field);
      forall i | 0 <= i < |tags|
        ensures parsed[i] == tags[i]
      {
        if i == 0 {
          assert pieces[0] == tags[0];
          TrimOfTrimmed(tags[0]);
        } else {
          assert pieces[i] == " " + tags[i];
          TrimAfterBlank(tags[i]);
        }
      }
    }
  }

  /** Without those conditions tags are lost or changed: a single empty tag
      disappears, a tag with a comma comes back as two, and surrounding
      blanks are trimmed off. */
  lemma EmptyTagLost()
    ensures ParseTags(SerialiseTags(Some([""]))) == []
  {
  }

  lemma CommaTagSplit()
    ensures ParseTags(SerialiseTags(Some(["a,b"]))) == ["a", "b"]
  {
    assert SerialiseTags(Some(["a,b"])) == "a,b" == "a" + [','] + "b";
    SplitNoSep("b", ',');
    SplitCons("a", ',', "b");
    TrimOfTrimmed("a");
    TrimOfTrimmed("b");
  }

  lemma BlankTagTrimmed()
    ensures ParseTags(SerialiseTags(Some([" a"]))) == ["a"]
  {
    SplitNoSep(" a", ',');
    TrimAfterBlank("a");
  }

  // ---------------------------------------------------- status actions

  /** The status a card's buttons offer to move to. */
  function StatusActions(status: string): (targets: seq<string>)
    ensures status == "draft" ==> targets == ["published"]
    ensures status == "published" ==> targets == ["completed", "cancelled"]
    ensures status != "draft" && status != "published" ==> targets == []
    ensures forall i :: 0 <= i < |targets| ==> ParseEventStatus(targets[i]).Some? && targets[i] != status
  {
    if status == "draft" then ["published"]
    else if status == "published" then ["completed", "cancelled"]
    else []
  }

  /** The actions only move forward: no status can be reached back from a
      status it offers, and the end states offer nothing. */
  lemma ActionsMoveForward(status: string, target: string)
    requires target in StatusActions(status)
    ensures status !in StatusActions(target)
    ensures forall next :: next in StatusActions(target) ==> StatusActions(next) == []
  {
  }

  datatype Request = Request(verb: string, url: string, body: JsValue.JsVal)

  const EventsUrl := "/api/events"

  /** `handleStatusChange`: PUT of `{status}` to the event's URL. */
  function StatusChange(eventId: Id, newStatus: string): (r: Request)
    ensures r.verb == "PUT" && r.url == EventsUrl + "/" + eventId
    ensures JsValue.Get(r.body, "status") == JsValue.JStr(newStatus)
  {
    Request("PUT", EventsUrl + "/" + eventId, JsValue.JObj(map["status" := JsValue.JStr(newStatus)]))
  }

  /** The form's save: PUT to `/api/events/{id}` when editing an event,
      POST to `/api/events` when creating one. */
  function SaveTarget(editing: Option<Id>): (r: (string, string))
    ensures editing.Some? <==> r.0 == "PUT"
    ensures editing.None? <==> r.0 == "POST"
    ensures editing.Some? ==> r.1 == EventsUrl + "/" + editing.value
    ensures editing.None? ==> r.1 == EventsUrl
  {
    match editing
    case Some(id) => ("PUT", EventsUrl + "/" + id)
    case None => ("POST", EventsUrl)
  }

  /** A status change and the save of an edited event address the same
      URL, and a new event never goes to an event's URL. */
  lemma SaveAndStatusShareUrl(id: Id, status: string)
    ensures SaveTarget(Some(id)).1 == StatusChange(id, status).url
    ensures SaveTarget(None).1 != StatusChange(id, status).url
  {
    assert |SaveTarget(None).1| < |StatusChange(id, status).url|;
  }
}
