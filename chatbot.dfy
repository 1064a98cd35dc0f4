/** components/CarbonCalculatorChatbot.jsx: the carbon calculator chat
    widget.  The user picks activities (step 1), enters amounts (step 2) and
    gets a result (step 3): the text Gemini returns for a prompt built from
    the inputs, or a fixed mock result whenever that fails. */
module CarbonChatbot {
  import opened Wrappers
  import opened JsString
  import opened JsValue
  import opened Query

  // ------------------------------------------------------------ inputs

  /** The amounts of step 2, as the form's text fields hold them. */
  datatype ChatInput = ChatInput(tree: string, recycling: string, cleanup: string, energy: string, water: string, waterSaved: string)

  datatype Field = TreeField | RecyclingField | CleanupField | EnergyField | WaterField | WaterSavedField

  const DefaultInput := ChatInput("2", "", "", "", "", "")

  /** The keys of the five activity buttons, in display order. */
  const ActivityKeys: seq<string> := ["tree", "recycling", "cleanup", "energy", "water"]

  const DefaultSelection: seq<string> := ["tree"]

  /** `setInput(inp => ({...inp, [field]: value}))`. */
  function WithField(input: ChatInput, f: Field, value: string): (r: ChatInput)
    ensures f == TreeField ==> r == input.(tree := value)
    ensures f == WaterSavedField ==> r == input.(waterSaved := value)
  {
    match f
    case TreeField => input.(tree := value)
    case RecyclingField => input.(recycling := value)
    case CleanupField => input.(cleanup := value)
    case EnergyField => input.(energy := value)
    case WaterField => input.(water := value)
    case WaterSavedField => input.(waterSaved := value)
  }

  // --------------------------------------------------------- selection

  predicate NoDuplicates(s: seq<string>) {
    forall i, j :: 0 <= i < j < |s| ==> s[i] != s[j]
  }

  function Other(key: string): string -> bool {
    k => k != key
  }

  /** A button press: `prev.includes(key) ? prev.filter(k => k !== key)
      : [...prev, key]`. */
  function Toggled(prev: seq<string>, key: string): (next: seq<string>)
    ensures key in next <==> key !in prev
    ensures forall k :: k != key ==> (k in next <==> k in prev)
    ensures key !in prev ==> next == prev + [key]
    ensures key in prev ==> Subsequence(next, prev)
  {
    if key in prev then
      FilterSubsequence(prev, Other(key));
      FilterMembers(prev, Other(key));
      Filter(prev, Other(key))
    else prev + [key]
  }

  /** A subsequence of a list without duplicates has none either. */
  lemma {:induction false} SubsequenceNoDuplicates(r: seq<string>, s: seq<string>)
    requires Subsequence(r, s) && NoDuplicates(s)
    ensures NoDuplicates(r)
    decreases |s|
  {
    if |r| > 0 {
      if r[0] == s[0] {
        SubsequenceNoDuplicates(r[1..], s[1..]);
        assert r[0] !in s[1..];
        SubsequenceMembers(r[1..], s[1..]);
        assert r[0] !in r[1..];
        forall i, j | 0 <= i < j < |r|
          ensures r[i] != r[j]
        {
          if i > 0 { assert r[i] == r[1..][i - 1] && r[j] == r[1..][j - 1]; }
          else { assert r[j] in r[1..]; }
        }
      } else {
        SubsequenceNoDuplicates(r, s[1..]);
      }
    }
  }

  lemma {:induction false} SubsequenceMembers(r: seq<string>, s: seq<string>)
    requires Subsequence(r, s)
    ensures forall x :: x in r ==> x in s
    decreases |s|
  {
    if |r| > 0 {
      if r[0] == s[0] {
        SubsequenceMembers(r[1..], s[1..]);
        assert forall x :: x in r ==> x == r[0] || x in r[1..];
      } else {
        SubsequenceMembers(r, s[1..]);
      }
    }
  }

  /** Toggling never creates a duplicate. */
  lemma ToggleKeepsNoDuplicates(prev: seq<string>, key: string)
    requires NoDuplicates(prev)
    ensures NoDuplicates(Toggled(prev, key))
  {
    if key in prev {
      SubsequenceNoDuplicates(Toggled(prev, key), prev);
    }
  }

  /** Toggling twice restores which keys are selected. */
  lemma ToggleTwice(prev: seq<string>, key: string)
    ensures forall k :: k in Toggled(Toggled(prev, key), key) <==> k in prev
  {
  }

  /** When the key was not selected, toggling twice gives the list back. */
  lemma ToggleTwiceRestores(prev: seq<string>, key: string)
    requires key !in prev
    ensures Toggled(Toggled(prev, key), key) == prev
  {
    var once := prev + [key];
    FilterAppend(prev, [key], Other(key));
    FilterAll(prev, Other(key));
    assert Filter([key], Other(key)) == [];
    assert Toggled(once, key) == prev + [];
  }

  /** The Next button is disabled exactly when nothing is selected. */
  predicate NextEnabled(selected: seq<string>) {
    |selected| != 0
  }

  // ------------------------------------------------------------ prompt

  /** `value || dflt` on a text field. */
  function OrDefault(value: string, dflt: string): (r: string)
    ensures r != ""  || dflt == ""
  {
    if value != "" then value else dflt
  }

  /** The sentence an activity contributes to the prompt. */
  function Clause(key: string, input: ChatInput): (c: string)
    requires key in ActivityKeys
    ensures c != ""
  {
    if key == "tree" then "Planted " + OrDefault(input.tree, "0") + " trees. "
    else if key == "recycling" then "Recycled " + OrDefault(input.recycling, "0") + " kg waste. "
    else if key == "cleanup" then "Cleaned " + OrDefault(input.cleanup, "0") + " km area. "
    else if key == "energy" then "Energy steps: " + input.energy
    else "Water steps: " + input.water + ". Saved " + OrDefault(input.waterSaved, "0") + " litres."
  }

  /** The five activity lines of the prompt. */
  function PromptLines(selected: seq<string>, input: ChatInput): (lines: seq<string>)
    ensures |lines| == |ActivityKeys|
    ensures forall k :: 0 <= k < |lines| ==> (lines[k] != "" <==> ActivityKeys[k] in selected)
    ensures forall k :: 0 <= k < |lines| && ActivityKeys[k] in selected ==> lines[k] == Clause(ActivityKeys[k], input)
  {
    seq(|ActivityKeys|, k requires 0 <= k < |ActivityKeys| =>
      if ActivityKeys[k] in selected then Clause(ActivityKeys[k], input) else "")
  }

  const PromptHead := "I did these eco activities on my university campus:\n\n"
  const PromptTail := "\n\nPlease estimate my carbon impact in kg co2 saved, points (10 per action), and give a short friendly summary."

  function Prompt(selected: seq<string>, input: ChatInput): string {
    PromptHead + Join(PromptLines(selected, input), "\n") + PromptTail
  }

  /** An empty amount is written as 0 in the prompt. */
  lemma EmptyAmountIsZero(input: ChatInput)
    requires input.tree == ""
    ensures Clause("tree", input) == "Planted 0 trees. "
  {
  }

  // --------------------------------------------------- text extraction

  /** `text += (text ? "\n" : "") + piece`. */
  function AppendPiece(acc: string, piece: string): string {
    acc + (if acc != "" then "\n" else "") + piece
  }

  /** `String(v.text)`; the number format is a parameter. */
  function TextOf(v: JsVal, showNum: real -> string): string {
    Stringify(Get(v, "text"), showNum)
  }

  /** One element of a `parts` array: its `text` when truthy. */
  function PartStep(acc: string, p: JsVal, showNum: real -> string): string {
    if Truthy(Get(p, "text")) then AppendPiece(acc, TextOf(p, showNum)) else acc
  }

  function PartsText(acc: string, parts: seq<JsVal>, showNum: real -> string): (r: string)
    ensures |r| >= |acc|
    decreases |parts|
  {
    if |parts| == 0 then acc
    else PartStep(PartsText(acc, parts[..|parts| - 1], showNum), parts[|parts| - 1], showNum)
  }

  /** One element of a `content` array: its parts, the string itself, or
      its `text`. */
  function ItemStep(acc: string, c: JsVal, showNum: real -> string): (r: string)
    ensures |r| >= |acc|
  {
    var parts := Get(c, "parts");
    if Truthy(parts) && parts.JArr? then PartsText(acc, parts.items, showNum)
    else if c.JStr? then AppendPiece(acc, c.s)
    else if Truthy(Get(c, "text")) then AppendPiece(acc, TextOf(c, showNum))
    else acc
  }

  function ContentText(acc: string, items: seq<JsVal>, showNum: real -> string): (r: string)
    ensures |r| >= |acc|
    decreases |items|
  {
    if |items| == 0 then acc
    else ItemStep(ContentText(acc, items[..|items| - 1], showNum), items[|items| - 1], showNum)
  }

  /** One candidate: skipped when falsy; otherwise its `content` (or the
      candidate itself) as an array of items, or an object with `parts`, or
      else the candidate's `text`. */
  function CandStep(acc: string, cand: JsVal, showNum: real -> string): (r: string)
    ensures |r| >= |acc|
  {
    if !Truthy(cand) then acc
    else
      var content := Coalesce(Get(cand, "content"), cand);
      var parts := Get(content, "parts");
      if content.JArr? then ContentText(acc, content.items, showNum)
      else if Truthy(parts) && parts.JArr? then PartsText(acc, parts.items, showNum)
      else if Truthy(Get(cand, "text")) then AppendPiece(acc, TextOf(cand, showNum))
      else acc
  }

  function CandsText(acc: string, cands: seq<JsVal>, showNum: real -> string): (r: string)
    ensures |r| >= |acc|
    decreases |cands|
  {
    if |cands| == 0 then acc
    else CandStep(CandsText(acc, cands[..|cands| - 1], showNum), cands[|cands| - 1], showNum)
  }

  /** The text before trimming: the candidates when `data.candidates` is an
      array, otherwise `data.text` when it is a string. */
  function RawText(data: JsVal, showNum: real -> string): string {
    var cands := Get(data, "candidates");
    if Truthy(cands) && cands.JArr? then CandsText("", cands.items, showNum)
    else if Get(data, "text").JStr? then Get(data, "text").s
    else ""
  }

  function ResponseText(data: JsVal, showNum: real -> string): (text: string)
    ensures Trimmed(text)
  {
    Trim(RawText(data, showNum))
  }

  /** The extraction loops of `handleCalculate`. */
  method ExtractResponseText(data: JsVal, showNum: real -> string) returns (text: string)
    ensures text == ResponseText(data, showNum)
  {
    text := "";
    var cands := Get(data, "candidates");
    if Truthy(cands) && cands.JArr? {
      var i := 0;
      while i < |cands.items|
        invariant 0 <= i <= |cands.items|
        invariant text == CandsText("", cands.items[..i], showNum)
      {
        assert cands.items[..i + 1][..i] == cands.items[..i];
        var cand := cands.items[i];
        if Truthy(cand) {
          var content := Coalesce(Get(cand, "content"), cand);
          if content.JArr? {
            text := ExtractContent(text, content.items, showNum);
          } else if Truthy(Get(content, "parts")) && Get(content, "parts").JArr? {
            text := ExtractParts(text, Get(content, "parts").items, showNum);
          } else if Truthy(Get(cand, "text")) {
            text := text + (if text != "" then "\n" else "") + TextOf(cand, showNum);
          }
        }
        i := i + 1;
      }
      assert cands.items[..i] == cands.items;
    } else if Get(data, "text").JStr? {
      text := Get(data, "text").s;
    }
    text := Trim(text);
  }

  /** The loop over a `content` array. */
  method ExtractContent(start: string, items: seq<JsVal>, showNum: real -> string) returns (text: string)
    ensures text == ContentText(start, items, showNum)
  {
    text := start;
    var j := 0;
    while j < |items|
      invariant 0 <= j <= |items|
      invariant text == ContentText(start, items[..j], showNum)
    {
      assert items[..j + 1][..j] == items[..j];
      var c := items[j];
      if Truthy(Get(c, "parts")) && Get(c, "parts").JArr? {
        text := ExtractParts(text, Get(c, "parts").items, showNum);
      } else if c.JStr? {
        text := text + (if text != "" then "\n" else "") + c.s;
      } else if Truthy(Get(c, "text")) {
        text := text + (if text != "" then "\n" else "") + TextOf(c, showNum);
      }
      j := j + 1;
    }
    assert items[..j] == items;
  }

  /** The loop over a `parts` array. */
  method ExtractParts(start: string, parts: seq<JsVal>, showNum: real -> string) returns (text: string)
    ensures text == PartsText(start, parts, showNum)
  {
    text := start;
    var k := 0;
    while k < |parts|
      invariant 0 <= k <= |parts|
      invariant text == PartsText(start, parts[..k], showNum)
    {
      assert parts[..k + 1][..k] == parts[..k];
      if Truthy(Get(parts[k], "text")) {
        text := text + (if text != "" then "\n" else "") + TextOf(parts[k], showNum);
      }
      k := k + 1;
    }
    assert parts[..k] == parts;
  }

  // ------------------------------ extraction on a conventional response

  /** `{text: t}`. */
  function TextPart(t: string): JsVal {
    JObj(map["text" := JStr(t)])
  }

  function PartsOf(ts: seq<string>): (r: seq<JsVal>)
    ensures |r| == |ts|
    ensures forall j :: 0 <= j < |ts| ==> r[j] == TextPart(ts[j])
  {
    seq(|ts|, j requires 0 <= j < |ts| => TextPart(ts[j]))
  }

  /** `{content: {parts: [{text: ...}, ...]}}`. */
  function Candidate(ts: seq<string>): JsVal {
    JObj(map["content" := JObj(map["parts" := JArr(PartsOf(ts))])])
  }

  function CandidatesOf(texts: seq<seq<string>>): (r: seq<JsVal>)
    ensures |r| == |texts|
    ensures forall i :: 0 <= i < |texts| ==> r[i] == Candidate(texts[i])
  {
    seq(|texts|, i requires 0 <= i < |texts| => Candidate(texts[i]))
  }

  /** The response shape Gemini documents, one list of part texts per
      candidate. */
  function GeminiResponse(texts: seq<seq<string>>): JsVal {
    JObj(map["candidates" := JArr(CandidatesOf(texts))])
  }

  function Flatten(texts: seq<seq<string>>): seq<string>
    decreases |texts|
  {
    if |texts| == 0 then [] else Flatten(texts[..|texts| - 1]) + texts[|texts| - 1]
  }

  /** `AppendPiece` over a list of pieces. */
  function AppendAll(acc: string, ts: seq<string>): (r: string)
    ensures |ts| > 0 && ts[|ts| - 1] != "" ==> r != ""
    decreases |ts|
  {
    if |ts| == 0 then acc else AppendPiece(AppendAll(acc, ts[..|ts| - 1]), ts[|ts| - 1])
  }

  predicate AllNonEmpty(ts: seq<string>) {
    forall j :: 0 <= j < |ts| ==> ts[j] != ""
  }

  lemma {:induction false} PartsOfTexts(acc: string, ts: seq<string>, showNum: real -> string)
    requires AllNonEmpty(ts)
    ensures PartsText(acc, PartsOf(ts), showNum) == AppendAll(acc, ts)
    decreases |ts|
  {
    if |ts| > 0 {
      var n := |ts| - 1;
      var parts := PartsOf(ts);
      assert parts[..n] == PartsOf(ts[..n]);
      assert parts[n] == TextPart(ts[n]);
      assert AllNonEmpty(ts[..n]) by {
        forall j | 0 <= j < n ensures ts[..n][j] != "" {
          assert ts[..n][j] == ts[j];
        }
      }
      PartsOfTexts(acc, ts[..n], showNum);
      var before := PartsText(acc, PartsOf(ts[..n]), showNum);
      assert before == AppendAll(acc, ts[..n]);
      assert PartsText(acc, parts, showNum) == PartStep(before, TextPart(ts[n]), showNum);
      TextPartStep(before, ts[n], showNum);
    }
  }

  /** A part holding a non-empty text appends it. */
  lemma TextPartStep(acc: string, t: string, showNum: real -> string)
    requires t != ""
    ensures PartStep(acc, TextPart(t), showNum) == AppendPiece(acc, t)
  {
    assert Get(TextPart(t), "text") == JStr(t);
  }

  lemma {:induction false} AppendAllConcat(acc: string, a: seq<string>, b: seq<string>)
    ensures AppendAll(acc, a + b) == AppendAll(AppendAll(acc, a), b)
    decreases |b|
  {
    if |b| == 0 {
      assert a + b == a;
    } else {
      var n := |b| - 1;
      assert (a + b)[..|a + b| - 1] == a + b[..n];
      AppendAllConcat(acc, a, b[..n]);
    }
  }

  lemma {:induction false} FlattenNonEmpty(texts: seq<seq<string>>)
    requires forall i :: 0 <= i < |texts| ==> AllNonEmpty(texts[i])
    ensures AllNonEmpty(Flatten(texts))
    decreases |texts|
  {
    if |texts| > 0 {
      FlattenNonEmpty(texts[..|texts| - 1]);
    }
  }

  /** A conventional candidate contributes its part texts. */
  lemma CandidateStep(acc: string, ts: seq<string>, showNum: real -> string)
    ensures CandStep(acc, Candidate(ts), showNum) == PartsText(acc, PartsOf(ts), showNum)
  {
    var cand := Candidate(ts);
    assert Truthy(cand);
    var content := JObj(map["parts" := JArr(PartsOf(ts))]);
    assert Get(cand, "content") == content;
    assert Coalesce(Get(cand, "content"), cand) == content;
    assert Get(content, "parts") == JArr(PartsOf(ts));
  }

  lemma {:induction false} CandidatesText(texts: seq<seq<string>>, showNum: real -> string)
    requires forall i :: 0 <= i < |texts| ==> AllNonEmpty(texts[i])
    ensures CandsText("", CandidatesOf(texts), showNum) == AppendAll("", Flatten(texts))
    decreases |texts|
  {
    if |texts| > 0 {
      var n := |texts| - 1;
      var cands := CandidatesOf(texts);
      assert cands[..n] == CandidatesOf(texts[..n]);
      CandidatesText(texts[..n], showNum);
      var acc := AppendAll("", Flatten(texts[..n]));
      assert CandsText("", cands, showNum) == CandStep(acc, Candidate(texts[n]), showNum);
      CandidateStep(acc, texts[n], showNum);
      PartsOfTexts(acc, texts[n], showNum);
      AppendAllConcat("", Flatten(texts[..n]), texts[n]);
      assert Flatten(texts) == Flatten(texts[..n]) + texts[n];
    }
  }

  lemma {:induction false} JoinSnoc(ts: seq<string>, t: string, sep: string)
    requires |ts| >= 1
    ensures Join(ts + [t], sep) == Join(ts, sep) + sep + t
    decreases |ts|
  {
    if |ts| > 1 {
      assert (ts + [t])[1..] == ts[1..] + [t];
      JoinSnoc(ts[1..], t, sep);
    }
  }

  lemma {:induction false} AppendAllIsJoin(ts: seq<string>)
    requires AllNonEmpty(ts)
    ensures AppendAll("", ts) == Join(ts, "\n")
    decreases |ts|
  {
    if |ts| > 1 {
      var n := |ts| - 1;
      AppendAllIsJoin(ts[..n]);
      JoinSnoc(ts[..n], ts[n], "\n");
      assert ts[..n] + [ts[n]] == ts;
    } else if |ts| == 1 {
      assert ts[..0] == [];
    }
  }

  /** On the documented response shape with non-empty texts, the result is
      every part text in candidate and part order, one per line. */
  lemma ConventionalResponse(texts: seq<seq<string>>, showNum: real -> string)
    requires forall i :: 0 <= i < |texts| ==> AllNonEmpty(texts[i])
    ensures RawText(GeminiResponse(texts), showNum) == Join(Flatten(texts), "\n")
  {
    GeminiCandidates(texts, showNum);
    CandidatesText(texts, showNum);
    FlattenNonEmpty(texts);
    AppendAllIsJoin(Flatten(texts));
  }

  /** The documented shape is read through its `candidates` array. */
  lemma GeminiCandidates(texts: seq<seq<string>>, showNum: real -> string)
    ensures RawText(GeminiResponse(texts), showNum) == CandsText("", CandidatesOf(texts), showNum)
  {
    var data := GeminiResponse(texts);
    var cands := Get(data, "candidates");
    assert cands == JArr(CandidatesOf(texts));
    assert Truthy(cands);
  }

  /** With a `candidates` array the top-level `text` plays no part, even
      when the array yields nothing. */
  lemma CandidatesOverrideText(fields: map<string, JsVal>, v: JsVal, showNum: real -> string)
    requires "candidates" in fields && fields["candidates"].JArr?
    ensures RawText(JObj(fields["text" := v]), showNum) == RawText(JObj(fields), showNum)
    ensures fields["candidates"] == JArr([]) ==> RawText(JObj(fields), showNum) == ""
  {
  }

  /** Without candidates a string `text` is taken as it is. */
  lemma PlainTextResponse(s: string, showNum: real -> string)
    ensures RawText(JObj(map["text" := JStr(s)]), showNum) == s
  {
  }

  // ----------------------------------------------------------- outcome

  /** An entry `{ label, value }` of the result card (`label` is a Dafny
      keyword, hence `caption`). */
  datatype Detail = Detail(caption: string, value: string)

  datatype CalcResult = CalcResult(summary: string, details: seq<Detail>)

  /** `getMockResult(input)`: the same for every input. */
  const MockResult := CalcResult(
    "Based on your actions, you've reduced about 25 kg CO\U{2082} and earned 50 green points. Great job!",
    [Detail("Carbon saved", "25 kg CO\U{2082}"),
     Detail("Points earned", "50 points"),
     Detail("Equivalent to planting", "1.2 trees")])

  /** What the Gemini request comes back with: a network failure, or a
      response with its `ok` flag and its body parsed as JSON (None when it
      is not JSON). */
  datatype GeminiReply = FetchFailed | Reply(ok: bool, body: Option<JsVal>)

  predicate HasKey(apiKey: Option<string>) {
    apiKey.Some? && apiKey.value != ""
  }

  /** The result as `handleCalculate` sets it: the trimmed text when there
      is one, the mock result on every failure. */
  function Outcome(apiKey: Option<string>, gemini: (string, string) -> GeminiReply, prompt: string,
                   showNum: real -> string): (r: CalcResult)
    ensures r == MockResult <==>
              || !HasKey(apiKey)
              || gemini(apiKey.value, prompt).FetchFailed?
              || !gemini(apiKey.value, prompt).ok
              || gemini(apiKey.value, prompt).body.None?
              || ResponseText(gemini(apiKey.value, prompt).body.value, showNum) == ""
    ensures r != MockResult ==>
              r == CalcResult(ResponseText(gemini(apiKey.value, prompt).body.value, showNum), []) &&
              r.summary != "" && Trimmed(r.summary)
  {
    if !HasKey(apiKey) then MockResult
    else
      var reply := gemini(apiKey.value, prompt);
      if reply.FetchFailed? || !reply.ok || reply.body.None? then MockResult
      else
        var text := ResponseText(reply.body.value, showNum);
        if text == "" then MockResult else CalcResult(text, [])
  }

  // ------------------------------------------------------------ widget

  class Chatbot {
    var open: bool
    var step: int
    var selected: seq<string>
    var input: ChatInput
    var loading: bool
    var result: Option<CalcResult>

    /** Every key selected is one of the buttons', each at most once, and
        the step is one of the three. */
    predicate Valid()
      reads this
    {
      && 1 <= step <= 3
      && NoDuplicates(selected)
      && forall k :: k in selected ==> k in ActivityKeys
    }

    constructor()
      ensures Valid()
      ensures !open && step == 1 && selected == DefaultSelection && input == DefaultInput
      ensures !loading && result == None
    {
      open, step, selected, input, loading, result := false, 1, DefaultSelection, DefaultInput, false, None;
    }

    method SetOpen(value: bool)
      modifies this
      ensures open == value
      ensures step == old(step) && selected == old(selected) && input == old(input)
      ensures loading == old(loading) && result == old(result)
    {
      open := value;
    }

    /** An activity button. */
    method Toggle(key: string)
      requires Valid() && key in ActivityKeys
      modifies this
      ensures Valid()
      ensures selected == Toggled(old(selected), key)
      ensures open == old(open) && step == old(step) && input == old(input)
      ensures loading == old(loading) && result == old(result)
    {
      ToggleKeepsNoDuplicates(selected, key);
      selected := Toggled(selected, key);
    }

    /** The Next button, which does nothing while it is disabled. */
    method Next()
      requires Valid()
      modifies this
      ensures Valid()
      ensures step == if NextEnabled(old(selected)) then 2 else old(step)
      ensures open == old(open) && selected == old(selected) && input == old(input)
      ensures loading == old(loading) && result == old(result)
    {
      if NextEnabled(selected) {
        step := 2;
      }
    }

    /** A text field of step 2. */
    method SetInput(f: Field, value: string)
      modifies this
      ensures input == WithField(old(input), f, value)
      ensures open == old(open) && step == old(step) && selected == old(selected)
      ensures loading == old(loading) && result == old(result)
    {
      input := WithField(input, f, value);
    }

    /** `reset`: the initial inputs, step and selection, and no result. */
    method Reset()
      requires Valid()
      modifies this
      ensures Valid()
      ensures input == DefaultInput && step == 1 && result == None && selected == DefaultSelection
      ensures open == old(open) && loading == old(loading)
    {
      input := DefaultInput;
      step := 1;
      result := None;
      selected := DefaultSelection;
    }

    /** `handleCalculate`: builds the prompt, asks Gemini when there is a
        key, and always ends on step 3 with a result. */
    method Calculate(apiKey: Option<string>, gemini: (string, string) -> GeminiReply, showNum: real -> string)
      requires Valid()
      modifies this
      ensures Valid()
      ensures step == 3 && !loading
      ensures result == Some(Outcome(apiKey, gemini, Prompt(old(selected), old(input)), showNum))
      ensures open == old(open) && selected == old(selected) && input == old(input)
    {
      loading := true;
      result := None;
      var prompt := Prompt(selected, input);
      var r := MockResult;
      if HasKey(apiKey) {
        var reply := gemini(apiKey.value, prompt);
        if reply.Reply? && reply.ok && reply.body.Some? {
          var text := ExtractResponseText(reply.body.value, showNum);
          if text != "" {
            r := CalcResult(text, []);
          }
        }
      }
      result := Some(r);
      loading := false;
      step := 3;
    }
  }
}
