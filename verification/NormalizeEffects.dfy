/**
 * What the rewrite achieves and what the reading counts, told by the positions and fields of a body.
 */
module NormalizeEffects {
  import opened Wrappers
  import opened Normalize

  // --------------------------------------------------------------- rewriting

  /** A part that called itself `text` carries the given type instead; any other part is as it was. */
  ghost predicate PartRenamed(part: Json, r: Json, textType: string) {
    if part.Obj? && "type" in part.fields && part.fields["type"] == Str("text") then
      && r.Obj? && r.fields.Keys == part.fields.Keys && r.fields["type"] == Str(textType)
      && forall n :: n in part.fields && n != "type" ==> r.fields[n] == part.fields[n]
    else r == part
  }

  /** The parts of one field are renamed, one by one; every other field is as it was. */
  ghost predicate FieldRenamed(item: Json, r: Json, name: string, textType: string) {
    && item.Obj? && r.Obj? && r.fields.Keys == item.fields.Keys
    && (forall n :: n in item.fields && n != name ==> r.fields[n] == item.fields[n])
    && (name in item.fields && !item.fields[name].Arr? ==> r.fields[name] == item.fields[name])
    && (name in item.fields && item.fields[name].Arr? ==>
          && r.fields[name].Arr? && |r.fields[name].elements| == |item.fields[name].elements|
          && forall k :: 0 <= k < |item.fields[name].elements| ==>
               PartRenamed(item.fields[name].elements[k], r.fields[name].elements[k], textType))
  }

  /** A field holds no part that calls itself `text`. */
  predicate NoTextPart(item: Json, name: string) {
    item.Obj? && (name in item.fields && item.fields[name].Arr? ==>
      forall k :: 0 <= k < |item.fields[name].elements| ==>
        var part := item.fields[name].elements[k];
        !(part.Obj? && "type" in part.fields && part.fields["type"] == Str("text")))
  }

  predicate IsMessage(item: Json) {
    item.Obj? && ("type" in item.fields ==> item.fields["type"] == Str("message"))
  }

  predicate Says(item: Json, role: string) {
    item.Obj? && "role" in item.fields && item.fields["role"] == Str(role)
  }

  predicate IsOfType(item: Json, kind: string) {
    item.Obj? && "type" in item.fields && item.fields["type"] == Str(kind)
  }

  predicate HasItems(body: Json) {
    body.Obj? && "input" in body.fields && body.fields["input"].Arr?
  }

  /**
   * The text parts of assistant messages become `output_text`, those of other known roles and of tool
   * outputs `input_text`, and nothing else in the item changes.
   */
  lemma ItemRenamed(item: Json)
    ensures var r := RewriteItem(item);
      && (IsMessage(item) && Says(item, "assistant") ==>
            FieldRenamed(item, r, "content", "output_text") && NoTextPart(r, "content"))
      && (IsMessage(item) && (Says(item, "user") || Says(item, "system") || Says(item, "developer")) ==>
            FieldRenamed(item, r, "content", "input_text") && NoTextPart(r, "content"))
      && (IsOfType(item, "function_call_output") ==>
            FieldRenamed(item, r, "output", "input_text") && NoTextPart(r, "output"))
      && (!IsOfType(item, "function_call_output")
          && !(IsMessage(item) && (Says(item, "assistant") || Says(item, "user") || Says(item, "system") || Says(item, "developer")))
          ==> r == item)
  {
    hide RewriteField, FieldRenamed, NoTextPart;
    RewriteRenames(item, "content", "output_text");
    RewriteRenames(item, "content", "input_text");
    RewriteRenames(item, "output", "input_text");
  }

  lemma RewriteRenames(item: Json, name: string, textType: string)
    requires textType != "text"
    ensures item.Obj? ==>
              var r := RewriteField(item, name, textType); FieldRenamed(item, r, name, textType) && NoTextPart(r, name)
  {}

  /** `normalizeResponsesUpstreamBody`: every item of an input array is rewritten in its place, nothing else is. */
  lemma BodyRenamed(body: Json)
    ensures var r := RewriteBody(body);
      if HasItems(body) then
        && r.Obj? && r.fields.Keys == body.fields.Keys
        && (forall n :: n in body.fields && n != "input" ==> r.fields[n] == body.fields[n])
        && HasItems(r) && |r.fields["input"].elements| == |body.fields["input"].elements|
        && forall i :: 0 <= i < |body.fields["input"].elements| ==>
             r.fields["input"].elements[i] == RewriteItem(body.fields["input"].elements[i])
      else r == body
  {
    hide RewriteItem;
  }

  // ----------------------------------------------------------------- reading

  /** The types a part may have that carries no text to count. */
  predicate IsNonText(kind: string) {
    || kind == "image_url" || kind == "input_image" || kind == "input_audio" || kind == "input_file"
    || kind == "audio" || kind == "video" || kind == "file"
  }

  predicate HasString(j: Json, name: string) {
    j.Obj? && name in j.fields && j.fields[name].Str?
  }

  function StringAt(j: Json, name: string): string
    requires HasString(j, name)
  {
    j.fields[name].text
  }

  /** Strings that name a kind of text part: the plain name, or the one for its direction. */
  predicate IsTextKind(kind: string, direction: string) {
    kind == "text" || kind == direction
  }

  predicate GoodPart(part: Json, direction: string) {
    HasString(part, "type") && IsTextKind(StringAt(part, "type"), direction) && HasString(part, "text")
  }

  predicate NonTextPart(part: Json) {
    HasString(part, "type") && IsNonText(StringAt(part, "type"))
  }

  /** The kinds of part a direction allows. */
  function Kinds(direction: string): set<string> {
    {"text", direction}
  }

  lemma PartOutcome(part: Json, direction: string)
    requires direction == "input_text" || direction == "output_text"
    ensures ReadPart(part, Kinds(direction)) ==
              if GoodPart(part, direction) then Texts([StringAt(part, "text")], false, 0)
              else Failed(if NonTextPart(part) then NonText else InvalidBody)
  {}

  predicate GoodParts(parts: seq<Json>, direction: string) {
    forall k :: 0 <= k < |parts| ==> GoodPart(parts[k], direction)
  }

  function TextsOf(parts: seq<Json>, direction: string): (r: seq<string>)
    requires GoodParts(parts, direction)
  {
    seq(|parts|, k requires 0 <= k < |parts| => StringAt(parts[k], "text"))
  }

  /** Text parts are read in their order. */
  lemma {:induction false} GoodPartsRead(parts: seq<Json>, direction: string)
    requires direction == "input_text" || direction == "output_text"
    requires GoodParts(parts, direction)
    ensures ReadParts(parts, Kinds(direction)) == Texts(TextsOf(parts, direction), false, 0)
  {
    hide ReadPart;
    if parts != [] {
      PartOutcome(parts[0], direction);
      GoodPartsRead(parts[1..], direction);
      assert TextsOf(parts, direction) == [StringAt(parts[0], "text")] + TextsOf(parts[1..], direction);
    }
  }

  /** The first part that is not a text part names the error. */
  lemma {:induction false} FirstBadPartFails(parts: seq<Json>, direction: string, k: nat)
    requires direction == "input_text" || direction == "output_text"
    requires k < |parts| && !GoodPart(parts[k], direction) && GoodParts(parts[..k], direction)
    ensures ReadParts(parts, Kinds(direction)) == Failed(if NonTextPart(parts[k]) then NonText else InvalidBody)
  {
    hide ReadPart, GoodPart, NonTextPart;
    PartOutcome(parts[0], direction);
    if k > 0 {
      assert parts[..k][0] == parts[0] && parts[1..][..k - 1] == parts[..k][1..];
      FirstBadPartFails(parts[1..], direction, k - 1);
    }
  }

  lemma SomeBadPartFails(parts: seq<Json>, direction: string)
    requires direction == "input_text" || direction == "output_text"
    requires !GoodParts(parts, direction)
    ensures ReadParts(parts, Kinds(direction)).Failed?
  {
    var k := FirstBadPart(parts, direction);
    FirstBadPartFails(parts, direction, k);
  }

  lemma FirstBadPart(parts: seq<Json>, direction: string) returns (k: nat)
    requires !GoodParts(parts, direction)
    ensures k < |parts| && !GoodPart(parts[k], direction) && GoodParts(parts[..k], direction)
  {
    hide GoodPart;
    k := 0;
    assert parts[..|parts|] == parts;
    while GoodPart(parts[k], direction)
      invariant k < |parts| && GoodParts(parts[..k], direction)
      decreases |parts| - k
    {
      assert parts[..k + 1] == parts[..k] + [parts[k]];
      k := k + 1;
    }
  }

  /** The content of a message or a tool output counts: it is a string or an array of text parts. */
  predicate GoodContent(item: Json, name: string, direction: string) {
    HasString(item, name)
    || (item.Obj? && name in item.fields && item.fields[name].Arr? && GoodParts(item.fields[name].elements, direction))
  }

  /** A string as it is, or the texts of the parts with spaces between. */
  function ContentText(item: Json, name: string, direction: string): string
    requires GoodContent(item, name, direction)
  {
    if HasString(item, name) then StringAt(item, name) else Join(TextsOf(item.fields[name].elements, direction), " ")
  }

  lemma ContentOutcome(item: Json, name: string, direction: string)
    requires item.Obj? && (direction == "input_text" || direction == "output_text")
    ensures var r := ReadContent(Field(item, name), Kinds(direction));
      if GoodContent(item, name, direction) then r == Texts([ContentText(item, name, direction)], false, 0) else r.Failed?
  {
    hide GoodParts, GoodPart;
    if name in item.fields && item.fields[name].Arr? {
      var parts := item.fields[name].elements;
      if GoodParts(parts, direction) { GoodPartsRead(parts, direction); } else { SomeBadPartFails(parts, direction); }
    }
  }

  /** Texts are joined one after the other, with the separator before each but the first. */
  lemma {:induction false} JoinOneMore(texts: seq<string>, last: string, separator: string)
    ensures Join([last], separator) == last
    ensures texts != [] ==> Join(texts + [last], separator) == Join(texts, separator) + separator + last
  {
    if |texts| > 1 {
      JoinOneMore(texts[1..], last, separator);
      assert (texts + [last])[1..] == texts[1..] + [last];
    } else if |texts| == 1 {
      assert (texts + [last])[1..] == [last];
    }
  }

  /** Two lists of items are read one after the other; the first failure wins, and the counts add up. */
  lemma {:induction false} ItemsOneByOne(a: seq<Json>, b: seq<Json>, lib: Library)
    ensures var (r, s, t) := (ReadItems(a + b, lib), ReadItems(a, lib), ReadItems(b, lib));
      && (s.Failed? ==> r == s) && (s.Texts? && t.Failed? ==> r == t)
      && (s.Texts? && t.Texts? ==>
            && r.Texts? && r.texts == s.texts + t.texts && r.opaqueBytes == s.opaqueBytes + t.opaqueBytes
            && (r.isToolUse <==> s.isToolUse || t.isToolUse))
    ensures forall item :: ReadItems([item], lib) == ReadItem(item, lib)
  {
    hide ReadItem;
    forall item ensures ReadItems([item], lib) == ReadItem(item, lib) {
      ThenNothing(ReadItem(item, lib));
      assert [item][1..] == [];
    }
    if a == [] {
      assert a + b == b;
      ThenNothing(ReadItems(b, lib));
    } else {
      ItemsOneByOne(a[1..], b, lib);
      assert (a + b)[1..] == a[1..] + b;
    }
  }

  predicate GoodSummary(part: Json) {
    HasString(part, "type") && StringAt(part, "type") == "summary_text" && HasString(part, "text")
  }

  lemma {:induction false} SummaryOutcome(parts: seq<Json>)
    ensures var r := ReadSummary(parts);
      if forall k :: 0 <= k < |parts| ==> GoodSummary(parts[k]) then
        && r.Texts? && |r.texts| == |parts| && !r.isToolUse && r.opaqueBytes == 0
        && forall k :: 0 <= k < |parts| ==> r.texts[k] == StringAt(parts[k], "text")
      else r.Failed?
  {
    if parts != [] {
      SummaryOutcome(parts[1..]);
      hide ReadSummary;
      assert forall k :: 0 < k < |parts| ==> parts[k] == parts[1..][k - 1];
    }
  }

  /** What one item counts, by its kind; every other item is refused. */
  lemma ItemOutcome(item: Json, lib: Library)
    ensures var r := ReadItem(item, lib);
      if IsMessage(item) && Says(item, "assistant") && GoodContent(item, "content", "output_text") then
        r == Texts([ContentText(item, "content", "output_text")], false, 0)
      else if IsMessage(item) && (Says(item, "user") || Says(item, "system") || Says(item, "developer"))
              && GoodContent(item, "content", "input_text") then
        r == Texts([ContentText(item, "content", "input_text")], false, 0)
      else if IsOfType(item, "function_call") && HasString(item, "call_id") && HasString(item, "name")
              && HasString(item, "arguments") && lib.isJsonText(StringAt(item, "arguments")) then
        r == Texts([StringAt(item, "call_id"), StringAt(item, "name"), StringAt(item, "arguments")], true, 0)
      else if IsOfType(item, "function_call_output") && HasString(item, "call_id") && GoodContent(item, "output", "input_text") then
        r == Texts([StringAt(item, "call_id"), ContentText(item, "output", "input_text")], true, 0)
      else if IsOfType(item, "reasoning") && "summary" in item.fields && item.fields["summary"].Arr?
              && HasString(item, "encrypted_content")
              && forall k :: 0 <= k < |item.fields["summary"].elements| ==> GoodSummary(item.fields["summary"].elements[k]) then
        && r.Texts? && !r.isToolUse && r.opaqueBytes == lib.utf8Length(StringAt(item, "encrypted_content"))
        && |r.texts| == |item.fields["summary"].elements|
        && forall k :: 0 <= k < |r.texts| ==> r.texts[k] == StringAt(item.fields["summary"].elements[k], "text")
      else r.Failed?
  {
    hide ReadContent, GoodContent, ContentText, ReadSummary, GoodSummary;
    if item.Obj? {
      ContentOutcome(item, "content", "output_text");
      ContentOutcome(item, "content", "input_text");
      ContentOutcome(item, "output", "input_text");
      assert OUTPUT_TYPES == Kinds("output_text") && INPUT_TYPES == Kinds("input_text");
      if "summary" in item.fields && item.fields["summary"].Arr? {
        SummaryOutcome(item.fields["summary"].elements);
      }
    }
  }

  // -------------------------------------------------------------- whole bodies

  predicate Absent(body: Json, name: string)
    requires body.Obj?
  {
    name in body.fields ==> body.fields[name].Null?
  }

  /** What is counted besides the input: the settings that are given, as the library writes them out. */
  function Extra(body: Json, name: string, lib: Library): seq<string>
    requires body.Obj?
  {
    if Absent(body, name) then [] else [lib.stringify(body.fields[name])]
  }

  /** A limit on the output, if there is one, is a positive safe integer. */
  predicate GoodLimit(body: Json) {
    body.Obj? && ("max_output_tokens" in body.fields ==>
      var limit := body.fields["max_output_tokens"];
      limit.Num? && 0.0 < limit.number <= 9007199254740991.0 && limit.number.Floor as real == limit.number)
  }

  /** The settings a body may have. */
  predicate GoodSettings(body: Json) {
    && HasString(body, "model") && StringAt(body, "model") != "" && "input" in body.fields
    && "item_reference" !in body.fields && Absent(body, "previous_response_id") && Absent(body, "conversation")
    && (HasString(body, "instructions") || Absent(body, "instructions"))
  }

  /** Reading of the input alone: a string, or items. */
  function InputRead(body: Json, lib: Library): Read {
    if HasString(body, "input") then Texts([StringAt(body, "input")], false, 0)
    else if HasItems(body) then ReadItems(body.fields["input"].elements, lib)
    else Failed(InvalidBody)
  }

  /** Everything that is counted as text, in this order. */
  function Counted(body: Json, lib: Library): seq<string>
    requires body.Obj? && InputRead(body, lib).Texts?
  {
    InputRead(body, lib).texts + Extra(body, "instructions", lib) + Extra(body, "tools", lib) + Extra(body, "tool_choice", lib)
  }

  /** The body, or one of its messages, speaks of tools. */
  predicate SpeaksOfTools(body: Json)
    requires body.Obj?
  {
    || "tools" in body.fields || "tool_choice" in body.fields || "functions" in body.fields || "function_call" in body.fields
    || ("messages" in body.fields && body.fields["messages"].Arr?
        && exists i :: 0 <= i < |body.fields["messages"].elements|
             && var m := body.fields["messages"].elements[i];
                m.Obj? && ("tool_calls" in m.fields || "tool_call_id" in m.fields || "function_call" in m.fields))
  }

  lemma ToolsOutcome(body: Json)
    requires body.Obj?
    ensures HasToolUse(body) <==> SpeaksOfTools(body)
  {
    if SpeaksOfTools(body) {
      if "tools" in body.fields { assert "tools" in TOOL_KEYS && Field(body, "tools").Some?; }
      if "tool_choice" in body.fields { assert "tool_choice" in TOOL_KEYS && Field(body, "tool_choice").Some?; }
      if "functions" in body.fields { assert "functions" in TOOL_KEYS && Field(body, "functions").Some?; }
      if "function_call" in body.fields { assert "function_call" in TOOL_KEYS && Field(body, "function_call").Some?; }
    }
  }

  lemma LimitOutcome(body: Json)
    requires body.Obj?
    ensures GoodLimit(body) <==>
              ("max_output_tokens" in body.fields ==> PositiveInteger(body.fields["max_output_tokens"]).Some?)
    ensures "max_output_tokens" in body.fields && GoodLimit(body) ==>
              PositiveInteger(body.fields["max_output_tokens"]).value as real == body.fields["max_output_tokens"].number
  {}

  lemma ExtraOutcome(body: Json, name: string, lib: Library)
    requires body.Obj?
    ensures Serialized(Field(body, name), lib) == Texts(Extra(body, name, lib), false, 0)
  {}

  lemma CountedOutcome(body: Json, lib: Library)
    requires body.Obj? && "input" in body.fields
    ensures var r := ReadBody(body, lib); var input := InputRead(body, lib);
      if input.Texts? then r == Texts(Counted(body, lib), input.isToolUse, input.opaqueBytes)
      else r.Failed? && !r.failure.InputTooLarge?
  {
    hide ReadItems, Serialized, Extra;
    ExtraOutcome(body, "instructions", lib);
    ExtraOutcome(body, "tools", lib);
    ExtraOutcome(body, "tool_choice", lib);
    var texts := InputRead(body, lib);
    if texts.Texts? {
      var a, b, c := Extra(body, "instructions", lib), Extra(body, "tools", lib), Extra(body, "tool_choice", lib);
      assert texts.texts + (a + (b + c)) == texts.texts + a + b + c;
    } else if HasItems(body) {
      ItemsFailForGood(body.fields["input"].elements, lib);
    }
  }

  /** Size is judged once, at the end. */
  lemma {:induction false} ItemsFailForGood(items: seq<Json>, lib: Library)
    ensures ReadItems(items, lib).Failed? ==> !ReadItems(items, lib).failure.InputTooLarge?
  {
    if items != [] {
      hide ReadItem;
      ItemFailsForGood(items[0], lib);
      ItemsFailForGood(items[1..], lib);
    }
  }

  lemma ItemFailsForGood(item: Json, lib: Library)
    ensures ReadItem(item, lib).Failed? ==> !ReadItem(item, lib).failure.InputTooLarge?
  {
    hide ReadContent, ReadSummary;
    if item.Obj? {
      forall name, allowed ensures ReadContent(Field(item, name), allowed).Failed? ==>
                                     !ReadContent(Field(item, name), allowed).failure.InputTooLarge?
      {
        ContentFailsForGood(Field(item, name), allowed);
      }
      if "summary" in item.fields && item.fields["summary"].Arr? {
        SummaryFailsForGood(item.fields["summary"].elements);
      }
    }
  }

  lemma ContentFailsForGood(content: Option<Json>, allowed: set<string>)
    ensures ReadContent(content, allowed).Failed? ==> !ReadContent(content, allowed).failure.InputTooLarge?
  {
    if content.Some? && content.value.Arr? {
      PartsFailForGood(content.value.elements, allowed);
    }
  }

  lemma {:induction false} PartsFailForGood(parts: seq<Json>, allowed: set<string>)
    ensures ReadParts(parts, allowed).Failed? ==> !ReadParts(parts, allowed).failure.InputTooLarge?
  {
    if parts != [] {
      PartsFailForGood(parts[1..], allowed);
    }
  }

  lemma {:induction false} SummaryFailsForGood(parts: seq<Json>)
    ensures ReadSummary(parts).Failed? ==> !ReadSummary(parts).failure.InputTooLarge?
  {
    if parts != [] {
      SummaryFailsForGood(parts[1..]);
    }
  }

  /**
   * `normalizeResponses`: a body is accepted exactly if its settings, its input and its limit are good and
   * what is counted fits; and then this is what the estimate gets.
   */
  lemma BodyOutcome(body: Json, maxInputBytes: nat, lib: Library)
    ensures var r := NormalizeResponses(body, maxInputBytes, lib);
      if body.Obj? && GoodSettings(body) && InputRead(body, lib).Texts? && GoodLimit(body) then
        var text := Join(Counted(body, lib), "\n");
        var bytes := lib.utf8Length(text) + InputRead(body, lib).opaqueBytes;
        if bytes > maxInputBytes then r == NormalizeFailed(InputTooLarge)
        else
          && r.NormalizeOk? && r.value.model == StringAt(body, "model") && r.value.inputText == text
          && r.value.inputTextBytes == lib.utf8Length(text) && r.value.inputBytes == bytes
          && r.value.opaqueInputBytes == InputRead(body, lib).opaqueBytes
          && r.value.messageCount == (if HasItems(body) then |body.fields["input"].elements| else 1)
          && (if "max_output_tokens" in body.fields
              then r.value.maxOutputTokens as real == body.fields["max_output_tokens"].number
              else r.value.maxOutputTokens == 4096)
          && (r.value.stream <==> "stream" in body.fields && body.fields["stream"] == Bool(true))
          && (r.value.isToolUse <==> InputRead(body, lib).isToolUse || SpeaksOfTools(body))
      else r.NormalizeFailed? && !r.failure.InputTooLarge?
  {
    hide ReadItems, ReadBody, PositiveInteger, GoodLimit, HasToolUse, SpeaksOfTools, Join, Counted;
    if body.Obj? {
      ToolsOutcome(body);
      SettingsOutcome(body);
      LimitOutcome(body);
      if "input" in body.fields { CountedOutcome(body, lib); }
    }
  }

  lemma SettingsOutcome(body: Json)
    requires body.Obj?
    ensures Refused(body) <==> !GoodSettings(body)
  {}
}
