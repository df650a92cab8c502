/**
 * Reading a Responses body for the token estimate, and rewriting it for the upstream.
 */
module Normalize {
  import opened Wrappers

  /** A parsed JSON value; a missing field is `undefined` to the code. */
  datatype Json =
    | Null
    | Bool(flag: bool)
    | Num(number: real)
    | Str(text: string)
    | Arr(elements: seq<Json>)
    | Obj(fields: map<string, Json>)

  /** Library functions the reading depends on. */
  datatype Library = Library(stringify: Json -> string, isJsonText: string -> bool, utf8Length: string -> nat)

  datatype Failure = NonText | InvalidBody | InputTooLarge

  const NON_TEXT_PART_TYPES: set<string> :=
    {"image_url", "input_image", "input_audio", "input_file", "audio", "video", "file"}
  const INPUT_TYPES: set<string> := {"input_text", "text"}
  const OUTPUT_TYPES: set<string> := {"output_text", "text"}
  const DEFAULT_MAX_OUTPUT_TOKENS: int := 4096
  const TOOL_KEYS: set<string> := {"tools", "tool_choice", "functions", "function_call"}

  /** `typeof v === "object" && v !== null`: an array is an object without named fields. */
  predicate IsObject(j: Json) {
    j.Arr? || j.Obj?
  }

  function Field(j: Json, name: string): Option<Json> {
    if j.Obj? && name in j.fields then Some(j.fields[name]) else None
  }

  predicate HasText(f: Option<Json>) {
    f.Some? && f.value.Str?
  }

  function Join(texts: seq<string>, separator: string): string {
    if texts == [] then ""
    else if |texts| == 1 then texts[0]
    else texts[0] + separator + Join(texts[1..], separator)
  }

  // ----------------------------------------------------------------- reading

  datatype Read = Texts(texts: seq<string>, isToolUse: bool, opaqueBytes: nat) | Failed(failure: Failure)

  function Text(s: string): Read {
    Texts([s], false, 0)
  }

  /** What is read first, then what is read next; the first failure wins. */
  function Then(a: Read, b: Read): Read {
    if a.Failed? then a
    else if b.Failed? then b
    else Texts(a.texts + b.texts, a.isToolUse || b.isToolUse, a.opaqueBytes + b.opaqueBytes)
  }

  function ReadPart(part: Json, allowed: set<string>): Read {
    if !IsObject(part) || !HasText(Field(part, "type")) then Failed(InvalidBody)
    else
      var kind := Field(part, "type").value.text;
      if kind in NON_TEXT_PART_TYPES then Failed(NonText)
      else if kind !in allowed || !HasText(Field(part, "text")) then Failed(InvalidBody)
      else Text(Field(part, "text").value.text)
  }

  function ReadParts(parts: seq<Json>, allowed: set<string>): Read {
    if parts == [] then Texts([], false, 0) else Then(ReadPart(parts[0], allowed), ReadParts(parts[1..], allowed))
  }

  /** `walkContent` with the error the Responses reader asks for. */
  function ReadContent(content: Option<Json>, allowed: set<string>): Read {
    if HasText(content) then Text(content.value.text)
    else if content.None? || !content.value.Arr? then Failed(InvalidBody)
    else
      var parts := ReadParts(content.value.elements, allowed);
      if parts.Failed? then parts else Text(Join(parts.texts, " "))
  }

  function ContentType(role: string): string {
    if role == "assistant" then "output_text" else "input_text"
  }

  predicate KnownRole(role: Option<Json>) {
    HasText(role) && role.value.text in {"assistant", "developer", "system", "user"}
  }

  function ReadMessage(entry: Json): Read {
    var role := Field(entry, "role");
    if !KnownRole(role) then Failed(InvalidBody)
    else ReadContent(Field(entry, "content"), if role.value.text == "assistant" then OUTPUT_TYPES else INPUT_TYPES)
  }

  function ReadSummary(parts: seq<Json>): Read {
    if parts == [] then Texts([], false, 0)
    else
      var kind, text := Field(parts[0], "type"), Field(parts[0], "text");
      Then(
        if !IsObject(parts[0]) then Failed(InvalidBody)
        else if HasText(kind) && kind.value.text in NON_TEXT_PART_TYPES then Failed(NonText)
        else if !HasText(kind) || kind.value.text != "summary_text" || !HasText(text) then Failed(InvalidBody)
        else Text(text.value.text),
        ReadSummary(parts[1..]))
  }

  function ReadItem(item: Json, lib: Library): Read {
    if !IsObject(item) then Failed(InvalidBody)
    else
      var kind := Field(item, "type");
      if kind.None? || kind.value == Str("message") then ReadMessage(item)
      else if kind.value == Str("function_call") then
        var id, name, args := Field(item, "call_id"), Field(item, "name"), Field(item, "arguments");
        if !HasText(id) || !HasText(name) || !HasText(args) || !lib.isJsonText(args.value.text) then Failed(InvalidBody)
        else Texts([id.value.text, name.value.text, args.value.text], true, 0)
      else if kind.value == Str("function_call_output") then
        var id := Field(item, "call_id");
        if !HasText(id) then Failed(InvalidBody)
        else Then(Texts([id.value.text], true, 0), ReadContent(Field(item, "output"), INPUT_TYPES))
      else if kind.value == Str("reasoning") then
        var summary, secret := Field(item, "summary"), Field(item, "encrypted_content");
        if summary.None? || !summary.value.Arr? || !HasText(secret) then Failed(InvalidBody)
        else Then(ReadSummary(summary.value.elements), Texts([], false, lib.utf8Length(secret.value.text)))
      else Failed(InvalidBody)
  }

  function ReadItems(items: seq<Json>, lib: Library): Read {
    if items == [] then Texts([], false, 0) else Then(ReadItem(items[0], lib), ReadItems(items[1..], lib))
  }

  function ReadInput(input: Json, lib: Library): Read {
    match input
    case Str(s) => Text(s)
    case Arr(items) => ReadItems(items, lib)
    case _ => Failed(InvalidBody)
  }

  predicate Given(f: Option<Json>) {
    f.Some? && !f.value.Null?
  }

  /** `appendSerializedField`: an absent or null field adds nothing. */
  function Serialized(f: Option<Json>, lib: Library): Read {
    if Given(f) then Text(lib.stringify(f.value)) else Texts([], false, 0)
  }

  function PositiveInteger(j: Json): Option<int> {
    if j.Num? && j.number.Floor as real == j.number && 0 < j.number.Floor <= MAX_SAFE then Some(j.number.Floor) else None
  }

  predicate HasToolUse(body: Json) {
    (exists key :: key in TOOL_KEYS && Field(body, key).Some?)
    || (Field(body, "messages").Some? && Field(body, "messages").value.Arr?
        && exists i :: 0 <= i < |Field(body, "messages").value.elements|
             && NamesTool(Field(body, "messages").value.elements[i]))
  }

  predicate NamesTool(message: Json) {
    Field(message, "tool_calls").Some? || Field(message, "tool_call_id").Some? || Field(message, "function_call").Some?
  }

  datatype Normalized = Normalized(
    model: string, inputText: string, inputTextBytes: nat, inputBytes: nat, messageCount: nat,
    maxOutputTokens: int, stream: bool, isToolUse: bool, opaqueInputBytes: nat)
  datatype NormalizeResult = NormalizeOk(value: Normalized) | NormalizeFailed(failure: Failure)

  predicate Refused(body: Json) {
    || !IsObject(body)
    || !HasText(Field(body, "model")) || Field(body, "model").value.text == "" || Field(body, "input").None?
    || Field(body, "item_reference").Some?
    || Given(Field(body, "previous_response_id")) || Given(Field(body, "conversation"))
    || (Given(Field(body, "instructions")) && !Field(body, "instructions").value.Str?)
  }

  /** Everything the estimate counts: the input, then the serialized fields. */
  function ReadBody(body: Json, lib: Library): Read
    requires Field(body, "input").Some?
  {
    Then(ReadInput(Field(body, "input").value, lib),
      Then(Serialized(Field(body, "instructions"), lib),
        Then(Serialized(Field(body, "tools"), lib), Serialized(Field(body, "tool_choice"), lib))))
  }

  /** `normalizeResponses`. */
  function NormalizeResponses(body: Json, maxInputBytes: nat, lib: Library): NormalizeResult {
    if Refused(body) then NormalizeFailed(InvalidBody)
    else
      var read := ReadBody(body, lib);
      var limit := Field(body, "max_output_tokens");
      if read.Failed? then NormalizeFailed(read.failure)
      else if limit.Some? && PositiveInteger(limit.value).None? then NormalizeFailed(InvalidBody)
      else
        var inputText := Join(read.texts, "\n");
        var inputBytes := lib.utf8Length(inputText) + read.opaqueBytes;
        if inputBytes > maxInputBytes then NormalizeFailed(InputTooLarge)
        else NormalizeOk(Normalized(
          Field(body, "model").value.text, inputText, lib.utf8Length(inputText), inputBytes,
          if Field(body, "input").value.Arr? then |Field(body, "input").value.elements| else 1,
          if limit.Some? then PositiveInteger(limit.value).value else DEFAULT_MAX_OUTPUT_TOKENS,
          Field(body, "stream") == Some(Bool(true)),
          read.isToolUse || HasToolUse(body), read.opaqueBytes))
  }

  // --------------------------------------------------------------- rewriting

  function RewritePart(part: Json, textType: string): Json {
    if Field(part, "type") == Some(Str("text")) then Obj(part.fields["type" := Str(textType)]) else part
  }

  function RewriteParts(parts: seq<Json>, textType: string): (r: seq<Json>)
    ensures |r| == |parts| && forall i :: 0 <= i < |parts| ==> r[i] == RewritePart(parts[i], textType)
  {
    if parts == [] then [] else [RewritePart(parts[0], textType)] + RewriteParts(parts[1..], textType)
  }

  function RewriteContent(content: Json, textType: string): Json {
    if content.Arr? then Arr(RewriteParts(content.elements, textType)) else content
  }

  /** The object with one of its fields, if present, rewritten as text parts. */
  function RewriteField(item: Json, name: string, textType: string): Json {
    if Field(item, name).None? then item
    else Obj(item.fields[name := RewriteContent(item.fields[name], textType)])
  }

  function RewriteItem(item: Json): Json {
    var kind := Field(item, "type");
    if !item.Obj? then item
    else if kind.None? || kind.value == Str("message") then
      if KnownRole(Field(item, "role")) then
        RewriteField(item, "content", ContentType(Field(item, "role").value.text))
      else item
    else if kind.value == Str("function_call_output") then RewriteField(item, "output", "input_text")
    else item
  }

  function RewriteItems(items: seq<Json>): (r: seq<Json>)
    ensures |r| == |items| && forall i :: 0 <= i < |items| ==> r[i] == RewriteItem(items[i])
  {
    if items == [] then [] else [RewriteItem(items[0])] + RewriteItems(items[1..])
  }

  /** `normalizeResponsesUpstreamBody`. */
  function RewriteBody(body: Json): Json {
    var input := Field(body, "input");
    if input.Some? && input.value.Arr? then Obj(body.fields["input" := Arr(RewriteItems(input.value.elements))]) else body
  }

  // ---------------------------------------------------------- meaning is kept

  lemma PartReadsAlike(part: Json, textType: string, allowed: set<string>)
    requires "text" in allowed && textType in allowed && textType !in NON_TEXT_PART_TYPES
    ensures ReadPart(RewritePart(part, textType), allowed) == ReadPart(part, allowed)
  {}

  lemma {:induction false} PartsReadAlike(parts: seq<Json>, textType: string, allowed: set<string>)
    requires "text" in allowed && textType in allowed && textType !in NON_TEXT_PART_TYPES
    ensures ReadParts(RewriteParts(parts, textType), allowed) == ReadParts(parts, allowed)
  {
    if parts != [] {
      PartReadsAlike(parts[0], textType, allowed);
      PartsReadAlike(parts[1..], textType, allowed);
      assert RewriteParts(parts, textType)[1..] == RewriteParts(parts[1..], textType);
    }
  }

  lemma ContentReadsAlike(content: Json, textType: string, allowed: set<string>)
    requires "text" in allowed && textType in allowed && textType !in NON_TEXT_PART_TYPES
    ensures ReadContent(Some(RewriteContent(content, textType)), allowed) == ReadContent(Some(content), allowed)
  {
    if content.Arr? {
      PartsReadAlike(content.elements, textType, allowed);
    }
  }

  /** Rewriting one field changes no other field. */
  lemma OtherFieldsKept(item: Json, name: string, textType: string)
    ensures forall n :: n != name ==> Field(RewriteField(item, name, textType), n) == Field(item, n)
    ensures Field(item, name).None? ==> RewriteField(item, name, textType) == item
    ensures Field(item, name).Some? ==>
              Field(RewriteField(item, name, textType), name) == Some(RewriteContent(Field(item, name).value, textType))
  {}

  lemma FieldReadsAlike(item: Json, name: string, textType: string, allowed: set<string>)
    requires "text" in allowed && textType in allowed && textType !in NON_TEXT_PART_TYPES
    ensures ReadContent(Field(RewriteField(item, name, textType), name), allowed) == ReadContent(Field(item, name), allowed)
  {
    OtherFieldsKept(item, name, textType);
    if Field(item, name).Some? {
      ContentReadsAlike(Field(item, name).value, textType, allowed);
    }
  }

  lemma ItemReadsAlike(item: Json, lib: Library)
    ensures ReadItem(RewriteItem(item), lib) == ReadItem(item, lib)
  {
    hide ReadContent, RewriteField, RewriteContent, ReadSummary;
    FieldReadsAlike(item, "content", "output_text", OUTPUT_TYPES);
    FieldReadsAlike(item, "content", "input_text", INPUT_TYPES);
    FieldReadsAlike(item, "output", "input_text", INPUT_TYPES);
    OtherFieldsKept(item, "content", "output_text");
    OtherFieldsKept(item, "content", "input_text");
    OtherFieldsKept(item, "output", "input_text");
    RewrittenIsObject(item, "content", "output_text");
    RewrittenIsObject(item, "content", "input_text");
    RewrittenIsObject(item, "output", "input_text");
  }

  lemma RewrittenIsObject(item: Json, name: string, textType: string)
    ensures IsObject(RewriteField(item, name, textType)) == IsObject(item)
  {}

  lemma {:induction false} ItemsReadAlike(items: seq<Json>, lib: Library)
    ensures ReadItems(RewriteItems(items), lib) == ReadItems(items, lib)
  {
    if items != [] {
      ItemReadsAlike(items[0], lib);
      ItemsReadAlike(items[1..], lib);
      assert RewriteItems(items)[1..] == RewriteItems(items[1..]);
    }
  }

  /** The rewrite keeps what the estimator reads, errors included, on every body. */
  lemma RewriteKeepsMeaning(body: Json, maxInputBytes: nat, lib: Library)
    ensures NormalizeResponses(RewriteBody(body), maxInputBytes, lib) == NormalizeResponses(body, maxInputBytes, lib)
  {
    var input := Field(body, "input");
    if input.Some? && input.value.Arr? {
      hide NormalizeResponses, Field;
      BodyFieldsKept(body);
      ItemsReadAlike(input.value.elements, lib);
      BodiesReadAlike(RewriteBody(body), body, maxInputBytes, lib);
    }
  }

  lemma BodiesReadAlike(a: Json, b: Json, maxInputBytes: nat, lib: Library)
    requires a.Obj? && b.Obj? && forall n :: n != "input" ==> Field(a, n) == Field(b, n)
    requires Field(a, "input").Some? && Field(b, "input").Some?
    requires Field(a, "input").value.Arr? && Field(b, "input").value.Arr?
    requires |Field(a, "input").value.elements| == |Field(b, "input").value.elements|
    requires ReadItems(Field(a, "input").value.elements, lib) == ReadItems(Field(b, "input").value.elements, lib)
    ensures NormalizeResponses(a, maxInputBytes, lib) == NormalizeResponses(b, maxInputBytes, lib)
  {
    hide Field, ReadItems, Serialized, HasText, PositiveInteger, HasToolUse, Join;
    SameToolUse(a, b);
    SameSerialized(a, b, lib);
    SameRefusal(a, b);
  }

  lemma SameSerialized(a: Json, b: Json, lib: Library)
    requires Field(a, "input").Some? && Field(b, "input").Some?
    requires forall n :: n != "input" ==> Field(a, n) == Field(b, n)
    requires ReadInput(Field(a, "input").value, lib) == ReadInput(Field(b, "input").value, lib)
    ensures ReadBody(a, lib) == ReadBody(b, lib)
  {
    hide Field, ReadInput, Serialized;
  }

  lemma SameRefusal(a: Json, b: Json)
    requires a.Obj? && b.Obj? && Field(a, "input").Some? && Field(b, "input").Some?
    requires forall n :: n != "input" ==> Field(a, n) == Field(b, n)
    ensures Refused(a) == Refused(b)
  {
    hide Field, HasText, Given;
  }

  lemma BodyFieldsKept(body: Json)
    requires Field(body, "input").Some? && Field(body, "input").value.Arr?
    ensures RewriteBody(body).Obj?
    ensures forall n :: n != "input" ==> Field(RewriteBody(body), n) == Field(body, n)
    ensures Field(RewriteBody(body), "input") == Some(Arr(RewriteItems(Field(body, "input").value.elements)))
  {}

  lemma SameToolUse(a: Json, b: Json)
    requires forall n :: n != "input" ==> Field(a, n) == Field(b, n)
    ensures HasToolUse(a) == HasToolUse(b)
  {
    hide Field;
    assert "input" !in TOOL_KEYS && "messages" != "input";
  }

  /** A rewritten body is left as it is by a second rewrite. */
  lemma RewriteTwice(body: Json)
    ensures RewriteBody(RewriteBody(body)) == RewriteBody(body)
  {
    hide RewriteItem;
    var input := Field(body, "input");
    if input.Some? && input.value.Arr? {
      var items := input.value.elements;
      var once := RewriteItems(items);
      forall i | 0 <= i < |items| ensures RewriteItem(once[i]) == once[i] {
        ItemTwice(items[i]);
      }
      assert RewriteItems(once) == once;
      BodyFieldsKept(body);
      assert RewriteBody(body).fields["input" := Arr(once)] == RewriteBody(body).fields;
    }
  }

  lemma ItemTwice(item: Json)
    ensures RewriteItem(RewriteItem(item)) == RewriteItem(item)
  {
    hide RewriteField, RewriteContent;
    FieldTwice(item, "content", "output_text");
    FieldTwice(item, "content", "input_text");
    FieldTwice(item, "output", "input_text");
    OtherFieldsKept(item, "content", "output_text");
    OtherFieldsKept(item, "content", "input_text");
    OtherFieldsKept(item, "output", "input_text");
  }

  lemma FieldTwice(item: Json, name: string, textType: string)
    requires textType != "text"
    ensures RewriteField(RewriteField(item, name, textType), name, textType) == RewriteField(item, name, textType)
    ensures item.Obj? ==> RewriteField(item, name, textType).Obj?
  {
    if Field(item, name).Some? {
      var content := item.fields[name];
      ContentTwice(content, textType);
      var once := RewriteContent(content, textType);
      assert item.fields[name := once][name := once] == item.fields[name := once];
    }
  }

  lemma ContentTwice(content: Json, textType: string)
    requires textType != "text"
    ensures RewriteContent(RewriteContent(content, textType), textType) == RewriteContent(content, textType)
  {
    if content.Arr? {
      var once := RewriteParts(content.elements, textType);
      assert RewriteParts(once, textType) == once;
    }
  }

  // ------------------------------------------------------- the code's loops

  predicate IsTextPart(part: Json) {
    Field(part, "type") == Some(Str("text"))
  }

  /**
   * `normalizeResponsesTextParts`: copies the array only from its first text part on. `copied` is what
   * the code sees as an array other than the one it passed.
   */
  method NormalizeTextParts(content: Json, textType: string) returns (r: Json, copied: bool)
    ensures r == RewriteContent(content, textType)
    ensures copied <==> content.Arr? && exists i :: 0 <= i < |content.elements| && IsTextPart(content.elements[i])
    ensures !copied ==> r == content
  {
    if !content.Arr? {
      return content, false;
    }
    var parts := content.elements;
    var newParts: Option<seq<Json>> := None;
    for i := 0 to |parts|
      invariant newParts.None? ==> forall k :: 0 <= k < i ==> !IsTextPart(parts[k])
      invariant newParts.Some? ==>
                  |newParts.value| == i && (exists k :: 0 <= k < i && IsTextPart(parts[k]))
                  && forall k :: 0 <= k < i ==> newParts.value[k] == RewritePart(parts[k], textType)
    {
      if IsTextPart(parts[i]) {
        if newParts.None? {
          newParts := Some(parts[..i]);
        }
        newParts := Some(newParts.value + [Obj(parts[i].fields["type" := Str(textType)])]);
        continue;
      }
      if newParts.Some? {
        newParts := Some(newParts.value + [parts[i]]);
      }
    }
    assert newParts.None? ==> RewriteParts(parts, textType) == parts;
    assert newParts.Some? ==> RewriteParts(parts, textType) == newParts.value;
    copied := newParts.Some?;
    r := if copied then Arr(newParts.value) else content;
  }

  /** `normalizeResponsesInputItem`. */
  method NormalizeInputItem(item: Json) returns (r: Json, copied: bool)
    ensures r == RewriteItem(item) && (!copied ==> r == item)
  {
    if !item.Obj? {
      return item, false;
    }
    var kind := Field(item, "type");
    if kind.None? || kind.value == Str("message") {
      var role := Field(item, "role");
      if !KnownRole(role) {
        return item, false;
      }
      r, copied := NormalizeField(item, "content", ContentType(role.value.text));
    } else if kind.value == Str("function_call_output") {
      r, copied := NormalizeField(item, "output", "input_text");
    } else {
      r, copied := item, false;
    }
  }

  /** A field is replaced only if its value was copied; an absent one stays absent. */
  method NormalizeField(item: Json, name: string, textType: string) returns (r: Json, copied: bool)
    requires item.Obj?
    ensures r == RewriteField(item, name, textType) && (!copied ==> r == item)
  {
    if name !in item.fields {
      return item, false;
    }
    var content;
    content, copied := NormalizeTextParts(item.fields[name], textType);
    assert item.fields[name := item.fields[name]] == item.fields;
    r := if copied then Obj(item.fields[name := content]) else item;
  }

  /** `normalizeResponsesUpstreamBody`: the items are copied only from the first changed one on. */
  method NormalizeResponsesUpstreamBody(body: Json) returns (r: Json)
    ensures r == RewriteBody(body)
  {
    if Field(body, "input").None? || !Field(body, "input").value.Arr? {
      return body;
    }
    hide RewriteItem;
    var items := body.fields["input"].elements;
    var newItems: Option<seq<Json>> := None;
    for i := 0 to |items|
      invariant newItems.None? ==> forall k :: 0 <= k < i ==> RewriteItem(items[k]) == items[k]
      invariant newItems.Some? ==>
                  |newItems.value| == i && forall k :: 0 <= k < i ==> newItems.value[k] == RewriteItem(items[k])
    {
      var normalized, copied := NormalizeInputItem(items[i]);
      if copied {
        if newItems.None? {
          newItems := Some(items[..i]);
        }
        newItems := Some(newItems.value + [normalized]);
      } else if newItems.Some? {
        newItems := Some(newItems.value + [items[i]]);
      }
    }
    assert newItems.None? ==> RewriteItems(items) == items;
    assert newItems.Some? ==> RewriteItems(items) == newItems.value;
    assert body.fields["input" := body.fields["input"]] == body.fields;
    r := if newItems.Some? then Obj(body.fields["input" := Arr(newItems.value)]) else body;
  }

  /** `walkContent`: collects the texts of the parts until one is not allowed. */
  method WalkContent(content: Option<Json>, allowed: set<string>) returns (r: Read)
    ensures r == ReadContent(content, allowed)
  {
    if HasText(content) {
      return Text(content.value.text);
    }
    if content.None? || !content.value.Arr? {
      return Failed(InvalidBody);
    }
    hide ReadPart;
    var parts := content.value.elements;
    var texts: seq<string> := [];
    assert parts[0..] == parts;
    ThenNothing(ReadParts(parts, allowed));
    for i := 0 to |parts|
      invariant ReadParts(parts, allowed) == Then(Texts(texts, false, 0), ReadParts(parts[i..], allowed))
    {
      assert parts[i..][1..] == parts[i + 1..];
      var part := ReadPart(parts[i], allowed);
      ThenThen(Texts(texts, false, 0), part, ReadParts(parts[i + 1..], allowed));
      if part.Failed? {
        return part;
      }
      PartIsOneText(parts[i], allowed);
      texts := texts + part.texts;
    }
    ThenNothing(Texts(texts, false, 0));
    r := Text(Join(texts, " "));
  }

  lemma PartIsOneText(part: Json, allowed: set<string>)
    ensures var r := ReadPart(part, allowed); r.Texts? ==> !r.isToolUse && r.opaqueBytes == 0
  {}

  lemma ThenNothing(r: Read)
    ensures Then(Texts([], false, 0), r) == r && Then(r, Texts([], false, 0)) == r
  {
    if r.Texts? {
      assert [] + r.texts == r.texts && r.texts + [] == r.texts;
    }
  }

  lemma ThenThen(a: Read, b: Read, c: Read)
    ensures Then(a, Then(b, c)) == Then(Then(a, b), c)
  {
    if a.Texts? && b.Texts? && c.Texts? {
      assert a.texts + (b.texts + c.texts) == a.texts + b.texts + c.texts;
    }
  }

  /** The loop over the input items of `normalizeResponses`, with its running texts, flag and byte count. */
  method WalkItems(items: seq<Json>, lib: Library) returns (r: Read)
    ensures r == ReadItems(items, lib)
  {
    hide ReadItem;
    var texts: seq<string>, isToolUse, opaqueInputBytes: nat := [], false, 0;
    assert items[0..] == items;
    ThenNothing(ReadItems(items, lib));
    for i := 0 to |items|
      invariant ReadItems(items, lib) == Then(Texts(texts, isToolUse, opaqueInputBytes), ReadItems(items[i..], lib))
    {
      assert items[i..][1..] == items[i + 1..];
      var item := ReadItem(items[i], lib);
      ThenThen(Texts(texts, isToolUse, opaqueInputBytes), item, ReadItems(items[i + 1..], lib));
      if item.Failed? {
        return item;
      }
      texts := texts + item.texts;
      isToolUse := isToolUse || item.isToolUse;
      opaqueInputBytes := opaqueInputBytes + item.opaqueBytes;
    }
    ThenNothing(Texts(texts, isToolUse, opaqueInputBytes));
    r := Texts(texts, isToolUse, opaqueInputBytes);
  }
}
