/**
  The answer a stream of completion chunks is put together into, and the
  answer the model server would have written unstreamed
  (internal/gateway/assemble.go). JSON is read as ordered fields and string
  insides; JsonText says what joining string insides means.
*/
module StreamAssembly {
  import opened Common

  datatype Json =
    | Null
    | Atom(text: string)
    | Str(body: string)
    | Arr(items: seq<Json>)
    | Obj(fields: seq<Member>)

  datatype Member = Member(key: string, value: Json)

  /** A text field being joined: its key, and the inside of its literal. */
  datatype Joined = Joined(key: string, body: string)

  /** A chat choice's message being put together. */
  datatype Message = Message(role: Option<Json>, strings: seq<Joined>, tools: seq<Json>, other: seq<Member>)

  /** A choice being put together. */
  datatype Part = Part(
    index: Json,
    finish: Json,
    text: Option<string>,
    message: Option<Message>,
    other: seq<Member>)

  datatype Assembly = Assembly(frame: seq<Member>, parts: seq<Part>, usage: Option<Json>)

  /** A line of the stream: a comment or blank, an event, or its end. */
  datatype Line = Quiet | Data(payload: Json) | Malformed | Done | TooLong

  datatype Fault = StreamCut | StreamFailed | LineTooLong | AnswerTooLarge

  datatype Outcome = Answered(answer: Json) | Refused(fault: Fault)

  const EmptyMessage := Message(None, [], [], [])
  const EmptyAssembly := Assembly([], [], None)

  function NewPart(index: Json): Part {
    Part(index, Null, None, None, [])
  }

  // ------------------------------------------------------------- assembling

  /** The value a field was last given, where it stands or at the end. */
  function SetMember(ms: seq<Member>, m: Member): seq<Member> {
    if ms == [] then [m]
    else if ms[0].key == m.key then [m] + ms[1..]
    else [ms[0]] + SetMember(ms[1..], m)
  }

  function JoinString(ps: seq<Joined>, key: string, body: string): seq<Joined> {
    if ps == [] then [Joined(key, body)]
    else if ps[0].key == key then [Joined(key, ps[0].body + body)] + ps[1..]
    else [ps[0]] + JoinString(ps[1..], key, body)
  }

  /** decodeChoices: an array's items; null reads as none. */
  function Items(j: Json): Option<seq<Json>> {
    if j.Arr? then Some(j.items) else if j.Null? then Some([]) else None
  }

  function Without(ms: seq<Member>, key: string): seq<Member> {
    if ms == [] then [] else (if ms[0].key == key then [] else [ms[0]]) + Without(ms[1..], key)
  }

  predicate AllObjects(items: seq<Json>) {
    forall j :: j in items ==> j.Obj?
  }

  /** The calls of a chunk, each with its streaming index gone. */
  function Calls(items: seq<Json>): seq<Json>
    requires AllObjects(items)
  {
    if items == [] then [] else [Obj(Without(items[0].fields, "index"))] + Calls(items[1..])
  }

  function AddDeltaField(p: Message, m: Member): Option<Message> {
    if m.value.Null? then Some(p)
    else if m.key == "role" then Some(if p.role.None? then p.(role := Some(m.value)) else p)
    else if m.key == "tool_calls" then
      var items := Items(m.value);
      if items.None? || !AllObjects(items.value) then None else Some(p.(tools := p.tools + Calls(items.value)))
    else if m.value.Str? then Some(p.(strings := JoinString(p.strings, m.key, m.value.body)))
    else Some(p.(other := SetMember(p.other, m)))
  }

  function AddDelta(p: Message, fields: seq<Member>): Option<Message>
    decreases |fields|
  {
    if fields == [] then Some(p) else
    var q := AddDeltaField(p, fields[0]);
    if q.None? then None else AddDelta(q.value, fields[1..])
  }

  function AddField(p: Part, m: Member): Option<Part> {
    if m.key == "index" then Some(p)
    else if m.key == "finish_reason" then Some(if m.value.Null? then p else p.(finish := m.value))
    else if m.key == "text" then
      if m.value.Str? then Some(p.(text := Some((if p.text.Some? then p.text.value else "") + m.value.body))) else None
    else if m.key == "delta" then
      if !m.value.Obj? then None else
      var q := AddDelta(if p.message.Some? then p.message.value else EmptyMessage, m.value.fields);
      if q.None? then None else Some(p.(message := q))
    else Some(p.(other := SetMember(p.other, m)))
  }

  function AddFields(p: Part, fields: seq<Member>): Option<Part>
    decreases |fields|
  {
    if fields == [] then Some(p) else
    var q := AddField(p, fields[0]);
    if q.None? then None else AddFields(q.value, fields[1..])
  }

  /** The last value of key in ms, or what stood before. */
  function Last(ms: seq<Member>, key: string, before: Json): Json
    decreases |ms|
  {
    if ms == [] then before else Last(ms[1..], key, if ms[0].key == key then ms[0].value else before)
  }

  predicate HasKey(ms: seq<Member>, key: string) {
    exists m :: m in ms && m.key == key
  }

  function ChoiceIndex(fields: seq<Member>): Json {
    Last(fields, "index", Atom("0"))
  }

  /** Where the choice of an index stands among the parts, or their number. */
  function Place(parts: seq<Part>, index: Json): (i: nat)
    ensures i <= |parts|
    ensures i < |parts| ==> parts[i].index == index
  {
    if parts == [] then 0 else if parts[0].index == index then 0 else 1 + Place(parts[1..], index)
  }

  function AddChoice(parts: seq<Part>, raw: Json): Option<seq<Part>> {
    if !raw.Obj? then None else
    var index := ChoiceIndex(raw.fields);
    var i := Place(parts, index);
    var p := AddFields(if i < |parts| then parts[i] else NewPart(index), raw.fields);
    if p.None? then None
    else Some(if i < |parts| then parts[i := p.value] else parts + [p.value])
  }

  function AddChoices(parts: seq<Part>, items: seq<Json>): Option<seq<Part>>
    decreases |items|
  {
    if items == [] then Some(parts) else
    var q := AddChoice(parts, items[0]);
    if q.None? then None else AddChoices(q.value, items[1..])
  }

  /** A chunk's object type as the unstreamed answer spells it. */
  function Unchunked(m: Member): Member {
    if m.key == "object" && m.value.Str? && |m.value.body| >= 6 && m.value.body[|m.value.body| - 6..] == ".chunk" then
      m.(value := Str(m.value.body[..|m.value.body| - 6]))
    else m
  }

  /** An event's fields other than its choices and counts. */
  function Frame(fields: seq<Member>): seq<Member> {
    if fields == [] then [] else
    (if fields[0].key == "choices" || fields[0].key == "usage" then [] else [Unchunked(fields[0])]) + Frame(fields[1..])
  }

  function LastUsage(fields: seq<Member>, before: Option<Json>): Option<Json>
    decreases |fields|
  {
    if fields == [] then before else
    LastUsage(fields[1..], if fields[0].key == "usage" && !fields[0].value.Null? then Some(fields[0].value) else before)
  }

  /** The choices of an event that is a completion event, and not an error. */
  function EventChoices(payload: Json): Option<seq<Json>> {
    if !payload.Obj? then None
    else if exists m :: m in payload.fields && m.key == "error" && !m.value.Null? then None
    else if !HasKey(payload.fields, "choices") then None
    else Items(Last(payload.fields, "choices", Null))
  }

  function AddEvent(a: Assembly, payload: Json): Option<Assembly> {
    var items := EventChoices(payload);
    if items.None? then None else
    var a1 := a.(usage := LastUsage(payload.fields, a.usage));
    if items.value == [] then Some(a1) else
    var parts := AddChoices(a.parts, items.value);
    if parts.None? then None else
    Some(a1.(frame := if a.frame == [] then Frame(payload.fields) else a.frame, parts := parts.value))
  }

  // -------------------------------------------------------------- rendering

  /** What a message's keys stand for; a later field of a key takes its place. */
  function ByKey(m: Message): map<string, Json> {
    (if m.role.Some? then map["role" := m.role.value] else map[])
    + StringMap(m.strings)
    + (if m.tools != [] then map["tool_calls" := Arr(m.tools)] else map[])
    + MemberMap(m.other)
  }

  function StringMap(ps: seq<Joined>): map<string, Json> {
    if ps == [] then map[] else map[ps[0].key := Str(ps[0].body)] + StringMap(ps[1..])
  }

  function MemberMap(ms: seq<Member>): map<string, Json> {
    if ms == [] then map[] else map[ms[0].key := ms[0].value] + MemberMap(ms[1..])
  }

  const MessageOrder := ["role", "content", "reasoning", "tool_calls"]

  function StringKeys(ps: seq<Joined>): seq<string> {
    if ps == [] then [] else [ps[0].key] + StringKeys(ps[1..])
  }

  function Keys(ms: seq<Member>): seq<string> {
    if ms == [] then [] else [ms[0].key] + Keys(ms[1..])
  }

  function Place1(order: seq<string>, byKey: map<string, Json>, placed: set<string>): seq<Member> {
    if order == [] then [] else
    var k := order[0];
    if k in byKey && k !in placed then [Member(k, byKey[k])] + Place1(order[1..], byKey, placed + {k})
    else Place1(order[1..], byKey, placed)
  }

  function RenderMessage(m: Message): Json {
    Obj(Place1(MessageOrder + StringKeys(m.strings) + Keys(m.other), ByKey(m), {}))
  }

  function RenderPart(p: Part): Json {
    Obj([Member("index", p.index), Member("finish_reason", p.finish)] + p.other
        + if p.message.Some? then [Member("message", RenderMessage(p.message.value))]
          else if p.text.Some? then [Member("text", Str(p.text.value))]
          else [])
  }

  function RenderParts(parts: seq<Part>): seq<Json> {
    if parts == [] then [] else [RenderPart(parts[0])] + RenderParts(parts[1..])
  }

  function Render(a: Assembly): Outcome {
    if a.parts == [] then Refused(StreamFailed) else
    Answered(Obj(a.frame + [Member("choices", Arr(RenderParts(a.parts)))]
                 + if a.usage.Some? then [Member("usage", a.usage.value)] else []))
  }

  /** assembleAnswer, but for its byte budget. */
  function Assemble(a: Assembly, lines: seq<Line>): Outcome
    decreases |lines|
  {
    if lines == [] then Refused(StreamCut) else
    match lines[0]
    case Quiet => Assemble(a, lines[1..])
    case Malformed => Refused(StreamFailed)
    case TooLong => Refused(LineTooLong)
    case Done => Render(a)
    case Data(payload) =>
      var b := AddEvent(a, payload);
      if b.None? then Refused(StreamFailed) else Assemble(b.value, lines[1..])
  }
}
