/**
  What assembling a stream costs against its byte budget
  (internal/gateway/assemble.go): each thing kept is counted when it comes,
  an overwritten field by what it grew. The index and the finish reason of a
  choice are not counted, nor are the names of fields.
*/
module StreamBudget {
  import opened Common
  import opened StreamAssembly
  import opened StreamRoundTrip

  // ----------------------------------------------------------------- sizes

  /** The bytes of a value as it is written without spaces. */
  function Len(j: Json): nat {
    match j
    case Null => 4
    case Atom(text) => |text|
    case Str(body) => |body| + 2
    case Arr(items) => 2 + LenItems(items)
    case Obj(fields) => 2 + LenFields(fields)
  }

  function LenItems(items: seq<Json>): nat {
    if items == [] then 0 else Len(items[0]) + (if |items| > 1 then 1 else 0) + LenItems(items[1..])
  }

  function LenFields(fields: seq<Member>): nat {
    if fields == [] then 0 else
    |fields[0].key| + 3 + Len(fields[0].value) + (if |fields| > 1 then 1 else 0) + LenFields(fields[1..])
  }

  /** A value written without spaces, field names and strings as they came. */
  function Written(j: Json): string {
    match j
    case Null => "null"
    case Atom(text) => text
    case Str(body) => "\"" + body + "\""
    case Arr(items) => "[" + WrittenItems(items) + "]"
    case Obj(fields) => "{" + WrittenFields(fields) + "}"
  }

  function WrittenItems(items: seq<Json>): string {
    if items == [] then "" else Written(items[0]) + (if |items| > 1 then "," else "") + WrittenItems(items[1..])
  }

  function WrittenFields(fields: seq<Member>): string {
    if fields == [] then "" else
    "\"" + fields[0].key + "\":" + Written(fields[0].value) + (if |fields| > 1 then "," else "")
    + WrittenFields(fields[1..])
  }

  /** A value counts the characters it is written in. */
  lemma {:induction false} LenIsWhatIsWritten(j: Json)
    ensures |Written(j)| == Len(j)
  {
    match j
    case Arr(items) => ItemsAreWritten(items);
    case Obj(fields) => FieldsAreWritten(fields);
    case _ =>
  }

  lemma {:induction false} ItemsAreWritten(items: seq<Json>)
    ensures |WrittenItems(items)| == LenItems(items)
  {
    if items != [] {
      LenIsWhatIsWritten(items[0]);
      ItemsAreWritten(items[1..]);
    }
  }

  lemma {:induction false} FieldsAreWritten(fields: seq<Member>)
    ensures |WrittenFields(fields)| == LenFields(fields)
  {
    if fields != [] {
      LenIsWhatIsWritten(fields[0].value);
      FieldsAreWritten(fields[1..]);
    }
  }

  /** The bytes kept of a list of values. */
  function SumItems(items: seq<Json>): nat {
    if items == [] then 0 else Len(items[0]) + SumItems(items[1..])
  }

  function SumValues(ms: seq<Member>): nat {
    if ms == [] then 0 else Len(ms[0].value) + SumValues(ms[1..])
  }

  function SumBodies(ps: seq<Joined>): nat {
    if ps == [] then 0 else |ps[0].body| + SumBodies(ps[1..])
  }

  function LenOf(j: Option<Json>): nat {
    if j.Some? then Len(j.value) else 0
  }

  function KeptMessage(m: Message): nat {
    LenOf(m.role) + SumBodies(m.strings) + SumItems(m.tools) + SumValues(m.other)
  }

  function KeptPart(p: Part): nat {
    (if p.text.Some? then |p.text.value| else 0)
    + (if p.message.Some? then KeptMessage(p.message.value) else 0) + SumValues(p.other)
  }

  function KeptParts(parts: seq<Part>): nat {
    if parts == [] then 0 else KeptPart(parts[0]) + KeptParts(parts[1..])
  }

  /** The bytes kept of an answer being put together. */
  function Kept(a: Assembly): nat {
    SumValues(a.frame) + KeptParts(a.parts) + LenOf(a.usage)
  }

  // ----------------------------------------------------------------- costs

  function SetCost(ms: seq<Member>, m: Member): nat {
    if ms == [] then Len(m.value)
    else if ms[0].key == m.key then (if Len(m.value) > Len(ms[0].value) then Len(m.value) - Len(ms[0].value) else 0)
    else SetCost(ms[1..], m)
  }

  function DeltaFieldCost(p: Message, m: Member): nat {
    if m.value.Null? then 0
    else if m.key == "role" then (if p.role.None? then Len(m.value) else 0)
    else if m.key == "tool_calls" then
      var items := Items(m.value);
      if items.None? || !AllObjects(items.value) then 0 else SumItems(Calls(items.value))
    else if m.value.Str? then |m.value.body|
    else SetCost(p.other, m)
  }

  function DeltaCost(p: Message, fields: seq<Member>): nat
    decreases |fields|
  {
    if fields == [] then 0 else
    var q := AddDeltaField(p, fields[0]);
    DeltaFieldCost(p, fields[0]) + if q.None? then 0 else DeltaCost(q.value, fields[1..])
  }

  function FieldCost(p: Part, m: Member): nat {
    if m.key == "index" || m.key == "finish_reason" then 0
    else if m.key == "text" then (if m.value.Str? then |m.value.body| else 0)
    else if m.key == "delta" then
      if m.value.Obj? then DeltaCost(if p.message.Some? then p.message.value else EmptyMessage, m.value.fields) else 0
    else SetCost(p.other, m)
  }

  function FieldsCost(p: Part, fields: seq<Member>): nat
    decreases |fields|
  {
    if fields == [] then 0 else
    var q := AddField(p, fields[0]);
    FieldCost(p, fields[0]) + if q.None? then 0 else FieldsCost(q.value, fields[1..])
  }

  /** The part a choice object goes to: the one of its index, or a new one. */
  function PartFor(parts: seq<Part>, index: Json): Part {
    if Place(parts, index) < |parts| then parts[Place(parts, index)] else NewPart(index)
  }

  function ChoiceCost(parts: seq<Part>, raw: Json): nat {
    if raw.Obj? then FieldsCost(PartFor(parts, ChoiceIndex(raw.fields)), raw.fields) else 0
  }

  function ChoicesCost(parts: seq<Part>, items: seq<Json>): nat
    decreases |items|
  {
    if items == [] then 0 else
    var q := AddChoice(parts, items[0]);
    ChoiceCost(parts, items[0]) + if q.None? then 0 else ChoicesCost(q.value, items[1..])
  }

  /** Every event's counts are counted, though only the last are kept. */
  function UsageCost(fields: seq<Member>): nat {
    if fields == [] then 0 else
    (if fields[0].key == "usage" then (if fields[0].value.Null? then 0 else Len(fields[0].value)) else 0) +
        UsageCost(fields[1..])
  }

  function EventCost(a: Assembly, payload: Json): nat {
    var items := EventChoices(payload);
    if items.None? then 0
    else
      UsageCost(payload.fields)
      + if items.value == [] then 0
        else (if a.frame == [] then SumValues(Frame(payload.fields)) else 0) + ChoicesCost(a.parts, items.value)
  }

  /** What a whole stream costs, as far as it is read. */
  function StreamCost(a: Assembly, lines: seq<Line>): nat
    decreases |lines|
  {
    if lines == [] then 0 else
    match lines[0]
    case Quiet => StreamCost(a, lines[1..])
    case Data(payload) =>
      var b := AddEvent(a, payload);
      EventCost(a, payload) + if b.None? then 0 else StreamCost(b.value, lines[1..])
    case _ => 0
  }

  // ------------------------------------------- what is kept has been counted

  lemma {:induction false} SetKeeps(ms: seq<Member>, m: Member)
    ensures SumValues(SetMember(ms, m)) <= SumValues(ms) + SetCost(ms, m)
  {
    if ms != [] {
      if ms[0].key == m.key {
        assert ([m] + ms[1..])[1..] == ms[1..];
      } else {
        SetKeeps(ms[1..], m);
        assert ([ms[0]] + SetMember(ms[1..], m))[1..] == SetMember(ms[1..], m);
      }
    }
  }

  lemma {:induction false} JoinKeeps(ps: seq<Joined>, key: string, body: string)
    ensures SumBodies(JoinString(ps, key, body)) == SumBodies(ps) + |body|
  {
    if ps != [] {
      if ps[0].key == key {
        assert ([Joined(key, ps[0].body + body)] + ps[1..])[1..] == ps[1..];
      } else {
        JoinKeeps(ps[1..], key, body);
        assert ([ps[0]] + JoinString(ps[1..], key, body))[1..] == JoinString(ps[1..], key, body);
      }
    }
  }

  lemma {:induction false} SumItemsJoin(a: seq<Json>, b: seq<Json>)
    ensures SumItems(a + b) == SumItems(a) + SumItems(b)
  {
    if a == [] {
      assert a + b == b;
    } else {
      assert (a + b)[1..] == a[1..] + b;
      SumItemsJoin(a[1..], b);
    }
  }

  lemma DeltaFieldKeeps(p: Message, m: Member)
    requires AddDeltaField(p, m).Some?
    ensures KeptMessage(AddDeltaField(p, m).value) <= KeptMessage(p) + DeltaFieldCost(p, m)
  {
    if !m.value.Null? && m.key != "role" {
      if m.key == "tool_calls" {
        SumItemsJoin(p.tools, Calls(Items(m.value).value));
      } else if m.value.Str? {
        JoinKeeps(p.strings, m.key, m.value.body);
      } else {
        SetKeeps(p.other, m);
      }
    }
  }

  lemma {:induction false} DeltaKeeps(p: Message, fields: seq<Member>)
    requires AddDelta(p, fields).Some?
    ensures KeptMessage(AddDelta(p, fields).value) <= KeptMessage(p) + DeltaCost(p, fields)
    decreases |fields|
  {
    if fields != [] {
      DeltaFieldKeeps(p, fields[0]);
      DeltaKeeps(AddDeltaField(p, fields[0]).value, fields[1..]);
    }
  }

  lemma FieldKeeps(p: Part, m: Member)
    requires AddField(p, m).Some?
    ensures KeptPart(AddField(p, m).value) <= KeptPart(p) + FieldCost(p, m)
    ensures AddField(p, m).value.index == p.index
  {
    if m.key == "delta" {
      DeltaKeeps(if p.message.Some? then p.message.value else EmptyMessage, m.value.fields);
    } else if m.key != "index" && m.key != "finish_reason" && m.key != "text" {
      SetKeeps(p.other, m);
    }
  }

  lemma {:induction false} FieldsKeep(p: Part, fields: seq<Member>)
    requires AddFields(p, fields).Some?
    ensures KeptPart(AddFields(p, fields).value) <= KeptPart(p) + FieldsCost(p, fields)
    ensures AddFields(p, fields).value.index == p.index
    decreases |fields|
  {
    if fields != [] {
      FieldKeeps(p, fields[0]);
      FieldsKeep(AddField(p, fields[0]).value, fields[1..]);
    }
  }

  lemma {:induction false} PartsReplaced(parts: seq<Part>, i: nat, p: Part)
    requires i < |parts|
    ensures KeptParts(parts[i := p]) == KeptParts(parts) - KeptPart(parts[i]) + KeptPart(p)
  {
    if i == 0 {
      assert parts[i := p][1..] == parts[1..];
    } else {
      assert parts[i := p][1..] == parts[1..][i - 1 := p];
      PartsReplaced(parts[1..], i - 1, p);
    }
  }

  lemma {:induction false} PartsExtended(parts: seq<Part>, p: Part)
    ensures KeptParts(parts + [p]) == KeptParts(parts) + KeptPart(p)
  {
    if parts == [] {
      assert parts + [p] == [p] && [p][1..] == [];
    } else {
      assert (parts + [p])[1..] == parts[1..] + [p];
      PartsExtended(parts[1..], p);
    }
  }

  lemma ChoiceKeeps(parts: seq<Part>, raw: Json)
    requires AddChoice(parts, raw).Some?
    ensures KeptParts(AddChoice(parts, raw).value) <= KeptParts(parts) + ChoiceCost(parts, raw)
  {
    var index := ChoiceIndex(raw.fields);
    var i, p := Place(parts, index), PartFor(parts, index);
    FieldsKeep(p, raw.fields);
    var q := AddFields(p, raw.fields).value;
    if i < |parts| {
      PartsReplaced(parts, i, q);
    } else {
      PartsExtended(parts, q);
    }
  }

  lemma {:induction false} ChoicesKeep(parts: seq<Part>, items: seq<Json>)
    requires AddChoices(parts, items).Some?
    ensures KeptParts(AddChoices(parts, items).value) <= KeptParts(parts) + ChoicesCost(parts, items)
    decreases |items|
  {
    if items != [] {
      hide AddChoice, ChoiceCost;
      ChoiceKeeps(parts, items[0]);
      ChoicesKeep(AddChoice(parts, items[0]).value, items[1..]);
    }
  }

  lemma {:induction false} UsageKeeps(fields: seq<Member>, before: Option<Json>)
    ensures LenOf(LastUsage(fields, before)) <= LenOf(before) + UsageCost(fields)
    decreases |fields|
  {
    if fields != [] {
      UsageKeeps(fields[1..], if fields[0].key == "usage" && !fields[0].value.Null? then Some(fields[0].value)
          else before);
    }
  }

  /** No event keeps more than it cost. */
  lemma EventKeeps(a: Assembly, payload: Json)
    requires AddEvent(a, payload).Some?
    ensures Kept(AddEvent(a, payload).value) <= Kept(a) + EventCost(a, payload)
  {
    var items := EventChoices(payload).value;
    UsageKeeps(payload.fields, a.usage);
    if items != [] {
      ChoicesKeep(a.parts, items);
    }
  }

  /** Over a whole stream, what is kept at its end was paid for. */
  lemma {:induction false} StreamKeeps(a: Assembly, lines: seq<Line>)
    ensures Kept(StreamEnd(a, lines)) <= Kept(a) + StreamCost(a, lines)
    ensures Kept(EmptyAssembly) == 0
    decreases |lines|
  {
    assert Kept(EmptyAssembly) == 0;
    hide AddEvent, EventCost, Kept;
    if lines != [] {
      match lines[0]
      case Quiet => StreamKeeps(a, lines[1..]);
      case Data(payload) =>
        if AddEvent(a, payload).Some? {
          EventKeeps(a, payload);
          StreamKeeps(AddEvent(a, payload).value, lines[1..]);
        }
      case _ =>
    }
  }

  /** What has been put together when a stream ends or is given up. */
  function StreamEnd(a: Assembly, lines: seq<Line>): Assembly
    decreases |lines|
  {
    if lines == [] then a else
    match lines[0]
    case Quiet => StreamEnd(a, lines[1..])
    case Data(payload) => if AddEvent(a, payload).None? then a else StreamEnd(AddEvent(a, payload).value, lines[1..])
    case _ => a
  }

  // --------------------------------------- nothing is counted that is not kept

  function Growth(before: nat, after: nat): nat {
    if after > before then after - before else 0
  }

  /** Setting a field counts exactly what the fields grew by, and nothing when they shrank. */
  lemma {:induction false} SetCostsItsGrowth(ms: seq<Member>, m: Member)
    ensures SetCost(ms, m) == Growth(SumValues(ms), SumValues(SetMember(ms, m)))
  {
    if ms != [] {
      if ms[0].key == m.key {
        assert ([m] + ms[1..])[1..] == ms[1..];
      } else {
        SetCostsItsGrowth(ms[1..], m);
        assert ([ms[0]] + SetMember(ms[1..], m))[1..] == SetMember(ms[1..], m);
      }
    }
  }

  /** So does a field of a delta: a role repeated in every chunk is counted once, a null never. */
  lemma ADeltaFieldCostsItsGrowth(p: Message, m: Member)
    requires AddDeltaField(p, m).Some?
    ensures DeltaFieldCost(p, m) == Growth(KeptMessage(p), KeptMessage(AddDeltaField(p, m).value))
  {
    if !m.value.Null? && m.key != "role" {
      if m.key == "tool_calls" {
        SumItemsJoin(p.tools, Calls(Items(m.value).value));
      } else if m.value.Str? {
        JoinKeeps(p.strings, m.key, m.value.body);
      } else {
        SetCostsItsGrowth(p.other, m);
      }
    }
  }

  /** And so does a field of a choice, its delta being counted field by field. */
  lemma AFieldCostsItsGrowth(p: Part, m: Member)
    requires AddField(p, m).Some? && m.key != "delta"
    ensures FieldCost(p, m) == Growth(KeptPart(p), KeptPart(AddField(p, m).value))
  {
    if m.key != "index" && m.key != "finish_reason" && m.key != "text" {
      SetCostsItsGrowth(p.other, m);
    }
  }

  lemma {:induction false} CountsCost(fields: seq<Member>)
    ensures UsageCost(fields) == SumItems(CountsIn(fields))
  {
    if fields != [] {
      CountsCost(fields[1..]);
      assert [] + CountsIn(fields[1..]) == CountsIn(fields[1..]);
    }
  }

  /**
    An event with no choice costs its counts, null ones nothing; any other its
    choices too, and the first of those its frame.
  */
  lemma AnEventCostsItsParts(a: Assembly, payload: Json)
    requires EventChoices(payload).Some?
    ensures var items, counts := EventChoices(payload).value, SumItems(CountsIn(payload.fields));
            && (items == [] ==> EventCost(a, payload) == counts)
            && (items != [] ==>
                EventCost(a, payload) == counts + ChoicesCost(a.parts, items)
                                         + if a.frame != [] then 0 else SumValues(Frame(payload.fields)))
  {
    CountsCost(payload.fields);
  }

  // ------------------------------------------- nothing costs more than it takes

  lemma {:induction false} WithoutIsShorter(ms: seq<Member>, key: string)
    ensures LenFields(Without(ms, key)) <= LenFields(ms) && |Without(ms, key)| <= |ms|
  {
    if ms != [] {
      WithoutIsShorter(ms[1..], key);
      assert [] + Without(ms[1..], key) == Without(ms[1..], key);
      if ms[0].key != key {
        var kept := Without(ms, key);
        assert kept == [ms[0]] + Without(ms[1..], key) && kept[1..] == Without(ms[1..], key);
        assert |kept| > 1 ==> |ms| > 1;
      }
    }
  }

  lemma {:induction false} SumsAreShorter(items: seq<Json>, fields: seq<Member>)
    ensures SumItems(items) <= LenItems(items) && SumValues(fields) <= LenFields(fields)
    decreases |items| + |fields|
  {
    if items != [] {
      SumsAreShorter(items[1..], fields);
    } else if fields != [] {
      SumsAreShorter(items, fields[1..]);
    }
  }

  lemma {:induction false} CallsAreShorter(items: seq<Json>)
    requires AllObjects(items)
    ensures SumItems(Calls(items)) <= SumItems(items)
  {
    if items != [] {
      assert items[0] in items;
      CallsAreShorter(items[1..]);
      WithoutIsShorter(items[0].fields, "index");
    }
  }

  lemma {:induction false} SetCostsAtMost(ms: seq<Member>, m: Member)
    ensures SetCost(ms, m) <= Len(m.value)
  {
    if ms != [] {
      SetCostsAtMost(ms[1..], m);
    }
  }

  lemma {:induction false} DeltaCostsAtMost(p: Message, fields: seq<Member>)
    ensures DeltaCost(p, fields) <= SumValues(fields)
    decreases |fields|
  {
    if fields != [] {
      var m := fields[0];
      SetCostsAtMost(p.other, m);
      if m.key == "tool_calls" && m.value.Arr? && AllObjects(m.value.items) {
        CallsAreShorter(m.value.items);
        SumsAreShorter(m.value.items, []);
      }
      if AddDeltaField(p, m).Some? {
        DeltaCostsAtMost(AddDeltaField(p, m).value, fields[1..]);
      }
    }
  }

  lemma {:induction false} FieldsCostAtMost(p: Part, fields: seq<Member>)
    ensures FieldsCost(p, fields) <= SumValues(fields)
    decreases |fields|
  {
    if fields != [] {
      var m := fields[0];
      SetCostsAtMost(p.other, m);
      if m.key == "delta" && m.value.Obj? {
        DeltaCostsAtMost(if p.message.Some? then p.message.value else EmptyMessage, m.value.fields);
        SumsAreShorter([], m.value.fields);
      }
      if AddField(p, m).Some? {
        FieldsCostAtMost(AddField(p, m).value, fields[1..]);
      }
    }
  }

  lemma {:induction false} ChoicesCostAtMost(parts: seq<Part>, items: seq<Json>)
    ensures ChoicesCost(parts, items) <= SumItems(items)
    decreases |items|
  {
    if items != [] {
      var raw := items[0];
      if raw.Obj? {
        FieldsCostAtMost(PartFor(parts, ChoiceIndex(raw.fields)), raw.fields);
        SumsAreShorter([], raw.fields);
      }
      if AddChoice(parts, raw).Some? {
        ChoicesCostAtMost(AddChoice(parts, raw).value, items[1..]);
      }
    }
  }

  /** An event's frame, counts and choices are apart, so each byte of it is counted at most once. */
  lemma {:induction false} EventFieldsApart(fields: seq<Member>, before: Json)
    ensures UsageCost(fields) + SumValues(Frame(fields)) + Len(Last(fields, "choices", before))
            <= SumValues(fields) + Len(before)
    decreases |fields|
  {
    if fields != [] {
      var m := fields[0];
      EventFieldsApart(fields[1..], if m.key == "choices" then m.value else before);
      assert [] + Frame(fields[1..]) == Frame(fields[1..]);
      if m.key != "choices" && m.key != "usage" {
        var frame := Frame(fields);
        assert frame == [Unchunked(m)] + Frame(fields[1..]) && frame[1..] == Frame(fields[1..]);
        assert SumValues(frame) == Len(Unchunked(m).value) + SumValues(frame[1..]);
        UnchunkedIsShorter(m);
      }
    }
  }

  lemma UnchunkedIsShorter(m: Member)
    ensures Len(Unchunked(m).value) <= Len(m.value)
  {
  }

  lemma {:induction false} UsageApart(fields: seq<Member>)
    ensures UsageCost(fields) <= SumValues(fields)
  {
    if fields != [] {
      UsageApart(fields[1..]);
    }
  }

  lemma {:induction false} LastOf(fields: seq<Member>, key: string, a: Json, b: Json)
    requires HasKey(fields, key)
    ensures Last(fields, key, a) == Last(fields, key, b)
    decreases |fields|
  {
    if fields[0].key != key {
      assert HasKey(fields[1..], key);
      LastOf(fields[1..], key, a, b);
    }
  }

  lemma EventCostsAtMost(a: Assembly, payload: Json)
    ensures EventCost(a, payload) <= Len(payload)
  {
    var items := EventChoices(payload);
    if items.Some? {
      var fields := payload.fields;
      var least := Atom("");
      LastOf(fields, "choices", Null, least);
      EventFieldsApart(fields, least);
      UsageApart(fields);
      SumsAreShorter(items.value, fields);
      ChoicesCostAtMost(a.parts, items.value);
    }
  }

  /** The characters of the events of a stream. */
  function Taken(lines: seq<Line>): nat {
    if lines == [] then 0 else (if lines[0].Data? then |Written(lines[0].payload)| else 0) + Taken(lines[1..])
  }

  /** A stream never costs more than it is long: one within the limit as written is never refused for its size. */
  lemma {:induction false} AStreamCostsAtMostItsLength(a: Assembly, lines: seq<Line>)
    ensures StreamCost(a, lines) <= Taken(lines)
    decreases |lines|
  {
    hide EventCost, AddEvent;
    if lines != [] {
      match lines[0]
      case Quiet => AStreamCostsAtMostItsLength(a, lines[1..]);
      case Data(payload) =>
        EventCostsAtMost(a, payload);
        LenIsWhatIsWritten(payload);
        if AddEvent(a, payload).Some? {
          AStreamCostsAtMostItsLength(AddEvent(a, payload).value, lines[1..]);
        }
      case _ =>
    }
  }

  // ------------------------------------------ what the budget does not see

  /** The bytes kept of the choices' indices and finish reasons. */
  function Uncounted(parts: seq<Part>): nat {
    if parts == [] then 0 else Len(parts[0].index) + Len(parts[0].finish) + Uncounted(parts[1..])
  }

  lemma OneChoiceCosts(index: Json, finish: Json)
    requires !finish.Null?
    ensures var raw := Obj([Member("index", index), Member("finish_reason", finish)]);
            ChoiceCost([], raw) == 0 && AddChoice([], raw) == Some([NewPart(index).(finish := finish)])
  {
    var i, f := Member("index", index), Member("finish_reason", finish);
    var fs := [i, f];
    assert fs[1..] == [f] && [f][1..] == [];
    assert Last([f], "index", index) == index;
    assert ChoiceIndex(fs) == index;
    var p := NewPart(index);
    assert AddFields(p, fs) == AddFields(p, [f]) == Some(p.(finish := finish));
    assert FieldsCost(p, fs) == FieldsCost(p, [f]) == 0;
    assert [] + [p.(finish := finish)] == [p.(finish := finish)];
  }

  function Repeated(n: nat): string {
    if n == 0 then "" else "1" + Repeated(n - 1)
  }

  lemma {:induction false} RepeatedIs(n: nat)
    ensures |Repeated(n)| == n
  {
    if n > 0 {
      RepeatedIs(n - 1);
    }
  }

  /** An answer of one choice, in one event with nothing else. */
  function OneChoice(index: Json, finish: Json): seq<Line> {
    [Data(Obj([Member("choices", Arr([Obj([Member("index", index), Member("finish_reason", finish)])]))])), Done]
  }

  lemma OneChoiceAssembles(index: Json, finish: Json)
    requires !finish.Null?
    ensures StreamCost(EmptyAssembly, OneChoice(index, finish)) == 0
    ensures StreamEnd(EmptyAssembly, OneChoice(index, finish)).parts == [NewPart(index).(finish := finish)]
    ensures Assemble(EmptyAssembly, OneChoice(index, finish)).Answered?
  {
    var lines := OneChoice(index, finish);
    var payload := lines[0].payload;
    var c := payload.fields[0];
    var raw := c.value.items[0];
    assert payload.fields[1..] == [] && c in payload.fields && lines[1..] == [Done];
    assert HasKey(payload.fields, "choices");
    assert Last(payload.fields, "choices", Null) == Last(payload.fields[1..], "choices", c.value) == c.value;
    assert EventChoices(payload) == Some([raw]);
    OneChoiceCosts(index, finish);
    assert [raw][1..] == [];
    assert AddChoices([], [raw]) == AddChoice([], raw);
    assert ChoicesCost([], [raw]) == ChoiceCost([], raw) + ChoicesCost(AddChoice([], raw).value, [raw][1..]);
    assert Frame(payload.fields) == [] + [];
    assert LastUsage(payload.fields, None) == LastUsage(payload.fields[1..], None) == None;
    assert UsageCost(payload.fields) == 0 + UsageCost(payload.fields[1..]) == 0;
  }

  /**
    Whatever the limit, there is an answer that costs nothing against it and
    keeps any number of bytes: a choice's index and finish reason are not
    counted, whatever their size.
  */
  lemma IndexAndFinishAreNotCounted(n: nat)
    ensures exists lines: seq<Line> ::
              && StreamCost(EmptyAssembly, lines) == 0 && Assemble(EmptyAssembly, lines).Answered?
              && Uncounted(StreamEnd(EmptyAssembly, lines).parts) == 2 * n
  {
    var text := Atom(Repeated(n));
    RepeatedIs(n);
    OneChoiceAssembles(text, text);
    var p := NewPart(text).(finish := text);
    assert [p][1..] == [];
    assert Uncounted([p]) == Len(text) + Len(text) + Uncounted([]);
    assert StreamCost(EmptyAssembly, OneChoice(text, text)) == 0;
  }
}
