/**
  The assembler as the gateway runs it, updating what it holds as each event
  comes and stopping at its byte budget (internal/gateway/assemble.go).
*/
module StreamAssembler {
  import opened Common
  import opened StreamAssembly
  import opened StreamBudget

  predicate IndicesApart(parts: seq<Part>) {
    forall i, j :: 0 <= i < j < |parts| ==> parts[i].index != parts[j].index
  }

  lemma {:induction false} PlaceIs(parts: seq<Part>, i: nat)
    requires i < |parts| && IndicesApart(parts)
    ensures Place(parts, parts[i].index) == i
  {
    if i > 0 {
      assert parts[0].index != parts[i].index;
      assert forall k :: 0 <= k < |parts| - 1 ==> parts[1..][k] == parts[k + 1];
      PlaceIs(parts[1..], i - 1);
    }
  }

  lemma {:induction false} PlaceNowhere(parts: seq<Part>, index: Json)
    requires forall i :: 0 <= i < |parts| ==> parts[i].index != index
    ensures Place(parts, index) == |parts|
  {
    if parts != [] {
      PlaceNowhere(parts[1..], index);
    }
  }

  lemma {:induction false} PlacedBefore(parts: seq<Part>, index: Json, i: nat)
    requires i < Place(parts, index)
    ensures parts[i].index != index
  {
    if i > 0 {
      PlacedBefore(parts[1..], index, i - 1);
    }
  }

  lemma ChoiceKeepsApart(parts: seq<Part>, raw: Json)
    requires IndicesApart(parts) && AddChoice(parts, raw).Some?
    ensures IndicesApart(AddChoice(parts, raw).value)
  {
    var index := ChoiceIndex(raw.fields);
    FieldsKeep(PartFor(parts, index), raw.fields);
    if Place(parts, index) == |parts| {
      forall i | 0 <= i < |parts| ensures parts[i].index != index {
        PlacedBefore(parts, index, i);
      }
    }
  }

  lemma {:induction false} SetAt(ms: seq<Member>, m: Member, i: nat)
    requires i <= |ms| && forall k :: 0 <= k < i ==> ms[k].key != m.key
    requires i < |ms| ==> ms[i].key == m.key
    ensures SetMember(ms, m) == if i < |ms| then ms[i := m] else ms + [m]
  {
    if i > 0 {
      var rest := ms[1..];
      assert forall k :: 0 <= k < i - 1 ==> rest[k] == ms[k + 1];
      SetAt(rest, m, i - 1);
      assert SetMember(ms, m) == [ms[0]] + SetMember(rest, m);
      if i < |ms| {
        assert ms[i := m] == [ms[0]] + rest[i - 1 := m];
      } else {
        assert ms + [m] == [ms[0]] + (rest + [m]);
      }
    } else if ms != [] {
      assert ms[0 := m] == [m] + ms[1..];
    }
  }

  lemma {:induction false} SetCostAt(ms: seq<Member>, m: Member, i: nat)
    requires i <= |ms| && forall k :: 0 <= k < i ==> ms[k].key != m.key
    requires i < |ms| ==> ms[i].key == m.key
    ensures SetCost(ms, m) ==
            if i == |ms| then Len(m.value)
            else if Len(m.value) > Len(ms[i].value) then Len(m.value) - Len(ms[i].value) else 0
  {
    if i > 0 {
      assert forall k :: 0 <= k < i - 1 ==> ms[1..][k] == ms[k + 1];
      SetCostAt(ms[1..], m, i - 1);
    }
  }

  lemma {:induction false} JoinAt(ps: seq<Joined>, key: string, body: string, i: nat)
    requires i <= |ps| && forall k :: 0 <= k < i ==> ps[k].key != key
    requires i < |ps| ==> ps[i].key == key
    ensures JoinString(ps, key, body) ==
            if i < |ps| then ps[i := Joined(key, ps[i].body + body)] else ps + [Joined(key, body)]
  {
    if i > 0 {
      assert forall k :: 0 <= k < i - 1 ==> ps[1..][k] == ps[k + 1];
      JoinAt(ps[1..], key, body, i - 1);
      var rest := JoinString(ps[1..], key, body);
      assert JoinString(ps, key, body) == [ps[0]] + rest;
      if i < |ps| {
        assert [ps[0]] + ps[1..][i - 1 := Joined(key, ps[i].body + body)] == ps[i := Joined(key, ps[i].body + body)];
      } else {
        assert [ps[0]] + (ps[1..] + [Joined(key, body)]) == ps + [Joined(key, body)];
      }
    }
  }

  /**
    What a fault says: that what was asked can be done and what would then be
    held is within the budget, or not one of them. When it is neither, either
    fault may come first.
  */
  predicate Told(fault: Option<Fault>, possible: bool, total: nat, limit: nat) {
    match fault
    case None => possible && total <= limit
    case Some(StreamFailed) => !possible
    case Some(AnswerTooLarge) => possible ==> total > limit
    case Some(_) => false
  }

  class Assembler {
    const limit: nat
    var held: nat
    var frame: seq<Member>
    var parts: seq<Part>
    var usage: Option<Json>

    ghost predicate Valid()
      reads this
    {
      held <= limit && Kept(View()) <= held && IndicesApart(parts)
    }

    ghost function View(): Assembly
      reads this
    {
      Assembly(frame, parts, usage)
    }

    constructor (limit: nat)
      ensures Valid() && held == 0 && View() == EmptyAssembly && this.limit == limit
    {
      this.limit := limit;
      held, frame, parts, usage := 0, [], [], None;
    }

    method Hold(n: nat) returns (fault: Option<Fault>)
      modifies this`held
      ensures held == old(held) + n
      ensures fault == if held > limit then Some(AnswerTooLarge) else None
    {
      held := held + n;
      fault := if held > limit then Some(AnswerTooLarge) else None;
    }

    /** Keeps the last value a field was given, counting what that adds. */
    method Set(ms: seq<Member>, m: Member) returns (fault: Option<Fault>, out: seq<Member>)
      requires held <= limit
      modifies this`held
      ensures fault.None? ==> out == SetMember(ms, m) && held == old(held) + SetCost(ms, m)
      ensures Told(fault, true, old(held) + SetCost(ms, m), limit)
    {
      var i := 0;
      while i < |ms|
        invariant 0 <= i <= |ms| && held == old(held)
        invariant forall k :: 0 <= k < i ==> ms[k].key != m.key
      {
        if ms[i].key == m.key {
          SetAt(ms, m, i);
          SetCostAt(ms, m, i);
          var grew := Len(m.value) - Len(ms[i].value);
          if grew > 0 {
            fault := Hold(grew);
            if fault.Some? {
              return fault, [];
            }
          }
          return None, ms[i := m];
        }
        i := i + 1;
      }
      SetAt(ms, m, i);
      SetCostAt(ms, m, i);
      fault := Hold(Len(m.value));
      out := ms + [m];
    }

    method Join(ps: seq<Joined>, key: string, body: string) returns (out: seq<Joined>)
      ensures out == JoinString(ps, key, body)
    {
      var i := 0;
      while i < |ps|
        invariant 0 <= i <= |ps|
        invariant forall k :: 0 <= k < i ==> ps[k].key != key
      {
        if ps[i].key == key {
          JoinAt(ps, key, body, i);
          return ps[i := Joined(key, ps[i].body + body)];
        }
        i := i + 1;
      }
      JoinAt(ps, key, body, i);
      out := ps + [Joined(key, body)];
    }

    /** A chunk's tool calls, each counted as it is kept. */
    method AddCalls(tools: seq<Json>, items: seq<Json>) returns (fault: Option<Fault>, out: seq<Json>)
      requires held <= limit
      modifies this`held
      ensures fault.None? ==> AllObjects(items) && out == tools + Calls(items)
      ensures fault.None? ==> held == old(held) + SumItems(Calls(items))
      ensures Told(fault, AllObjects(items), old(held) + if AllObjects(items) then SumItems(Calls(items)) else 0, limit)
    {
      out := tools;
      var i := 0;
      while i < |items|
        invariant 0 <= i <= |items| && held <= limit
        invariant AllObjects(items[..i])
        invariant AllObjects(items) ==> out + Calls(items[i..]) == tools + Calls(items)
        invariant AllObjects(items) ==> held + SumItems(Calls(items[i..])) == old(held) + SumItems(Calls(items))
      {
        assert items[i] in items;
        if !items[i].Obj? {
          return Some(StreamFailed), out;
        }
        assert items[..i + 1] == items[..i] + [items[i]];
        var kept := Obj(Without(items[i].fields, "index"));
        if AllObjects(items) {
          CallsSplit(out, items, i);
        }
        fault := Hold(Len(kept));
        if fault.Some? {
          return;
        }
        out := out + [kept];
        i := i + 1;
      }
      assert items[..i] == items;
      assert out + Calls(items[i..]) == out;
      fault := None;
    }

    method AddDelta(msg: Message, fields: seq<Member>) returns (fault: Option<Fault>, out: Message)
      requires held <= limit
      modifies this`held
      ensures fault.None? ==> StreamAssembly.AddDelta(msg, fields) == Some(out)
      ensures fault.None? ==> held == old(held) + DeltaCost(msg, fields)
      ensures Told(fault, StreamAssembly.AddDelta(msg, fields).Some?, old(held) + DeltaCost(msg, fields), limit)
    {
      out := msg;
      fault := None;
      var i := 0;
      while i < |fields|
        invariant 0 <= i <= |fields| && held <= limit && fault.None?
        invariant StreamAssembly.AddDelta(out, fields[i..]) == StreamAssembly.AddDelta(msg, fields)
        invariant held + DeltaCost(out, fields[i..]) == old(held) + DeltaCost(msg, fields)
      {
        assert fields[i..][0] == fields[i] && fields[i..][1..] == fields[i + 1..];
        fault, out := AddDeltaField(out, fields[i]);
        if fault.Some? {
          return;
        }
        i := i + 1;
      }
      assert fields[i..] == [];
    }

    method AddDeltaField(msg: Message, m: Member) returns (fault: Option<Fault>, out: Message)
      requires held <= limit
      modifies this`held
      ensures fault.None? ==> StreamAssembly.AddDeltaField(msg, m) == Some(out)
      ensures fault.None? ==> held == old(held) + DeltaFieldCost(msg, m)
      ensures Told(fault, StreamAssembly.AddDeltaField(msg, m).Some?, old(held) + DeltaFieldCost(msg, m), limit)
    {
      out, fault := msg, None;
      if m.value.Null? {
        return;
      }
      if m.key == "role" {
        if msg.role.None? {
          fault := Hold(Len(m.value));
          out := msg.(role := Some(m.value));
        }
      } else if m.key == "tool_calls" {
        var items := Items(m.value);
        if items.None? {
          return Some(StreamFailed), out;
        }
        var tools;
        fault, tools := AddCalls(msg.tools, items.value);
        out := msg.(tools := tools);
      } else if m.value.Str? {
        fault := Hold(|m.value.body|);
        if fault.None? {
          var strings := Join(msg.strings, m.key, m.value.body);
          out := msg.(strings := strings);
        }
      } else {
        var other;
        fault, other := Set(msg.other, m);
        out := msg.(other := other);
      }
    }

    method AddField(part: Part, m: Member) returns (fault: Option<Fault>, out: Part)
      requires held <= limit
      modifies this`held
      ensures fault.None? ==> StreamAssembly.AddField(part, m) == Some(out)
      ensures fault.None? ==> held == old(held) + FieldCost(part, m)
      ensures Told(fault, StreamAssembly.AddField(part, m).Some?, old(held) + FieldCost(part, m), limit)
    {
      out, fault := part, None;
      if m.key == "index" {
      } else if m.key == "finish_reason" {
        if !m.value.Null? {
          out := part.(finish := m.value);
        }
      } else if m.key == "text" {
        if !m.value.Str? {
          return Some(StreamFailed), out;
        }
        fault := Hold(|m.value.body|);
        out := part.(text := Some((if part.text.Some? then part.text.value else "") + m.value.body));
      } else if m.key == "delta" {
        if !m.value.Obj? {
          return Some(StreamFailed), out;
        }
        var message;
        fault, message := AddDelta(if part.message.Some? then part.message.value else EmptyMessage, m.value.fields);
        out := part.(message := Some(message));
      } else {
        var other;
        fault, other := Set(part.other, m);
        out := part.(other := other);
      }
    }

    method AddFields(part: Part, fields: seq<Member>) returns (fault: Option<Fault>, out: Part)
      requires held <= limit
      modifies this`held
      ensures fault.None? ==> StreamAssembly.AddFields(part, fields) == Some(out)
      ensures fault.None? ==> held == old(held) + FieldsCost(part, fields)
      ensures Told(fault, StreamAssembly.AddFields(part, fields).Some?, old(held) + FieldsCost(part, fields), limit)
    {
      out := part;
      fault := None;
      var i := 0;
      while i < |fields|
        invariant 0 <= i <= |fields| && held <= limit && fault.None?
        invariant StreamAssembly.AddFields(out, fields[i..]) == StreamAssembly.AddFields(part, fields)
        invariant held + FieldsCost(out, fields[i..]) == old(held) + FieldsCost(part, fields)
      {
        assert fields[i..][0] == fields[i] && fields[i..][1..] == fields[i + 1..];
        fault, out := AddField(out, fields[i]);
        if fault.Some? {
          return;
        }
        i := i + 1;
      }
      assert fields[i..] == [];
    }

    /** The last index a choice gives itself, or 0. */
    method IndexOf(fields: seq<Member>) returns (index: Json)
      ensures index == ChoiceIndex(fields)
    {
      index := Atom("0");
      var i := 0;
      while i < |fields|
        invariant 0 <= i <= |fields|
        invariant Last(fields[i..], "index", index) == ChoiceIndex(fields)
      {
        assert fields[i..][0] == fields[i] && fields[i..][1..] == fields[i + 1..];
        if fields[i].key == "index" {
          index := fields[i].value;
        }
        i := i + 1;
      }
    }

    /** The choice of an index, which no two choices share. */
    method Find(index: Json) returns (at: nat)
      requires IndicesApart(parts)
      ensures at == Place(parts, index)
    {
      at := |parts|;
      var i := 0;
      while i < |parts|
        invariant 0 <= i <= |parts|
        invariant at == |parts| ==> forall k :: 0 <= k < i ==> parts[k].index != index
        invariant at < |parts| ==> parts[at].index == index
        invariant at <= |parts|
      {
        if parts[i].index == index {
          at := i;
        }
        i := i + 1;
      }
      if at < |parts| {
        PlaceIs(parts, at);
      } else {
        PlaceNowhere(parts, index);
      }
    }

    method AddChoice(raw: Json) returns (fault: Option<Fault>)
      requires held <= limit && IndicesApart(parts)
      modifies this`held, this`parts
      ensures fault.None? ==> StreamAssembly.AddChoice(old(parts), raw) == Some(parts)
      ensures fault.None? ==> IndicesApart(parts) && held == old(held) + ChoiceCost(old(parts), raw)
      ensures Told(fault, StreamAssembly.AddChoice(old(parts), raw).Some?, old(held) + ChoiceCost(old(parts), raw),
          limit)
    {
      if !raw.Obj? {
        return Some(StreamFailed);
      }
      var index := IndexOf(raw.fields);
      var at := Find(index);
      if at == |parts| {
        parts := parts + [NewPart(index)];
      }
      assert parts[at] == PartFor(old(parts), index);
      var part;
      fault, part := AddFields(parts[at], raw.fields);
      parts := parts[at := part];
      assert at == |old(parts)| ==> parts == old(parts) + [part];
      if fault.None? {
        ChoiceKeepsApart(old(parts), raw);
      }
    }

    method AddChoices(items: seq<Json>) returns (fault: Option<Fault>)
      requires held <= limit && IndicesApart(parts)
      modifies this`held, this`parts
      ensures fault.None? ==> StreamAssembly.AddChoices(old(parts), items) == Some(parts)
      ensures fault.None? ==> IndicesApart(parts) && held == old(held) + ChoicesCost(old(parts), items)
      ensures Told(fault, StreamAssembly.AddChoices(old(parts), items).Some?,
          old(held) + ChoicesCost(old(parts), items), limit)
    {
      hide StreamAssembly.AddChoice, ChoiceCost;
      var i := 0;
      fault := None;
      while i < |items|
        invariant 0 <= i <= |items| && held <= limit && IndicesApart(parts) && fault.None?
        invariant StreamAssembly.AddChoices(parts, items[i..]) == StreamAssembly.AddChoices(old(parts), items)
        invariant held + ChoicesCost(parts, items[i..]) == old(held) + ChoicesCost(old(parts), items)
      {
        assert items[i..][0] == items[i] && items[i..][1..] == items[i + 1..];
        fault := AddChoice(items[i]);
        if fault.Some? {
          return;
        }
        i := i + 1;
      }
      assert items[i..] == [];
    }

    /** Reads an event's fields for an error, its counts and its choices. */
    method ReadEvent(fields: seq<Member>) returns (fault: Option<Fault>, choices: Option<Json>)
      requires held <= limit
      modifies this`held, this`usage
      ensures fault.None? ==> choices == ChoicesField(fields) && usage == LastUsage(fields, old(usage))
      ensures fault.None? ==> held == old(held) + UsageCost(fields)
      ensures Told(fault, !SaysError(fields), old(held) + UsageCost(fields), limit)
    {
      fault, choices := None, None;
      var i := 0;
      while i < |fields|
        invariant 0 <= i <= |fields| && held <= limit && fault.None?
        invariant SaysError(fields) == SaysError(fields[i..])
        invariant LastUsage(fields[i..], usage) == LastUsage(fields, old(usage))
        invariant held + UsageCost(fields[i..]) == old(held) + UsageCost(fields)
        invariant ChoicesFieldAfter(fields[i..], choices) == ChoicesField(fields)
      {
        var m := fields[i];
        assert fields[i..][0] == m && fields[i..][1..] == fields[i + 1..];
        if m.key == "error" {
          if !m.value.Null? {
            return Some(StreamFailed), choices;
          }
        } else if m.key == "usage" {
          if !m.value.Null? {
            fault := Hold(Len(m.value));
            if fault.Some? {
              return;
            }
            usage := Some(m.value);
          }
        } else if m.key == "choices" {
          choices := Some(m.value);
        }
        i := i + 1;
      }
      assert fields[i..] == [];
    }

    method AddFrame(fields: seq<Member>) returns (fault: Option<Fault>)
      requires held <= limit && frame == []
      modifies this`held, this`frame
      ensures fault.None? ==> frame == Frame(fields) && held == old(held) + SumValues(Frame(fields))
      ensures Told(fault, true, old(held) + SumValues(Frame(fields)), limit)
    {
      hide Frame, SumValues, Unchunked, Len;
      fault := None;
      var i := 0;
      assert fields[0..] == fields;
      while i < |fields|
        invariant 0 <= i <= |fields| && held <= limit && fault.None?
        invariant frame + Frame(fields[i..]) == Frame(fields)
        invariant held + SumValues(Frame(fields[i..])) == old(held) + SumValues(Frame(fields))
      {
        var m := fields[i];
        FrameSplits(frame, fields, i);
        if m.key != "choices" && m.key != "usage" {
          frame := frame + [Unchunked(m)];
          fault := Hold(Len(Unchunked(m).value));
          if fault.Some? {
            return;
          }
        }
        i := i + 1;
      }
      FrameEnds(frame, fields);
    }

    /** Folds one event into the answer, keeping what is kept within what is held. */
    method Add(payload: Json) returns (fault: Option<Fault>)
      requires Valid()
      modifies this
      ensures fault.None? ==> Valid() && AddEvent(old(View()), payload) == Some(View())
      ensures fault.None? ==> held == old(held) + EventCost(old(View()), payload)
      ensures Told(fault, AddEvent(old(View()), payload).Some?, old(held) + EventCost(old(View()), payload), limit)
    {
      if !payload.Obj? {
        return Some(StreamFailed);
      }
      ChoicesReadOnce(payload);
      ghost var before := View();
      hide AddEvent, EventCost, Kept, UsageCost, ChoicesCost, SumValues, StreamAssembly.AddChoices, Frame, LastUsage,
           IndicesApart, EventChoices, SaysError, ChoicesField, FrameCost;
      var choices;
      fault, choices := ReadEvent(payload.fields);
      EventSplits(before, payload);
      if fault.Some? {
        return;
      }
      if choices.None? {
        return Some(StreamFailed);
      }
      var items := Items(choices.value);
      if items.None? {
        return Some(StreamFailed);
      }
      if items.value == [] {
        EventKeeps(before, payload);
        return;
      }
      fault := AddFrameAndChoices(payload.fields, items.value);
      if fault.None? {
        EventKeeps(before, payload);
      }
    }

    /** The first event with a choice gives the frame; every one gives its choices. */
    method AddFrameAndChoices(fields: seq<Member>, items: seq<Json>) returns (fault: Option<Fault>)
      requires held <= limit && IndicesApart(parts)
      modifies this`held, this`frame, this`parts
      ensures fault.None? ==> IndicesApart(parts) && StreamAssembly.AddChoices(old(parts), items) == Some(parts)
      ensures fault.None? ==> frame == if old(frame) == [] then Frame(fields) else old(frame)
      ensures fault.None? ==> held == old(held) + FrameCost(old(frame), fields) + ChoicesCost(old(parts), items)
      ensures Told(fault, StreamAssembly.AddChoices(old(parts), items).Some?,
                   old(held) + FrameCost(old(frame), fields) + ChoicesCost(old(parts), items), limit)
    {
      hide ChoicesCost, SumValues, StreamAssembly.AddChoices, Frame, IndicesApart;
      if frame == [] {
        fault := AddFrame(fields);
        if fault.Some? {
          return;
        }
      }
      fault := AddChoices(items);
    }

    method Render() returns (r: Outcome)
      ensures r == StreamAssembly.Render(View())
    {
      if parts == [] {
        return Refused(StreamFailed);
      }
      var choices := [];
      var i := 0;
      while i < |parts|
        invariant 0 <= i <= |parts|
        invariant choices + RenderParts(parts[i..]) == RenderParts(parts)
      {
        ghost var rest := RenderParts(parts[i + 1..]);
        assert parts[i..][0] == parts[i] && parts[i..][1..] == parts[i + 1..];
        assert choices + ([RenderPart(parts[i])] + rest) == choices + [RenderPart(parts[i])] + rest;
        choices := choices + [RenderPart(parts[i])];
        i := i + 1;
      }
      assert parts[i..] == [];
      assert choices + [] == choices;
      r := Answered(Obj(frame + [Member("choices", Arr(choices))]
                        + if usage.Some? then [Member("usage", usage.value)] else []));
    }
  }

  function FrameCost(frame: seq<Member>, fields: seq<Member>): nat {
    if frame == [] then SumValues(Frame(fields)) else 0
  }

  predicate SaysError(fields: seq<Member>) {
    fields != [] && ((fields[0].key == "error" && !fields[0].value.Null?) || SaysError(fields[1..]))
  }

  function ChoicesFieldAfter(fields: seq<Member>, before: Option<Json>): Option<Json>
    decreases |fields|
  {
    if fields == [] then before
    else ChoicesFieldAfter(fields[1..], if fields[0].key == "choices" then Some(fields[0].value) else before)
  }

  function ChoicesField(fields: seq<Member>): Option<Json> {
    ChoicesFieldAfter(fields, None)
  }

  lemma {:induction false} ErrorSaid(fields: seq<Member>)
    ensures SaysError(fields) <==> exists m :: m in fields && m.key == "error" && !m.value.Null?
  {
    if fields != [] {
      ErrorSaid(fields[1..]);
      assert forall m :: m in fields ==> m == fields[0] || m in fields[1..];
      if SaysError(fields) {
        if fields[0].key == "error" && !fields[0].value.Null? {
          assert fields[0] in fields;
        }
      }
    }
  }

  lemma {:induction false} ChoicesFieldIs(fields: seq<Member>, before: Option<Json>)
    ensures ChoicesFieldAfter(fields, before).Some? <==> before.Some? || HasKey(fields, "choices")
    ensures ChoicesFieldAfter(fields, before).Some? ==>
              ChoicesFieldAfter(fields, before).value ==
                  Last(fields, "choices", if before.Some? then before.value else Null)
    decreases |fields|
  {
    if fields != [] {
      ChoicesFieldIs(fields[1..], if fields[0].key == "choices" then Some(fields[0].value) else before);
      assert fields[0] in fields;
      assert forall m :: m in fields ==> m == fields[0] || m in fields[1..];
    }
  }

  /** What is left of a frame before and after one field. */
  lemma FrameSplits(frame: seq<Member>, fields: seq<Member>, i: nat)
    requires i < |fields|
    ensures var m, rest := Unchunked(fields[i]), Frame(fields[i + 1..]);
            if fields[i].key != "choices" && fields[i].key != "usage" then
              && frame + Frame(fields[i..]) == frame + [m] + rest
              && SumValues(Frame(fields[i..])) == Len(m.value) + SumValues(rest)
            else Frame(fields[i..]) == rest
  {
    hide Unchunked;
    var m, rest := Unchunked(fields[i]), Frame(fields[i + 1..]);
    assert fields[i..][0] == fields[i] && fields[i..][1..] == fields[i + 1..];
    if fields[i].key != "choices" && fields[i].key != "usage" {
      assert Frame(fields[i..]) == [m] + rest && ([m] + rest)[1..] == rest;
      assert frame + ([m] + rest) == frame + [m] + rest;
    } else {
      assert Frame(fields[i..]) == [] + rest;
    }
  }

  lemma FrameEnds(frame: seq<Member>, fields: seq<Member>)
    ensures frame + Frame(fields[|fields|..]) == frame && SumValues(Frame(fields[|fields|..])) == 0
  {
    assert fields[|fields|..] == [];
    assert frame + [] == frame;
  }

  /** What is left of a chunk's calls before and after one. */
  lemma CallsSplit(out: seq<Json>, items: seq<Json>, i: nat)
    requires i < |items| && AllObjects(items) && items[i].Obj?
    ensures AllObjects(items[i..]) && AllObjects(items[i + 1..])
    ensures var kept, rest := Obj(Without(items[i].fields, "index")), Calls(items[i + 1..]);
            out + Calls(items[i..]) == out + [kept] + rest && SumItems(Calls(items[i..])) == Len(kept) + SumItems(rest)
  {
    hide Without, Len;
    var kept, rest := Obj(Without(items[i].fields, "index")), Calls(items[i + 1..]);
    assert items[i..][0] == items[i] && items[i..][1..] == items[i + 1..];
    assert Calls(items[i..]) == [kept] + rest && ([kept] + rest)[1..] == rest;
    assert out + ([kept] + rest) == out + [kept] + rest;
  }

  /** What an event carries, as the one pass over its fields reads it. */
  lemma ChoicesReadOnce(payload: Json)
    requires payload.Obj?
    ensures EventChoices(payload) ==
            if SaysError(payload.fields) || ChoicesField(payload.fields).None? then None
            else Items(ChoicesField(payload.fields).value)
  {
    ErrorSaid(payload.fields);
    ChoicesFieldIs(payload.fields, None);
  }

  /** What one line of a stream makes of the rest. */
  lemma OneLine(a: Assembly, lines: seq<Line>, i: nat)
    requires i < |lines|
    ensures lines[i].Quiet? ==>
              Assemble(a, lines[i..]) == Assemble(a, lines[i + 1..])
              && StreamCost(a, lines[i..]) == StreamCost(a, lines[i + 1..])
    ensures lines[i].Data? ==>
              var b, cost := AddEvent(a, lines[i].payload), EventCost(a, lines[i].payload);
              Assemble(a, lines[i..]) == (if b.None? then Refused(StreamFailed) else Assemble(b.value, lines[i + 1..]))
              && StreamCost(a, lines[i..]) == cost + if b.None? then 0 else StreamCost(b.value, lines[i + 1..])
    ensures lines[i].Malformed? ==> Assemble(a, lines[i..]) == Refused(StreamFailed)
    ensures lines[i].TooLong? ==> Assemble(a, lines[i..]) == Refused(LineTooLong)
    ensures lines[i].Done? ==> Assemble(a, lines[i..]) == StreamAssembly.Render(a)
    ensures StreamAssembly.Render(a).Refused? ==> StreamAssembly.Render(a) == Refused(StreamFailed)
    ensures lines[i].Malformed? || lines[i].TooLong? || lines[i].Done? ==> StreamCost(a, lines[i..]) == 0
  {
    hide AddEvent, EventCost;
    assert lines[i..][0] == lines[i] && lines[i..][1..] == lines[i + 1..];
  }

  lemma NoLine(a: Assembly)
    ensures Assemble(a, []) == Refused(StreamCut) && StreamCost(a, []) == 0
  {
  }

  /** An event's effect and its cost, by what it carries. */
  lemma EventSplits(a: Assembly, payload: Json)
    requires payload.Obj?
    ensures var items := EventChoices(payload);
            && (items.None? ==> AddEvent(a, payload).None?)
            && (items == Some([]) ==>
                && AddEvent(a, payload) == Some(a.(usage := LastUsage(payload.fields, a.usage)))
                && EventCost(a, payload) == UsageCost(payload.fields))
            && (items.Some? && items.value != [] ==>
                var parts := StreamAssembly.AddChoices(a.parts, items.value);
                && EventCost(a, payload) == UsageCost(payload.fields)
                                            + FrameCost(a.frame, payload.fields) + ChoicesCost(a.parts, items.value)
                && AddEvent(a, payload) == if parts.None? then None else
                     Some(Assembly(if a.frame == [] then Frame(payload.fields) else a.frame, parts.value,
                         LastUsage(payload.fields, a.usage))))
  {
    hide UsageCost, ChoicesCost, SumValues, StreamAssembly.AddChoices, Frame, LastUsage, EventChoices;
  }

  /**
    Reads a stream to its [DONE]: the answer is the one the unbounded fold
    gives, and it is given exactly when the stream costs no more than limit.
  */
  method AssembleAnswer(lines: seq<Line>, limit: nat) returns (r: Outcome)
    ensures r.Answered? <==> Assemble(EmptyAssembly, lines).Answered? && StreamCost(EmptyAssembly, lines) <= limit
    ensures r.Answered? ==> r == Assemble(EmptyAssembly, lines)
    ensures r == Refused(AnswerTooLarge) ==>
        Assemble(EmptyAssembly, lines) == Refused(StreamFailed) || StreamCost(EmptyAssembly, lines) > limit
    ensures StreamCost(EmptyAssembly, lines) <= limit && r != Refused(AnswerTooLarge) ==>
        r == Assemble(EmptyAssembly, lines)
  {
    hide Assemble, StreamCost, AddEvent, EventCost, Kept, StreamAssembly.Render;
    var a := new Assembler(limit);
    var i := 0;
    assert lines[0..] == lines;
    while i < |lines|
      invariant 0 <= i <= |lines| && a.Valid() && a.limit == limit
      invariant Assemble(a.View(), lines[i..]) == Assemble(EmptyAssembly, lines)
      invariant a.held + StreamCost(a.View(), lines[i..]) == StreamCost(EmptyAssembly, lines)
      invariant fresh(a)
      decreases |lines| - i
    {
      OneLine(a.View(), lines, i);
      match lines[i] {
        case Quiet =>
        case TooLong => return Refused(LineTooLong);
        case Malformed => return Refused(StreamFailed);
        case Done =>
          r := a.Render();
          return;
        case Data(payload) =>
          var fault := a.Add(payload);
          if fault.Some? {
            return Refused(fault.value);
          }
      }
      i := i + 1;
    }
    assert lines[i..] == [];
    NoLine(a.View());
    r := Refused(StreamCut);
  }
}
