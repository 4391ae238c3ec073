/**
  Assembling is the inverse of chunking. A stream is read here a second way,
  field by field over the whole stream and with no state: every line assembly
  keeps is compared with that reading.
*/
module StreamRoundTrip {
  import opened Common
  import opened JsonText
  import opened StreamAssembly

  // ----------------------------------------------- reading a whole stream

  /** The text fields of a message, in order, with their keys. */
  function Strings(ds: seq<Member>): seq<Joined> {
    if ds == [] then []
    else if ds[0].value.Str? && ds[0].key != "role" && ds[0].key != "tool_calls" then
      [Joined(ds[0].key, ds[0].value.body)] + Strings(ds[1..])
    else Strings(ds[1..])
  }

  function BodiesOf(ps: seq<Joined>, key: string): seq<string> {
    if ps == [] then []
    else if ps[0].key == key then [ps[0].body] + BodiesOf(ps[1..], key)
    else BodiesOf(ps[1..], key)
  }

  function Except(ps: seq<Joined>, key: string): (r: seq<Joined>)
    ensures |r| <= |ps|
  {
    if ps == [] then []
    else if ps[0].key == key then Except(ps[1..], key)
    else [ps[0]] + Except(ps[1..], key)
  }

  /** Each key once, in order of first appearance, with all its text joined. */
  function Gathered(ps: seq<Joined>): seq<Joined>
    decreases |ps|
  {
    if ps == [] then [] else
    [Joined(ps[0].key, Concat(BodiesOf(ps, ps[0].key)))] + Gathered(Except(ps[1..], ps[0].key))
  }

  function Dropped(ms: seq<Member>, key: string): (r: seq<Member>)
    ensures |r| <= |ms|
  {
    if ms == [] then []
    else if ms[0].key == key then Dropped(ms[1..], key)
    else [ms[0]] + Dropped(ms[1..], key)
  }

  /** Each key once, in order of first appearance, with its last value. */
  function Settled(ms: seq<Member>): seq<Member>
    decreases |ms|
  {
    if ms == [] then [] else
    [Member(ms[0].key, Last(ms, ms[0].key, Null))] + Settled(Dropped(ms[1..], ms[0].key))
  }

  function OtherDeltas(ds: seq<Member>): seq<Member> {
    if ds == [] then []
    else if ds[0].value.Null? || ds[0].value.Str? || ds[0].key == "role" || ds[0].key == "tool_calls" then
      OtherDeltas(ds[1..])
    else [ds[0]] + OtherDeltas(ds[1..])
  }

  function FirstRole(ds: seq<Member>): Option<Json> {
    if ds == [] then None
    else if ds[0].key == "role" && !ds[0].value.Null? then Some(ds[0].value)
    else FirstRole(ds[1..])
  }

  predicate DeltaOk(m: Member) {
    m.key == "tool_calls" ==> Items(m.value).Some? && AllObjects(Items(m.value).value)
  }

  predicate DeltasOk(ds: seq<Member>) {
    forall m :: m in ds ==> DeltaOk(m)
  }

  function ToolCalls(ds: seq<Member>): seq<Json>
    requires DeltasOk(ds)
  {
    if ds == [] then [] else
    assert DeltaOk(ds[0]) by { assert ds[0] in ds; }
    if ds[0].key == "tool_calls" then Calls(Items(ds[0].value).value) + ToolCalls(ds[1..])
    else ToolCalls(ds[1..])
  }

  /** The fields of a choice's deltas, end to end. */
  function Deltas(fs: seq<Member>): seq<Member> {
    if fs == [] then []
    else if fs[0].key == "delta" && fs[0].value.Obj? then fs[0].value.fields + Deltas(fs[1..])
    else Deltas(fs[1..])
  }

  function Texts(fs: seq<Member>): seq<string> {
    if fs == [] then []
    else if fs[0].key == "text" && fs[0].value.Str? then [fs[0].value.body] + Texts(fs[1..])
    else Texts(fs[1..])
  }

  function OtherFields(fs: seq<Member>): seq<Member> {
    if fs == [] then []
    else if fs[0].key == "index" || fs[0].key == "finish_reason" || fs[0].key == "text" || fs[0].key == "delta" then
      OtherFields(fs[1..])
    else [fs[0]] + OtherFields(fs[1..])
  }

  /** The counts an event gives, in order. */
  function CountsIn(fields: seq<Member>): seq<Json> {
    if fields == [] then []
    else (if fields[0].key == "usage" && !fields[0].value.Null? then [fields[0].value] else []) + CountsIn(fields[1..])
  }

  function LastFinish(fs: seq<Member>, before: Json): Json
    decreases |fs|
  {
    if fs == [] then before else
    LastFinish(fs[1..], if fs[0].key == "finish_reason" && !fs[0].value.Null? then fs[0].value else before)
  }

  predicate FieldsOk(fs: seq<Member>) {
    && (forall m :: m in fs && m.key == "text" ==> m.value.Str?)
    && (forall m :: m in fs && m.key == "delta" ==> m.value.Obj?)
    && DeltasOk(Deltas(fs))
  }

  predicate ChoicesOk(objs: seq<Json>) {
    forall j :: j in objs ==> j.Obj? && FieldsOk(j.fields)
  }

  /** All the fields a choice was sent, end to end. */
  function FieldsOf(objs: seq<Json>, index: Json): seq<Member>
    requires AllObjects(objs)
  {
    if objs == [] then []
    else if ChoiceIndex(objs[0].fields) == index then objs[0].fields + FieldsOf(objs[1..], index)
    else FieldsOf(objs[1..], index)
  }

  function Elsewhere(objs: seq<Json>, index: Json): (r: seq<Json>)
    requires AllObjects(objs)
    ensures |r| <= |objs| && forall j :: j in r ==> j in objs
  {
    if objs == [] then []
    else if ChoiceIndex(objs[0].fields) == index then Elsewhere(objs[1..], index)
    else [objs[0]] + Elsewhere(objs[1..], index)
  }

  // --------------------------------------------------- the unstreamed answer

  datatype Said =
    | Nothing
    | Text(body: string)
    | Chat(role: Option<Json>, strings: seq<Joined>, tools: seq<Json>, other: seq<Member>)

  datatype Choice = Choice(index: Json, finish: Json, other: seq<Member>, said: Said)

  datatype Answer = Answer(frame: seq<Member>, choices: seq<Choice>, usage: Option<Json>)

  function SaidIn(fs: seq<Member>): Said
    requires FieldsOk(fs)
  {
    var ds := Deltas(fs);
    if HasKey(fs, "delta") then Chat(FirstRole(ds), Gathered(Strings(ds)), ToolCalls(ds), Settled(OtherDeltas(ds)))
    else if HasKey(fs, "text") then Text(Concat(Texts(fs)))
    else Nothing
  }

  function ChoiceIn(index: Json, fs: seq<Member>): Choice
    requires FieldsOk(fs)
  {
    Choice(index, LastFinish(fs, Null), Settled(OtherFields(fs)), SaidIn(fs))
  }

  /** Each choice once, in order of first appearance. */
  function ChoicesIn(objs: seq<Json>): seq<Choice>
    requires ChoicesOk(objs)
    decreases |objs|
  {
    if objs == [] then [] else
    var index := ChoiceIndex(objs[0].fields);
    FieldsOfOk(objs, index);
    [ChoiceIn(index, FieldsOf(objs, index))] + ChoicesIn(Elsewhere(objs[1..], index))
  }

  lemma {:induction false} FieldsOfOk(objs: seq<Json>, index: Json)
    requires ChoicesOk(objs)
    ensures FieldsOk(FieldsOf(objs, index))
  {
    if objs != [] {
      assert objs[0] in objs;
      FieldsOfOk(objs[1..], index);
      DeltasJoin(objs[0].fields, FieldsOf(objs[1..], index));
    }
  }

  lemma {:induction false} DeltasJoin(a: seq<Member>, b: seq<Member>)
    ensures Deltas(a + b) == Deltas(a) + Deltas(b)
  {
    if a == [] {
      assert a + b == b;
    } else {
      assert (a + b)[1..] == a[1..] + b;
      DeltasJoin(a[1..], b);
    }
  }

  // ------------------------------------------- tool calls lose their index

  predicate Increasing(at: seq<nat>) {
    forall i, j :: 0 <= i < j < |at| ==> at[i] < at[j]
  }

  /** The fields at these places, and they are all the fields of other keys. */
  predicate Picks(ms: seq<Member>, at: seq<nat>, kept: seq<Member>, key: string) {
    && |at| == |kept| && Increasing(at)
    && (forall j :: 0 <= j < |at| ==> at[j] < |ms| && kept[j] == ms[at[j]])
    && (forall i: nat :: i < |ms| ==> (i in at <==> ms[i].key != key))
  }

  /** Every field of another key, in its order, and none of this one. */
  ghost predicate KeepsAllBut(ms: seq<Member>, kept: seq<Member>, key: string) {
    !HasKey(kept, key) && exists at: seq<nat> :: Picks(ms, at, kept, key)
  }

  lemma {:induction false} WithoutPicks(ms: seq<Member>, key: string) returns (at: seq<nat>)
    ensures Picks(ms, at, Without(ms, key), key)
    decreases |ms|
  {
    at := [];
    if ms != [] {
      var n := |ms| - 1;
      var before := WithoutPicks(ms[..n], key);
      WithoutEnds(ms[..n], ms[n], key);
      assert ms[..n] + [ms[n]] == ms;
      at := if ms[n].key == key then before else before + [n];
      PicksOneMore(ms, before, Without(ms[..n], key), key);
    }
  }

  lemma {:induction false} WithoutEnds(ms: seq<Member>, m: Member, key: string)
    ensures Without(ms + [m], key) == Without(ms, key) + if m.key == key then [] else [m]
    decreases |ms|
  {
    if ms == [] {
      assert ms + [m] == [m] && [m][1..] == [];
    } else {
      assert (ms + [m])[1..] == ms[1..] + [m];
      WithoutEnds(ms[1..], m, key);
    }
  }

  lemma PicksOneMore(ms: seq<Member>, at: seq<nat>, kept: seq<Member>, key: string)
    requires ms != [] && Picks(ms[..|ms| - 1], at, kept, key)
    ensures var n := |ms| - 1;
            if ms[n].key == key then Picks(ms, at, kept, key) else Picks(ms, at + [n], kept + [ms[n]], key)
  {
    var n := |ms| - 1;
    forall i: nat | i < |ms| ensures i in (if ms[n].key == key then at else at + [n]) <==> ms[i].key != key {
      if i < n {
        assert ms[..n][i] == ms[i];
      }
    }
  }

  lemma {:induction false} WithoutHasNone(ms: seq<Member>, key: string)
    ensures !HasKey(Without(ms, key), key)
  {
    if ms != [] {
      WithoutHasNone(ms[1..], key);
    }
  }

  /** Each call of a chunk is kept in its place, with all its fields in order but the streaming index. */
  lemma {:induction false} CallsLoseTheirIndex(items: seq<Json>)
    requires AllObjects(items)
    ensures |Calls(items)| == |items|
    ensures forall i :: 0 <= i < |items| ==>
              Calls(items)[i].Obj? && KeepsAllBut(items[i].fields, Calls(items)[i].fields, "index")
  {
    if items != [] {
      assert items[0] in items;
      var at := WithoutPicks(items[0].fields, "index");
      WithoutHasNone(items[0].fields, "index");
      CallsLoseTheirIndex(items[1..]);
      assert KeepsAllBut(items[0].fields, Calls(items)[0].fields, "index");
    }
  }

  predicate Bare(call: Json) {
    call.Obj? && !HasKey(call.fields, "index")
  }

  lemma {:induction false} ToolCallsAreBare(ds: seq<Member>)
    requires DeltasOk(ds)
    ensures forall call :: call in ToolCalls(ds) ==> Bare(call)
  {
    if ds != [] {
      assert ds[0] in ds;
      ToolCallsAreBare(ds[1..]);
      if ds[0].key == "tool_calls" {
        CallsLoseTheirIndex(Items(ds[0].value).value);
      }
    }
  }

  /** No call of any message of a stream keeps its streaming index. */
  lemma {:induction false} NoCallKeepsItsIndex(objs: seq<Json>)
    requires ChoicesOk(objs)
    ensures forall c :: c in ChoicesIn(objs) && c.said.Chat? ==> forall call :: call in c.said.tools ==> Bare(call)
    decreases |objs|
  {
    if objs != [] {
      var index := ChoiceIndex(objs[0].fields);
      FieldsOfOk(objs, index);
      ToolCallsAreBare(Deltas(FieldsOf(objs, index)));
      NoCallKeepsItsIndex(Elsewhere(objs[1..], index));
    }
  }

  // ------------------------------------------------------ folds are readings

  function JoinAll(acc: seq<Joined>, ps: seq<Joined>): seq<Joined>
    decreases |ps|
  {
    if ps == [] then acc else JoinAll(JoinString(acc, ps[0].key, ps[0].body), ps[1..])
  }

  lemma {:induction false} JoinAllHead(h: Joined, acc: seq<Joined>, ps: seq<Joined>)
    ensures JoinAll([h] + acc, ps) ==
            [Joined(h.key, h.body + Concat(BodiesOf(ps, h.key)))] + JoinAll(acc, Except(ps, h.key))
    decreases |ps|
  {
    if ps == [] {
      assert h.body + Concat([]) == h.body;
    } else {
      var p := ps[0];
      if p.key == h.key {
        var h1 := Joined(h.key, h.body + p.body);
        assert JoinString([h] + acc, p.key, p.body) == [h1] + acc;
        JoinAllHead(h1, acc, ps[1..]);
        var rest := BodiesOf(ps[1..], h.key);
        assert BodiesOf(ps, h.key) == [p.body] + rest;
        assert ([p.body] + rest)[1..] == rest;
        assert h1.body + Concat(rest) == h.body + (p.body + Concat(rest));
      } else {
        assert ([h] + acc)[1..] == acc;
        JoinAllHead(h, JoinString(acc, p.key, p.body), ps[1..]);
        assert ([p] + Except(ps[1..], h.key))[1..] == Except(ps[1..], h.key);
      }
    }
  }

  lemma {:induction false} JoinAllGathers(ps: seq<Joined>)
    ensures JoinAll([], ps) == Gathered(ps)
    decreases |ps|
  {
    if ps != [] {
      var h := Joined(ps[0].key, ps[0].body);
      assert JoinString([], ps[0].key, ps[0].body) == [h] + [];
      JoinAllHead(h, [], ps[1..]);
      var rest := BodiesOf(ps[1..], h.key);
      assert ([h.body] + rest)[1..] == rest;
      JoinAllGathers(Except(ps[1..], h.key));
    }
  }

  function SettleAll(acc: seq<Member>, ms: seq<Member>): seq<Member>
    decreases |ms|
  {
    if ms == [] then acc else SettleAll(SetMember(acc, ms[0]), ms[1..])
  }

  lemma {:induction false} SettleAllHead(h: Member, acc: seq<Member>, ms: seq<Member>)
    ensures SettleAll([h] + acc, ms) == [Member(h.key, Last(ms, h.key, h.value))] + SettleAll(acc, Dropped(ms, h.key))
    decreases |ms|
  {
    if ms != [] {
      var m := ms[0];
      if m.key == h.key {
        assert ([h] + acc)[1..] == acc;
        SettleAllHead(m, acc, ms[1..]);
      } else {
        assert ([h] + acc)[1..] == acc;
        SettleAllHead(h, SetMember(acc, m), ms[1..]);
        assert ([m] + Dropped(ms[1..], h.key))[1..] == Dropped(ms[1..], h.key);
      }
    }
  }

  lemma {:induction false} SettleAllSettles(ms: seq<Member>)
    ensures SettleAll([], ms) == Settled(ms)
    decreases |ms|
  {
    if ms != [] {
      assert SetMember([], ms[0]) == [ms[0]] + [];
      SettleAllHead(ms[0], [], ms[1..]);
      SettleAllSettles(Dropped(ms[1..], ms[0].key));
    }
  }

  function Or(a: Option<Json>, b: Option<Json>): Option<Json> {
    if a.Some? then a else b
  }

  /** A message after more deltas, read rather than folded. */
  function Grown(p: Message, ds: seq<Member>): Message
    requires DeltasOk(ds)
  {
    Message(Or(p.role, FirstRole(ds)), JoinAll(p.strings, Strings(ds)), p.tools + ToolCalls(ds),
        SettleAll(p.other, OtherDeltas(ds)))
  }

  lemma {:induction false} AddDeltaGrows(p: Message, ds: seq<Member>)
    requires DeltasOk(ds)
    ensures AddDelta(p, ds) == Some(Grown(p, ds))
    decreases |ds|
  {
    if ds == [] {
      assert p.tools + [] == p.tools;
    } else {
      assert ds[0] in ds;
      var q := AddDeltaField(p, ds[0]).value;
      AddDeltaGrows(q, ds[1..]);
      GrownOne(p, ds);
    }
  }

  lemma GrownOne(p: Message, ds: seq<Member>)
    requires ds != [] && DeltasOk(ds)
    ensures AddDeltaField(p, ds[0]).Some? && Grown(AddDeltaField(p, ds[0]).value, ds[1..]) == Grown(p, ds)
  {
    assert ds[0] in ds;
    var m, rest := ds[0], ds[1..];
    var q := AddDeltaField(p, m);
    assert q.Some?;
    if m.key == "tool_calls" {
      var calls := Calls(Items(m.value).value);
      assert ToolCalls(ds) == calls + ToolCalls(rest);
      assert p.tools + (calls + ToolCalls(rest)) == (p.tools + calls) + ToolCalls(rest);
      assert q.value.tools == p.tools + calls;
    } else if !m.value.Null? && m.key != "role" {
      if m.value.Str? {
        var j := Joined(m.key, m.value.body);
        assert Strings(ds) == [j] + Strings(rest) && ([j] + Strings(rest))[1..] == Strings(rest);
      } else {
        assert OtherDeltas(ds) == [m] + OtherDeltas(rest) && ([m] + OtherDeltas(rest))[1..] == OtherDeltas(rest);
      }
    }
  }

  // ------------------------------------------------------------ one choice

  function Messaged(p: Part, fs: seq<Member>): Option<Message>
    requires FieldsOk(fs)
  {
    if !HasKey(fs, "delta") then p.message
    else Some(Grown(if p.message.Some? then p.message.value else EmptyMessage, Deltas(fs)))
  }

  function Texted(text: Option<string>, fs: seq<Member>): Option<string> {
    if !HasKey(fs, "text") then text
    else Some((if text.Some? then text.value else "") + Concat(Texts(fs)))
  }

  /** A choice after more fields, read rather than folded. */
  function GrownPart(p: Part, fs: seq<Member>): Part
    requires FieldsOk(fs)
  {
    Part(p.index, LastFinish(fs, p.finish), Texted(p.text, fs), Messaged(p, fs), SettleAll(p.other, OtherFields(fs)))
  }

  lemma FieldsOkRest(fs: seq<Member>)
    requires fs != [] && FieldsOk(fs)
    ensures FieldsOk(fs[1..])
    ensures fs[0].key == "delta" ==> fs[0].value.Obj? && DeltasOk(fs[0].value.fields)
    ensures fs[0].key == "text" ==> fs[0].value.Str?
  {
    assert fs[0] in fs;
    assert forall m :: m in fs[1..] ==> m in fs;
  }

  lemma HasKeySplits(fs: seq<Member>, key: string)
    requires fs != []
    ensures HasKey(fs, key) <==> fs[0].key == key || HasKey(fs[1..], key)
  {
    if HasKey(fs, key) && fs[0].key != key {
      var m :| m in fs && m.key == key;
      assert m in fs[1..];
    }
    assert fs[0] in fs;
  }

  lemma {:induction false} AddDeltaTwice(p: Message, a: seq<Member>, b: seq<Member>)
    requires DeltasOk(a) && DeltasOk(b)
    ensures DeltasOk(a + b)
    ensures AddDelta(Grown(p, a), b) == AddDelta(p, a + b)
    decreases |a|
  {
    if a == [] {
      assert a + b == b;
      assert p.tools + ToolCalls([]) == p.tools;
    } else {
      assert a[0] in a;
      assert (a + b)[1..] == a[1..] + b;
      GrownOne(p, a);
      AddDeltaTwice(AddDeltaField(p, a[0]).value, a[1..], b);
    }
  }

  lemma {:induction false} AddFieldsGrows(p: Part, fs: seq<Member>)
    requires FieldsOk(fs)
    ensures AddFields(p, fs) == Some(GrownPart(p, fs))
    decreases |fs|
  {
    if fs == [] {
      assert !HasKey(fs, "delta") && !HasKey(fs, "text");
    } else {
      FieldsOkRest(fs);
      FieldGrows(p, fs);
      AddFieldsGrows(AddField(p, fs[0]).value, fs[1..]);
    }
  }

  lemma FieldGrows(p: Part, fs: seq<Member>)
    requires fs != [] && FieldsOk(fs) && FieldsOk(fs[1..])
    ensures AddField(p, fs[0]).Some?
    ensures GrownPart(AddField(p, fs[0]).value, fs[1..]) == GrownPart(p, fs)
  {
    FieldsOkRest(fs);
    HasKeySplits(fs, "delta");
    HasKeySplits(fs, "text");
    var m, rest := fs[0], fs[1..];
    if m.key == "delta" {
      DeltaGrows(p, fs);
    } else if m.key == "text" {
      TextGrows(p.text, fs);
    } else if m.key != "index" && m.key != "finish_reason" {
      assert OtherFields(fs) == [m] + OtherFields(rest) && ([m] + OtherFields(rest))[1..] == OtherFields(rest);
    }
  }

  lemma {:induction false} NoTexts(fs: seq<Member>)
    requires !HasKey(fs, "text")
    ensures Texts(fs) == []
  {
    if fs != [] {
      HasKeySplits(fs, "text");
      NoTexts(fs[1..]);
    }
  }

  lemma TextGrows(text: Option<string>, fs: seq<Member>)
    requires fs != [] && fs[0].key == "text" && fs[0].value.Str?
    ensures Texted(Some((if text.Some? then text.value else "") + fs[0].value.body), fs[1..]) == Texted(text, fs)
  {
    HasKeySplits(fs, "text");
    var before, body, rest := (if text.Some? then text.value else ""), fs[0].value.body, Texts(fs[1..]);
    assert ([body] + rest)[1..] == rest;
    assert before + (body + Concat(rest)) == (before + body) + Concat(rest);
    if !HasKey(fs[1..], "text") {
      NoTexts(fs[1..]);
      assert before + body + Concat([]) == before + body;
    }
  }

  lemma {:induction false} NoDeltas(fs: seq<Member>)
    requires !HasKey(fs, "delta")
    ensures Deltas(fs) == []
  {
    if fs != [] {
      HasKeySplits(fs, "delta");
      NoDeltas(fs[1..]);
    }
  }

  lemma DeltaGrows(p: Part, fs: seq<Member>)
    requires fs != [] && FieldsOk(fs) && FieldsOk(fs[1..]) && fs[0].key == "delta" && fs[0].value.Obj?
    ensures AddField(p, fs[0]).Some?
    ensures Messaged(AddField(p, fs[0]).value, fs[1..]) == Messaged(p, fs)
  {
    HasKeySplits(fs, "delta");
    FieldsOkRest(fs);
    var base := if p.message.Some? then p.message.value else EmptyMessage;
    var d, rest := fs[0].value.fields, Deltas(fs[1..]);
    AddDeltaGrows(base, d);
    AddDeltaTwice(base, d, rest);
    AddDeltaGrows(Grown(base, d), rest);
    AddDeltaGrows(base, d + rest);
    if !HasKey(fs[1..], "delta") {
      NoDeltas(fs[1..]);
      assert d + rest == d;
    }
  }

  // ------------------------------------------------------------ all choices

  lemma {:induction false} AddFieldsTwice(p: Part, a: seq<Member>, b: seq<Member>)
    requires FieldsOk(a) && FieldsOk(b)
    ensures FieldsOk(a + b)
    ensures AddFields(GrownPart(p, a), b) == AddFields(p, a + b)
    decreases |a|
  {
    DeltasJoin(a, b);
    if a == [] {
      assert a + b == b;
      AddFieldsGrows(p, a);
    } else {
      FieldsOkRest(a);
      assert (a + b)[1..] == a[1..] + b;
      FieldGrows(p, a);
      AddFieldsTwice(AddField(p, a[0]).value, a[1..], b);
    }
  }

  lemma {:induction false} ElsewhereOk(objs: seq<Json>, index: Json)
    requires ChoicesOk(objs)
    ensures ChoicesOk(Elsewhere(objs, index))
  {
  }

  /** What every later choice of its index makes of the first part. */
  lemma {:induction false} AddChoicesHead(h: Part, parts: seq<Part>, objs: seq<Json>)
    requires ChoicesOk(objs) && FieldsOk(FieldsOf(objs, h.index)) && ChoicesOk(Elsewhere(objs, h.index))
    requires AddChoices(parts, Elsewhere(objs, h.index)).Some?
    ensures AddChoices([h] + parts, objs) ==
            Some([GrownPart(h, FieldsOf(objs, h.index))] + AddChoices(parts, Elsewhere(objs, h.index)).value)
    decreases |objs|
  {
    if objs == [] {
      AddFieldsGrows(h, []);
    } else {
      var o, rest := objs[0], objs[1..];
      assert o in objs;
      FieldsOfOk(rest, h.index);
      ElsewhereOk(rest, h.index);
      var index := ChoiceIndex(o.fields);
      AddFieldsGrows(h, o.fields);
      if index == h.index {
        var h1 := GrownPart(h, o.fields);
        assert ([h] + parts)[0 := h1] == [h1] + parts;
        AddChoicesHead(h1, parts, rest);
        AddFieldsTwice(h, o.fields, FieldsOf(rest, h.index));
        AddFieldsGrows(h1, FieldsOf(rest, h.index));
        AddFieldsGrows(h, o.fields + FieldsOf(rest, h.index));
      } else {
        PlaceBehind(h, parts, o);
        assert ([o] + Elsewhere(rest, h.index))[1..] == Elsewhere(rest, h.index);
        AddChoicesHead(h, AddChoice(parts, o).value, rest);
      }
    }
  }

  lemma PlaceBehind(h: Part, parts: seq<Part>, o: Json)
    requires o.Obj? && FieldsOk(o.fields) && ChoiceIndex(o.fields) != h.index
    ensures AddChoice(parts, o).Some?
    ensures AddChoice([h] + parts, o) == Some([h] + AddChoice(parts, o).value)
  {
    var index := ChoiceIndex(o.fields);
    assert ([h] + parts)[1..] == parts;
    var i := Place(parts, index);
    AddFieldsGrows(if i < |parts| then parts[i] else NewPart(index), o.fields);
    var p := AddFields(if i < |parts| then parts[i] else NewPart(index), o.fields).value;
    if i < |parts| {
      assert ([h] + parts)[i + 1 := p] == [h] + parts[i := p];
    } else {
      assert ([h] + parts) + [p] == [h] + (parts + [p]);
    }
  }

  function PartsIn(objs: seq<Json>): seq<Part>
    requires ChoicesOk(objs)
    decreases |objs|
  {
    if objs == [] then [] else
    var index := ChoiceIndex(objs[0].fields);
    FieldsOfOk(objs, index);
    ElsewhereOk(objs[1..], index);
    [GrownPart(NewPart(index), FieldsOf(objs, index))] + PartsIn(Elsewhere(objs[1..], index))
  }

  /** The choices of a whole stream are its indices in order, each read on its own. */
  lemma {:induction false} AddChoicesReads(objs: seq<Json>)
    requires ChoicesOk(objs)
    ensures AddChoices([], objs) == Some(PartsIn(objs))
    decreases |objs|
  {
    if objs != [] {
      var o, rest := objs[0], objs[1..];
      assert o in objs;
      var index := ChoiceIndex(o.fields);
      var h := NewPart(index);
      var h1 := GrownPart(h, o.fields);
      FieldsOfOk(rest, index);
      ElsewhereOk(rest, index);
      AddFieldsGrows(h, o.fields);
      AddChoicesReads(Elsewhere(rest, index));
      assert [] + [h1] == [h1] + [];
      AddChoicesHead(h1, [], rest);
      AddFieldsTwice(h, o.fields, FieldsOf(rest, index));
      AddFieldsGrows(h1, FieldsOf(rest, index));
      AddFieldsGrows(h, o.fields + FieldsOf(rest, index));
    }
  }
}
