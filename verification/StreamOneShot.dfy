/**
  Every answer the server writes has a chunking, so the theorem that assembling
  undoes chunking speaks of all of them.

  The chunking is the plainest one: a single chunk that carries each choice
  whole, its message as a delta, and then an event with the counts. What has to
  be shown is that reading that stream with no state (StreamRoundTrip) gives
  back the answer's own fields, each once and in its own order, although roles,
  texts and tool calls are gathered apart from the rest.
*/
module StreamOneShot {
  import opened Common
  import opened JsonText
  import opened StreamAssembly
  import opened StreamRoundTrip
  import opened StreamAnswer
  import opened StreamChunking

  // -------------------------------------------------- answers as one chunk

  function Chunked(ms: seq<Member>): seq<Member> {
    if ms == [] then [] else
    [if ms[0].key == "object" && ms[0].value.Str? then ms[0].(value := Str(ms[0].value.body + ".chunk")) else ms[0]]
    + Chunked(ms[1..])
  }

  function TextFields(ps: seq<Joined>): seq<Member> {
    if ps == [] then [] else [Member(ps[0].key, Str(ps[0].body))] + TextFields(ps[1..])
  }

  function DeltaOf(role: Option<Json>, strings: seq<Joined>, tools: seq<Json>, other: seq<Member>): seq<Member> {
    Given("role", role) + TextFields(strings)
    + Given("tool_calls", if tools == [] then None else Some(Arr(Indexed(tools, 0)))) + other
  }

  const Digits := "0123456789"

  function Decimal(n: nat): string {
    (if n < 10 then "" else Decimal(n / 10)) + [Digits[n % 10]]
  }

  /** The calls as the streaming formatter writes them, each with its index. */
  function Indexed(tools: seq<Json>, from: nat): seq<Json> {
    if tools == [] then [] else
    [if tools[0].Obj? then Obj([Member("index", Atom(Decimal(from)))] + tools[0].fields) else tools[0]]
    + Indexed(tools[1..], from + 1)
  }

  function SaidAs(said: Said): seq<Member> {
    match said
    case Nothing => []
    case Text(body) => [Member("text", Str(body))]
    case Chat(role, strings, tools, other) => [Member("delta", Obj(DeltaOf(role, strings, tools, other)))]
  }

  function ChunkOf(c: Choice): Json {
    Obj([Member("index", c.index), Member("finish_reason", c.finish)] + c.other + SaidAs(c.said))
  }

  function ChunksOf(cs: seq<Choice>): seq<Json> {
    if cs == [] then [] else [ChunkOf(cs[0])] + ChunksOf(cs[1..])
  }

  function OneShot(a: Answer): seq<Line> {
    [Data(Obj(Chunked(a.frame) + [Member("choices", Arr(ChunksOf(a.choices)))])),
     Data(Obj([Member("choices", Arr([]))] + Given("usage", a.usage))),
     Done]
  }

  // ------------------------------------------ the answers the server writes

  predicate ToolsWritable(tools: seq<Json>) {
    forall t :: t in tools ==> t.Obj? && !HasKey(t.fields, "index")
  }

  predicate OtherWritable(m: Member) {
    !m.value.Null? && !m.value.Str? && m.key != "role" && m.key != "tool_calls"
  }

  predicate SaidWritable(said: Said) {
    said.Chat? ==>
      && (said.role.Some? ==> !said.role.value.Null?)
      && Distinct(StringKeys(said.strings))
      && "role" !in StringKeys(said.strings) && "tool_calls" !in StringKeys(said.strings)
      && ToolsWritable(said.tools)
      && Distinct(Keys(said.other))
      && (forall m :: m in said.other ==> OtherWritable(m))
  }

  predicate ChoiceWritable(c: Choice) {
    && Distinct(Keys(c.other))
    && (forall m :: m in c.other ==>
        m.key != "index" && m.key != "finish_reason" && m.key != "text" && m.key != "delta")
    && SaidWritable(c.said)
  }

  predicate IndicesDistinct(cs: seq<Choice>) {
    cs == [] || ((forall c :: c in cs[1..] ==> c.index != cs[0].index) && IndicesDistinct(cs[1..]))
  }

  predicate Writable(a: Answer) {
    && PlainFrame(a.frame) && a.choices != [] && IndicesDistinct(a.choices)
    && (forall c :: c in a.choices ==> ChoiceWritable(c))
    && (a.usage.Some? ==> !a.usage.value.Null?)
  }

  // -------------------------------------------------- reading them back

  lemma {:induction false} StringsJoin(a: seq<Member>, b: seq<Member>)
    ensures Strings(a + b) == Strings(a) + Strings(b)
    decreases |a|
  {
    if a == [] {
      assert a + b == b;
    } else {
      assert (a + b)[1..] == a[1..] + b;
      StringsJoin(a[1..], b);
    }
  }

  lemma {:induction false} OtherDeltasJoin(a: seq<Member>, b: seq<Member>)
    ensures OtherDeltas(a + b) == OtherDeltas(a) + OtherDeltas(b)
    ensures FirstRole(a + b) == Or(FirstRole(a), FirstRole(b))
    decreases |a|
  {
    if a == [] {
      assert a + b == b;
    } else {
      assert (a + b)[1..] == a[1..] + b;
      OtherDeltasJoin(a[1..], b);
    }
  }

  lemma {:induction false} ToolCallsJoin(a: seq<Member>, b: seq<Member>)
    requires DeltasOk(a) && DeltasOk(b)
    ensures DeltasOk(a + b)
    ensures ToolCalls(a + b) == ToolCalls(a) + ToolCalls(b)
    decreases |a|
  {
    if a == [] {
      assert a + b == b;
    } else {
      assert a[0] in a;
      assert (a + b)[1..] == a[1..] + b;
      ToolCallsJoin(a[1..], b);
      if a[0].key == "tool_calls" {
        var calls := Calls(Items(a[0].value).value);
        assert calls + (ToolCalls(a[1..]) + ToolCalls(b)) == calls + ToolCalls(a[1..]) + ToolCalls(b);
      }
    }
  }

  lemma DeltaReadingsJoin(a: seq<Member>, b: seq<Member>)
    requires DeltasOk(a) && DeltasOk(b)
    ensures DeltasOk(a + b)
    ensures Strings(a + b) == Strings(a) + Strings(b)
    ensures OtherDeltas(a + b) == OtherDeltas(a) + OtherDeltas(b)
    ensures ToolCalls(a + b) == ToolCalls(a) + ToolCalls(b)
    ensures FirstRole(a + b) == Or(FirstRole(a), FirstRole(b))
  {
    hide Strings, OtherDeltas, ToolCalls, FirstRole;
    StringsJoin(a, b);
    OtherDeltasJoin(a, b);
    ToolCallsJoin(a, b);
  }

  lemma {:induction false} ReadTexted(ps: seq<Joined>)
    requires "role" !in StringKeys(ps) && "tool_calls" !in StringKeys(ps)
    ensures DeltasOk(TextFields(ps))
    ensures Strings(TextFields(ps)) == ps && OtherDeltas(TextFields(ps)) == []
    ensures ToolCalls(TextFields(ps)) == [] && FirstRole(TextFields(ps)) == None
  {
    if ps != [] {
      ReadTexted(ps[1..]);
      assert ps[0].key == StringKeys(ps)[0];
      assert TextFields(ps)[1..] == TextFields(ps[1..]);
    }
  }

  lemma {:induction false} ReadOther(ms: seq<Member>)
    requires forall m :: m in ms ==> OtherWritable(m)
    ensures Strings(ms) == [] && OtherDeltas(ms) == ms && FirstRole(ms) == None
  {
    if ms != [] {
      assert ms[0] in ms;
      var rest := ms[1..];
      assert forall m :: m in rest ==> m in ms;
      ReadOther(rest);
      assert OtherDeltas(ms) == [ms[0]] + rest;
    }
  }

  lemma {:induction false} OtherHasNoCalls(ms: seq<Member>)
    requires forall m :: m in ms ==> OtherWritable(m)
    ensures DeltasOk(ms) && ToolCalls(ms) == []
  {
    if ms != [] {
      assert ms[0] in ms;
      OtherHasNoCalls(ms[1..]);
    }
  }

  lemma {:induction false} ReadTools(tools: seq<Json>, from: nat)
    requires ToolsWritable(tools)
    ensures AllObjects(Indexed(tools, from)) && Calls(Indexed(tools, from)) == tools
    decreases |tools|
  {
    if tools != [] {
      assert tools[0] in tools;
      ReadTools(tools[1..], from + 1);
      var written := Indexed(tools, from);
      assert written[1..] == Indexed(tools[1..], from + 1);
      WithoutNone(tools[0].fields);
      WithoutFirst(Atom(Decimal(from)), tools[0].fields);
      assert Calls(written)[0] == tools[0];
    }
  }

  lemma WithoutFirst(index: Json, ms: seq<Member>)
    ensures Without([Member("index", index)] + ms, "index") == Without(ms, "index")
  {
    assert ([Member("index", index)] + ms)[1..] == ms;
  }

  lemma {:induction false} WithoutNone(ms: seq<Member>)
    requires !HasKey(ms, "index")
    ensures Without(ms, "index") == ms
  {
    if ms != [] {
      assert ms[0] in ms;
      WithoutNone(ms[1..]);
    }
  }

  lemma ReadOne(key: string, value: Option<Json>)
    requires key == "role" ==> value.Some? ==> !value.value.Null?
    requires key == "tool_calls" ==> value.Some? ==> value.value.Arr? && AllObjects(value.value.items)
    requires key == "role" || key == "tool_calls"
    ensures var ds := Given(key, value);
            && DeltasOk(ds) && Strings(ds) == [] && OtherDeltas(ds) == []
            && FirstRole(ds) == (if key == "role" then value else None)
            && ToolCalls(ds) == (if key == "tool_calls" && value.Some? then Calls(value.value.items) else [])
  {
    var ds := Given(key, value);
    if value.Some? {
      assert ds[1..] == [];
      assert ToolCalls([]) == [];
      if key == "tool_calls" {
        assert Calls(value.value.items) + [] == Calls(value.value.items);
      }
    }
  }

  lemma JoinFour(r: seq<Member>, s: seq<Member>, t: seq<Member>, o: seq<Member>)
    requires DeltasOk(r) && DeltasOk(s) && DeltasOk(t) && DeltasOk(o)
    ensures var ds := r + s + t + o;
            && DeltasOk(ds)
            && Strings(ds) == Strings(r) + Strings(s) + Strings(t) + Strings(o)
            && OtherDeltas(ds) == OtherDeltas(r) + OtherDeltas(s) + OtherDeltas(t) + OtherDeltas(o)
            && ToolCalls(ds) == ToolCalls(r) + ToolCalls(s) + ToolCalls(t) + ToolCalls(o)
            && FirstRole(ds) == Or(Or(Or(FirstRole(r), FirstRole(s)), FirstRole(t)), FirstRole(o))
  {
    hide Strings, OtherDeltas, ToolCalls, FirstRole, DeltasOk;
    DeltaReadingsJoin(r, s);
    DeltaReadingsJoin(r + s, t);
    DeltaReadingsJoin(r + s + t, o);
  }

  lemma ReadDelta(said: Said)
    requires said.Chat? && SaidWritable(said)
    ensures var ds := DeltaOf(said.role, said.strings, said.tools, said.other);
            && DeltasOk(ds) && FirstRole(ds) == said.role && Strings(ds) == said.strings
            && ToolCalls(ds) == said.tools && OtherDeltas(ds) == said.other
  {
    hide Strings, OtherDeltas, ToolCalls, FirstRole, DeltasOk, Given, Calls, TextFields;
    var calls := if said.tools == [] then None else Some(Arr(Indexed(said.tools, 0)));
    ReadTools(said.tools, 0);
    ReadOne("role", said.role);
    ReadTexted(said.strings);
    ReadOne("tool_calls", calls);
    ReadOther(said.other);
    OtherHasNoCalls(said.other);
    JoinFour(Given("role", said.role), TextFields(said.strings), Given("tool_calls", calls), said.other);
  }

  lemma {:induction false} ExceptNone(ps: seq<Joined>, key: string)
    requires key !in StringKeys(ps)
    ensures Except(ps, key) == ps && BodiesOf(ps, key) == []
  {
    if ps != [] {
      assert ps[0].key == StringKeys(ps)[0];
      ExceptNone(ps[1..], key);
    }
  }

  lemma {:induction false} GatheredOnce(ps: seq<Joined>)
    requires Distinct(StringKeys(ps))
    ensures Gathered(ps) == ps
    decreases |ps|
  {
    if ps != [] {
      assert StringKeys(ps)[1..] == StringKeys(ps[1..]);
      ExceptNone(ps[1..], ps[0].key);
      GatheredOnce(ps[1..]);
      assert BodiesOf(ps, ps[0].key) == [ps[0].body];
      assert [ps[0].body][1..] == [];
      assert ps[0].body + Concat([]) == ps[0].body;
    }
  }

  lemma {:induction false} DroppedNone(ms: seq<Member>, key: string, before: Json)
    requires key !in Keys(ms)
    ensures Dropped(ms, key) == ms && Last(ms, key, before) == before
  {
    if ms != [] {
      assert ms[0].key == Keys(ms)[0];
      DroppedNone(ms[1..], key, before);
    }
  }

  lemma {:induction false} SettledOnce(ms: seq<Member>)
    requires Distinct(Keys(ms))
    ensures Settled(ms) == ms
    decreases |ms|
  {
    if ms != [] {
      assert Keys(ms)[1..] == Keys(ms[1..]);
      DroppedNone(ms[1..], ms[0].key, ms[0].value);
      SettledOnce(ms[1..]);
    }
  }

  lemma {:induction false} ReadFields(ms: seq<Member>, said: seq<Member>, finish: Json)
    requires forall m :: m in ms ==> m.key != "index" && m.key != "finish_reason" && m.key != "text" && m.key != "delta"
    requires said == [] || (|said| == 1 && (said[0].key == "text" || said[0].key == "delta"))
    ensures var fs := ms + said;
            && OtherFields(fs) == ms && Deltas(fs) == Deltas(said) && Texts(fs) == Texts(said)
            && LastFinish(fs, finish) == finish && (forall i :: Last(fs, "index", i) == i)
            && (HasKey(fs, "delta") <==> HasKey(said, "delta")) && (HasKey(fs, "text") <==> HasKey(said, "text"))
    decreases |ms|
  {
    var fs := ms + said;
    if ms == [] {
      assert fs == said;
      if said != [] {
        assert said[1..] == [];
      }
    } else {
      assert ms[0] in ms;
      assert fs[1..] == ms[1..] + said;
      ReadFields(ms[1..], said, finish);
    }
  }

  /** The one field a choice says its text or message in, read back. */
  lemma ReadSaid(said: Said)
    requires SaidWritable(said)
    ensures FieldsOk(SaidAs(said))
    ensures SaidIn(SaidAs(said)) == said
  {
    var fs := SaidAs(said);
    match said
    case Nothing =>
      assert !HasKey(fs, "delta") && !HasKey(fs, "text");
    case Text(body) =>
      TextAlone(body);
    case Chat(role, strings, tools, other) =>
      ReadDelta(said);
      DeltaAlone(DeltaOf(role, strings, tools, other));
      GatheredOnce(strings);
      SettledOnce(other);
  }

  lemma TextAlone(body: string)
    ensures var fs := [Member("text", Str(body))];
            !HasKey(fs, "delta") && HasKey(fs, "text") && Deltas(fs) == [] && Concat(Texts(fs)) == body
  {
    var fs := [Member("text", Str(body))];
    assert fs[0] in fs;
    assert fs[1..] == [];
    assert [body][1..] == [];
    assert body + Concat([]) == body;
  }

  lemma DeltaAlone(ds: seq<Member>)
    ensures var fs := [Member("delta", Obj(ds))]; HasKey(fs, "delta") && Deltas(fs) == ds
  {
    var fs := [Member("delta", Obj(ds))];
    assert fs[0] in fs;
    assert fs[1..] == [];
    assert ds + [] == ds;
  }

  lemma ReadHead(m: Member, rest: seq<Member>)
    requires m.key == "index" || m.key == "finish_reason"
    ensures var fs := [m] + rest;
            && OtherFields(fs) == OtherFields(rest) && Deltas(fs) == Deltas(rest) && Texts(fs) == Texts(rest)
            && (HasKey(fs, "delta") <==> HasKey(rest, "delta")) && (HasKey(fs, "text") <==> HasKey(rest, "text"))
  {
    var fs := [m] + rest;
    assert fs[1..] == rest;
  }

  lemma ReadHeads(index: Json, finish: Json, rest: seq<Member>)
    ensures var fs := [Member("index", index), Member("finish_reason", finish)] + rest;
            LastFinish(fs, Null) == LastFinish(rest, finish) && ChoiceIndex(fs) == Last(rest, "index", index)
  {
    var i, f := Member("index", index), Member("finish_reason", finish);
    var fs := [i, f] + rest;
    assert fs[1..] == [f] + rest && fs[1..][1..] == rest;
    assert LastFinish([f] + rest, Null) == LastFinish(rest, finish) by {
      if finish.Null? {
        assert LastFinish([f] + rest, Null) == LastFinish(rest, Null);
      }
    }
    assert Last([f] + rest, "index", index) == Last(rest, "index", index);
  }

  lemma SaidAsOne(said: Said)
    ensures var fs := SaidAs(said); fs == [] || (|fs| == 1 && (fs[0].key == "text" || fs[0].key == "delta"))
  {
  }

  lemma ReadingsOf(c: Choice)
    requires ChoiceWritable(c)
    ensures var fs, said := ChunkOf(c).fields, SaidAs(c.said);
            && OtherFields(fs) == c.other && Deltas(fs) == Deltas(said) && Texts(fs) == Texts(said)
            && LastFinish(fs, Null) == c.finish && ChoiceIndex(fs) == c.index
            && (HasKey(fs, "delta") <==> HasKey(said, "delta")) && (HasKey(fs, "text") <==> HasKey(said, "text"))
  {
    SaidAsOne(c.said);
    hide OtherFields, Deltas, Texts, LastFinish, Last, HasKey, SaidAs, SaidWritable, Distinct;
    var said := SaidAs(c.said);
    var i, f, rest := Member("index", c.index), Member("finish_reason", c.finish), c.other + said;
    ReadFields(c.other, said, c.finish);
    ReadHead(f, rest);
    ReadHead(i, [f] + rest);
    ReadHeads(c.index, c.finish, rest);
    assert ChunkOf(c).fields == [i] + ([f] + rest) && [i, f] + rest == [i] + ([f] + rest);
  }

  lemma ChunkFieldsOk(c: Choice)
    requires ChoiceWritable(c)
    ensures FieldsOk(ChunkOf(c).fields)
  {
    hide OtherFields, Deltas, Texts, LastFinish, Last, Settled, SaidAs, SaidIn, DeltasOk, SaidWritable;
    ReadSaid(c.said);
    ReadingsOf(c);
  }

  /** A choice's fields, read back from the object that carries them. */
  lemma ReadChoice(c: Choice)
    requires ChoiceWritable(c)
    ensures FieldsOk(ChunkOf(c).fields) && ChoiceIndex(ChunkOf(c).fields) == c.index
    ensures ChoiceIn(c.index, ChunkOf(c).fields) == c
  {
    ChunkFieldsOk(c);
    ReadSaid(c.said);
    ReadingsOf(c);
    SettledOnce(c.other);
    hide OtherFields, Deltas, Texts, LastFinish, Last, HasKey, Settled, ChunkOf, SaidAs, FieldsOk;
  }

  // ------------------------------------------------------- the whole answer

  lemma {:induction false} OthersChunks(cs: seq<Choice>, index: Json)
    requires forall c :: c in cs ==> ChoiceWritable(c) && c.index != index
    ensures ChoicesOk(ChunksOf(cs)) && FieldsOf(ChunksOf(cs), index) == []
    ensures Elsewhere(ChunksOf(cs), index) == ChunksOf(cs)
  {
    hide ChoiceWritable, FieldsOk, ChunkOf, ChoiceIndex, ChoiceIn;
    if cs != [] {
      assert cs[0] in cs;
      assert forall c :: c in cs[1..] ==> c in cs;
      assert ChunksOf(cs)[1..] == ChunksOf(cs[1..]);
      ReadChoice(cs[0]);
      ChunkIsObject(cs[0]);
      OthersChunks(cs[1..], index);
    }
  }

  lemma ChunkIsObject(c: Choice)
    ensures ChunkOf(c).Obj?
  {
  }

  lemma {:induction false} ReadChoices(cs: seq<Choice>)
    requires IndicesDistinct(cs) && forall c :: c in cs ==> ChoiceWritable(c)
    ensures ChoicesOk(ChunksOf(cs)) && ChoicesIn(ChunksOf(cs)) == cs
    decreases |cs|
  {
    hide ChoiceWritable, FieldsOk, ChunkOf, ChoiceIndex, ChoiceIn;
    if cs != [] {
      var c, rest := cs[0], cs[1..];
      assert c in cs;
      assert forall d :: d in rest ==> d in cs;
      ReadChoice(c);
      ChunkIsObject(c);
      ReadChoices(rest);
      OthersChunks(rest, c.index);
      var objs := ChunksOf(cs);
      assert objs == [ChunkOf(c)] + ChunksOf(rest) && objs[1..] == ChunksOf(rest);
      assert FieldsOf(objs, c.index) == ChunkOf(c).fields;
    }
  }

  lemma {:induction false} ReadFrame(frame: seq<Member>)
    requires PlainFrame(frame)
    ensures PlainFrame(Chunked(frame)) && Frame(Chunked(frame)) == frame
  {
    if frame != [] {
      var m, n := frame[0], Chunked(frame)[0];
      assert m in frame;
      assert Chunked(frame)[1..] == Chunked(frame[1..]);
      if n != m {
        assert n.value.body[..|n.value.body| - 6] == m.value.body;
      }
      ReadFrame(frame[1..]);
    }
  }

  lemma ReadFirstEvent(frame: seq<Member>, objs: seq<Json>)
    requires PlainFrame(frame)
    ensures var payload := Obj(Chunked(frame) + [Member("choices", Arr(objs))]);
            && EventChoices(payload) == Some(objs) && Frame(payload.fields) == frame
            && LastUsage(payload.fields, None) == None
  {
    var c := Member("choices", Arr(objs));
    ReadFrame(frame);
    FrameOfChunk(Chunked(frame), c);
    assert c in Chunked(frame) + [c];
  }

  lemma ReadCounts(usage: Option<Json>)
    requires usage.Some? ==> !usage.value.Null?
    ensures var payload := Obj([Member("choices", Arr([]))] + Given("usage", usage));
            EventChoices(payload) == Some([]) && LastUsage(payload.fields, None) == usage
  {
    var c, u := Member("choices", Arr([])), Given("usage", usage);
    var fs := [c] + u;
    assert c in fs && fs[1..] == u;
    assert Last(u, "choices", c.value) == c.value by {
      if usage.Some? {
        assert u[1..] == [];
      }
    }
    assert LastUsage(fs, None) == LastUsage(u, None);
    if usage.Some? {
      assert u[1..] == [];
    }
  }

  /** A stream of one event with the choices and one with the counts. */
  lemma TwoEvents(p: Json, q: Json, objs: seq<Json>)
    requires p.Obj? && EventChoices(p) == Some(objs) && ChoicesOk(objs) && objs != []
    requires q.Obj? && EventChoices(q) == Some([])
    ensures var lines := [Data(p), Data(q), Done];
            && Complete(lines) && Objects(lines) == objs && FrameIn(lines) == Frame(p.fields)
            && UsageIn(lines, None) == LastUsage(q.fields, LastUsage(p.fields, None))
  {
    hide EventChoices, ChoicesOk, Frame, LastUsage;
    var l3, l2, lines := [Done], [Data(q), Done], [Data(p), Data(q), Done];
    assert lines[1..] == l2 && l2[1..] == l3;
    assert Complete(l3) && Objects(l3) == [] && FrameIn(l3) == [];
    assert forall u :: UsageIn(l3, u) == u;
    assert Complete(l2) && Objects(l2) == [] + [] && FrameIn(l2) == [];
    assert Objects(lines) == objs + Objects(l2);
    assert Complete(lines);
    assert FrameIn(lines) == Frame(p.fields);
    var u := LastUsage(p.fields, None);
    assert UsageIn(l2, u) == UsageIn(l3, LastUsage(q.fields, u));
    assert UsageIn(lines, None) == UsageIn(l2, u);
  }

  /** Every answer the server writes has a chunking. */
  lemma EveryAnswerHasAChunking(a: Answer)
    requires Writable(a)
    ensures Complete(OneShot(a)) && AnswerIn(OneShot(a)) == a
  {
    var objs := ChunksOf(a.choices);
    ReadChoices(a.choices);
    ReadFirstEvent(a.frame, objs);
    ReadCounts(a.usage);
    hide EventChoices, ChoicesOk, ChoicesIn, Frame, LastUsage, Chunked, Given, Complete, Objects, FrameIn, UsageIn;
    TwoEvents(OneShot(a)[0].payload, OneShot(a)[1].payload, objs);
  }

  /** Chunked that way, it is assembled into its own object again. */
  lemma WrittenChunkedAndAssembled(a: Answer)
    requires Writable(a) && forall c :: c in a.choices ==> ChoiceApart(c)
    ensures Assemble(EmptyAssembly, OneShot(a)) == Answered(AnswerObject(a))
  {
    hide Assemble, OneShot, Complete, AnswerIn, AnswerObject;
    EveryAnswerHasAChunking(a);
    AssemblingUndoesChunking(OneShot(a), a);
  }
}
