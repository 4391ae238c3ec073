/** The unstreamed answer, written out, and the round trip to it. */
module StreamAnswer {
  import opened Common
  import opened JsonText
  import opened StreamAssembly
  import opened StreamRoundTrip

  // --------------------------------------------------- the answer's object

  function Named(ps: seq<Joined>, key: string): seq<Member> {
    if ps == [] then []
    else if ps[0].key == key then [Member(key, Str(ps[0].body))]
    else Named(ps[1..], key)
  }

  /** The text fields the unstreamed answer has no fixed place for. */
  function Further(ps: seq<Joined>): seq<Member> {
    if ps == [] then []
    else if ps[0].key == "content" || ps[0].key == "reasoning" then Further(ps[1..])
    else [Member(ps[0].key, Str(ps[0].body))] + Further(ps[1..])
  }

  /** The same two for the fields that are not text. */
  function NamedOther(ms: seq<Member>, key: string): seq<Member> {
    if ms == [] then []
    else if ms[0].key == key then [ms[0]]
    else NamedOther(ms[1..], key)
  }

  function FurtherOther(ms: seq<Member>): seq<Member> {
    if ms == [] then []
    else if ms[0].key == "content" || ms[0].key == "reasoning" then FurtherOther(ms[1..])
    else [ms[0]] + FurtherOther(ms[1..])
  }

  function Given(key: string, value: Option<Json>): seq<Member> {
    if value.Some? then [Member(key, value.value)] else []
  }

  /** A chat message in the order the model server writes one. */
  function MessageObject(role: Option<Json>, strings: seq<Joined>, tools: seq<Json>, other: seq<Member>): Json {
    Obj(Given("role", role)
        + (Named(strings, "content") + NamedOther(other, "content"))
        + (Named(strings, "reasoning") + NamedOther(other, "reasoning"))
        + Given("tool_calls", if tools == [] then None else Some(Arr(tools)))
        + Further(strings) + FurtherOther(other))
  }

  function ChoiceObject(c: Choice): Json {
    Obj([Member("index", c.index), Member("finish_reason", c.finish)] + c.other
        + match c.said
          case Nothing => []
          case Text(body) => [Member("text", Str(body))]
          case Chat(role, strings, tools, other) => [Member("message", MessageObject(role, strings, tools, other))])
  }

  function ChoiceObjects(cs: seq<Choice>): seq<Json> {
    if cs == [] then [] else [ChoiceObject(cs[0])] + ChoiceObjects(cs[1..])
  }

  function AnswerObject(a: Answer): Json {
    Obj(a.frame + [Member("choices", Arr(ChoiceObjects(a.choices)))] + Given("usage", a.usage))
  }

  // ---------------------------------------------------- rendering a message

  /** The two fields of a message that are neither text nor other. */
  predicate Unnamed(ks: seq<string>) {
    "role" !in ks && "tool_calls" !in ks
  }

  function KeySet(ks: seq<string>): set<string> {
    set k | k in ks
  }

  predicate Distinct(ks: seq<string>) {
    ks == [] || (ks[0] !in ks[1..] && Distinct(ks[1..]))
  }

  /**
    No field of a message is text in one chunk and something else in another:
    an answer has one value for a field, and its chunks are of that kind.
  */
  predicate Apart(strings: seq<Joined>, other: seq<Member>) {
    forall k :: k in Keys(other) ==> k !in StringKeys(strings)
  }

  lemma {:induction false} StringMapHas(ps: seq<Joined>, k: string)
    requires Distinct(StringKeys(ps))
    ensures k in StringMap(ps) <==> k in StringKeys(ps)
    ensures Named(ps, k) == Given(k, if k in StringMap(ps) then Some(StringMap(ps)[k]) else None)
  {
    if ps != [] {
      assert StringKeys(ps)[1..] == StringKeys(ps[1..]);
      StringMapHas(ps[1..], k);
      StringMapHas(ps[1..], ps[0].key);
    }
  }

  lemma {:induction false} MemberMapHas(ms: seq<Member>, k: string)
    ensures k in MemberMap(ms) <==> k in Keys(ms)
  {
    if ms != [] {
      MemberMapHas(ms[1..], k);
    }
  }

  lemma {:induction false} MemberMapNames(ms: seq<Member>, k: string)
    requires Distinct(Keys(ms))
    ensures NamedOther(ms, k) == Given(k, if k in MemberMap(ms) then Some(MemberMap(ms)[k]) else None)
  {
    if ms != [] {
      assert Keys(ms)[1..] == Keys(ms[1..]);
      MemberMapNames(ms[1..], k);
      MemberMapHas(ms[1..], ms[0].key);
    }
  }

  /** The text fields not yet placed, in order. */
  function Unplaced(ps: seq<Joined>, placed: set<string>): seq<Member> {
    if ps == [] then []
    else if ps[0].key in placed then Unplaced(ps[1..], placed)
    else [Member(ps[0].key, Str(ps[0].body))] + Unplaced(ps[1..], placed)
  }

  /** The other fields not yet placed, in order. */
  function UnplacedOthers(ms: seq<Member>, placed: set<string>): seq<Member> {
    if ms == [] then []
    else if ms[0].key in placed then UnplacedOthers(ms[1..], placed)
    else [ms[0]] + UnplacedOthers(ms[1..], placed)
  }

  lemma {:induction false} UnplacedOthersSkips(ms: seq<Member>, placed: set<string>, k: string)
    requires k !in Keys(ms)
    ensures UnplacedOthers(ms, placed + {k}) == UnplacedOthers(ms, placed)
  {
    if ms != [] {
      UnplacedOthersSkips(ms[1..], placed, k);
    }
  }

  lemma {:induction false} PlaceOthers(ms: seq<Member>, byKey: map<string, Json>, placed: set<string>)
    requires Distinct(Keys(ms))
    requires forall m :: m in ms ==> m.key in byKey && byKey[m.key] == m.value
    ensures Place1(Keys(ms), byKey, placed) == UnplacedOthers(ms, placed)
  {
    if ms != [] {
      var rest := ms[1..];
      assert ms[0] in ms;
      assert Keys(ms)[1..] == Keys(rest);
      if ms[0].key in placed {
        PlaceOthers(rest, byKey, placed);
      } else {
        PlaceOthers(rest, byKey, placed + {ms[0].key});
        UnplacedOthersSkips(rest, placed, ms[0].key);
      }
    }
  }

  lemma {:induction false} KeyAt(ms: seq<Member>, m: Member)
    requires m in ms
    ensures m.key in Keys(ms)
  {
    if ms[0] != m {
      KeyAt(ms[1..], m);
    }
  }

  lemma {:induction false} UnplacedSkips(ps: seq<Joined>, placed: set<string>, k: string)
    requires k !in StringKeys(ps)
    ensures Unplaced(ps, placed + {k}) == Unplaced(ps, placed)
  {
    if ps != [] {
      UnplacedSkips(ps[1..], placed, k);
    }
  }

  lemma {:induction false} PlaceStrings(ps: seq<Joined>, okeys: seq<string>, byKey: map<string, Json>,
      placed: set<string>)
    requires Distinct(StringKeys(ps))
    requires forall p :: p in ps ==> p.key in byKey && byKey[p.key] == Str(p.body)
    ensures Place1(StringKeys(ps) + okeys, byKey, placed) ==
            Unplaced(ps, placed) + Place1(okeys, byKey, placed + KeySet(StringKeys(ps)))
  {
    var order := StringKeys(ps) + okeys;
    if ps == [] {
      assert order == okeys;
      assert placed + KeySet([]) == placed;
    } else {
      var rest := ps[1..];
      assert ps[0] in ps;
      assert order[1..] == StringKeys(rest) + okeys;
      assert StringKeys(ps)[1..] == StringKeys(rest);
      var k := ps[0].key;
      KeySetHead(ps, placed);
      if k in placed {
        PlaceStrings(rest, okeys, byKey, placed);
      } else {
        PlaceStrings(rest, okeys, byKey, placed + {k});
        UnplacedSkips(rest, placed, k);
      }
    }
  }

  lemma KeySetHead(ps: seq<Joined>, placed: set<string>)
    requires ps != []
    ensures var k, rest := ps[0].key, KeySet(StringKeys(ps[1..]));
            && placed + {k} + rest == placed + KeySet(StringKeys(ps))
            && (k in placed ==> placed + rest == placed + KeySet(StringKeys(ps)))
  {
  }

  /** What byKey holds, for keys that are apart. */
  lemma ByKeyHas(m: Message)
    requires Distinct(StringKeys(m.strings)) && Distinct(Keys(m.other)) && Apart(m.strings, m.other)
    requires Unnamed(StringKeys(m.strings)) && Unnamed(Keys(m.other))
    ensures Given("role", m.role) == Given("role", Find(ByKey(m), "role"))
    ensures Given("tool_calls", if m.tools == [] then None else Some(Arr(m.tools))) ==
        Given("tool_calls", Find(ByKey(m), "tool_calls"))
  {
    MemberMapHas(m.other, "role");
    MemberMapHas(m.other, "tool_calls");
    StringMapHas(m.strings, "role");
    StringMapHas(m.strings, "tool_calls");
  }

  /** A field of the message, which byKey holds as text or as something else. */
  lemma ByKeyNames(m: Message, k: string)
    requires Distinct(StringKeys(m.strings)) && Distinct(Keys(m.other)) && Apart(m.strings, m.other)
    requires k != "role" && k != "tool_calls"
    ensures Named(m.strings, k) + NamedOther(m.other, k) == Given(k, Find(ByKey(m), k))
  {
    StringMapHas(m.strings, k);
    MemberMapHas(m.other, k);
    MemberMapNames(m.other, k);
  }

  function Find(byKey: map<string, Json>, key: string): Option<Json> {
    if key in byKey then Some(byKey[key]) else None
  }

  function GivenAll(ks: seq<string>, byKey: map<string, Json>): seq<Member> {
    if ks == [] then [] else Given(ks[0], Find(byKey, ks[0])) + GivenAll(ks[1..], byKey)
  }

  function Taken(ks: seq<string>, byKey: map<string, Json>): set<string> {
    set k | k in ks && k in byKey
  }

  /** Fields that are placed first, in the order of a list of distinct keys. */
  lemma {:induction false} PlaceList(ks: seq<string>, rest: seq<string>, byKey: map<string, Json>, before: set<string>)
    requires Distinct(ks) && forall k :: k in ks ==> k !in before
    ensures Place1(ks + rest, byKey, before) == GivenAll(ks, byKey) + Place1(rest, byKey, before + Taken(ks, byKey))
    decreases |ks|
  {
    if ks == [] {
      assert ks + rest == rest;
      assert before + Taken([], byKey) == before;
    } else {
      var k, order := ks[0], ks + rest;
      var after := before + if k in byKey then {k} else {};
      assert order[1..] == ks[1..] + rest;
      assert k !in byKey ==> after == before;
      PlaceList(ks[1..], rest, byKey, after);
      TakenHead(ks, byKey, before);
      var last := Place1(rest, byKey, before + Taken(ks, byKey));
      assert Place1(order, byKey, before) == Given(k, Find(byKey, k)) + Place1(order[1..], byKey, after);
      hide Place1, Taken, Distinct, Given, Find;
      assert GivenAll(ks, byKey) == Given(k, Find(byKey, k)) + GivenAll(ks[1..], byKey);
      assert Given(k, Find(byKey, k)) + (GivenAll(ks[1..], byKey) + last) == GivenAll(ks, byKey) + last;
    }
  }

  lemma TakenHead(ks: seq<string>, byKey: map<string, Json>, before: set<string>)
    requires ks != []
    ensures before + (if ks[0] in byKey then {ks[0]} else {}) + Taken(ks[1..], byKey) == before + Taken(ks, byKey)
  {
  }

  lemma FixedFields(byKey: map<string, Json>)
    ensures Distinct(MessageOrder)
    ensures GivenAll(MessageOrder, byKey) ==
            Given("role", Find(byKey, "role")) + Given("content", Find(byKey, "content"))
            + Given("reasoning", Find(byKey, "reasoning")) + Given("tool_calls", Find(byKey, "tool_calls"))
  {
    var o1, o2, o3 := ["content", "reasoning", "tool_calls"], ["reasoning", "tool_calls"], ["tool_calls"];
    assert MessageOrder[1..] == o1 && o1[1..] == o2 && o2[1..] == o3 && o3[1..] == [];
    assert Distinct(o3) && Distinct(o2) && Distinct(o1);
    var g := k => Given(k, Find(byKey, k));
    assert GivenAll(o3, byKey) == g("tool_calls");
    assert GivenAll(o2, byKey) == g("reasoning") + g("tool_calls");
    assert GivenAll(o1, byKey) == g("content") + (g("reasoning") + g("tool_calls"));
  }

  lemma {:induction false} StringsInByKey(ps: seq<Joined>)
    requires Distinct(StringKeys(ps))
    ensures forall p :: p in ps ==>
        p.key in StringMap(ps) && StringMap(ps)[p.key] == Str(p.body) && p.key in StringKeys(ps)
  {
    if ps != [] {
      assert StringKeys(ps)[1..] == StringKeys(ps[1..]);
      StringsInByKey(ps[1..]);
      StringMapHas(ps[1..], ps[0].key);
    }
  }

  lemma {:induction false} OthersInByKey(ms: seq<Member>)
    requires Distinct(Keys(ms))
    ensures forall m :: m in ms ==> m.key in MemberMap(ms) && MemberMap(ms)[m.key] == m.value && m.key in Keys(ms)
  {
    if ms != [] {
      assert Keys(ms)[1..] == Keys(ms[1..]);
      OthersInByKey(ms[1..]);
      MemberMapHas(ms[1..], ms[0].key);
    }
  }

  lemma {:induction false} UnplacedIsFurther(ps: seq<Joined>, placed: set<string>)
    requires forall p :: p in ps ==> (p.key in placed <==> p.key == "content" || p.key == "reasoning")
    ensures Unplaced(ps, placed) == Further(ps)
  {
    if ps != [] {
      assert ps[0] in ps;
      assert forall p :: p in ps[1..] ==> p in ps;
      UnplacedIsFurther(ps[1..], placed);
    }
  }

  lemma {:induction false} UnplacedOthersIsFurther(ms: seq<Member>, placed: set<string>)
    requires forall m :: m in ms ==> (m.key in placed <==> m.key == "content" || m.key == "reasoning")
    ensures UnplacedOthers(ms, placed) == FurtherOther(ms)
  {
    if ms != [] {
      assert ms[0] in ms;
      assert forall m :: m in ms[1..] ==> m in ms;
      UnplacedOthersIsFurther(ms[1..], placed);
    }
  }

  lemma FieldsInByKey(m: Message)
    requires Distinct(StringKeys(m.strings)) && Distinct(Keys(m.other)) && Apart(m.strings, m.other)
    requires Unnamed(StringKeys(m.strings))
    ensures forall p :: p in m.strings ==>
        p.key in ByKey(m) && ByKey(m)[p.key] == Str(p.body) && p.key in StringKeys(m.strings)
    ensures forall o :: o in m.other ==> o.key in ByKey(m) && ByKey(m)[o.key] == o.value && o.key in Keys(m.other)
  {
    StringsInByKey(m.strings);
    OthersInByKey(m.other);
    forall p | p in m.strings ensures p.key in ByKey(m) && ByKey(m)[p.key] == Str(p.body) {
      MemberMapHas(m.other, p.key);
    }
  }

  lemma FixedAndFurther(m: Message, fixed: set<string>)
    requires Apart(m.strings, m.other) && Unnamed(StringKeys(m.strings)) && Unnamed(Keys(m.other))
    requires fixed == Taken(MessageOrder, ByKey(m))
    requires forall p :: p in m.strings ==> p.key in ByKey(m) && p.key in StringKeys(m.strings)
    requires forall o :: o in m.other ==> o.key in ByKey(m) && o.key in Keys(m.other)
    ensures Unplaced(m.strings, fixed) == Further(m.strings)
    ensures UnplacedOthers(m.other, fixed + KeySet(StringKeys(m.strings))) == FurtherOther(m.other)
  {
    hide ByKey, Unplaced, UnplacedOthers, Further, FurtherOther;
    UnplacedIsFurther(m.strings, fixed);
    UnplacedOthersIsFurther(m.other, fixed + KeySet(StringKeys(m.strings)));
  }

  lemma PlaceFields(m: Message, fixed: set<string>)
    requires Distinct(StringKeys(m.strings)) && Distinct(Keys(m.other)) && Apart(m.strings, m.other)
    requires Unnamed(StringKeys(m.strings)) && Unnamed(Keys(m.other))
    requires fixed == Taken(MessageOrder, ByKey(m))
    ensures Place1(StringKeys(m.strings) + Keys(m.other), ByKey(m), fixed) == Further(m.strings) + FurtherOther(m.other)
  {
    hide Place1, ByKey, Apart, Distinct, Unplaced, UnplacedOthers, Further, FurtherOther, Taken;
    FieldsInByKey(m);
    PlaceStrings(m.strings, Keys(m.other), ByKey(m), fixed);
    PlaceOthers(m.other, ByKey(m), fixed + KeySet(StringKeys(m.strings)));
    FixedAndFurther(m, fixed);
  }

  /** The message assembly renders is the one the server writes unstreamed. */
  lemma RenderedInOrder(m: Message)
    requires Distinct(StringKeys(m.strings)) && Distinct(Keys(m.other)) && Apart(m.strings, m.other)
    requires Unnamed(StringKeys(m.strings)) && Unnamed(Keys(m.other))
    ensures RenderMessage(m) == MessageObject(m.role, m.strings, m.tools, m.other)
  {
    hide Place1, ByKey, Apart, Further, FurtherOther, Named, NamedOther, Find, GivenAll, Given, Distinct;
    var byKey, tail := ByKey(m), StringKeys(m.strings) + Keys(m.other);
    assert MessageOrder + StringKeys(m.strings) + Keys(m.other) == MessageOrder + tail;
    FixedFields(byKey);
    PlaceList(MessageOrder, tail, byKey, {});
    assert {} + Taken(MessageOrder, byKey) == Taken(MessageOrder, byKey);
    ByKeyHas(m);
    ByKeyNames(m, "content");
    ByKeyNames(m, "reasoning");
    PlaceFields(m, Taken(MessageOrder, byKey));
  }

  // ---------------------------------------------------- distinct by reading

  lemma {:induction false} ExceptKeys(ps: seq<Joined>, key: string)
    ensures key !in StringKeys(Gathered(Except(ps, key)))
    ensures forall k :: k in StringKeys(Gathered(ps)) ==> k in StringKeys(ps)
    decreases |ps|
  {
    ExceptHas(ps, key);
    GatheredHas(Except(ps, key));
    GatheredHas(ps);
  }

  lemma {:induction false} ExceptHas(ps: seq<Joined>, key: string)
    ensures key !in StringKeys(Except(ps, key))
    ensures forall k :: k in StringKeys(Except(ps, key)) ==> k in StringKeys(ps)
  {
    if ps != [] {
      ExceptHas(ps[1..], key);
    }
  }

  lemma {:induction false} GatheredHas(ps: seq<Joined>)
    ensures forall k :: k in StringKeys(Gathered(ps)) ==> k in StringKeys(ps)
    decreases |ps|
  {
    if ps != [] {
      GatheredHas(Except(ps[1..], ps[0].key));
      ExceptHas(ps[1..], ps[0].key);
    }
  }

  lemma {:induction false} GatheredDistinct(ps: seq<Joined>)
    ensures Distinct(StringKeys(Gathered(ps)))
    decreases |ps|
  {
    if ps != [] {
      var k := ps[0].key;
      var rest := Gathered(Except(ps[1..], k));
      GatheredDistinct(Except(ps[1..], k));
      ExceptKeys(ps[1..], k);
      assert StringKeys(Gathered(ps))[1..] == StringKeys(rest);
    }
  }

  lemma {:induction false} DroppedHas(ms: seq<Member>, key: string)
    ensures key !in Keys(Dropped(ms, key))
    ensures forall k :: k in Keys(Dropped(ms, key)) ==> k in Keys(ms)
  {
    if ms != [] {
      DroppedHas(ms[1..], key);
    }
  }

  lemma {:induction false} SettledHas(ms: seq<Member>)
    ensures forall k :: k in Keys(Settled(ms)) ==> k in Keys(ms)
    decreases |ms|
  {
    if ms != [] {
      SettledHas(Dropped(ms[1..], ms[0].key));
      DroppedHas(ms[1..], ms[0].key);
    }
  }

  lemma {:induction false} SettledDistinct(ms: seq<Member>)
    ensures Distinct(Keys(Settled(ms)))
    decreases |ms|
  {
    if ms != [] {
      var k := ms[0].key;
      var rest := Settled(Dropped(ms[1..], k));
      SettledDistinct(Dropped(ms[1..], k));
      SettledHas(Dropped(ms[1..], k));
      DroppedHas(ms[1..], k);
      assert Keys(Settled(ms))[1..] == Keys(rest);
    }
  }

  lemma {:induction false} StringsNamed(ds: seq<Member>)
    ensures Unnamed(StringKeys(Strings(ds))) && Unnamed(Keys(OtherDeltas(ds)))
  {
    if ds != [] {
      StringsNamed(ds[1..]);
    }
  }

  // -------------------------------------------------------- whole streams

  predicate ChoiceApart(c: Choice) {
    c.said.Chat? ==> Apart(c.said.strings, c.said.other)
  }

  lemma PartRendered(index: Json, fs: seq<Member>)
    requires FieldsOk(fs) && ChoiceApart(ChoiceIn(index, fs))
    ensures RenderPart(GrownPart(NewPart(index), fs)) == ChoiceObject(ChoiceIn(index, fs))
  {
    var p, c := GrownPart(NewPart(index), fs), ChoiceIn(index, fs);
    SettleAllSettles(OtherFields(fs));
    if HasKey(fs, "delta") {
      var ds := Deltas(fs);
      var m := p.message.value;
      JoinAllGathers(Strings(ds));
      SettleAllSettles(OtherDeltas(ds));
      assert [] + ToolCalls(ds) == ToolCalls(ds);
      GatheredDistinct(Strings(ds));
      GatheredHas(Strings(ds));
      StringsNamed(ds);
      SettledDistinct(OtherDeltas(ds));
      SettledHas(OtherDeltas(ds));
      RenderedInOrder(m);
    } else if HasKey(fs, "text") {
      assert "" + Concat(Texts(fs)) == Concat(Texts(fs));
    }
  }

  lemma {:induction false} PartsRendered(objs: seq<Json>)
    requires ChoicesOk(objs) && forall c :: c in ChoicesIn(objs) ==> ChoiceApart(c)
    ensures RenderParts(PartsIn(objs)) == ChoiceObjects(ChoicesIn(objs))
    decreases |objs|
  {
    if objs != [] {
      var index := ChoiceIndex(objs[0].fields);
      FieldsOfOk(objs, index);
      ElsewhereOk(objs[1..], index);
      var cs := ChoicesIn(objs);
      assert cs[0] in cs;
      assert forall c :: c in cs[1..] ==> c in cs;
      PartRendered(index, FieldsOf(objs, index));
      PartsRendered(Elsewhere(objs[1..], index));
    }
  }

  /** A stream that reaches its [DONE] with nothing in it but completion events. */
  predicate Complete(lines: seq<Line>) {
    lines != [] &&
    match lines[0]
    case Quiet => Complete(lines[1..])
    case Done => true
    case Data(payload) =>
      EventChoices(payload).Some? && ChoicesOk(EventChoices(payload).value) && Complete(lines[1..])
    case _ => false
  }

  /** Every choice object of a stream, in order. */
  function Objects(lines: seq<Line>): (objs: seq<Json>)
    requires Complete(lines)
    ensures ChoicesOk(objs)
  {
    match lines[0]
    case Quiet => Objects(lines[1..])
    case Data(payload) => EventChoices(payload).value + Objects(lines[1..])
    case _ => []
  }

  /** The frame of the first event with a choice that has one. */
  function FrameIn(lines: seq<Line>): seq<Member>
    requires Complete(lines)
  {
    match lines[0]
    case Quiet => FrameIn(lines[1..])
    case Data(payload) =>
      if EventChoices(payload).value != [] && Frame(payload.fields) != [] then Frame(payload.fields)
      else FrameIn(lines[1..])
    case _ => []
  }

  function UsageIn(lines: seq<Line>, before: Option<Json>): Option<Json>
    requires Complete(lines)
    decreases |lines|
  {
    match lines[0]
    case Quiet => UsageIn(lines[1..], before)
    case Data(payload) => UsageIn(lines[1..], LastUsage(payload.fields, before))
    case _ => before
  }

  /** The answer a stream is a chunking of. */
  function AnswerIn(lines: seq<Line>): Answer
    requires Complete(lines)
  {
    Answer(FrameIn(lines), ChoicesIn(Objects(lines)), UsageIn(lines, None))
  }

  lemma {:induction false} AddChoicesTwice(parts: seq<Part>, a: seq<Json>, b: seq<Json>)
    requires AddChoices(parts, a).Some?
    ensures AddChoices(parts, a + b) == AddChoices(AddChoices(parts, a).value, b)
    decreases |a|
  {
    if a == [] {
      assert a + b == b;
    } else {
      assert (a + b)[1..] == a[1..] + b;
      AddChoicesTwice(AddChoice(parts, a[0]).value, a[1..], b);
    }
  }

  lemma {:induction false} AddChoicesOk(parts: seq<Part>, objs: seq<Json>)
    requires ChoicesOk(objs)
    ensures AddChoices(parts, objs).Some?
    decreases |objs|
  {
    if objs != [] {
      var o := objs[0];
      assert o in objs;
      var i := Place(parts, ChoiceIndex(o.fields));
      AddFieldsGrows(if i < |parts| then parts[i] else NewPart(ChoiceIndex(o.fields)), o.fields);
      AddChoicesOk(AddChoice(parts, o).value, objs[1..]);
    }
  }

  lemma {:induction false} AssembleReads(a: Assembly, lines: seq<Line>)
    requires Complete(lines)
    ensures AddChoices(a.parts, Objects(lines)).Some?
    ensures Assemble(a, lines) ==
            Render(Assembly(if a.frame == [] then FrameIn(lines) else a.frame,
                            AddChoices(a.parts, Objects(lines)).value, UsageIn(lines, a.usage)))
    decreases |lines|
  {
    AddChoicesOk(a.parts, Objects(lines));
    match lines[0]
    case Quiet => AssembleReads(a, lines[1..]);
    case Data(payload) =>
      var items := EventChoices(payload).value;
      AddChoicesOk(a.parts, items);
      AddChoicesTwice(a.parts, items, Objects(lines[1..]));
      AssembleReads(AddEvent(a, payload).value, lines[1..]);
      if items == [] {
        assert items + Objects(lines[1..]) == Objects(lines[1..]);
      }
    case _ =>
  }

  // ----------------------------------- which streams are answered at all

  lemma {:induction false} AddDeltaNeedsOk(p: Message, ds: seq<Member>)
    requires AddDelta(p, ds).Some?
    ensures DeltasOk(ds)
    decreases |ds|
  {
    if ds != [] {
      AddDeltaNeedsOk(AddDeltaField(p, ds[0]).value, ds[1..]);
      assert DeltaOk(ds[0]);
      assert forall m :: m in ds ==> m == ds[0] || m in ds[1..];
    }
  }

  lemma {:induction false} AddFieldsNeedsOk(p: Part, fs: seq<Member>)
    requires AddFields(p, fs).Some?
    ensures FieldsOk(fs)
    decreases |fs|
  {
    if fs != [] {
      var m, rest := fs[0], fs[1..];
      AddFieldsNeedsOk(AddField(p, m).value, rest);
      assert forall n :: n in fs ==> n == m || n in rest;
      if m.key == "delta" {
        AddDeltaNeedsOk(if p.message.Some? then p.message.value else EmptyMessage, m.value.fields);
      }
    }
  }

  lemma {:induction false} AddChoicesNeedsOk(parts: seq<Part>, objs: seq<Json>)
    requires AddChoices(parts, objs).Some?
    ensures ChoicesOk(objs)
    decreases |objs|
  {
    if objs != [] {
      var o := objs[0];
      var i := Place(parts, ChoiceIndex(o.fields));
      AddFieldsNeedsOk(if i < |parts| then parts[i] else NewPart(ChoiceIndex(o.fields)), o.fields);
      AddChoicesNeedsOk(AddChoice(parts, o).value, objs[1..]);
      assert forall j :: j in objs ==> j == o || j in objs[1..];
    }
  }

  lemma {:induction false} AnsweredIsComplete(a: Assembly, lines: seq<Line>)
    requires Assemble(a, lines).Answered?
    ensures Complete(lines)
    decreases |lines|
  {
    match lines[0]
    case Quiet => AnsweredIsComplete(a, lines[1..]);
    case Data(payload) =>
      AddChoicesNeedsOk(a.parts, EventChoices(payload).value);
      AnsweredIsComplete(AddEvent(a, payload).value, lines[1..]);
    case _ =>
  }

  /**
    A stream is answered if and only if it reaches its [DONE] with nothing in
    it but completion events and at least one choice among them.
  */
  lemma AnsweredExactly(lines: seq<Line>)
    ensures Assemble(EmptyAssembly, lines).Answered? <==> Complete(lines) && Objects(lines) != []
  {
    if Assemble(EmptyAssembly, lines).Answered? {
      AnsweredIsComplete(EmptyAssembly, lines);
    }
    if Complete(lines) {
      AssembleReads(EmptyAssembly, lines);
      AddChoicesReads(Objects(lines));
    }
  }

  /**
    For every unstreamed answer and every chunking of it, assembling the
    chunks gives back that answer, its fields in order.
  */
  lemma AssemblingUndoesChunking(lines: seq<Line>, answer: Answer)
    requires Complete(lines) && AnswerIn(lines) == answer
    requires answer.choices != [] && forall c :: c in answer.choices ==> ChoiceApart(c)
    ensures Assemble(EmptyAssembly, lines) == Answered(AnswerObject(answer))
  {
    AssembleReads(EmptyAssembly, lines);
    AddChoicesReads(Objects(lines));
    PartsRendered(Objects(lines));
  }
}
