/** What a chunking may do and change nothing, and what ends a stream early. */
module StreamChunking {
  import opened Common
  import opened JsonText
  import opened StreamAssembly
  import opened StreamRoundTrip
  import opened StreamAnswer

  lemma {:induction false} JoinedInTwo(ps: seq<Joined>, key: string, x: string, y: string)
    ensures JoinString(JoinString(ps, key, x), key, y) == JoinString(ps, key, x + y)
  {
    if ps != [] {
      assert ps[0].body + x + y == ps[0].body + (x + y);
      if ps[0].key != key {
        assert JoinString(ps, key, x) == [ps[0]] + JoinString(ps[1..], key, x);
        assert ([ps[0]] + JoinString(ps[1..], key, x))[1..] == JoinString(ps[1..], key, x);
        JoinedInTwo(ps[1..], key, x, y);
      } else {
        assert ([Joined(key, ps[0].body + x)] + ps[1..])[1..] == ps[1..];
      }
    }
  }

  function Then(p: Option<Message>, ds: seq<Member>): Option<Message> {
    if p.None? then None else AddDelta(p.value, ds)
  }

  lemma {:induction false} DeltaInTwo(p: Message, a: seq<Member>, b: seq<Member>)
    ensures AddDelta(p, a + b) == Then(AddDelta(p, a), b)
    decreases |a|
  {
    if a == [] {
      assert a + b == b;
    } else {
      assert (a + b)[1..] == a[1..] + b;
      if AddDeltaField(p, a[0]).Some? {
        DeltaInTwo(AddDeltaField(p, a[0]).value, a[1..], b);
      }
    }
  }

  predicate TextKey(key: string) {
    key != "role" && key != "tool_calls"
  }

  lemma OneDelta(p: Message, key: string, x: string)
    requires TextKey(key)
    ensures AddDelta(p, [Member(key, Str(x))]) == Some(p.(strings := JoinString(p.strings, key, x)))
  {
    assert [Member(key, Str(x))][1..] == [];
  }

  lemma DeltaCut(p: Message, before: seq<Member>, key: string, x: string, y: string, after: seq<Member>)
    requires TextKey(key)
    ensures AddDelta(p, before + [Member(key, Str(x + y))] + after) ==
            Then(AddDelta(p, before + [Member(key, Str(x))]), [Member(key, Str(y))] + after)
  {
    var whole, first, second := [Member(key, Str(x + y))], [Member(key, Str(x))], [Member(key, Str(y))];
    DeltaInTwo(p, before + whole, after);
    DeltaInTwo(p, before, whole);
    DeltaInTwo(p, before, first);
    if AddDelta(p, before).Some? {
      var q := AddDelta(p, before).value;
      OneDelta(q, key, x + y);
      OneDelta(q, key, x);
      JoinedInTwo(q.strings, key, x, y);
      var q1 := AddDelta(q, first).value;
      OneDelta(q1, key, y);
      DeltaInTwo(q1, second, after);
    }
  }

  /** A chunk of one choice: the frame every event repeats, and one delta. */
  function Chunk(frame: seq<Member>, index: Json, delta: seq<Member>): Json {
    Obj(frame + [Member("choices", Arr([Obj([Member("index", index), Member("delta", Obj(delta))])]))])
  }

  predicate PlainFrame(frame: seq<Member>) {
    forall m :: m in frame ==> m.key != "choices" && m.key != "usage" && m.key != "error"
  }

  lemma {:induction false} FrameOfChunk(frame: seq<Member>, c: Member)
    requires PlainFrame(frame) && c.key == "choices"
    ensures Frame(frame + [c]) == Frame(frame)
    ensures forall before :: LastUsage(frame + [c], before) == before
    ensures Last(frame + [c], "choices", Null) == c.value
    decreases |frame|
  {
    var fs := frame + [c];
    if frame == [] {
      assert fs == [c] && fs[1..] == [];
    } else {
      assert frame[0] in frame;
      assert fs[1..] == frame[1..] + [c];
      FrameOfChunk(frame[1..], c);
    }
  }

  lemma ChunkChoices(frame: seq<Member>, index: Json, delta: seq<Member>)
    requires PlainFrame(frame)
    ensures EventChoices(Chunk(frame, index, delta)) ==
        Some([Obj([Member("index", index), Member("delta", Obj(delta))])])
    ensures Frame(Chunk(frame, index, delta).fields) == Frame(frame)
    ensures forall before :: LastUsage(Chunk(frame, index, delta).fields, before) == before
  {
    var c := Member("choices", Arr([Obj([Member("index", index), Member("delta", Obj(delta))])]));
    FrameOfChunk(frame, c);
    assert c in frame + [c];
  }

  /** What one chunk does to a choice it names. */
  function AddToPart(p: Part, delta: seq<Member>): Option<Part> {
    var q := AddDelta(if p.message.Some? then p.message.value else EmptyMessage, delta);
    if q.None? then None else Some(p.(message := q))
  }

  lemma ChunkFields(p: Part, index: Json, delta: seq<Member>)
    ensures AddFields(p, [Member("index", index), Member("delta", Obj(delta))]) == AddToPart(p, delta)
    ensures ChoiceIndex([Member("index", index), Member("delta", Obj(delta))]) == index
  {
    var i, d := Member("index", index), Member("delta", Obj(delta));
    assert [i, d][1..] == [d] && [d][1..] == [];
    assert Last([d], "index", index) == index;
    var q := AddField(p, d);
    assert q == AddToPart(p, delta);
    assert AddFields(p, [i, d]) == AddFields(p, [d]);
    if q.Some? {
      assert AddFields(q.value, []) == q;
    }
  }

  /** The parts a chunk leaves: its choice's grown, in place or at the end. */
  function PartsAfter(parts: seq<Part>, index: Json, delta: seq<Member>): Option<seq<Part>> {
    var i := Place(parts, index);
    var p := AddToPart(if i < |parts| then parts[i] else NewPart(index), delta);
    if p.None? then None else Some(if i < |parts| then parts[i := p.value] else parts + [p.value])
  }

  lemma ChunkEffect(a: Assembly, frame: seq<Member>, index: Json, delta: seq<Member>)
    requires PlainFrame(frame)
    ensures AddEvent(a, Chunk(frame, index, delta)) ==
            if PartsAfter(a.parts, index, delta).None? then None
            else Some(Assembly(if a.frame == [] then Frame(frame) else a.frame,
                PartsAfter(a.parts, index, delta).value, a.usage))
  {
    ChunkChoices(frame, index, delta);
    var o := Obj([Member("index", index), Member("delta", Obj(delta))]);
    var i := Place(a.parts, index);
    ChunkFields(if i < |a.parts| then a.parts[i] else NewPart(index), index, delta);
    assert [o][1..] == [];
    assert AddChoices(a.parts, [o]) == AddChoice(a.parts, o);
  }

  lemma {:induction false} PlaceKept(parts: seq<Part>, i: nat, p: Part, index: Json)
    requires i < |parts| && p.index == parts[i].index
    ensures Place(parts[i := p], index) == Place(parts, index)
  {
    if i > 0 {
      assert parts[i := p][1..] == parts[1..][i - 1 := p];
      PlaceKept(parts[1..], i - 1, p, index);
    } else {
      assert parts[i := p][1..] == parts[1..];
    }
  }

  lemma {:induction false} PlaceAppended(parts: seq<Part>, p: Part)
    requires Place(parts, p.index) == |parts|
    ensures Place(parts + [p], p.index) == |parts|
  {
    if parts != [] {
      assert (parts + [p])[1..] == parts[1..] + [p];
      PlaceAppended(parts[1..], p);
    } else {
      assert parts + [p] == [p];
    }
  }

  lemma EventCut(a: Assembly, frame: seq<Member>, index: Json, before: seq<Member>, key: string, x: string, y: string,
      after: seq<Member>)
    requires PlainFrame(frame) && TextKey(key)
    ensures var b := AddEvent(a, Chunk(frame, index, before + [Member(key, Str(x))]));
            AddEvent(a, Chunk(frame, index, before + [Member(key, Str(x + y))] + after)) ==
            if b.None? then None else AddEvent(b.value, Chunk(frame, index, [Member(key, Str(y))] + after))
  {
    hide AddEvent, Chunk, AddDelta;
    var d1, d2 := before + [Member(key, Str(x))], [Member(key, Str(y))] + after;
    ChunkEffect(a, frame, index, before + [Member(key, Str(x + y))] + after);
    ChunkEffect(a, frame, index, d1);
    var i := Place(a.parts, index);
    var p := if i < |a.parts| then a.parts[i] else NewPart(index);
    DeltaCut(if p.message.Some? then p.message.value else EmptyMessage, before, key, x, y, after);
    var b := AddEvent(a, Chunk(frame, index, d1));
    if b.Some? {
      ChunkEffect(b.value, frame, index, d2);
      var q := AddToPart(p, d1).value;
      var r := AddToPart(q, d2);
      if i < |a.parts| {
        PlaceKept(a.parts, i, q, index);
        if r.Some? {
          assert a.parts[i := q][i := r.value] == a.parts[i := r.value];
        }
      } else {
        PlaceAppended(a.parts, q);
        if r.Some? {
          assert (a.parts + [q])[i := r.value] == a.parts + [r.value];
        }
      }
    }
  }

  lemma {:induction false} SameAfter(a: Assembly, pre: seq<Line>, x: seq<Line>, y: seq<Line>)
    requires forall b :: Assemble(b, x) == Assemble(b, y)
    ensures Assemble(a, pre + x) == Assemble(a, pre + y)
    decreases |pre|
  {
    if pre == [] {
      assert pre + x == x && pre + y == y;
    } else {
      assert (pre + x)[1..] == pre[1..] + x && (pre + y)[1..] == pre[1..] + y;
      match pre[0]
      case Quiet => SameAfter(a, pre[1..], x, y);
      case Data(payload) =>
        if AddEvent(a, payload).Some? {
          SameAfter(AddEvent(a, payload).value, pre[1..], x, y);
        }
      case _ =>
    }
  }

  /**
    A token's text may be cut anywhere and sent as two chunks, with comments
    or blank lines between, wherever in the stream it stands: what is
    assembled, or refused, is the same.
  */
  lemma TextMayBeCutAnywhere(pre: seq<Line>, frame: seq<Member>, index: Json, before: seq<Member>, key: string,
                             x: string, y: string, after: seq<Member>, post: seq<Line>)
    requires PlainFrame(frame) && TextKey(key)
    ensures Assemble(EmptyAssembly,
        pre + ([Data(Chunk(frame, index, before + [Member(key, Str(x + y))] + after))] + post)) ==
            Assemble(EmptyAssembly, pre + ([Data(Chunk(frame, index, before + [Member(key, Str(x))])), Quiet,
                                            Data(Chunk(frame, index, [Member(key, Str(y))] + after))] + post))
  {
    var e := Data(Chunk(frame, index, before + [Member(key, Str(x + y))] + after));
    var e1 := Data(Chunk(frame, index, before + [Member(key, Str(x))]));
    var e2 := Data(Chunk(frame, index, [Member(key, Str(y))] + after));
    forall a ensures Assemble(a, [e] + post) == Assemble(a, [e1, Quiet, e2] + post) {
      EventCut(a, frame, index, before, key, x, y, after);
      assert ([e] + post)[1..] == post;
      assert ([e1, Quiet, e2] + post)[1..] == [Quiet, e2] + post;
      assert ([Quiet, e2] + post)[1..] == [e2] + post;
      assert ([e2] + post)[1..] == post;
      if AddEvent(a, e1.payload).Some? {
        var b := AddEvent(a, e1.payload).value;
        assert Assemble(b, [Quiet, e2] + post) == Assemble(b, [e2] + post);
      }
    }
    SameAfter(EmptyAssembly, pre, [e] + post, [e1, Quiet, e2] + post);
  }

  /** Chunks of different choices may be interleaved, once each has appeared. */
  lemma ChoicesMayBeInterleaved(a: Assembly, frame: seq<Member>, i: Json, di: seq<Member>, j: Json, dj: seq<Member>,
      post: seq<Line>)
    requires PlainFrame(frame) && i != j && a.frame != []
    requires Place(a.parts, i) < |a.parts| && Place(a.parts, j) < |a.parts|
    ensures Assemble(a, [Data(Chunk(frame, i, di)), Data(Chunk(frame, j, dj))] + post) ==
            Assemble(a, [Data(Chunk(frame, j, dj)), Data(Chunk(frame, i, di))] + post)
  {
    OneThenOther(a, frame, i, di, j, dj, post);
    OneThenOther(a, frame, j, dj, i, di, post);
    var pi, pj := Place(a.parts, i), Place(a.parts, j);
    var qi, qj := AddToPart(a.parts[pi], di), AddToPart(a.parts[pj], dj);
    if qi.Some? && qj.Some? {
      assert a.parts[pi := qi.value][pj := qj.value] == a.parts[pj := qj.value][pi := qi.value];
    }
  }

  lemma OneThenOther(a: Assembly, frame: seq<Member>, i: Json, di: seq<Member>, j: Json, dj: seq<Member>,
      post: seq<Line>)
    requires PlainFrame(frame) && i != j && a.frame != []
    requires Place(a.parts, i) < |a.parts| && Place(a.parts, j) < |a.parts|
    ensures var pi, pj := Place(a.parts, i), Place(a.parts, j);
            var qi, qj := AddToPart(a.parts[pi], di), AddToPart(a.parts[pj], dj);
            Assemble(a, [Data(Chunk(frame, i, di)), Data(Chunk(frame, j, dj))] + post) ==
            if qi.None? || qj.None? then Refused(StreamFailed)
            else Assemble(a.(parts := a.parts[pi := qi.value][pj := qj.value]), post)
  {
    var ei, ej := Data(Chunk(frame, i, di)), Data(Chunk(frame, j, dj));
    assert ([ei, ej] + post)[1..] == [ej] + post && ([ej] + post)[1..] == post;
    ChunkEffect(a, frame, i, di);
    var pi := Place(a.parts, i);
    var qi := AddToPart(a.parts[pi], di);
    if qi.Some? {
      var b := a.(parts := a.parts[pi := qi.value]);
      assert AddEvent(a, ei.payload) == Some(b);
      PlaceKept(a.parts, pi, qi.value, j);
      ChunkEffect(b, frame, j, dj);
    }
  }

  // ------------------------------------------------------------- the end

  /** A stream that ends, or fails, before its [DONE] returns no answer. */
  lemma {:induction false} NoAnswerWithoutDone(a: Assembly, lines: seq<Line>)
    requires Done !in lines
    ensures Assemble(a, lines).Refused?
    decreases |lines|
  {
    if lines != [] {
      assert lines[0] in lines;
      assert forall l :: l in lines[1..] ==> l in lines;
      NoAnswerWithoutDone(a, lines[1..]);
      if lines[0].Data? && AddEvent(a, lines[0].payload).Some? {
        NoAnswerWithoutDone(AddEvent(a, lines[0].payload).value, lines[1..]);
      }
    }
  }

  /** Nothing after the [DONE] is read. */
  lemma {:induction false} NothingAfterDoneIsRead(a: Assembly, pre: seq<Line>, post: seq<Line>)
    ensures Assemble(a, pre + [Done] + post) == Assemble(a, pre + [Done])
    decreases |pre|
  {
    var x, y := pre + [Done] + post, pre + [Done];
    if pre != [] {
      assert x[1..] == pre[1..] + [Done] + post && y[1..] == pre[1..] + [Done];
      NothingAfterDoneIsRead(a, pre[1..], post);
      if pre[0].Data? && AddEvent(a, pre[0].payload).Some? {
        NothingAfterDoneIsRead(AddEvent(a, pre[0].payload).value, pre[1..], post);
      }
    }
  }

  /** The last place of a key among the fields. */
  predicate LastAt(ms: seq<Member>, key: string, i: nat)
    requires i < |ms|
  {
    ms[i].key == key && forall j :: i < j < |ms| ==> ms[j].key != key
  }

  /** An event the server gives as an answer's: its choices are a list, or none, and it is no error. */
  predicate Answering(payload: Json) {
    && payload.Obj?
    && (forall i :: 0 <= i < |payload.fields| && payload.fields[i].key == "error" ==> payload.fields[i].value.Null?)
    && exists i :: 0 <= i < |payload.fields| && LastAt(payload.fields, "choices", i)
                   && (payload.fields[i].value.Arr? || payload.fields[i].value.Null?)
  }

  /** The last value of a key is at its last place. */
  lemma {:induction false} LastIsLast(ms: seq<Member>, key: string, before: Json)
    ensures forall i :: 0 <= i < |ms| && LastAt(ms, key, i) ==> Last(ms, key, before) == ms[i].value
    ensures (forall i :: 0 <= i < |ms| ==> ms[i].key != key) ==> Last(ms, key, before) == before
    ensures HasKey(ms, key) ==> exists i :: 0 <= i < |ms| && LastAt(ms, key, i)
    decreases |ms|
  {
    if ms != [] {
      var rest := ms[1..];
      LastIsLast(rest, key, if ms[0].key == key then ms[0].value else before);
      forall i | 0 <= i < |ms| && LastAt(ms, key, i) ensures Last(ms, key, before) == ms[i].value {
        if i > 0 {
          assert LastAt(rest, key, i - 1);
        } else {
          assert forall j :: 0 <= j < |rest| ==> rest[j] == ms[j + 1];
        }
      }
      if HasKey(rest, key) {
        var i :| 0 <= i < |rest| && LastAt(rest, key, i);
        assert forall j :: i + 1 < j < |ms| ==> ms[j] == rest[j - 1];
        assert LastAt(ms, key, i + 1);
      } else if HasKey(ms, key) {
        assert ms[0].key == key;
        forall j | 0 < j < |ms| ensures ms[j].key != key {
          assert ms[j] == rest[j - 1] && rest[j - 1] in rest;
        }
        assert LastAt(ms, key, 0);
      }
    }
  }

  /** What makes an event a completion event, by its fields. */
  lemma AnEventIsACompletionExactly(payload: Json)
    ensures EventChoices(payload).Some? <==> Answering(payload)
  {
    if payload.Obj? {
      var ms := payload.fields;
      LastIsLast(ms, "choices", Null);
      hide Last;
      assert (exists m :: m in ms && m.key == "error" && !m.value.Null?) <==>
          exists i :: 0 <= i < |ms| && ms[i].key == "error" && !ms[i].value.Null?;
      if i :| 0 <= i < |ms| && LastAt(ms, "choices", i) {
        assert ms[i] in ms;
        assert Last(ms, "choices", Null) == ms[i].value;
        assert forall j :: 0 <= j < |ms| && LastAt(ms, "choices", j) ==> j == i;
      }
    }
  }

  /** An event that is an error, or has no choices, before the end of a stream leaves it without an answer. */
  lemma {:induction false} AnErrorIsNoAnswer(a: Assembly, lines: seq<Line>, i: nat)
    requires i < |lines| && lines[i].Data? && !Answering(lines[i].payload)
    requires forall j :: 0 <= j < i ==> !lines[j].Done?
    ensures Assemble(a, lines).Refused?
    decreases i
  {
    hide Answering, AddChoices, Frame;
    match lines[0]
    case Quiet => AnErrorIsNoAnswer(a, lines[1..], i - 1);
    case Data(payload) =>
      if i == 0 {
        AnEventIsACompletionExactly(payload);
      } else if AddEvent(a, payload).Some? {
        AnErrorIsNoAnswer(AddEvent(a, payload).value, lines[1..], i - 1);
      }
    case _ =>
  }

  /** All the counts of a stream, in order. */
  function Counts(lines: seq<Line>): seq<Json>
    requires Complete(lines)
  {
    match lines[0]
    case Quiet => Counts(lines[1..])
    case Data(payload) => CountsIn(payload.fields) + Counts(lines[1..])
    case _ => []
  }

  function LastOf(counts: seq<Json>, before: Option<Json>): Option<Json> {
    if counts == [] then before else Some(counts[|counts| - 1])
  }

  lemma {:induction false} LastUsageIsLast(fields: seq<Member>, before: Option<Json>)
    ensures LastUsage(fields, before) == LastOf(CountsIn(fields), before)
    decreases |fields|
  {
    if fields != [] {
      LastUsageIsLast(fields[1..],
          if fields[0].key == "usage" && !fields[0].value.Null? then Some(fields[0].value) else before);
    }
  }

  /** An answer's counts are the last any event of its stream gave. */
  lemma {:induction false} TheLastCountsStand(lines: seq<Line>, before: Option<Json>)
    requires Complete(lines)
    ensures UsageIn(lines, before) == LastOf(Counts(lines), before)
    decreases |lines|
  {
    match lines[0]
    case Quiet => TheLastCountsStand(lines[1..], before);
    case Data(payload) =>
      LastUsageIsLast(payload.fields, before);
      TheLastCountsStand(lines[1..], LastUsage(payload.fields, before));
      var rest := Counts(lines[1..]);
      assert CountsIn(payload.fields) + rest == if rest == [] then CountsIn(payload.fields) else
          CountsIn(payload.fields) + rest;
    case _ =>
  }

  /** The object type loses its ".chunk" and nothing else; any other field, or type, stands as it came. */
  lemma OnlyTheSuffixGoes(m: Member)
    ensures Unchunked(m).key == m.key
    ensures m.key != "object" || !m.value.Str? ==> Unchunked(m) == m
    ensures forall t: string :: m == Member("object", Str(t + ".chunk")) ==> Unchunked(m).value == Str(t)
    ensures Unchunked(m) != m ==> m.value == Str(Unchunked(m).value.body + ".chunk")
  {
    forall t: string | m == Member("object", Str(t + ".chunk")) ensures Unchunked(m).value == Str(t) {
      var b := m.value.body;
      assert b[|b| - 6..] == ".chunk" && b[..|b| - 6] == t;
    }
    if Unchunked(m) != m {
      var b := m.value.body;
      assert b == b[..|b| - 6] + b[|b| - 6..];
    }
  }

  /** A choice that names no index is the first. */
  lemma NoIndexIsTheFirst(fields: seq<Member>)
    requires forall i :: 0 <= i < |fields| ==> fields[i].key != "index"
    ensures ChoiceIndex(fields) == Atom("0")
  {
    LastIsLast(fields, "index", Atom("0"));
  }

  /** The text an answer carries means its chunks' texts, end to end. */
  lemma {:induction false} AnswersTextMeansItsChunks(ps: seq<Joined>, key: string)
    requires key in StringKeys(ps) && DecodeAll(BodiesOf(ps, key)).Some?
    ensures exists p :: p in Gathered(ps) && p.key == key && Decode(p.body) == DecodeAll(BodiesOf(ps, key))
    decreases |ps|
  {
    var first := Joined(ps[0].key, Concat(BodiesOf(ps, ps[0].key)));
    assert first in Gathered(ps);
    if ps[0].key == key {
      ConcatDecodes(BodiesOf(ps, key));
    } else {
      var rest := Except(ps[1..], ps[0].key);
      ExceptBodies(ps[1..], ps[0].key, key);
      AnswersTextMeansItsChunks(rest, key);
      var p :| p in Gathered(rest) && p.key == key && Decode(p.body) == DecodeAll(BodiesOf(ps, key));
      assert p in Gathered(ps);
    }
  }

  lemma {:induction false} ExceptBodies(ps: seq<Joined>, other: string, key: string)
    requires other != key
    ensures BodiesOf(Except(ps, other), key) == BodiesOf(ps, key)
    ensures key in StringKeys(ps) ==> key in StringKeys(Except(ps, other))
  {
    if ps != [] {
      ExceptBodies(ps[1..], other, key);
    }
  }
}
