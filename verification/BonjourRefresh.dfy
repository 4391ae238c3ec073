/**
  Advertising on the local network (internal/discovery/discovery.go): the
  refresh loop of each Start, the responders it runs, and the Stops that wait
  for it, as steps that may come in any order.
*/
module BonjourRefresh {
  import opened Common

  type Text = map<string, string>

  /** sameText, which reads a missing key as the empty value. */
  predicate SameText(a: Text, b: Text) {
    |a| == |b| && forall k :: k in a ==> (if k in b then b[k] else "") == a[k]
  }

  predicate Filled(t: Text) {
    forall k :: k in t ==> t[k] != ""
  }

  /** On records with no empty value, as txtRecord's are, that is equality. */
  lemma SameTextIsEquality(a: Text, b: Text)
    requires Filled(a)
    ensures SameText(a, b) <==> a == b
  {
    if SameText(a, b) {
      assert a.Keys <= b.Keys;
      assert |b.Keys - a.Keys| == |b.Keys| - |a.Keys|;
      assert a.Keys == b.Keys;
    }
  }

  /** A responder goroutine and the registration it answers for. */
  datatype Responder = Responder(ad: nat, alive: bool)

  /** A registration: its text, its latest responder, and whether it was withdrawn. */
  datatype Ad = Ad(text: Text, responder: nat, cancelled: bool, spent: bool)

  datatype Report = Lost | Back

  /** Where the refresh goroutine is; Goodbye and LastGoodbye wait for a responder to exit. */
  datatype Pc =
    | Select | StandDown(cur: Text) | Goodbye(cur: Text) | Check(cur: Text) | Put(cur: Text) | After
    | Leaving | LastGoodbye | Done

  datatype Loop = Loop(
    pc: Pc, cancelled: bool, ads: seq<Ad>, responders: seq<Responder>,
    serving: bool, down: bool, last: Text, reports: seq<Report>)

  datatype LoopEvent =
    | CtxDone | SeesDeath | Tick(cur: Text) | StandsDown | Heard | Checks | Puts(ok: bool) | Settles | Leaves | Ends
    | Exits(r: nat) | Cancel

  function NewLoop(text: Text): Loop {
    Loop(Select, false, [Ad(text, 0, false, false)], [Responder(0, true)], true, false, text, [])
  }

  /** The registration the loop holds is the last one it made. */
  function Held(l: Loop): Ad
    requires l.ads != []
  {
    l.ads[|l.ads| - 1]
  }

  predicate Answering(l: Loop) {
    l.ads != [] && Held(l).responder < |l.responders| && l.responders[Held(l).responder].alive
  }

  function SetHeld(l: Loop, ad: Ad): Loop
    requires l.ads != []
  {
    l.(ads := l.ads[|l.ads| - 1 := ad])
  }

  function GoDown(l: Loop): Loop {
    if l.down then l else l.(down := true, reports := l.reports + [Lost])
  }

  function ReportBack(l: Loop): Loop {
    if l.down && l.serving && Answering(l) then l.(down := false, reports := l.reports + [Back]) else l
  }

  /** The timer's arm, up to standing down what no longer says the right thing. */
  function Ticked(l: Loop, cur: Text): Loop {
    var l := ReportBack(l);
    if l.serving && SameText(l.last, cur) then l
    else if !l.serving then l.(pc := Check(cur))
    else l.(pc := StandDown(cur))
  }

  /** standDown, which asks again whether the responder is up: one that is not has no goodbye to wait for. */
  function StoodDown(l: Loop, cur: Text): Loop
    requires l.ads != []
  {
    if !Answering(l) then SetHeld(l, Held(l).(cancelled := true)).(serving := false, pc := Check(cur))
    else SetHeld(l, Held(l).(cancelled := true, spent := true)).(pc := Goodbye(cur))
  }

  /** Serves the registration again if it still says the right thing, or makes another. */
  function PutOut(l: Loop, cur: Text, ok: bool): Loop
    requires l.ads != []
  {
    var r := |l.responders|;
    if !Held(l).spent && SameText(Held(l).text, cur) then
      SetHeld(l, Held(l).(responder := r, cancelled := false))
        .(responders := l.responders + [Responder(|l.ads| - 1, true)], serving := true, last := cur, pc := After)
    else if ok then
      l.(ads := l.ads + [Ad(cur, r, false, false)], responders := l.responders + [Responder(|l.ads|, true)],
         serving := true, last := cur, pc := After)
    else GoDown(l).(pc := Select)
  }

  /** One step of a loop or its responders; an event that cannot come now changes nothing. */
  function LoopStep(l: Loop, e: LoopEvent): Loop {
    if l.ads == [] then l else
    match e
    case Cancel => l.(cancelled := true)
    case Exits(r) =>
      if r < |l.responders| then l.(responders := l.responders[r := l.responders[r].(alive := false)]) else l
    case CtxDone => if l.pc.Select? && l.cancelled then l.(pc := Leaving) else l
    case SeesDeath =>
      if !l.pc.Select? || !l.serving || Answering(l) then l
      else if l.cancelled then l.(pc := Leaving)
      else GoDown(SetHeld(l, Held(l).(cancelled := true)).(serving := false))
    case Tick(cur) => if l.pc.Select? && Filled(cur) then Ticked(l, cur) else l
    case StandsDown => if l.pc.StandDown? then StoodDown(l, l.pc.cur) else l
    case Heard => if l.pc.Goodbye? && !Answering(l) then l.(serving := false, pc := Check(l.pc.cur)) else l
    case Checks => if !l.pc.Check? then l else if l.cancelled then l.(pc := Leaving) else l.(pc := Put(l.pc.cur))
    case Puts(ok) => if l.pc.Put? then PutOut(l, l.pc.cur, ok) else l
    case Settles => if !l.pc.After? then l else if l.cancelled then l.(pc := Leaving) else l.(pc := Select)
    case Leaves =>
      if l.pc.Leaving? then SetHeld(l, Held(l).(cancelled := true, spent := true)).(pc := LastGoodbye) else l
    case Ends => if l.pc.LastGoodbye? && !Answering(l) then l.(pc := Done) else l
  }

  // ---------------------------------------------------------------- one loop

  predicate Alternates(rs: seq<Report>) {
    forall i :: 0 <= i < |rs| ==> rs[i] == if i % 2 == 0 then Lost else Back
  }

  predicate LoopInv(l: Loop) {
    && l.ads != [] && Held(l).responder < |l.responders|
    && (forall r :: 0 <= r < |l.responders| && l.responders[r].alive ==> r == Held(l).responder)
    && l.responders[Held(l).responder].ad == |l.ads| - 1
    && (l.serving ==> l.last == Held(l).text)
    && (l.serving && Held(l).spent ==> l.pc.Goodbye? || l.pc.LastGoodbye? || l.pc.Done?)
    && (!l.serving ==> !Answering(l))
    && (l.pc.StandDown? ==> l.serving && Filled(l.pc.cur))
    && (l.pc.Goodbye? ==> l.serving && Held(l).spent && Filled(l.pc.cur))
    && (l.pc.Check? || l.pc.Put? ==> !l.serving && Filled(l.pc.cur))
    && (l.pc.After? ==> l.serving)
    && (l.pc.Done? ==> !Answering(l) && l.cancelled && Held(l).spent)
    && (l.pc.Leaving? || l.pc.LastGoodbye? ==> l.cancelled) && (l.pc.LastGoodbye? ==> Held(l).spent)
    && (forall i :: 0 <= i < |l.ads| ==> Filled(l.ads[i].text)) && Filled(l.last)
    && Alternates(l.reports) && (l.down <==> |l.reports| % 2 == 1)
  }

  lemma PutOutKeeps(l: Loop, ok: bool)
    requires LoopInv(l) && l.pc.Put?
    ensures LoopInv(PutOut(l, l.pc.cur, ok))
  {
    SameTextIsEquality(Held(l).text, l.pc.cur);
  }

  lemma TickedKeeps(l: Loop, cur: Text)
    requires LoopInv(l) && l.pc.Select? && Filled(cur)
    ensures LoopInv(Ticked(l, cur))
  {
  }

  lemma LoopStepKeeps(l: Loop, e: LoopEvent)
    requires LoopInv(l)
    ensures LoopInv(LoopStep(l, e))
  {
    hide PutOut, Ticked, SameText;
    match e
    case Tick(cur) =>
      if l.pc.Select? && Filled(cur) {
        TickedKeeps(l, cur);
      }
    case Puts(ok) =>
      if l.pc.Put? {
        PutOutKeeps(l, ok);
      }
    case _ =>
  }

  /**
    Whenever a responder starts, none of the loop's is live, its registration
    was never withdrawn, and it carries the text just read.
  */
  lemma AResponderStartsAlone(l: Loop, e: LoopEvent)
    requires LoopInv(l) && |LoopStep(l, e).responders| > |l.responders|
    ensures forall r :: 0 <= r < |l.responders| ==> !l.responders[r].alive
    ensures var next := LoopStep(l, e);
            && l.pc.Put? && !l.serving && next.serving && next.last == l.pc.cur == Held(next).text && !Held(next).spent
            && (|next.ads| == |l.ads| ==> !Held(l).spent)
            && next.responders[|l.responders|] == Responder(|next.ads| - 1, true)
  {
    SameTextIsEquality(Held(l).text, if l.pc.Put? then l.pc.cur else map[]);
  }

  /** A registration once withdrawn stays so, and no responder is started for it. */
  lemma AWithdrawnAdIsNeverServed(l: Loop, e: LoopEvent, i: nat)
    requires LoopInv(l) && i < |l.ads| && l.ads[i].spent
    ensures var next := LoopStep(l, e);
            && i < |next.ads| && next.ads[i].spent && next.ads[i].responder == l.ads[i].responder
            && (forall r :: |l.responders| <= r < |next.responders| ==> next.responders[r].ad != i)
  {
    hide SameText, ReportBack, Filled, Alternates;
    match e
    case Puts(ok) =>
    case Tick(cur) => ATickServesNothing(l, cur);
    case _ =>
  }

  lemma ATickServesNothing(l: Loop, cur: Text)
    ensures LoopStep(l, Tick(cur)).ads == l.ads && LoopStep(l, Tick(cur)).responders == l.responders
  {
  }

  /** However the loop goes on from there. */
  lemma {:induction false} AWithdrawnAdIsGone(l: Loop, es: seq<LoopEvent>, i: nat)
    requires LoopInv(l) && i < |l.ads| && l.ads[i].spent
    ensures var later := LoopRun(l, es);
            && |later.responders| >= |l.responders|
            && (forall r :: |l.responders| <= r < |later.responders| ==> later.responders[r].ad != i)
    decreases |es|
  {
    if es != [] {
      LoopStepKeeps(l, es[0]);
      AWithdrawnAdIsNeverServed(l, es[0], i);
      StepsOnlyAdd(l, es[0]);
      hide LoopStep, LoopInv;
      AWithdrawnAdIsGone(LoopStep(l, es[0]), es[1..], i);
      NamesKept(LoopStep(l, es[0]), es[1..], |l.responders|);
    }
  }

  /** A responder is of one registration for good. */
  lemma StepsOnlyAdd(l: Loop, e: LoopEvent)
    requires LoopInv(l)
    ensures var next := LoopStep(l, e);
            && |next.responders| >= |l.responders|
            && forall r :: 0 <= r < |l.responders| ==> next.responders[r].ad == l.responders[r].ad
  {
  }

  lemma {:induction false} NamesKept(l: Loop, es: seq<LoopEvent>, from: nat)
    requires LoopInv(l)
    ensures var later := LoopRun(l, es);
            && |later.responders| >= |l.responders|
            && forall r :: from <= r < |l.responders| ==> later.responders[r].ad == l.responders[r].ad
    decreases |es|
  {
    if es != [] {
      LoopStepKeeps(l, es[0]);
      StepsOnlyAdd(l, es[0]);
      hide LoopStep, LoopInv;
      NamesKept(LoopStep(l, es[0]), es[1..], from);
    }
  }

  /** The service is reported back only while a responder is up. */
  lemma BackMeansAnswering(l: Loop, e: LoopEvent)
    requires LoopInv(l)
    ensures var next := LoopStep(l, e);
            |next.reports| > |l.reports| && next.reports[|l.reports|] == Back ==> Answering(l) && l.down && l.serving
  {
    assert |l.reports + [Back]| == |l.reports| + 1;
  }

  /** What a tick comes to: nothing for the record that is served, and a way to any other. */
  lemma ATickMovesOn(l: Loop, cur: Text)
    requires LoopInv(l) && l.pc.Select? && Filled(cur)
    ensures var t := LoopStep(l, Tick(cur));
            && t.ads == l.ads && t.responders == l.responders && t.serving == l.serving && t.last == l.last
            && t.pc == (if !l.serving then Check(cur) else if cur != l.last then StandDown(cur) else Select)
            && (if l.down && l.serving && Answering(l) then !t.down && t.reports == l.reports + [Back]
                else t.down == l.down && t.reports == l.reports)
  {
    SameTextIsEquality(l.last, cur);
  }

  /** Standing down withdraws a registration whose responder is up, and only cancels one whose responder has gone. */
  lemma StandingDownWithdraws(l: Loop)
    requires LoopInv(l) && l.pc.StandDown?
    ensures var t := LoopStep(l, StandsDown);
            && |t.ads| == |l.ads| && Held(t) == Held(l).(cancelled := true, spent := Answering(l) || Held(l).spent)
            && t.responders == l.responders
            && (if Answering(l) then t.pc.Goodbye? && t.serving else t.pc.Check? && !t.serving)
  {
  }

  /** A responder that has gone is noticed, reported once and not served as if it were there. */
  lemma ADeathIsReported(l: Loop)
    requires LoopInv(l) && l.pc.Select? && l.serving && !Answering(l) && !l.cancelled
    ensures var t := LoopStep(l, SeesDeath);
            && t.pc.Select? && !t.serving && t.down && t.reports == (if l.down then l.reports else l.reports + [Lost])
            && |t.ads| == |l.ads| && Held(t) == Held(l).(cancelled := true)
  {
  }

  /** So is a record that could not be published; the next tick tries again. */
  lemma AFailedPublishIsReported(l: Loop)
    requires LoopInv(l) && l.pc.Put? && (Held(l).spent || Held(l).text != l.pc.cur)
    ensures var t := LoopStep(l, Puts(false));
            && t.pc.Select? && !t.serving && t.down && t.reports == (if l.down then l.reports else l.reports + [Lost])
            && t.ads == l.ads
  {
    SameTextIsEquality(Held(l).text, l.pc.cur);
  }

  /** What follows a tick that moves on: the goodbye heard, if one is said, and a publication that works. */
  function Onward(l: Loop): seq<LoopEvent>
    requires l.ads != []
  {
    [StandsDown, Exits(Held(l).responder), Heard] + [Checks, Puts(true), Settles]
  }

  lemma RunOne(l: Loop, e: LoopEvent, rest: seq<LoopEvent>)
    ensures LoopRun(l, [e] + rest) == LoopRun(LoopStep(l, e), rest)
  {
    assert ([e] + rest)[1..] == rest;
  }

  lemma RunThree(l: Loop, a: LoopEvent, b: LoopEvent, c: LoopEvent, rest: seq<LoopEvent>)
    ensures LoopRun(l, [a, b, c] + rest) == LoopRun(LoopStep(LoopStep(LoopStep(l, a), b), c), rest)
  {
    hide LoopStep;
    RunOne(l, a, [b, c] + rest);
    RunOne(LoopStep(l, a), b, [c] + rest);
    RunOne(LoopStep(LoopStep(l, a), b), c, rest);
    assert [a, b, c] + rest == [a] + ([b, c] + rest) && [b, c] + rest == [b] + ([c] + rest);
  }

  /** From a tick that moves on to the last look at the context, with nothing live. */
  lemma GetsToCheck(l: Loop, cur: Text)
    requires LoopInv(l) && l.pc.Select? && Filled(cur) && !(l.serving && l.last == cur)
    ensures var t := LoopStep(LoopStep(LoopStep(LoopStep(l, Tick(cur)), StandsDown), Exits(Held(l).responder)), Heard);
            && t.pc == Check(cur) && t.cancelled == l.cancelled && |t.ads| == |l.ads| && Held(t).text == Held(l).text
            && (!l.serving ==> Held(t).spent == Held(l).spent)
  {
    var t1 := LoopStep(l, Tick(cur));
    ATickMovesOn(l, cur);
    LoopStepKeeps(l, Tick(cur));
    LoopStepKeeps(t1, StandsDown);
    LoopStepKeeps(LoopStep(t1, StandsDown), Exits(Held(l).responder));
  }

  lemma PutsIt(l: Loop)
    requires LoopInv(l) && l.pc.Check? && !l.cancelled
    ensures var t := LoopStep(LoopStep(LoopStep(l, Checks), Puts(true)), Settles);
            && t.pc.Select? && t.serving && Answering(t)
            && t.last == l.pc.cur == Held(t).text && !Held(t).spent && !Held(t).cancelled
            && |t.ads| == |l.ads| + if !Held(l).spent && Held(l).text == l.pc.cur then 0 else 1
  {
    SameTextIsEquality(Held(l).text, l.pc.cur);
  }

  /**
    A changed record is advertised, and so is one that was lost: from the tick
    that reads it the loop's own steps, with the goodbye heard and the
    publication working, reach a live responder whose registration carries it.
    A registration that was lost and still says the right thing is served
    again; for any other record a new one is made.
  */
  lemma AChangedRecordIsAdvertised(l: Loop, cur: Text)
    requires LoopInv(l) && l.pc.Select? && Filled(cur) && !l.cancelled && !(l.serving && l.last == cur)
    ensures var t := LoopRun(LoopStep(l, Tick(cur)), Onward(l));
            && t.pc.Select? && t.serving && Answering(t)
            && t.last == cur == Held(t).text && !Held(t).spent && !Held(t).cancelled
            && (!l.serving && !Held(l).spent && Held(l).text == cur ==> |t.ads| == |l.ads|)
            && (Held(l).text != cur ==> |t.ads| == |l.ads| + 1)
  {
    var t1 := LoopStep(l, Tick(cur));
    RunThree(t1, StandsDown, Exits(Held(l).responder), Heard, [Checks, Puts(true), Settles]);
    var t4 := LoopStep(LoopStep(LoopStep(t1, StandsDown), Exits(Held(l).responder)), Heard);
    LoopStepKeeps(l, Tick(cur));
    LoopStepKeeps(t1, StandsDown);
    LoopStepKeeps(LoopStep(t1, StandsDown), Exits(Held(l).responder));
    LoopStepKeeps(LoopStep(LoopStep(t1, StandsDown), Exits(Held(l).responder)), Heard);
    GetsToCheck(l, cur);
    hide LoopStep, LoopInv, SameText;
    RunThree(t4, Checks, Puts(true), Settles, []);
    assert [Checks, Puts(true), Settles] + [] == [Checks, Puts(true), Settles];
    PutsIt(t4);
  }

  /** A loop that was told to stop leaves at its next look, and reports no outage for a responder that stopped too. */
  lemma ACancelledLoopLeaves(l: Loop, e: LoopEvent)
    requires LoopInv(l) && l.cancelled
    requires (l.pc.Select? && (e.CtxDone? || (e.SeesDeath? && l.serving && !Answering(l))))
             || (l.pc.Check? && e.Checks?) || (l.pc.After? && e.Settles?)
    ensures LoopStep(l, e) == l.(pc := Leaving)
  {
  }

  /** A finished loop stays finished, and runs nothing again. */
  lemma DoneIsFinal(l: Loop, e: LoopEvent)
    requires LoopInv(l) && l.pc.Done?
    ensures LoopStep(l, e).pc.Done? && !Answering(LoopStep(l, e))
  {
  }

  /** What a cancelled loop waits for next, and how far it is from its end. */
  function Awaited(l: Loop): LoopEvent
    requires LoopInv(l)
  {
    match l.pc
    case Select => CtxDone
    case StandDown(_) => StandsDown
    case Goodbye(_) => if Answering(l) then Exits(Held(l).responder) else Heard
    case Check(_) => Checks
    case Put(_) => Puts(false)
    case After => Settles
    case Leaving => Leaves
    case LastGoodbye => if Answering(l) then Exits(Held(l).responder) else Ends
    case Done => Ends
  }

  function Distance(l: Loop): nat {
    match l.pc
    case Select => 4
    case StandDown(_) => 10
    case Goodbye(_) => if Answering(l) then 9 else 8
    case Check(_) => 7
    case Put(_) => 6
    case After => 5
    case Leaving => 3
    case LastGoodbye => if Answering(l) then 2 else 1
    case Done => 0
  }

  lemma AwaitedComesNearer(l: Loop)
    requires LoopInv(l) && l.cancelled && !l.pc.Done?
    ensures LoopInv(LoopStep(l, Awaited(l))) && LoopStep(l, Awaited(l)).cancelled
    ensures Distance(LoopStep(l, Awaited(l))) < Distance(l)
  {
    LoopStepKeeps(l, Awaited(l));
    hide LoopInv, SameText;
    assert l.ads != [] && Held(l).responder < |l.responders| by {
      HasAd(l);
    }
  }

  lemma HasAd(l: Loop)
    requires LoopInv(l)
    ensures l.ads != [] && Held(l).responder < |l.responders|
  {
  }

  function LoopRun(l: Loop, es: seq<LoopEvent>): Loop
    decreases |es|
  {
    if es == [] then l else LoopRun(LoopStep(l, es[0]), es[1..])
  }

  lemma {:induction false} EndingWithin(l: Loop) returns (es: seq<LoopEvent>)
    requires LoopInv(l) && l.cancelled
    ensures LoopRun(l, es).pc.Done? && |es| <= Distance(l)
    ensures forall e :: e in es ==> !e.Tick? && !e.Cancel?
    decreases Distance(l)
  {
    if l.pc.Done? {
      es := [];
    } else {
      var e := Awaited(l);
      AwaitedComesNearer(l);
      var rest := EndingWithin(LoopStep(l, e));
      es := [e] + rest;
      assert es[1..] == rest;
    }
  }

  /** A loop that was cancelled can always end: no Stop waits for something that cannot come. */
  lemma ACancelledLoopCanEnd(l: Loop)
    requires LoopInv(l) && l.cancelled
    ensures exists es: seq<LoopEvent> ::
              LoopRun(l, es).pc.Done? && |es| <= 10 && forall e :: e in es ==> !e.Tick? && !e.Cancel?
  {
    var es := EndingWithin(l);
  }

  // ------------------------------------------------------- Start and Stop

  datatype Stopping = Waiting(loop: nat) | Returned(taken: Option<nat>)

  datatype World = World(loops: seq<Loop>, current: Option<nat>, stops: seq<Stopping>)

  datatype Event = Start(text: Text, ok: bool) | Stop | StopReturns(i: nat) | InLoop(l: nat, e: LoopEvent)

  const Quiet := World([], None, [])

  function Step(w: World, e: Event): World {
    match e
    case Start(text, ok) =>
      if w.current.Some? || !ok || !Filled(text) then w
      else w.(loops := w.loops + [NewLoop(text)], current := Some(|w.loops|))
    case Stop =>
      if w.current.None? || w.current.value >= |w.loops| then w.(stops := w.stops + [Returned(None)])
      else
        var l := w.current.value;
        w.(loops := w.loops[l := LoopStep(w.loops[l], Cancel)], current := None, stops := w.stops + [Waiting(l)])
    case StopReturns(i) =>
      if i < |w.stops| && w.stops[i].Waiting? && w.stops[i].loop < |w.loops| && w.loops[w.stops[i].loop].pc.Done?
      then w.(stops := w.stops[i := Returned(Some(w.stops[i].loop))]) else w
    case InLoop(l, e) => if l < |w.loops| then w.(loops := w.loops[l := LoopStep(w.loops[l], e)]) else w
  }

  function Run(w: World, es: seq<Event>): World
    decreases |es|
  {
    if es == [] then w else Run(Step(w, es[0]), es[1..])
  }

  predicate Inv(w: World) {
    && (forall l :: 0 <= l < |w.loops| ==> LoopInv(w.loops[l]))
    && (w.current.Some? ==> w.current.value < |w.loops|)
    && (forall i :: 0 <= i < |w.stops| ==> StopInv(w, w.stops[i]))
  }

  predicate StopInv(w: World, s: Stopping) {
    match s
    case Waiting(l) => l < |w.loops| && w.loops[l].cancelled
    case Returned(None) => true
    case Returned(Some(l)) => l < |w.loops| && w.loops[l].pc.Done?
  }

  lemma LoopStepHolds(l: Loop, e: LoopEvent)
    requires LoopInv(l)
    ensures l.cancelled ==> LoopStep(l, e).cancelled
    ensures l.pc.Done? ==> LoopStep(l, e).pc.Done?
  {
  }

  lemma StepInv(w: World, e: Event)
    requires Inv(w)
    ensures Inv(Step(w, e))
  {
    hide LoopInv, LoopStep;
    var next := Step(w, e);
    match e
    case Start(text, ok) =>
      if next != w {
        NewLoopInv(text);
      }
    case Stop =>
      if w.current.Some? {
        CancelKeeps(w.loops[w.current.value]);
      }
    case InLoop(l, le) =>
      if l < |w.loops| {
        LoopStepKeeps(w.loops[l], le);
        LoopStepHolds(w.loops[l], le);
      }
    case StopReturns(i) =>
  }

  lemma NewLoopInv(text: Text)
    requires Filled(text)
    ensures LoopInv(NewLoop(text))
  {
  }

  lemma CancelKeeps(l: Loop)
    requires LoopInv(l)
    ensures LoopStep(l, Cancel) == l.(cancelled := true) && LoopInv(LoopStep(l, Cancel))
  {
    LoopStepKeeps(l, Cancel);
  }

  lemma {:induction false} RunInv(w: World, es: seq<Event>)
    requires Inv(w)
    ensures Inv(Run(w, es))
    decreases |es|
  {
    if es != [] {
      StepInv(w, es[0]);
      RunInv(Step(w, es[0]), es[1..]);
    }
  }

  /** A responder of the world that is live. */
  predicate Live(w: World, l: int, r: int) {
    0 <= l < |w.loops| && 0 <= r < |w.loops[l].responders| && w.loops[l].responders[r].alive
  }

  /** In every interleaving each Start has at most one live responder, and it carries the text last read. */
  lemma OneLiveResponderEach(es: seq<Event>, l: int, r: int, s: int)
    requires Live(Run(Quiet, es), l, r) && Live(Run(Quiet, es), l, s)
    ensures r == s
    ensures var loop := Run(Quiet, es).loops[l];
            loop.responders[r].ad == |loop.ads| - 1 && (loop.serving && loop.last == Held(loop).text) && !loop.pc.Done?
  {
    RunInv(Quiet, es);
    assert LoopInv(Run(Quiet, es).loops[l]);
  }

  /** When a Stop that had something to stop returns, none of it is live, then or ever after. */
  lemma {:induction false} NothingOutlivesItsStop(es: seq<Event>, more: seq<Event>, i: nat, l: nat, r: int)
    requires i < |Run(Quiet, es).stops| && Run(Quiet, es).stops[i] == Returned(Some(l))
    ensures !Live(Run(Run(Quiet, es), more), l, r)
  {
    RunInv(Quiet, es);
    assert StopInv(Run(Quiet, es), Run(Quiet, es).stops[i]);
    DoneStays(Run(Quiet, es), more, l);
    RunInv(Run(Quiet, es), more);
    assert LoopInv(Run(Run(Quiet, es), more).loops[l]);
  }

  lemma {:induction false} DoneStays(w: World, es: seq<Event>, l: nat)
    requires Inv(w) && l < |w.loops| && w.loops[l].pc.Done?
    ensures l < |Run(w, es).loops| && Run(w, es).loops[l].pc.Done?
    decreases |es|
  {
    hide LoopInv, LoopStep;
    if es != [] {
      StepInv(w, es[0]);
      match es[0]
      case InLoop(k, le) =>
        if k < |w.loops| {
          LoopStepHolds(w.loops[k], le);
        }
        DoneStays(Step(w, es[0]), es[1..], l);
      case Stop =>
        if w.current.Some? {
          CancelKeeps(w.loops[w.current.value]);
        }
        DoneStays(Step(w, es[0]), es[1..], l);
      case _ =>
        DoneStays(Step(w, es[0]), es[1..], l);
    }
  }

  // --------------------------------------------------- starts that overlap

  /** A loop with a responder live, or past its last look at the context and about to start one. */
  predicate Able(l: Loop) {
    Answering(l) || l.pc.Put?
  }

  predicate NoneAble(w: World) {
    forall l :: 0 <= l < |w.loops| ==> !Able(w.loops[l])
  }

  predicate TakesEffect(w: World, e: Event) {
    e.Start? && w.current.None? && e.ok && Filled(e.text)
  }

  /** Every Start that takes effect finds no earlier loop with a responder live or about to start. */
  predicate StartsFindNone(w: World, es: seq<Event>)
    decreases |es|
  {
    es == [] || ((TakesEffect(w, es[0]) ==> NoneAble(w)) && StartsFindNone(Step(w, es[0]), es[1..]))
  }

  predicate NoStart(w: World, es: seq<Event>)
    decreases |es|
  {
    es == [] || (!TakesEffect(w, es[0]) && NoStart(Step(w, es[0]), es[1..]))
  }

  ghost predicate OneLive(w: World) {
    forall l, r, k, s :: Live(w, l, r) && Live(w, k, s) ==> l == k && r == s
  }

  /** At every point of a run, and whatever follows it but another Start, at most one responder is live. */
  ghost predicate OneLiveThroughout(w: World, es: seq<Event>)
    decreases |es|
  {
    && (forall more: seq<Event> :: NoStart(w, more) ==> OneLive(Run(w, more)))
    && (es == [] || OneLiveThroughout(Step(w, es[0]), es[1..]))
  }

  /** Only the last Start's loop can have a responder; those before it were cancelled, and it too once taken. */
  ghost predicate Succeeding(w: World) {
    && Inv(w)
    && (w.current.Some? ==> w.current.value == |w.loops| - 1)
    && (w.current.None? && w.loops != [] ==> w.loops[|w.loops| - 1].cancelled)
    && (forall l :: 0 <= l < |w.loops| - 1 ==> w.loops[l].cancelled && !Able(w.loops[l]))
  }

  lemma UnableStays(l: Loop, e: LoopEvent)
    requires LoopInv(l) && l.cancelled && !Able(l)
    ensures LoopStep(l, e).cancelled && !Able(LoopStep(l, e))
  {
  }

  lemma SucceedingKept(w: World, e: Event)
    requires Succeeding(w) && (TakesEffect(w, e) ==> NoneAble(w))
    ensures Succeeding(Step(w, e))
  {
    hide LoopInv, LoopStep, Able;
    StepInv(w, e);
    match e
    case InLoop(l, le) =>
      if l < |w.loops| {
        LoopStepHolds(w.loops[l], le);
        if l < |w.loops| - 1 {
          UnableStays(w.loops[l], le);
        }
      }
    case Stop =>
      if w.current.Some? {
        CancelKeeps(w.loops[w.current.value]);
      }
    case _ =>
  }

  lemma SucceedingMeansOne(w: World)
    requires Succeeding(w)
    ensures OneLive(w)
  {
    forall l, r | Live(w, l, r) ensures l == |w.loops| - 1 && r == Held(w.loops[l]).responder {
      assert LoopInv(w.loops[l]);
    }
  }

  lemma {:induction false} SucceedingRun(w: World, es: seq<Event>)
    requires Succeeding(w) && StartsFindNone(w, es)
    ensures Succeeding(Run(w, es))
    decreases |es|
  {
    hide Succeeding, Step, NoneAble;
    if es != [] {
      SucceedingKept(w, es[0]);
      SucceedingRun(Step(w, es[0]), es[1..]);
    }
  }

  lemma {:induction false} NoStartFindsNone(w: World, es: seq<Event>)
    requires NoStart(w, es)
    ensures StartsFindNone(w, es)
    decreases |es|
  {
    hide Step;
    if es != [] {
      NoStartFindsNone(Step(w, es[0]), es[1..]);
    }
  }

  /** A Start that finds a loop able has a continuation with two responders live. */
  lemma AStartThatFindsOneOverlaps(w: World, e: Event, l: nat)
    requires Succeeding(w) && TakesEffect(w, e) && l < |w.loops| && Able(w.loops[l])
    ensures exists more: seq<Event> :: NoStart(Step(w, e), more) && !OneLive(Run(Step(w, e), more))
  {
    var next, n := Step(w, e), |w.loops|;
    assert next.loops[l] == w.loops[l] && next.loops[n] == NewLoop(e.text);
    if Answering(w.loops[l]) {
      TwoLive(next, l, n);
      assert NoStart(next, []) && Run(next, []) == next;
    } else {
      var put := InLoop(l, Puts(true));
      var later := Step(next, put);
      assert [put][1..] == [];
      assert later.loops[n] == next.loops[n];
      assert Answering(later.loops[l]) by {
        PutAnswers(w.loops[l]);
      }
      TwoLive(later, l, n);
      assert NoStart(next, [put]);
      assert Run(next, [put]) == Run(later, []) == later;
    }
  }

  lemma PutAnswers(l: Loop)
    requires l.ads != [] && l.pc.Put?
    ensures Answering(LoopStep(l, Puts(true)))
  {
  }

  lemma TwoLive(w: World, l: nat, k: nat)
    requires l < k < |w.loops| && Answering(w.loops[l]) && Answering(w.loops[k])
    ensures !OneLive(w)
  {
    assert Live(w, l, Held(w.loops[l]).responder) && Live(w, k, Held(w.loops[k]).responder);
  }

  lemma {:induction false} OneLiveExactlyFrom(w: World, es: seq<Event>)
    requires Succeeding(w)
    ensures StartsFindNone(w, es) <==> OneLiveThroughout(w, es)
    decreases |es|
  {
    hide Succeeding, Step, OneLive, Able;
    forall more | NoStart(w, more) ensures OneLive(Run(w, more)) {
      NoStartFindsNone(w, more);
      SucceedingRun(w, more);
      SucceedingMeansOne(Run(w, more));
    }
    if es != [] {
      var e := es[0];
      if TakesEffect(w, e) && !NoneAble(w) {
        var l :| 0 <= l < |w.loops| && Able(w.loops[l]);
        AStartThatFindsOneOverlaps(w, e, l);
        assert !OneLiveThroughout(Step(w, e), es[1..]);
      } else {
        SucceedingKept(w, e);
        OneLiveExactlyFrom(Step(w, e), es[1..]);
      }
    }
  }

  /**
    At most one responder is live at every point of a run, whatever follows it
    but another Start, if and only if every Start that takes effect finds no
    earlier loop with a responder live or about to start.
  */
  lemma OneLiveResponderExactly(es: seq<Event>)
    ensures StartsFindNone(Quiet, es) <==> OneLiveThroughout(Quiet, es)
  {
    OneLiveExactlyFrom(Quiet, es);
  }

  /** With such Starts at most one responder is live in all. */
  lemma OneLiveResponder(es: seq<Event>, l: int, r: int, k: int, s: int)
    requires StartsFindNone(Quiet, es)
    requires Live(Run(Quiet, es), l, r) && Live(Run(Quiet, es), k, s)
    ensures l == k && r == s
  {
    SucceedingRun(Quiet, es);
    SucceedingMeansOne(Run(Quiet, es));
  }

  /** Every Stop that took a loop has returned: what a caller of Start can see to. */
  predicate StopsReturned(w: World) {
    forall i :: 0 <= i < |w.stops| ==> !w.stops[i].Waiting?
  }

  predicate StartsAfterStops(w: World, es: seq<Event>)
    decreases |es|
  {
    es == [] || ((TakesEffect(w, es[0]) ==> StopsReturned(w)) && StartsAfterStops(Step(w, es[0]), es[1..]))
  }

  /** A loop that is not the current one was taken by some Stop. */
  ghost predicate Taken(w: World) {
    forall l :: 0 <= l < |w.loops| && w.current != Some(l) ==>
      exists i :: 0 <= i < |w.stops| && (w.stops[i] == Waiting(l) || w.stops[i] == Returned(Some(l)))
  }

  lemma TakenKept(w: World, e: Event)
    requires Inv(w) && Taken(w)
    ensures Taken(Step(w, e))
  {
    hide LoopInv, LoopStep;
    var next := Step(w, e);
    forall l | 0 <= l < |next.loops| && next.current != Some(l)
      ensures exists i :: 0 <= i < |next.stops| && (next.stops[i] == Waiting(l) || next.stops[i] == Returned(Some(l)))
    {
      if w.current == Some(l) {
        assert next.stops[|w.stops|] == Waiting(l);
      } else {
        var i :| 0 <= i < |w.stops| && (w.stops[i] == Waiting(l) || w.stops[i] == Returned(Some(l)));
        assert next.stops[i] == Waiting(l) || next.stops[i] == Returned(Some(l));
      }
    }
  }

  /** When every Stop has returned and nothing is current, nothing of any loop is live or can be. */
  lemma StoppedMeansNone(w: World)
    requires Inv(w) && Taken(w) && w.current.None? && StopsReturned(w)
    ensures NoneAble(w)
  {
    hide LoopInv, Able;
    forall l | 0 <= l < |w.loops| ensures !Able(w.loops[l]) {
      assert w.current != Some(l);
      var i :| 0 <= i < |w.stops| && (w.stops[i] == Waiting(l) || w.stops[i] == Returned(Some(l)));
      assert StopInv(w, w.stops[i]);
      DoneIsUnable(w.loops[l]);
    }
  }

  lemma DoneIsUnable(l: Loop)
    requires LoopInv(l) && l.pc.Done?
    ensures !Able(l)
  {
  }

  lemma {:induction false} StartsAfterStopsFindNone(w: World, es: seq<Event>)
    requires Inv(w) && Taken(w) && StartsAfterStops(w, es)
    ensures StartsFindNone(w, es)
    decreases |es|
  {
    hide Inv, Taken, Step, NoneAble, StopsReturned;
    if es != [] {
      StepInv(w, es[0]);
      TakenKept(w, es[0]);
      if TakesEffect(w, es[0]) {
        StoppedMeansNone(w);
      }
      StartsAfterStopsFindNone(Step(w, es[0]), es[1..]);
    }
  }

  /** A caller that starts again only once every Stop has returned never has two responders live. */
  lemma StartingAfterStoppingIsSafe(es: seq<Event>)
    requires StartsAfterStops(Quiet, es)
    ensures OneLiveThroughout(Quiet, es) && OneLive(Run(Quiet, es))
  {
    StartsAfterStopsFindNone(Quiet, es);
    OneLiveResponderExactly(es);
    SucceedingRun(Quiet, es);
    SucceedingMeansOne(Run(Quiet, es));
  }

  lemma ThreeSteps(w: World, es: seq<Event>)
    requires |es| == 3
    ensures Run(w, es) == Step(Step(Step(w, es[0]), es[1]), es[2])
  {
    hide Step;
    assert es[1..][0] == es[1] && es[1..][1..][0] == es[2] && es[1..][1..][1..] == [];
    var w1 := Step(w, es[0]);
    var w2 := Step(w1, es[1]);
    assert Run(w1, es[1..]) == Run(w2, es[1..][1..]);
  }

  /** A Start made while a Stop still waits for the goodbye leaves two live. */
  lemma AStartDuringAStopOverlaps(text: Text)
    requires Filled(text)
    ensures var w := Run(Quiet, [Start(text, true), Stop, Start(text, true)]); Live(w, 0, 0) && Live(w, 1, 0)
  {
    var es := [Start(text, true), Stop, Start(text, true)];
    ThreeSteps(Quiet, es);
    var w1 := Step(Quiet, es[0]);
    assert w1 == World([NewLoop(text)], Some(0), []);
    var w2 := Step(w1, es[1]);
    assert w2 == World([NewLoop(text).(cancelled := true)], None, [Waiting(0)]);
  }

  /** A second Stop does not wait for the first: it may return while a responder is live. */
  lemma ASecondStopReturnsAtOnce(text: Text)
    requires Filled(text)
    ensures var w := Run(Quiet, [Start(text, true), Stop, Stop]);
            |w.stops| == 2 && w.stops[1] == Returned(None) && Live(w, 0, 0)
  {
    var es := [Start(text, true), Stop, Stop];
    ThreeSteps(Quiet, es);
    var w1 := Step(Quiet, es[0]);
    assert w1 == World([NewLoop(text)], Some(0), []);
    var w2 := Step(w1, es[1]);
    assert w2 == World([NewLoop(text).(cancelled := true)], None, [Waiting(0)]);
  }
}
