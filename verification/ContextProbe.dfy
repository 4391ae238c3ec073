/**
  Measuring the context window a model really serves
  (internal/contextprobe/probe.go): a calibration at the floor, a doubling
  sweep and a bisection, as a walk over the marks a paused run keeps. A fixed
  model server is a function from the prompt asked for to its reply.
*/
module ContextProbe {
  import opened Common

  type pos = n: nat | n > 0 witness 1

  datatype Bound = ModelItself | PrefillDeadline | ServedWindow | MemoryGuard

  datatype Reply = Accepted(tokens: pos, prompt: nat) | Refused(bound: Bound, guard: nat)

  /** Its reply to a prompt of a size, written at so many characters a token. */
  type Server = (int, real) -> Reply

  /** The settings a figure is drawn under. */
  datatype Provenance = Provenance(runtime: string, budget: int, concurrency: int, served: int)

  /**
    Where a measurement stands: the largest size that came back and what it
    counted, the smallest that did not and what stopped it.
  */
  datatype Marks = Marks(lo: int, loTokens: nat, hi: int, bound: Bound, guard: nat, cpt: real, swept: bool)

  const MaxProbeWindow: int := 0x10_0000
  const Tolerance: int := 1024

  function Min(a: int, b: int): int {
    if a < b then a else b
  }

  function Max(a: int, b: int): int {
    if a > b then a else b
  }

  /** The largest size there is any point in asking for. */
  function Ceiling(declared: int, served: int): int {
    var cap := Min(declared, MaxProbeWindow);
    if 0 < served < cap then served else cap
  }

  function Fresh(ceiling: int): Marks {
    Marks(0, 0, ceiling, ServedWindow, 0, 0.0, false)
  }

  function CharsAsked(cpt: real): real {
    if cpt <= 0.0 then 4.0 else cpt
  }

  function Clamped(cpt: real): real {
    var least := if cpt > 1.0 then cpt else 1.0;
    if least < 16.0 then least else 16.0
  }

  /** The characters a token of the calibration's prompt took. */
  function Calibrated(prompt: nat, tokens: pos): real {
    Clamped(prompt as real / tokens as real)
  }

  /** The sweep is over once doubling would pass what is already refused. */
  function Entered(m: Marks): Marks {
    if m.loTokens != 0 && !m.swept && m.lo * 2 >= m.hi then m.(swept := true) else m
  }

  function Allowed(lo: int): int {
    Max(Tolerance, lo / 8)
  }

  /** The size the next step asks for. */
  function Pending(m: Marks, floor: pos): Option<int> {
    if m.loTokens == 0 then Some(floor)
    else if !m.swept && m.lo * 2 < m.hi then Some(m.lo * 2)
    else if m.hi - m.lo > Allowed(m.lo) then Some((m.lo + m.hi) / 2)
    else None
  }

  /** What a step's reply leaves; a model that does not answer at the floor leaves nothing. */
  function Noted(m: Marks, floor: pos, size: int, reply: Reply): Option<Marks> {
    match reply
    case Accepted(tokens, prompt) =>
      Some(if m.loTokens == 0 then m.(lo := floor, loTokens := tokens, cpt := Calibrated(prompt, tokens))
           else m.(lo := size, loTokens := tokens))
    case Refused(bound, guard) =>
      if m.loTokens == 0 then None else Some(m.(hi := size, bound := bound, guard := guard, swept := true))
  }

  /** One step of the walk against a server. */
  function Stepped(server: Server, floor: pos, m: Marks): Option<Marks> {
    var n := Entered(m);
    var size := Pending(n, floor);
    if size.None? then Some(n) else Noted(n, floor, size.value, server(size.value, CharsAsked(n.cpt)))
  }

  predicate Standing(m: Marks, floor: pos) {
    m.loTokens != 0 ==> m.lo >= floor
  }

  function Left(m: Marks): nat {
    (if m.loTokens == 0 then 1 else 0) + 2 * Max(0, m.hi - m.lo)
  }

  lemma StepsShrink(server: Server, floor: pos, m: Marks)
    requires Standing(m, floor) && Stepped(server, floor, m).Some? && Pending(Entered(m), floor).Some?
    ensures Standing(Stepped(server, floor, m).value, floor)
    ensures m.loTokens != 0 ==> Left(Stepped(server, floor, m).value) < Left(m)
    ensures m.loTokens == 0 ==> Stepped(server, floor, m).value.loTokens != 0
  {
  }

  /** Where an uninterrupted measurement ends; nowhere when the floor is refused. */
  function Final(server: Server, floor: pos, m: Marks): Option<Marks>
    requires Standing(m, floor)
    decreases m.loTokens == 0, Left(m)
  {
    var n := Entered(m);
    if Pending(n, floor).None? then Some(n) else
    var next := Stepped(server, floor, m);
    if next.None? then None else
    StepsShrink(server, floor, m);
    Final(server, floor, next.value)
  }

  // ----------------------------------------------------------- interruptions

  /** The marks after so many steps, when a pause comes then. */
  function After(server: Server, floor: pos, m: Marks, steps: nat): Option<Marks>
    requires Standing(m, floor)
    decreases steps
  {
    if steps == 0 then Some(Entered(m))
    else if Pending(Entered(m), floor).None? then Some(Entered(m))
    else
      var next := Stepped(server, floor, m);
      if next.None? then None else
      StepsShrink(server, floor, m);
      After(server, floor, next.value, steps - 1)
  }

  /** A measurement taken in as many sittings as there are entries, of so many steps each. */
  function Sittings(server: Server, floor: pos, m: Marks, counts: seq<nat>): Option<Marks>
    requires Standing(m, floor)
    decreases |counts|
  {
    if counts == [] then Some(m) else
    var next := After(server, floor, m, counts[0]);
    if next.None? then None else
    AfterStands(server, floor, m, counts[0]);
    Sittings(server, floor, next.value, counts[1..])
  }

  lemma {:induction false} AfterStands(server: Server, floor: pos, m: Marks, steps: nat)
    requires Standing(m, floor) && After(server, floor, m, steps).Some?
    ensures Standing(After(server, floor, m, steps).value, floor)
    decreases steps
  {
    if steps > 0 && Pending(Entered(m), floor).Some? {
      StepsShrink(server, floor, m);
      AfterStands(server, floor, Stepped(server, floor, m).value, steps - 1);
    }
  }

  lemma {:induction false} EnteredEndsTheSame(server: Server, floor: pos, m: Marks)
    requires Standing(m, floor)
    ensures Standing(Entered(m), floor) && Entered(Entered(m)) == Entered(m)
    ensures Final(server, floor, Entered(m)) == Final(server, floor, m)
  {
  }

  lemma {:induction false} AfterEndsTheSame(server: Server, floor: pos, m: Marks, steps: nat)
    requires Standing(m, floor)
    ensures After(server, floor, m, steps).None? ==> Final(server, floor, m).None?
    ensures After(server, floor, m, steps).Some? ==>
              && Standing(After(server, floor, m, steps).value, floor)
              && Final(server, floor, After(server, floor, m, steps).value) == Final(server, floor, m)
    decreases steps
  {
    EnteredEndsTheSame(server, floor, m);
    if steps > 0 && Pending(Entered(m), floor).Some? && Stepped(server, floor, m).Some? {
      StepsShrink(server, floor, m);
      AfterEndsTheSame(server, floor, Stepped(server, floor, m).value, steps - 1);
    }
  }

  /**
    However a measurement is broken up by requests, holds and pins, it ends at
    the bounds, with the bound's name and guard, of one never interrupted.
  */
  lemma {:induction false} PausesChangeNothing(server: Server, floor: pos, m: Marks, counts: seq<nat>)
    requires Standing(m, floor)
    ensures Sittings(server, floor, m, counts).None? ==> Final(server, floor, m).None?
    ensures Sittings(server, floor, m, counts).Some? ==>
              && Standing(Sittings(server, floor, m, counts).value, floor)
              && Final(server, floor, Sittings(server, floor, m, counts).value) == Final(server, floor, m)
    decreases |counts|
  {
    if counts != [] {
      AfterEndsTheSame(server, floor, m, counts[0]);
      if After(server, floor, m, counts[0]).Some? {
        PausesChangeNothing(server, floor, After(server, floor, m, counts[0]).value, counts[1..]);
      }
    }
  }

  // ------------------------------------------------------------ what it finds

  /** The characters a token a size is asked at: the calibration's own, or what it came to. */
  function AskedAt(m: Marks, floor: pos, size: int): real {
    if size == floor then 4.0 else CharsAsked(m.cpt)
  }

  /** lo came back when it was asked, and counted what is recorded. */
  predicate Took(server: Server, floor: pos, m: Marks) {
    var reply := server(m.lo, AskedAt(m, floor, m.lo));
    reply.Accepted? && reply.tokens == m.loTokens
  }

  /** hi did not, for what is recorded. */
  predicate Turned(server: Server, m: Marks) {
    server(m.hi, CharsAsked(m.cpt)) == Reply.Refused(m.bound, m.guard)
  }

  /** The characters a token are the ones the calibration's reply came to. */
  predicate CalibratedBy(server: Server, floor: pos, m: Marks) {
    var reply := server(floor as int, 4.0);
    reply.Accepted? && m.cpt == Calibrated(reply.prompt, reply.tokens)
  }

  /** lo was accepted; hi was refused as recorded, or is the ceiling nothing was asked at. */
  predicate Sound(server: Server, floor: pos, ceiling: int, m: Marks) {
    && Standing(m, floor)
    && (m.loTokens != 0 ==> Took(server, floor, m) && CalibratedBy(server, floor, m))
    && ((m.loTokens != 0 && m.hi > m.lo && Turned(server, m))
        || (m.hi == ceiling && m.bound == ServedWindow && m.guard == 0))
    && (m.swept ==> m.loTokens != 0 && m.hi <= 2 * m.lo)
    && (m.loTokens != 0 && m.hi != ceiling ==> m.lo < m.hi)
    && (m.loTokens == 0 ==> m == Fresh(ceiling))
    && m.hi <= ceiling
  }

  lemma StepIsSound(server: Server, floor: pos, ceiling: int, m: Marks)
    requires Sound(server, floor, ceiling, m) && Stepped(server, floor, m).Some?
    ensures Sound(server, floor, ceiling, Stepped(server, floor, m).value)
  {
    hide Calibrated, Clamped;
  }

  lemma {:induction false} FinalIsSound(server: Server, floor: pos, ceiling: int, m: Marks)
    requires Sound(server, floor, ceiling, m) && Final(server, floor, m).Some?
    ensures Sound(server, floor, ceiling, Final(server, floor, m).value)
    ensures Pending(Final(server, floor, m).value, floor).None? && Final(server, floor, m).value.swept
    decreases m.loTokens == 0, Left(m)
  {
    StepIsSound(server, floor, ceiling, m);
    if Pending(Entered(m), floor).Some? {
      StepsShrink(server, floor, m);
      FinalIsSound(server, floor, ceiling, Stepped(server, floor, m).value);
    }
  }

  /**
    What a finished measurement says: a size that was accepted, one that was
    refused with the bound recorded, both when asked at the characters a token
    the calibration came to, or the untried ceiling as the served window; and
    no more than the tolerance between them.
  */
  lemma AMeasurementIsTight(server: Server, floor: pos, ceiling: int)
    requires Final(server, floor, Fresh(ceiling)).Some?
    ensures var m := Final(server, floor, Fresh(ceiling)).value;
            && Took(server, floor, m) && CalibratedBy(server, floor, m)
            && (Turned(server, m) || (m.hi == ceiling && m.bound == ServedWindow && m.guard == 0))
            && floor <= m.lo && m.hi <= ceiling && m.hi - m.lo <= Max(1024, m.lo / 8)
            && m.swept && m.hi <= 2 * m.lo
  {
    FinalIsSound(server, floor, ceiling, Fresh(ceiling));
  }

  /** The ceiling is the greatest size within the declared window, the served one if any, and what is ever asked for. */
  lemma TheCeilingIs(declared: int, served: int, size: int)
    ensures size <= Ceiling(declared, served) <==>
              size <= declared && size <= 0x10_0000 && (served > 0 ==> size <= served)
  {
  }

  lemma Scaled(a: real, b: real, t: real)
    requires t > 0.0 && a < b
    ensures a * t < b * t
  {
    assert (b - a) * t > 0.0;
  }

  /** A ratio compares to a number as its numerator to that many of its denominator. */
  lemma RatioAgainst(p: real, t: real, c: real)
    requires t > 0.0
    ensures (p / t < c <==> p < c * t) && (p / t > c <==> p > c * t)
  {
    var r := p / t;
    RatioTimes(p, t);
    if r < c {
      Scaled(r, c, t);
    } else if r > c {
      Scaled(c, r, t);
    }
  }

  lemma RatioTimes(p: real, t: real)
    requires t > 0.0
    ensures p / t * t == p
  {
  }

  /** A calibration is the prompt's characters a token, kept between one and sixteen. */
  lemma ACalibrationIs(prompt: nat, tokens: pos)
    ensures var cpt := Calibrated(prompt, tokens);
            && 1.0 <= cpt <= 16.0
            && (tokens <= prompt <= 16 * tokens ==> cpt == prompt as real / tokens as real)
            && (prompt < tokens ==> cpt == 1.0) && (prompt > 16 * tokens ==> cpt == 16.0)
  {
    var p, t := prompt as real, tokens as real;
    RatioAgainst(p, t, 1.0);
    RatioAgainst(p, t, 16.0);
    CalibratedIs(prompt, tokens);
    hide Calibrated;
    Whole(prompt, tokens);
  }

  lemma Whole(prompt: nat, tokens: pos)
    ensures prompt as real < 1.0 * tokens as real <==> prompt < tokens
    ensures prompt as real > 16.0 * tokens as real <==> prompt > 16 * tokens
  {
    assert 16.0 * tokens as real == (16 * tokens) as real;
  }

  lemma CalibratedIs(prompt: nat, tokens: pos)
    ensures var cpt, ratio := Calibrated(prompt, tokens), prompt as real / tokens as real;
            cpt == if ratio < 1.0 then 1.0 else if ratio > 16.0 then 16.0 else ratio
  {
  }

  /** A server that accepts exactly the prompts up to a limit. */
  ghost predicate Accepts(server: Server, limit: int) {
    forall size, cpt :: server(size, cpt).Accepted? <==> size <= limit
  }

  /** For such a server the limit is found, to the tolerance, or is at or past the ceiling. */
  lemma TheLimitIsBetween(server: Server, floor: pos, ceiling: int, limit: int)
    requires Accepts(server, limit)
    ensures Final(server, floor, Fresh(ceiling)).None? <==> limit < floor
    ensures limit >= floor ==>
              var m := Final(server, floor, Fresh(ceiling)).value;
              && m.lo <= limit
              && (limit < m.hi || (m.hi == ceiling && m.bound == ServedWindow && ceiling - m.lo <= Max(1024, m.lo / 8)))
  {
    var start := Fresh(ceiling);
    assert Entered(start) == start && CharsAsked(start.cpt) == 4.0;
    assert server(floor as int, 4.0).Accepted? <==> floor <= limit;
    if floor <= limit {
      StepsShrink(server, floor, start);
      AnsweredOnce(server, floor, Stepped(server, floor, start).value);
      FinalIsSound(server, floor, ceiling, start);
      var m := Final(server, floor, start).value;
      assert server(m.lo, AskedAt(m, floor, m.lo)).Accepted?;
      if Turned(server, m) {
        assert !server(m.hi, CharsAsked(m.cpt)).Accepted?;
      }
    } else {
      assert Stepped(server, floor, start).None?;
    }
  }

  /** Once the floor has been answered, a measurement always ends in one. */
  lemma {:induction false} AnsweredOnce(server: Server, floor: pos, m: Marks)
    requires Standing(m, floor) && m.loTokens != 0
    ensures Final(server, floor, m).Some?
    decreases Left(m)
  {
    if Pending(Entered(m), floor).Some? {
      StepsShrink(server, floor, m);
      AnsweredOnce(server, floor, Stepped(server, floor, m).value);
    }
  }

  // -------------------------------------------------------- how long it takes

  /** The steps an uninterrupted measurement still takes. */
  function StepsLeft(server: Server, floor: pos, m: Marks): nat
    requires Standing(m, floor)
    decreases m.loTokens == 0, Left(m)
  {
    if Pending(Entered(m), floor).None? then 0 else
    var next := Stepped(server, floor, m);
    if next.None? then 1 else
    StepsShrink(server, floor, m);
    1 + StepsLeft(server, floor, next.value)
  }

  predicate Swept(m: Marks, floor: pos) {
    Standing(m, floor) && m.loTokens != 0 && m.swept
  }

  /** How far apart the marks are after some halvings of gap, begun at least. */
  predicate Halved(m: Marks, least: int, gap: int, times: int) {
    (m.lo == least && times * (m.hi - m.lo) <= gap) || (m.lo >= least + 512 && times * (m.hi - m.lo) <= gap + times - 1)
  }

  lemma HalvesOnce(server: Server, floor: pos, m: Marks, least: int, gap: int, times: int)
    requires Swept(m, floor) && times in {1, 2, 4} && Halved(m, least, gap, times) && Pending(m, floor).Some?
    ensures Stepped(server, floor, m).Some?
    ensures Swept(Stepped(server, floor, m).value, floor) &&
        Halved(Stepped(server, floor, m).value, least, gap, 2 * times)
  {
  }

  lemma DoneAfterEighth(m: Marks, floor: pos, least: int, gap: int)
    requires Swept(m, floor) && Halved(m, least, gap, 8) && gap <= least
    ensures Pending(m, floor).None?
  {
  }

  /** Once swept, at most three bisection steps follow. */
  lemma AtMostThreeBisections(server: Server, floor: pos, m: Marks)
    requires Swept(m, floor) && m.hi <= 2 * m.lo
    ensures StepsLeft(server, floor, m) <= 3
  {
    var least, gap := m.lo, m.hi - m.lo;
    if Pending(m, floor).Some? {
      HalvesOnce(server, floor, m, least, gap, 1);
      var m1 := Stepped(server, floor, m).value;
      if Pending(m1, floor).Some? {
        HalvesOnce(server, floor, m1, least, gap, 2);
        var m2 := Stepped(server, floor, m1).value;
        if Pending(m2, floor).Some? {
          HalvesOnce(server, floor, m2, least, gap, 4);
          var m3 := Stepped(server, floor, m2).value;
          DoneAfterEighth(m3, floor, least, gap);
        }
      }
    }
  }

  function Pow2(k: nat): pos {
    if k == 0 then 1 else 2 * Pow2(k - 1)
  }

  lemma {:induction false} SweepSteps(server: Server, floor: pos, m: Marks, k: nat)
    requires Standing(m, floor) && m.loTokens != 0 && !m.swept
    requires m.hi <= 2 * m.lo * Pow2(k)
    ensures StepsLeft(server, floor, m) <= k + 3
    decreases k
  {
    var n := Entered(m);
    if n.swept {
      AtMostThreeBisections(server, floor, n);
      assert StepsLeft(server, floor, m) == StepsLeft(server, floor, n);
    } else {
      StepsShrink(server, floor, m);
      var next := Stepped(server, floor, m).value;
      assert k > 0;
      if next.swept {
        AtMostThreeBisections(server, floor, next);
      } else {
        assert 2 * next.lo * Pow2(k - 1) == 2 * m.lo * Pow2(k);
        SweepSteps(server, floor, next, k - 1);
      }
    }
  }

  /** With the floor the program uses, a measurement is at most thirteen requests. */
  lemma AtMostThirteenRequests(server: Server, floor: pos, declared: int, served: int)
    requires floor >= 1024
    ensures StepsLeft(server, floor, Fresh(Ceiling(declared, served))) <= 13
  {
    var start := Fresh(Ceiling(declared, served));
    var m := Stepped(server, floor, start);
    if m.Some? {
      assert Pow2(9) == 512 by {
        assert Pow2(3) == 8 && Pow2(6) == 64;
      }
      assert m.value.hi <= 0x10_0000;
      SweepSteps(server, floor, m.value, 9);
    }
  }
}
