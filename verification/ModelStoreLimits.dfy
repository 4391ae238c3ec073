/** Stronger claims the code does not meet, and exactly when it does. */
module ModelStoreLimits {
  import opened Common
  import opened ModelStore
  import opened ModelStoreExact
  import opened ModelStoreFallback

  ghost predicate Has(s: Store, version: nat) {
    s.dest == Some(Whole(version)) || exists k :: k in s.aside && s.aside[k] == Whole(version)
  }

  // --------------------------------------------- a restore that is cut short

  /**
    A store with a version held: b serves v1 with v0 held aside, and m is the
    name v1 has aside where it is not in the folder.
  */
  ghost predicate Holding(b: Store, m: nat, v0: nat, v1: nat) {
    && b.held.Some? && b.held.value.attempt in b.aside && b.held.value.attempt !in b.doomed
    && b.aside.Keys <= b.doomed + {b.held.value.attempt}
    && m !in b.doomed && (forall k :: k in b.aside ==> k < m)
    && b.aside[b.held.value.attempt] == Whole(v0) && b.dest == Some(Whole(v1))
  }

  /**
    The three ways the two versions stand during and after a restore, beside
    what is left of the copies on their way out.
  */
  ghost predicate Stand(b: Store, t: Store, m: nat, v0: nat, v1: nat)
    requires b.held.Some?
  {
    var fb := b.held.value.attempt;
    && t.aside.Keys <= b.aside.Keys + {m}
    && ((t.dest == Some(Whole(v1)) && At(t, Aside(fb)) == Some(Whole(v0)) && m !in t.aside)
        || (t.dest == None && At(t, Aside(fb)) == Some(Whole(v0)) && At(t, Aside(m)) == Some(Whole(v1)))
        || (t.dest == Some(Whole(v0)) && fb !in t.aside && At(t, Aside(m)) == Some(Whole(v1))))
  }

  /** Nothing held, and no copy on its way out but those that were. */
  predicate Idle(b: Store, t: Store) {
    t.held.None? && t.doomed <= b.doomed
  }

  ghost predicate Amid(b: Store, t: Store, m: nat, v0: nat, v1: nat)
    requires b.held.Some?
  {
    Stand(b, t, m, v0, v1) && Idle(b, t)
  }

  lemma AdvanceAmid(b: Store, t: Store, m: nat, v0: nat, v1: nat)
    requires Holding(b, m, v0, v1) && Amid(b, t, m, v0, v1)
    ensures Amid(b, Advance(t), m, v0, v1)
    ensures Advance(t) == t.(script := Advance(t).script, aside := Advance(t).aside)
  {
    assert Advance(t).aside.Keys <= t.aside.Keys;
  }

  lemma RenameAmid(b: Store, t: Store, m: nat, v0: nat, v1: nat, k: nat)
    requires Holding(b, m, v0, v1) && Amid(b, t, m, v0, v1)
    requires k == b.held.value.attempt || k == m
    ensures Amid(b, MoveIn(t, Aside(k)).0, m, v0, v1)
    ensures Amid(b, MoveOut(t, Aside(k)).0, m, v0, v1)
  {
    hide Advance, Disturb;
    AdvanceAmid(b, t, m, v0, v1);
    hide Holding;
    HoldingTwo(b, m, v0, v1);
  }

  lemma HoldingTwo(b: Store, m: nat, v0: nat, v1: nat)
    requires Holding(b, m, v0, v1)
    ensures b.held.value.attempt != m && b.held.value.attempt in b.aside
  {
  }

  lemma AskAmid(b: Store, t: Store, m: nat, v0: nat, v1: nat)
    requires Holding(b, m, v0, v1) && Amid(b, t, m, v0, v1)
    ensures var r := Ask(t).0; Amid(b, r, m, v0, v1) && r.clock == t.clock && r.dest == t.dest
  {
    hide Advance, Disturb, Holding;
    AdvanceAmid(b, t, m, v0, v1);
  }

  lemma SwapCheckAmid(b: Store, t: Store, m: nat, v0: nat, v1: nat)
    requires Holding(b, m, v0, v1) && Amid(b, t, m, v0, v1)
    ensures Amid(b, SwapInCheck(t, Aside(b.held.value.attempt), m).0, m, v0, v1)
  {
    var fb, s5 := b.held.value.attempt, Validate(t).0;
    hide MoveIn, MoveOut, Ask, Holding, Amid;
    AskAmid(b, t, m, v0, v1);
    RenameAmid(b, s5, m, v0, v1, fb);
    RenameAmid(b, MoveOut(s5, Aside(fb)).0, m, v0, v1, m);
  }

  lemma SwapRestAmid(b: Store, t: Store, m: nat, v0: nat, v1: nat)
    requires Holding(b, m, v0, v1) && Amid(b, t, m, v0, v1)
    ensures Amid(b, SwapInRest(t, Aside(b.held.value.attempt), m).0, m, v0, v1)
  {
    var fb := b.held.value.attempt;
    var s4 := MoveIn(t, Aside(fb)).0;
    hide MoveIn, MoveOut, SwapInCheck, Holding, Amid;
    RenameAmid(b, t, m, v0, v1, m);
    RenameAmid(b, t, m, v0, v1, fb);
    RenameAmid(b, s4, m, v0, v1, m);
    SwapCheckAmid(b, s4, m, v0, v1);
  }

  /** Where the folder is missing, the newest copy aside is the version it served. */
  lemma NewestAmid(b: Store, t: Store, m: nat, v0: nat, v1: nat)
    requires Holding(b, m, v0, v1) && Stand(b, t, m, v0, v1)
    ensures m in t.aside ==> NewestOf(t) == Some(m)
    ensures t.dest.None? ==> m in t.aside && t.aside[m] == Whole(v1)
  {
  }

  lemma SwapStoppedAmid(b: Store, t: Store, m: nat, v0: nat, v1: nat)
    requires Holding(b, m, v0, v1) && Amid(b, t, m, v0, v1)
    requires t.dest.Some? ==> m == t.clock
    ensures Amid(b, SwapInStopped(t, Aside(b.held.value.attempt)).0, m, v0, v1)
  {
    hide MoveIn, MoveOut, SwapInRest, Holding;
    var s2 := t.(clock := t.clock + 1);
    NewestAmid(b, s2, m, v0, v1);
    RenameAmid(b, s2, m, v0, v1, m);
    if t.dest.Some? {
      SwapRestAmid(b, MoveOut(s2, Aside(m)).0, m, v0, v1);
    }
  }

  /** What a process that ends during or after a restore leaves. */
  lemma RestoreStands(s: Store, b: Store, m: nat, v0: nat, v1: nat)
    requires Holding(b, m, v0, v1) && Stand(b, s, m, v0, v1)
    requires s.up && s.held == b.held && s.doomed == b.doomed && (s.dest.Some? ==> m == s.clock)
    ensures Stand(b, Restore(s).0, m, v0, v1)
  {
    hide SwapInStopped, Ask, Holding;
    var s0 := s.(held := None);
    AskAmid(b, s0, m, v0, v1);
    SwapStoppedAmid(b, Ask(s0).0, m, v0, v1);
  }

  /** The next start keeps v0 if it is in the folder, or the newest copy beside a folder that stands. */
  lemma StandRecovers(b: Store, t: Store, m: nat, v0: nat, v1: nat)
    requires Holding(b, m, v0, v1) && Stand(b, t, m, v0, v1) && v0 != v1
    ensures var r := Recovered(t);
            && (Has(r, v0) <==> t.dest.Some? && KeepsIt(t, v0))
            && (t.dest.None? ==> r.dest == Some(Whole(v1)))
    ensures t.dest.Some? && !Overtaken(t, b.held.value.attempt) ==> KeepsIt(t, v0)
  {
    NewestAmid(b, t, m, v0, v1);
    var r := Recovered(t);
    if t.dest == Some(Whole(v1)) {
      var n := Newest(t.aside.Keys);
      if t.aside[n] == Whole(v0) {
        assert r.aside[n] == Whole(v0);
      }
    } else if t.dest.None? {
      assert r.aside == map[];
    }
  }

  /** The version is in the folder, or is the newest aside. */
  ghost predicate KeepsIt(t: Store, v0: nat) {
    t.dest == Some(Whole(v0)) || (t.aside.Keys != {} && t.aside[Newest(t.aside.Keys)] == Whole(v0))
  }

  /** A copy newer than attempt fb, let go and not yet removed, is aside. */
  predicate Overtaken(t: Store, fb: nat) {
    exists k :: k in t.aside && k > fb
  }

  /** A store at rest that holds a version, in either of its stands. */
  lemma RestingHolds(s: Store, v0: nat, c0: Option<nat>) returns (b: Store, m: nat)
    requires Resting(s, v0, c0) && s.held.Some?
    ensures Served(s).Whole? && Holding(b, m, v0, Served(s).version) && Stand(b, s, m, v0, Served(s).version)
    ensures s.up && b.held == s.held && b.doomed == s.doomed && (s.dest.Some? ==> m == s.clock)
  {
    if InPlace(s, v0, c0) {
      b, m := s, s.clock;
    } else {
      m :| Away(s, m, v0, c0);
      b := BackIn(s, m);
      NewestIs(s, s, m, v0, c0);
      assert b.held.value.attempt != m;
    }
  }

  /**
    A restore that the process does not outlive, whatever it met, keeps the
    version last known to serve through the next start if and only if the
    process ended with something standing in the model's folder and that
    version there or the newest aside. Between its two renames nothing stands
    there, and the next start puts back the copy that failed to load. With no
    copy newer than the held one waiting to be removed, a folder that stands
    is enough.
  */
  lemma ARestoreCutShort(s: Store, fates: seq<Fate>, listing: seq<Entry>, v0: nat, c0: Option<nat>)
    requires Resting(s, v0, c0) && s.held.Some? && Served(s) != Whole(v0)
    requires var t := Step(s, EvFailedLoad(fates)); Covers(listing, t)
    ensures var t := Step(s, EvFailedLoad(fates));
            var r := Recover(Crash(t).(script := []), listing);
            && (Has(r, v0) <==> t.dest.Some? && KeepsIt(t, v0))
            && (t.dest.Some? && !Overtaken(t, s.held.value.attempt) ==> Has(r, v0))
            && (t.dest.None? ==> r.dest == Some(Served(s)))
  {
    var b, m := RestingHolds(s, v0, c0);
    var s0, t, v1 := s.(script := fates), Step(s, EvFailedLoad(fates)), Served(s).version;
    hide Restore, Recovered, Resting, Holding, Stand, Served, KeepsIt, Overtaken;
    StandAlike(b, s, s0, m, v0, v1);
    RestoreStands(s0, b, m, v0, v1);
    var u := Crash(t).(script := []);
    StandAlike(b, t, u, m, v0, v1);
    RecoverIsRecovered(u, listing);
    StandRecovers(b, u, m, v0, v1);
    KeptAlike(t, u, v0, s.held.value.attempt);
  }

  lemma StandAlike(b: Store, s: Store, t: Store, m: nat, v0: nat, v1: nat)
    requires b.held.Some? && Stand(b, s, m, v0, v1) && s.dest == t.dest && s.aside == t.aside
    ensures Stand(b, t, m, v0, v1)
  {
  }

  lemma KeptAlike(s: Store, t: Store, v0: nat, fb: nat)
    requires s.dest == t.dest && s.aside == t.aside
    ensures KeepsIt(s, v0) <==> KeepsIt(t, v0)
    ensures Overtaken(s, fb) <==> Overtaken(t, fb)
  {
  }

  /** That moment exists: the process may end between the two renames. */
  lemma ARestoreCanLoseTheFallback(s: Store, v0: nat, c0: Option<nat>)
    requires InPlace(s, v0, c0) && s.held.Some?
    ensures Step(s, EvFailedLoad([Calm(), Fate(Works, true, false, {}, {})])).dest.None?
  {
    var crash := Fate(Works, true, false, {}, {});
    var s0 := s.(held := None, script := [Calm(), crash]);
    assert Advance(s0).aside == s.aside;
    assert Advance(Ask(s0).0.(clock := s.clock + 1)).aside == s.aside;
  }

  // ------------------------------------------- a copy that overtakes the held

  /**
    A store at rest whose process ends keeps the version it holds through the
    next start if and only if its folder stands and that version is the newest
    aside.
  */
  lemma ACrashKeepsTheFallbackExactly(s: Store, listing: seq<Entry>, v0: nat, c0: Option<nat>)
    requires Resting(s, v0, c0) && s.held.Some? && Served(s) != Whole(v0) && Covers(listing, s)
    ensures Has(Recover(Crash(s).(script := []), listing), v0) <==> s.dest.Some? && KeepsIt(s, v0)
  {
    var b, m := RestingHolds(s, v0, c0);
    var u, v1 := Crash(s).(script := []), Served(s).version;
    hide Recovered, Resting, Holding, Stand, Served, KeepsIt, Overtaken;
    StandAlike(b, s, u, m, v0, v1);
    RecoverIsRecovered(u, listing);
    StandRecovers(b, u, m, v0, v1);
    KeptAlike(s, u, v0, s.held.value.attempt);
  }

  /**
    It need not be: a second update before the first has loaded lets go of the
    version between, newer aside than the one held. A process that ends before
    that copy is removed leaves the next start to keep it, and to clear the
    version last known to serve.
  */
  lemma ASecondUpdateCanLoseTheFallback(
      s: Store, v1: nat, v2: nat, listing: seq<Entry>, v0: nat, c0: Option<nat>)
    requires InPlace(s, v0, c0) && s.held.None? && v1 != v0 && v2 != v0
    requires Covers(listing, Run(s, [EvUpdate(v1, []), EvUpdate(v2, [])]))
    ensures var t := Run(s, [EvUpdate(v1, []), EvUpdate(v2, [])]);
            && t.held.Some? && At(t, Aside(t.held.value.attempt)) == Some(Whole(v0)) && t.dest == Some(Whole(v2))
            && !Has(Recover(Crash(t).(script := []), listing), v0)
  {
    var t, k := Run(s, [EvUpdate(v1, []), EvUpdate(v2, [])]), s.clock + 1;
    TwoCalmUpdates(s, v1, v2, v0, c0);
    assert k in t.aside.Keys && forall j | j in t.aside.Keys :: j <= k;
    assert Newest(t.aside.Keys) == k;
    ACrashKeepsTheFallbackExactly(t, listing, v0, c0);
  }

  lemma TwoCalmUpdates(s: Store, v1: nat, v2: nat, v0: nat, c0: Option<nat>)
    requires InPlace(s, v0, c0) && s.held.None?
    ensures var t := Run(s, [EvUpdate(v1, []), EvUpdate(v2, [])]);
            && InPlace(t, v0, c0) && t.dest == Some(Whole(v2)) && t.held == Some(Fallback(s.clock, c0))
            && t.aside == s.aside[s.clock := Whole(v0)][s.clock + 1 := Whole(v1)]
  {
    hide Update;
    var es := [EvUpdate(v1, []), EvUpdate(v2, [])];
    assert es[1..] == [es[1]] && [es[1]][1..] == [];
    var s0 := s.(script := []);
    var s1 := Step(s, es[0]);
    CalmUpdate(s0, v1);
    PublishedInPlace(s0, v1, v0, c0);
    CalmUpdate(s1, v2);
    PublishedInPlace(s1, v2, v0, c0);
    assert s1.script == [] && Run(s, es) == Run(s1, [es[1]]) == Step(s1, es[1]);
  }

  lemma CalmSwap(s: Store)
    requires s.up && s.script == [] && s.dest.Some? && IsWhole(s.staged) && s.clock !in s.aside
    ensures SwapIn(s, Staged) == (Swapped(s, Staged), Some(s.clock))
  {
    hide Advance, Disturb;
    CalmAdvance(s);
    var s2 := s.(clock := s.clock + 1);
    CalmAdvance(s2);
    var s3 := OldAside(s);
    assert MoveOut(s2, Aside(s.clock)) == (s3, true);
    CalmAdvance(s3);
    assert MoveIn(s3, Staged) == (Swapped(s, Staged), true);
    CalmAdvance(Swapped(s, Staged));
  }

  lemma CalmUpdate(s: Store, v: nat)
    requires s.up && s.script == [] && s.dest.Some? && s.clock !in s.aside
    ensures Update(s, v) == Published(s, v)
  {
    hide Advance, Disturb, SwapIn;
    CalmAdvance(s);
    CalmAdvance(s.(staged := None));
    CalmAdvance(s.(staged := Some(Whole(v))));
    CalmSwap(s.(staged := Some(Whole(v))));
  }

  // ------------------------------------------------------------- a delete

  function Nth(fs: seq<Fate>, i: nat): Fate {
    if i < |fs| then fs[i] else Calm()
  }

  /** Every operation works and the process lives on; reports and clean-ups come as they will. */
  predicate Effective(fs: seq<Fate>) {
    forall f :: f in fs ==> f.effect.Works? && !f.crash
  }

  predicate IsHeld(s: Store, k: nat) {
    s.held.Some? && s.held.value.attempt == k
  }

  /**
    Copy k goes while the model is deleted: the delete removes the one held,
    and clean-ups under way remove what they have by then.
  */
  predicate Goes(s: Store, k: nat, fs: seq<Fate>) {
    var f0, f1, f2 := Nth(fs, 0), Nth(fs, 1), Nth(fs, 2);
    var dropped := f0.loaded || f1.loaded;
    || (IsHeld(s, k) && !dropped)
    || ((k in s.doomed || (IsHeld(s, k) && f0.loaded)) && k in f0.swept)
    || ((k in s.doomed || (IsHeld(s, k) && dropped)) && k in f1.swept)
    || (k in s.doomed && s.held.Some? && !dropped && k in f2.swept)
  }

  /** The store but for what a report and the clean-ups under way did to it just before an operation. */
  ghost predicate Undisturbed(s: Store, t: Store, f: Fate) {
    && t.dest == s.dest && t.staged == s.staged && t.clock == s.clock
    && (!f.crash ==>
        && t.up && t.held == (if f.loaded then None else s.held)
        && t.doomed == s.doomed + (if f.loaded && s.held.Some? then {s.held.value.attempt} else {}))
    && (f.crash ==> t == Crash(t))
    && t.aside.Keys <= s.aside.Keys
    && (forall k :: k in s.aside && !(k in s.doomed || (IsHeld(s, k) && f.loaded)) ==>
          k in t.aside && t.aside[k] == s.aside[k])
  }

  /**
    A delete that is refused, because a request is in flight, keeps the folder,
    the record, the staged version, the copy held and the model itself.
  */
  lemma ARefusedDeleteKeepsAll(s: Store, fates: seq<Fate>)
    requires s.up && fates != [] && !fates[0].effect.Works?
    ensures var t := Step(s, EvDelete(fates));
            Undisturbed(s, t, fates[0]) && t.commit == s.commit && t.wanted == s.wanted
  {
  }

  /**
    A delete whose folder cannot be removed has forgotten the record and keeps
    the folder and the copy held; one that is removed in part leaves it torn,
    and the copy held all the same.
  */
  lemma ADeleteThatStopsKeepsTheFallback(s: Store, fates: seq<Fate>)
    requires s.up && |fates| >= 2 && fates[0].effect.Works? && !fates[0].crash && !fates[1].effect.Works?
    ensures var t := Step(s, EvDelete(fates));
            && !t.wanted && t.commit.None? && t.staged == s.staged
            && t.dest == (if fates[1].effect.Fails? || s.dest.None? then s.dest else Some(Torn))
            && (!fates[0].loaded && !fates[1].loaded ==>
                  && (!fates[1].crash ==> t.held == s.held && t.doomed == s.doomed)
                  && forall k :: k in s.aside && k !in s.doomed ==> k in t.aside && t.aside[k] == s.aside[k])
  {
    hide Disturb, Advance;
    var s0 := s.(script := fates);
    AdvanceLeaves(s0);
    AdvanceKeeps(s0);
    var s1 := Ask(s0).0;
    assert Rest(fates)[0] == fates[1];
    AdvanceLeaves(s1.(wanted := false, commit := None));
    AdvanceKeeps(s1.(wanted := false, commit := None));
  }

  lemma AdvanceKeeps(s: Store)
    ensures forall k :: k in s.aside && k !in Advance(s).doomed ==>
              k in Advance(s).aside && Advance(s).aside[k] == s.aside[k]
  {
  }

  /** What a delete that works leaves: no folder, no record, nothing held, and these copies aside. */
  lemma DeleteLeaves(s: Store, fates: seq<Fate>)
    requires s.up && Effective(fates)
    ensures var t := Step(s, EvDelete(fates));
            && t.dest.None? && t.aside.Keys == (set k | k in s.aside && !Goes(s, k, fates))
            && t.staged == s.staged && t.commit.None? && !t.wanted && t.held.None? && t.up
  {
    hide Advance, Disturb, Effective;
    var s0 := s.(script := fates);
    AdvanceLeaves(s0);
    var s1 := Ask(s0).0;
    NextOf(fates);
    AdvanceLeaves(s1.(wanted := false, commit := None));
    var s2 := Advance(s1.(wanted := false, commit := None)).(dest := None);
    NextOf(s1.script);
    AdvanceLeaves(s2.(held := None));
    NextOf(s2.script);
  }

  lemma NextOf(fs: seq<Fate>)
    requires Effective(fs)
    ensures Effective(Rest(fs)) && Nth(fs, 0).effect.Works? && !Nth(fs, 0).crash
    ensures forall i: nat :: Nth(Rest(fs), i) == Nth(fs, i + 1)
  {
    if fs != [] {
      assert fs[0] in fs;
      assert forall f :: f in fs[1..] ==> f in fs;
    }
  }

  lemma AdvanceLeaves(s: Store)
    ensures var f, t := NextFate(s), Advance(s);
            && f == Nth(s.script, 0)
            && t.held == (if f.loaded then None else s.held)
            && t.doomed == s.doomed + (if f.loaded && s.held.Some? then {s.held.value.attempt} else {})
            && t.aside.Keys == (set k | k in s.aside && !(k in t.doomed && k in f.swept))
            && t == s.(script := Rest(s.script), held := t.held, doomed := t.doomed, aside := t.aside)
  {
  }

  /**
    A deleted model stays deleted through the next start, when the delete's
    operations work and the start can rename, if and only if every copy aside
    went with it: the one held as its fallback, which the delete removes, and
    those a clean-up had removed by then. A start puts the newest of the rest
    back. With no clean-up under way that is every copy but the one held.
  */
  lemma ADeleteIsFinalExactly(s: Store, fates: seq<Fate>, start: seq<Fate>, listing: seq<Entry>)
    requires s.up && Effective(fates) && (start == [] || !start[0].effect.Fails?)
    ensures var r := Step(Crash(Step(s, EvDelete(fates))), EvStart(listing, start));
            && (r.dest.None? <==> forall k :: k in s.aside ==> Goes(s, k, fates))
            && (s.doomed == {} && !Nth(fates, 0).loaded && !Nth(fates, 1).loaded ==>
                  (r.dest.None? <==> forall k :: k in s.aside ==> IsHeld(s, k)))
  {
    DeleteLeaves(s, fates);
    var t := Crash(Step(s, EvDelete(fates)));
    hide Delete, Recover;
    AStartLeavesTheModelInPlace(t.(script := start), listing);
    forall k ensures k in t.aside <==> k in s.aside && !Goes(s, k, fates) {
      assert k in t.aside <==> k in t.aside.Keys;
    }
    assert t.aside.Keys == {} <==> forall k :: k !in t.aside;
  }
}
