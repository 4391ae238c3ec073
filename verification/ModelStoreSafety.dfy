/** Every run keeps a complete copy of a model that was complete. */
module ModelStoreSafety {
  import opened Common
  import opened ModelStore

  /** The aside copies a removal may reach: being removed, or held. */
  function Reserved(s: Store): set<nat> {
    s.doomed + if s.held.Some? then {s.held.value.attempt} else {}
  }

  ghost predicate WholeAside(s: Store, x: set<nat>) {
    exists k :: k in s.aside && k !in Reserved(s) && k !in x && s.aside[k].Whole?
  }

  /** The newest copy aside is not one a removal may reach. */
  ghost predicate NewestFree(s: Store, x: set<nat>) {
    forall k :: k in s.aside && (forall j :: j in s.aside ==> j <= k) ==> k !in Reserved(s) && k !in x
  }

  /**
    The invariant of every run. It is stronger than survival alone: the
    complete copy it promises is one that neither a removal under way nor the
    fallback's removal can take, so dropping the fallback, or a restore that
    fails half way, never costs the last copy. x is the fallback a restore has
    taken and not yet put back.
  */
  ghost predicate Inv(s: Store, x: set<nat>) {
    && (forall k :: k in s.aside ==> k < s.clock)
    && (forall k :: k in Reserved(s) ==> k < s.clock)
    && (forall k :: k in x ==> k < s.clock)
    && (!s.up ==> Reserved(s) == {})
    && (s.wanted ==>
          && (IsWhole(s.dest) || WholeAside(s, x))
          && (s.dest.None? ==> NewestFree(s, x)))
  }

  /** What an operation's interference, and a crash, leave as it was. */
  ghost predicate Undisturbed(s: Store, t: Store) {
    && t.dest == s.dest && t.staged == s.staged && t.clock == s.clock
    && t.wanted == s.wanted && t.commit == s.commit
    && Reserved(t) <= Reserved(s)
    && t.aside.Keys <= s.aside.Keys
    && (forall k :: k in s.aside && k !in Reserved(s) ==> k in t.aside && t.aside[k] == s.aside[k])
    && (t.up ==> s.up)
    && (!t.up ==> Reserved(t) == {} || !s.up)
  }

  lemma AdvanceUndisturbed(s: Store)
    ensures Undisturbed(s, Advance(s)) && Advance(s).up == s.up
  {
  }

  lemma UndisturbedInv(s: Store, t: Store, x: set<nat>)
    requires Inv(s, x) && Undisturbed(s, t)
    ensures Inv(t, x)
  {
    if WholeAside(s, x) {
      var w :| w in s.aside && w !in Reserved(s) && w !in x && s.aside[w].Whole?;
      assert w in t.aside && w !in Reserved(t) && w !in x && t.aside[w].Whole?;
      if s.dest.None? && s.wanted {
        var n := Newest(s.aside.Keys);
        assert n !in Reserved(s) && n !in x;
        assert n in t.aside;
      }
    }
  }

  lemma AskInv(s: Store, x: set<nat>)
    requires Inv(s, x)
    ensures Inv(Ask(s).0, x) && Undisturbed(s, Ask(s).0) && (Ask(s).1 ==> Ask(s).0.up)
  {
    hide Advance, Disturb;
    AdvanceUndisturbed(s);
    UndisturbedInv(s, Ask(s).0, x);
  }

  lemma MovedIn(s: Store, k: nat, x: set<nat>)
    requires Inv(s, x)
    ensures Inv(MoveIn(s, Aside(k)).0, x) && Reserved(MoveIn(s, Aside(k)).0) <= Reserved(s)
  {
    hide Advance, Disturb;
    if s.up {
      var t, r := Advance(s), MoveIn(s, Aside(k)).0;
      AdvanceUndisturbed(s);
      UndisturbedInv(s, t, x);
      if k in t.aside && t.dest.None? && !NextFate(s).effect.Fails? {
        if t.wanted && !t.aside[k].Whole? {
          var w :| w in t.aside && w !in Reserved(t) && w !in x && t.aside[w].Whole?;
          assert w in r.aside && w !in Reserved(r) && w !in x && r.aside[w].Whole?;
        }
      } else {
        UndisturbedInv(s, r, x);
      }
    }
  }

  lemma RemoveStagedInv(s: Store, x: set<nat>)
    requires Inv(s, x)
    ensures Inv(Remove(s, Staged).0, x)
  {
    hide Advance, Disturb;
    AdvanceUndisturbed(s);
    UndisturbedInv(s, Advance(s), x);
    UndisturbedInv(Advance(s), Settle(Advance(s), NextFate(s)), x);
  }

  lemma FetchInv(s: Store, version: nat, x: set<nat>)
    requires Inv(s, x)
    ensures Inv(Fetch(s, version).0, x)
  {
    hide Advance, Disturb;
    AdvanceUndisturbed(s);
    UndisturbedInv(s, Advance(s), x);
    UndisturbedInv(Advance(s), Settle(Advance(s), NextFate(s)), x);
  }

  lemma FewerAside(t: Store, r: Store, x: set<nat>)
    requires Inv(t, x) && (IsWhole(t.dest) || !t.wanted)
    requires r.dest == t.dest && r.clock == t.clock && r.wanted == t.wanted
    requires r.aside.Keys <= t.aside.Keys
    requires Reserved(r) <= Reserved(t) && (!r.up ==> Reserved(r) == {})
    ensures Inv(r, x)
  {
  }

  /** Removing a copy aside keeps the invariant beside a complete folder. */
  lemma RemoveAsideInv(s: Store, k: nat, x: set<nat>)
    requires Inv(s, x)
    requires IsWhole(s.dest) || !s.wanted
    ensures Inv(Remove(s, Aside(k)).0, x) && Remove(s, Aside(k)).0.dest == s.dest
  {
    hide Advance, Disturb, Inv;
    if s.up {
      var t, r := Advance(s), Remove(s, Aside(k)).0;
      AdvanceUndisturbed(s);
      UndisturbedInv(s, t, x);
      assert r.aside.Keys <= t.aside.Keys;
      FewerAside(t, r, x);
    }
  }

  // ------------------------------------------------------------- the swap

  /** While the old version is aside under attempt and from is coming in. */
  ghost predicate Mid(s: Store, from: Source, attempt: nat, x: set<nat>) {
    && Inv(s, x)
    && attempt in s.aside && attempt !in Reserved(s) && attempt !in x
    && (forall j :: j in s.aside ==> j <= attempt)
    && (s.wanted ==> WholeAside(s, x))
    && (from.Aside? ==> from.attempt < attempt && from.attempt in x)
  }

  lemma MidInv(s: Store, from: Source, attempt: nat, x: set<nat>)
    requires Mid(s, from, attempt, x)
    ensures Inv(s, x)
  {
  }

  lemma MidUndisturbed(s: Store, t: Store, from: Source, attempt: nat, x: set<nat>)
    requires Mid(s, from, attempt, x) && Undisturbed(s, t)
    ensures Mid(t, from, attempt, x)
  {
    UndisturbedInv(s, t, x);
    if WholeAside(s, x) {
      var w :| w in s.aside && w !in Reserved(s) && w !in x && s.aside[w].Whole?;
      assert w in t.aside && w !in Reserved(t) && w !in x && t.aside[w].Whole?;
    }
  }

  /** A rename of the version coming in leaves every copy the witness may be. */
  lemma MidMoved(s: Store, r: Store, from: Source, attempt: nat, x: set<nat>)
    requires Mid(s, from, attempt, x)
    requires r == MoveIn(s, from).0 || r == MoveOut(s, from).0
    ensures Mid(r, from, attempt, x)
  {
    hide Advance, Disturb, Mid;
    if s.up {
      var t := Advance(s);
      AdvanceUndisturbed(s);
      MidUndisturbed(s, t, from, attempt, x);
      if r == Settle(t, NextFate(s)) {
        MidUndisturbed(t, r, from, attempt, x);
      } else {
        MidRenamed(t, r, from, attempt, x);
      }
    }
  }

  lemma MidRenamed(t: Store, r: Store, from: Source, attempt: nat, x: set<nat>)
    requires Mid(t, from, attempt, x)
    requires r.clock == t.clock && r.wanted == t.wanted
    requires Reserved(r) <= Reserved(t) && (!r.up ==> Reserved(r) == {})
    requires from.Staged? ==> r.aside == t.aside
    requires from.Aside? ==> r.aside - {from.attempt} == t.aside - {from.attempt}
    ensures Mid(r, from, attempt, x)
  {
    forall k | k in t.aside && k !in x ensures k in r.aside && r.aside[k] == t.aside[k] {
      assert from.Aside? ==> k in t.aside - {from.attempt};
    }
    forall k | k in r.aside ensures k <= attempt {
      assert from.Aside? && k != from.attempt ==> k in r.aside - {from.attempt};
    }
    if WholeAside(t, x) {
      var w :| w in t.aside && w !in Reserved(t) && w !in x && t.aside[w].Whole?;
      assert w in r.aside && w !in Reserved(r) && w !in x && r.aside[w].Whole?;
    }
  }

  lemma ClockInv(s: Store, x: set<nat>)
    requires Inv(s, x)
    ensures Inv(s.(clock := s.clock + 1), x)
  {
    var s1 := s.(clock := s.clock + 1);
    assert Reserved(s1) == Reserved(s);
    assert WholeAside(s, x) ==> WholeAside(s1, x);
  }

  /** The first rename of a swap. */
  lemma OldMovedAside(s: Store, from: Source, x: set<nat>)
    requires Inv(s, x) && s.dest.Some?
    requires from.Aside? ==> from.attempt in x
    ensures var (r, out) := MoveOut(s.(clock := s.clock + 1), Aside(s.clock));
            Inv(r, x) && (out ==> Mid(r, from, s.clock, x))
  {
    hide Advance, Disturb;
    var s1 := s.(clock := s.clock + 1);
    var t, r := Advance(s1), MoveOut(s1, Aside(s.clock)).0;
    ClockInv(s, x);
    AdvanceUndisturbed(s1);
    UndisturbedInv(s1, t, x);
    if r.dest == s.dest {
      UndisturbedInv(s1, r, x);
    } else {
      assert Reserved(s1) == Reserved(s);
      assert Reserved(r) <= Reserved(s);
      assert s.clock in r.aside && s.clock !in Reserved(r) && s.clock !in x;
      if t.wanted && !IsWhole(t.dest) {
        var w :| w in t.aside && w !in Reserved(t) && w !in x && t.aside[w].Whole?;
        assert w in r.aside && w !in Reserved(r) && w !in x && r.aside[w].Whole?;
      }
    }
  }

  ghost predicate SwapEnds(r: (Store, Option<nat>), from: Source, x: set<nat>) {
    && Inv(r.0, x)
    && (r.1.Some? ==> r.0.up && IsWhole(r.0.dest) && Mid(r.0, from, r.1.value, x))
  }

  lemma SwapInCheckInv(s: Store, from: Source, attempt: nat, x: set<nat>)
    requires Mid(s, from, attempt, x)
    ensures SwapEnds(SwapInCheck(s, from, attempt), from, x)
  {
    hide Inv, Mid, MoveIn, MoveOut, Ask;
    var s5 := Validate(s).0;
    var s6 := MoveOut(s5, from).0;
    MidInv(s, from, attempt, x);
    AskInv(s, x);
    MidUndisturbed(s, s5, from, attempt, x);
    MidInv(s5, from, attempt, x);
    MidMoved(s5, s6, from, attempt, x);
    MidInv(s6, from, attempt, x);
    MovedIn(s6, attempt, x);
  }

  lemma SwapInRestInv(s: Store, from: Source, attempt: nat, x: set<nat>)
    requires Mid(s, from, attempt, x)
    ensures SwapEnds(SwapInRest(s, from, attempt), from, x)
  {
    hide Inv, Mid, MoveIn, SwapInCheck;
    var s4 := MoveIn(s, from).0;
    MidMoved(s, s4, from, attempt, x);
    MidInv(s, from, attempt, x);
    MidInv(s4, from, attempt, x);
    MovedIn(s, attempt, x);
    MovedIn(s4, attempt, x);
    SwapInCheckInv(s4, from, attempt, x);
  }

  lemma PutBackNewestInv(s: Store, x: set<nat>)
    requires Inv(s, x)
    ensures Inv(PutBackNewest(s), x)
  {
    if s.aside.Keys != {} {
      MovedIn(s, Newest(s.aside.Keys), x);
    }
  }

  lemma SwapInStoppedInv(s: Store, from: Source, x: set<nat>)
    requires Inv(s, x)
    requires from.Aside? ==> from.attempt in x
    ensures SwapEnds(SwapInStopped(s, from), from, x)
  {
    hide Inv, Mid, MoveIn, MoveOut, SwapInRest, PutBackNewest;
    var s2 := s.(clock := s.clock + 1);
    ClockInv(s, x);
    if s2.dest.None? {
      PutBackNewestInv(s2, x);
    } else {
      var (s3, out) := MoveOut(s2, Aside(s.clock));
      OldMovedAside(s, from, x);
      if out {
        SwapInRestInv(s3, from, s.clock, x);
      }
    }
  }

  lemma SwapInInv(s: Store, from: Source, x: set<nat>)
    requires Inv(s, x)
    requires from.Aside? ==> from.attempt in x
    ensures SwapEnds(SwapIn(s, from), from, x)
  {
    hide Inv, Mid, Ask, SwapInStopped;
    AskInv(s, x);
    SwapInStoppedInv(Ask(s).0, from, x);
  }

  // ------------------------------------------------------------ operations

  lemma PublishUpdateInv(s: Store, version: nat, prior: Option<nat>)
    requires Inv(s, {})
    ensures Inv(PublishUpdate(s, version, prior), {})
  {
    hide Remove, SwapIn;
    SwapInInv(s, Staged, {});
    RemoveStagedInv(SwapIn(s, Staged).0, {});
  }

  lemma UpdateInv(s: Store, version: nat)
    requires Inv(s, {})
    ensures Inv(Update(s, version), {})
  {
    hide Inv, Remove, Fetch, Ask, PublishUpdate;
    var s1 := Remove(s, Staged).0;
    RemoveStagedInv(s, {});
    var s2 := Fetch(s1, version).0;
    FetchInv(s1, version, {});
    RemoveStagedInv(s2, {});
    var s3 := Ask(s2).0;
    AskInv(s2, {});
    RemoveStagedInv(s3, {});
    PublishUpdateInv(s3, version, s.commit);
  }

  lemma RestoreInv(s: Store)
    requires Inv(s, {})
    ensures Inv(Restore(s).0, {})
  {
    hide SwapIn;
    if s.up && s.held.Some? {
      var fb := s.held.value;
      var s0, x := s.(held := None), {fb.attempt};
      assert Reserved(s0) + x == Reserved(s);
      SwapInInv(s0, Aside(fb.attempt), x);
      var (s1, swapped) := SwapIn(s0, Aside(fb.attempt));
      Released(s1, x);
      if s1.held.None? {
        assert Reserved(s1.(held := Some(fb))) == Reserved(s1) + x;
      }
    }
  }

  /** What holds with a copy set apart holds with it back among the rest. */
  lemma Released(s: Store, x: set<nat>)
    requires Inv(s, x)
    ensures Inv(s, {})
  {
    if WholeAside(s, x) {
      var w :| w in s.aside && w !in Reserved(s) && w !in x && s.aside[w].Whole?;
      assert w in s.aside && w !in Reserved(s) && s.aside[w].Whole?;
    }
  }

  lemma {:induction false} PutBackInv(s: Store, todo: set<nat>)
    requires Inv(s, {}) && Reserved(s) == {}
    ensures Inv(PutBackAside(s, todo).0, {}) && Reserved(PutBackAside(s, todo).0) == {}
    decreases |todo|
  {
    hide Inv, MoveIn, Advance, Disturb;
    if todo != {} {
      var k := Newest(todo);
      if s.dest.Some? {
        PutBackInv(s, todo - {k});
      } else {
        MovedIn(s, k, {});
        AdvanceUndisturbed(s);
        PutBackInv(MoveIn(s, Aside(k)).0, todo - {k});
      }
    }
  }

  lemma ClearOneInv(s: Store, e: Entry, newest: Option<nat>, putBack: bool)
    requires Inv(s, {})
    ensures Inv(ClearOne(s, e, newest, putBack), {})
  {
    hide Inv, Remove;
    RemoveStagedInv(s, {});
    if e.AsideEntry? && IsWhole(s.dest) {
      RemoveAsideInv(s, e.attempt, {});
      if e.attempt in s.aside {
        HeldInv(s, e.attempt);
      }
    }
  }

  /** Holding a copy beside a complete folder. */
  lemma HeldInv(s: Store, k: nat)
    requires Inv(s, {}) && IsWhole(s.dest) && k in s.aside
    ensures s.up ==> Inv(s.(held := Some(Fallback(k, None))), {})
  {
    assert Reserved(s.(held := Some(Fallback(k, None)))) == s.doomed + {k};
    assert s.doomed <= Reserved(s);
  }

  lemma {:induction false} ClearInv(s: Store, listing: seq<Entry>, newest: Option<nat>, putBack: bool)
    requires Inv(s, {})
    ensures Inv(Clear(s, listing, newest, putBack), {})
    decreases |listing|
  {
    hide Inv, ClearOne;
    if listing != [] {
      ClearOneInv(s, listing[0], newest, putBack);
      ClearInv(ClearOne(s, listing[0], newest, putBack), listing[1..], newest, putBack);
    }
  }

  lemma RecoverInv(s: Store, listing: seq<Entry>)
    requires Inv(s, {}) && Reserved(s) == {}
    ensures Inv(Recover(s, listing), {})
  {
    hide PutBackAside, Clear;
    var s1 := s.(up := true, held := None, doomed := {});
    UndisturbedInv(s, s1.(up := s.up), {});
    PutBackInv(s1, s1.aside.Keys);
    var (s2, putBack) := PutBackAside(s1, s1.aside.Keys);
    ClearInv(s2, listing, NewestOf(s2), putBack);
  }

  lemma ScriptInv(s: Store, fs: seq<Fate>)
    requires Inv(s, {})
    ensures Inv(s.(script := fs), {})
  {
    assert Reserved(s.(script := fs)) == Reserved(s);
    UndisturbedInv(s, s.(script := fs), {});
  }

  lemma LoadedInv(s: Store)
    requires Inv(s, {})
    ensures Inv(DropFallback(s), {})
  {
    assert Reserved(DropFallback(s)) == Reserved(s);
    UndisturbedInv(s, DropFallback(s), {});
  }

  lemma StepInv(s: Store, e: Event)
    requires Inv(s, {})
    ensures Inv(Step(s, e), {})
  {
    hide Inv, Update, Restore, Recover, Delete, Ask, DropFallback;
    match e
    case EvUpdate(v, fs) =>
      ScriptInv(s, fs);
      UpdateInv(s.(script := fs), v);
    case EvLoaded(fs) =>
      ScriptInv(s, fs);
      AskInv(s.(script := fs), {});
      LoadedInv(Ask(s.(script := fs)).0);
    case EvFailedLoad(fs) =>
      ScriptInv(s, fs);
      RestoreInv(s.(script := fs));
    case EvCrash =>
      CrashInv(s);
    case EvStart(listing, fs) =>
      if !s.up {
        ScriptInv(s, fs);
        DownInv(s, fs);
        RecoverInv(s.(script := fs), listing);
      }
    case EvDelete(fs) =>
      ScriptInv(s, fs);
      DeleteInv(s.(script := fs));
  }

  lemma CrashInv(s: Store)
    requires Inv(s, {})
    ensures Inv(Crash(s), {})
  {
    UndisturbedInv(s, Crash(s), {});
  }

  lemma DownInv(s: Store, fs: seq<Fate>)
    requires Inv(s, {}) && !s.up
    ensures Reserved(s.(script := fs)) == {}
  {
  }

  lemma DeleteInv(s: Store)
    requires Inv(s, {})
    ensures Inv(Delete(s), {})
  {
    hide Advance, Disturb, Ask, Remove;
    var s1 := Ask(s).0;
    AskInv(s, {});
    var s2 := s1.(wanted := false, commit := None);
    AdvanceUndisturbed(s2);
    UndisturbedInv(s2, Advance(s2), {});
    var s3 := Settle(Advance(s2).(dest := None), NextFate(s1));
    assert Inv(s3, {});
    if s3.held.Some? {
      RemoveAsideInv(s3.(held := None), s3.held.value.attempt, {});
    }
  }

  lemma {:induction false} RunInv(s: Store, es: seq<Event>)
    requires Inv(s, {})
    ensures Inv(Run(s, es), {})
    decreases |es|
  {
    hide Inv, Step;
    if es != [] {
      StepInv(s, es[0]);
      RunInv(Step(s, es[0]), es[1..]);
    }
  }

  // ---------------------------------------------------------- main results

  /** A model that has just become complete, with nothing aside. */
  predicate Begins(s: Store) {
    && s.wanted && IsWhole(s.dest) && s.aside == map[] && s.held.None? && s.doomed == {}
  }

  ghost predicate SomeWholeCopy(s: Store) {
    IsWhole(s.dest) || exists k :: k in s.aside && s.aside[k].Whole?
  }

  /**
    Over every run of updates, restores, load reports in any order, failed or
    partial operations, crashes between any two operations (recovery's own
    included) and restarts, a model that was complete has a complete copy, in
    place or aside, until it is deleted.
  */
  lemma ACompleteCopySurvives(s: Store, es: seq<Event>)
    requires Begins(s)
    ensures Run(s, es).wanted ==> SomeWholeCopy(Run(s, es))
  {
    assert Inv(s, {});
    RunInv(s, es);
  }

  /** The fallback is never the only complete copy of a model still wanted. */
  lemma TheFallbackIsNeverTheLastCopy(s: Store, es: seq<Event>)
    requires Begins(s)
    ensures var t := Run(s, es);
            t.wanted ==> SomeWholeCopy(t.(aside := t.aside - Reserved(t)))
  {
    assert Inv(s, {});
    RunInv(s, es);
    var t := Run(s, es);
    if WholeAside(t, {}) {
      var w :| w in t.aside && w !in Reserved(t) && t.aside[w].Whole?;
      assert w in t.aside - Reserved(t);
    }
  }
}
