/**
  Every start whose rename works leaves a complete folder in place.

  The invariant of ModelStoreSafety says that some complete copy survives, not
  where. This one says where: in the folder when one stands there, and in the
  newest copy aside when none does, which is the copy a start puts back. It
  needs what the other does not, that no start's own rename has failed: a start
  whose rename fails goes on to an older copy, and that one may be torn.
*/
module ModelStoreInPlace {
  import opened Common
  import opened ModelStore
  import opened ModelStoreExact
  import opened ModelStoreSafety

  /**
    What a run in which no start's rename fails keeps beside the invariant of
    every run: a folder that stands is complete; when none stands the newest
    copy aside is; and so is the copy held, or the one a restore has taken.
  */
  ghost predicate Fit(s: Store, x: set<nat>) {
    s.wanted ==>
      && (s.dest.Some? ==> s.dest.value.Whole?)
      && (s.dest.None? ==> forall k :: k in s.aside && (forall j :: j in s.aside ==> j <= k) ==> s.aside[k].Whole?)
      && (s.held.Some? ==> FitCopy(s, s.held.value.attempt) && s.held.value.attempt !in x)
      && (forall k :: k in x ==> FitCopy(s, k))
  }

  predicate FitCopy(s: Store, k: nat) {
    k !in s.doomed && (k in s.aside ==> s.aside[k].Whole?)
  }

  ghost predicate Placed(s: Store, x: set<nat>) {
    Inv(s, x) && Fit(s, x)
  }

  /** What interference leaves of the copies a removal is not to reach. */
  ghost predicate Spared(s: Store, t: Store) {
    && Undisturbed(s, t)
    && (t.held.Some? ==> t.held == s.held && t.doomed == s.doomed)
    && t.doomed <= Reserved(s)
    && (t.held.Some? && t.held.value.attempt !in t.doomed && t.held.value.attempt in t.aside ==>
          t.held.value.attempt in s.aside && t.aside[t.held.value.attempt] == s.aside[t.held.value.attempt])
  }

  lemma AdvanceSpared(s: Store)
    ensures Spared(s, Advance(s)) && Advance(s).up == s.up
  {
  }

  lemma SettleSpared(s: Store, f: Fate)
    ensures Spared(s, Settle(s, f))
  {
  }

  lemma SparedFit(s: Store, t: Store, x: set<nat>)
    requires Placed(s, x) && Spared(s, t)
    ensures Placed(t, x)
  {
    UndisturbedInv(s, t, x);
    if t.wanted && t.dest.None? {
      var n := Newest(s.aside.Keys);
      assert n in t.aside && n !in Reserved(s);
      forall k | k in t.aside && (forall j :: j in t.aside ==> j <= k) ensures t.aside[k].Whole? {
        assert k == n;
      }
    }
    if t.wanted {
      forall k | k in x ensures FitCopy(t, k) {
        assert FitCopy(s, k);
        assert k !in Reserved(s);
      }
    }
  }

  lemma AskFit(s: Store, x: set<nat>)
    requires Placed(s, x)
    ensures Placed(Ask(s).0, x) && Undisturbed(s, Ask(s).0)
  {
    hide Advance, Disturb, Fit, Inv, Spared, Undisturbed;
    AskInv(s, x) by {
      PlacedInv(s, x);
    }
    if s.up {
      AdvanceSpared(s);
      SparedFit(s, Advance(s), x);
      SettleSpared(Advance(s), NextFate(s));
      SparedFit(Advance(s), Settle(Advance(s), NextFate(s)), x);
    }
  }

  lemma PlacedInv(s: Store, x: set<nat>)
    requires Placed(s, x)
    ensures Inv(s, x)
  {
  }

  /** Only what stands in the staging folder for the next version changes. */
  lemma StagedFit(s: Store, staged: Option<Content>, x: set<nat>)
    requires Placed(s, x)
    ensures Placed(s.(staged := staged), x)
  {
    UndisturbedInv(s.(staged := staged), s.(staged := staged), x) by {
      var t := s.(staged := staged);
      assert Reserved(t) == Reserved(s);
      assert WholeAside(s, x) ==> WholeAside(t, x);
    }
  }

  lemma RemoveStagedFit(s: Store, x: set<nat>)
    requires Placed(s, x)
    ensures Placed(Remove(s, Staged).0, x)
  {
    hide Advance, Disturb, Placed, Spared;
    if s.up {
      var t, f := Advance(s), NextFate(s);
      AdvanceSpared(s);
      SparedFit(s, t, x);
      SettleSpared(t, f);
      SparedFit(t, Settle(t, f), x);
      var r := Remove(s, Staged).0;
      StagedFit(Settle(t, f), r.staged, x);
    }
  }

  lemma FetchFit(s: Store, version: nat, x: set<nat>)
    requires Placed(s, x)
    ensures Placed(Fetch(s, version).0, x)
  {
    hide Advance, Disturb, Placed, Spared;
    if s.up {
      var t, f := Advance(s), NextFate(s);
      AdvanceSpared(s);
      SparedFit(s, t, x);
      SettleSpared(t, f);
      SparedFit(t, Settle(t, f), x);
      StagedFit(Settle(t, f), Fetch(s, version).0.staged, x);
    }
  }

  /** Moving a complete copy into the folder. */
  lemma MovedInFit(s: Store, k: nat, x: set<nat>)
    requires Placed(s, x) && k !in Reserved(s)
    requires s.wanted && s.dest.None? && k in s.aside ==> s.aside[k].Whole?
    ensures Placed(MoveIn(s, Aside(k)).0, x)
  {
    hide Advance, Disturb;
    if s.up {
      var t, f, r := Advance(s), NextFate(s), MoveIn(s, Aside(k)).0;
      AdvanceSpared(s);
      SparedFit(s, t, x);
      MovedIn(s, k, x);
      SettleSpared(t, f);
      SparedFit(t, Settle(t, f), x);
    }
  }

  // ------------------------------------------------------------- the swap

  /** While a complete old version is aside under attempt, the newest there. */
  ghost predicate Midway(s: Store, from: Source, attempt: nat, x: set<nat>) {
    Mid(s, from, attempt, x) && Fit(s, x) && (s.wanted ==> s.aside[attempt].Whole?)
  }

  lemma MidwayPlaced(s: Store, from: Source, attempt: nat, x: set<nat>)
    requires Midway(s, from, attempt, x)
    ensures Placed(s, x) && Mid(s, from, attempt, x) && attempt !in Reserved(s) && attempt !in x && attempt in s.aside
    ensures s.wanted ==> s.aside[attempt].Whole?
  {
  }

  lemma MidwaySpared(s: Store, t: Store, from: Source, attempt: nat, x: set<nat>)
    requires Midway(s, from, attempt, x) && Spared(s, t)
    ensures Midway(t, from, attempt, x)
  {
    MidUndisturbed(s, t, from, attempt, x);
    SparedFit(s, t, x);
  }

  lemma MidwayAsked(s: Store, from: Source, attempt: nat, x: set<nat>)
    requires Midway(s, from, attempt, x)
    ensures Midway(Ask(s).0, from, attempt, x)
  {
    hide Advance, Disturb, Midway, Spared;
    if s.up {
      AdvanceSpared(s);
      MidwaySpared(s, Advance(s), from, attempt, x);
      SettleSpared(Advance(s), NextFate(s));
      MidwaySpared(Advance(s), Settle(Advance(s), NextFate(s)), from, attempt, x);
    }
  }

  /** A rename of the complete version coming in, or of it back out. */
  lemma MidwayRenamed(t: Store, f: Fate, r: Store, from: Source, attempt: nat, x: set<nat>)
    requires Midway(t, from, attempt, x) && Mid(r, from, attempt, x)
    requires
      || (t.dest.None? && At(t, from).Some? && (t.wanted ==> At(t, from).value.Whole?)
          && r == Settle(Take(t, from).(dest := At(t, from)), f))
      || (t.dest.Some? && At(t, from).None? && r == Settle(Put(t, from, t.dest.value).(dest := None), f))
    ensures Midway(r, from, attempt, x)
  {
    assert attempt in t.aside && attempt in r.aside;
    assert r.aside[attempt] == t.aside[attempt];
    if r.wanted {
      forall k | k in r.aside && (forall j :: j in r.aside ==> j <= k) ensures r.aside[k].Whole? {
        assert k == attempt;
      }
      forall k | k in x ensures FitCopy(r, k) {
        assert FitCopy(t, k);
      }
    }
  }

  lemma MidwayMovedIn(s: Store, from: Source, attempt: nat, x: set<nat>)
    requires Midway(s, from, attempt, x)
    requires from.Staged? && s.wanted && s.staged.Some? ==> s.staged.value.Whole?
    ensures Midway(MoveIn(s, from).0, from, attempt, x)
  {
    hide Advance, Disturb, Midway, Mid, Spared;
    MidMoved(s, MoveIn(s, from).0, from, attempt, x) by {
      MidwayPlaced(s, from, attempt, x);
    }
    if s.up {
      var t, f, r := Advance(s), NextFate(s), MoveIn(s, from).0;
      AdvanceSpared(s);
      MidwaySpared(s, t, from, attempt, x);
      SettleSpared(t, f);
      MidwaySpared(t, Settle(t, f), from, attempt, x);
      if r != Settle(t, f) {
        ComingInIsWhole(s, t, from, attempt, x);
        MidwayRenamed(t, f, r, from, attempt, x);
      }
    }
  }

  lemma ComingInIsWhole(s: Store, t: Store, from: Source, attempt: nat, x: set<nat>)
    requires Midway(t, from, attempt, x) && Spared(s, t) && At(t, from).Some?
    requires from.Staged? && s.wanted && s.staged.Some? ==> s.staged.value.Whole?
    ensures t.wanted ==> At(t, from).value.Whole?
  {
    if t.wanted && from.Aside? {
      assert FitCopy(t, from.attempt);
    }
  }

  lemma MidwayMovedOut(s: Store, from: Source, attempt: nat, x: set<nat>)
    requires Midway(s, from, attempt, x)
    ensures Midway(MoveOut(s, from).0, from, attempt, x)
  {
    hide Advance, Disturb, Midway, Mid, Spared;
    MidMoved(s, MoveOut(s, from).0, from, attempt, x) by {
      MidwayPlaced(s, from, attempt, x);
    }
    if s.up {
      var t, f, r := Advance(s), NextFate(s), MoveOut(s, from).0;
      AdvanceSpared(s);
      MidwaySpared(s, t, from, attempt, x);
      SettleSpared(t, f);
      MidwaySpared(t, Settle(t, f), from, attempt, x);
      if r != Settle(t, f) {
        MidwayRenamed(t, f, r, from, attempt, x);
      }
    }
  }

  /** How every swap ends: at rest or midway, with the copy it names complete. */
  ghost predicate SwapFits(r: (Store, Option<nat>), from: Source, x: set<nat>) {
    Placed(r.0, x) && (r.1.Some? ==> Midway(r.0, from, r.1.value, x) && r.0.up)
  }

  lemma OldPutBack(s: Store, from: Source, attempt: nat, x: set<nat>)
    requires Midway(s, from, attempt, x)
    ensures SwapFits((MoveIn(s, Aside(attempt)).0, None), from, x)
  {
    hide MoveIn, Placed, Midway;
    MidwayPlaced(s, from, attempt, x);
    MovedInFit(s, attempt, x);
  }

  lemma SwapInCheckFit(s: Store, from: Source, attempt: nat, x: set<nat>)
    requires Midway(s, from, attempt, x)
    ensures SwapFits(SwapInCheck(s, from, attempt), from, x)
  {
    hide MoveIn, MoveOut, Placed, Midway, Ask;
    MidwayAsked(s, from, attempt, x);
    var s5 := Validate(s).0;
    MidwayPlaced(s5, from, attempt, x);
    AskUp(s);
    var s6 := MoveOut(s5, from).0;
    MidwayMovedOut(s5, from, attempt, x);
    MidwayPlaced(s6, from, attempt, x);
    OldPutBack(s6, from, attempt, x);
  }

  lemma AskUp(s: Store)
    ensures Ask(s).1 ==> Ask(s).0.up
  {
  }

  lemma SwapInRestFit(s: Store, from: Source, attempt: nat, x: set<nat>)
    requires Midway(s, from, attempt, x)
    requires from.Staged? && s.wanted && s.staged.Some? ==> s.staged.value.Whole?
    ensures SwapFits(SwapInRest(s, from, attempt), from, x)
  {
    hide MoveIn, SwapInCheck, Placed, Midway, SwapFits;
    OldPutBack(s, from, attempt, x);
    var s4 := MoveIn(s, from).0;
    MidwayMovedIn(s, from, attempt, x);
    OldPutBack(s4, from, attempt, x);
    SwapInCheckFit(s4, from, attempt, x);
  }

  /** The first rename of a swap, of a complete folder. */
  lemma OldAsideFit(s: Store, from: Source, x: set<nat>)
    requires Placed(s, x) && s.dest.Some?
    requires from.Aside? ==> from.attempt in x
    ensures var (r, out) := MoveOut(s.(clock := s.clock + 1), Aside(s.clock));
            Placed(r, x) && (out ==> Midway(r, from, s.clock, x)) && r.staged == s.staged && r.wanted == s.wanted
  {
    hide Advance, Disturb;
    var s1 := s.(clock := s.clock + 1);
    var (r, out) := MoveOut(s1, Aside(s.clock));
    OldMovedAside(s, from, x);
    ClockFit(s, x);
    if s.up {
      var t, f := Advance(s1), NextFate(s1);
      AdvanceSpared(s1);
      SparedFit(s1, t, x);
      SettleSpared(t, f);
      SparedFit(t, Settle(t, f), x);
      if r != Settle(t, f) {
        assert r == Settle(Put(t, Aside(s.clock), t.dest.value).(dest := None), f);
        assert Reserved(s1) == Reserved(s) && Reserved(t) <= Reserved(s1);
        assert s.clock !in s.aside && s.clock !in Reserved(s) && s.clock !in x;
        AsideFit(t, f, s.clock, x);
      }
    }
  }

  lemma ClockFit(s: Store, x: set<nat>)
    requires Placed(s, x)
    ensures Placed(s.(clock := s.clock + 1), x)
  {
    ClockInv(s, x);
  }

  lemma AsideFit(t: Store, f: Fate, k: nat, x: set<nat>)
    requires Placed(t, x) && t.dest.Some? && k !in t.aside && k !in Reserved(t) && k !in x
    requires forall j :: j in t.aside ==> j < k
    ensures var r := Settle(Put(t, Aside(k), t.dest.value).(dest := None), f);
            Fit(r, x) && (r.wanted ==> r.aside[k].Whole?)
  {
    var r := Settle(Put(t, Aside(k), t.dest.value).(dest := None), f);
    if r.wanted {
      assert k in r.aside;
      forall j | j in r.aside && (forall i :: i in r.aside ==> i <= j) ensures r.aside[j].Whole? {
        assert j == k;
      }
      forall j | j in x ensures FitCopy(r, j) {
        assert FitCopy(t, j);
      }
    }
  }

  lemma SwapInFit(s: Store, from: Source, x: set<nat>)
    requires Placed(s, x)
    requires from.Aside? ==> from.attempt in x
    requires from.Staged? && s.wanted && s.staged.Some? ==> s.staged.value.Whole?
    ensures SwapFits(SwapIn(s, from), from, x)
  {
    hide Ask, SwapInStopped, Placed, Undisturbed;
    AskFit(s, x);
    var s1 := Ask(s).0;
    assert s1.staged == s.staged && s1.wanted == s.wanted by {
      AskKeeps(s);
    }
    SwapInStoppedFit(s1, from, x);
  }

  lemma AskKeeps(s: Store)
    ensures Ask(s).0.staged == s.staged && Ask(s).0.wanted == s.wanted
  {
  }

  lemma SwapInStoppedFit(s: Store, from: Source, x: set<nat>)
    requires Placed(s, x)
    requires from.Aside? ==> from.attempt in x
    requires from.Staged? && s.wanted && s.staged.Some? ==> s.staged.value.Whole?
    ensures SwapFits(SwapInStopped(s, from), from, x)
  {
    hide MoveIn, MoveOut, SwapInRest, Placed, Midway;
    var s2 := s.(clock := s.clock + 1);
    ClockFit(s, x);
    if s2.dest.None? {
      NewestPutBackFit(s2, x);
    } else {
      var (s3, out) := MoveOut(s2, Aside(s.clock));
      OldAsideFit(s, from, x);
      if out {
        SwapInRestFit(s3, from, s.clock, x);
      }
    }
  }

  lemma NewestPutBackFit(s: Store, x: set<nat>)
    requires Placed(s, x) && s.dest.None?
    ensures Placed(PutBackNewest(s), x)
  {
    hide MoveIn;
    if s.aside.Keys != {} {
      if s.wanted {
        MovedInFit(s, Newest(s.aside.Keys), x);
      } else {
        PutBackNewestInv(s, x);
        MoveInWanted(s, Aside(Newest(s.aside.Keys)));
      }
    }
  }

  lemma MoveInWanted(s: Store, from: Source)
    ensures MoveIn(s, from).0.wanted == s.wanted
  {
  }

  // ------------------------------------------------------------ operations

  lemma PublishUpdateFit(s: Store, version: nat, prior: Option<nat>)
    requires Placed(s, {}) && (s.staged.Some? ==> s.staged.value.Whole?)
    ensures Placed(PublishUpdate(s, version, prior), {})
  {
    hide Remove, SwapIn;
    SwapInFit(s, Staged, {});
    RemoveStagedFit(SwapIn(s, Staged).0, {});
    PublishUpdateInv(s, version, prior);
  }

  lemma UpdateFit(s: Store, version: nat)
    requires Placed(s, {})
    ensures Placed(Update(s, version), {})
  {
    hide Placed, Remove, Fetch, Ask, PublishUpdate;
    var s1 := Remove(s, Staged).0;
    RemoveStagedFit(s, {});
    var (s2, fetched) := Fetch(s1, version);
    FetchFit(s1, version, {});
    RemoveStagedFit(s2, {});
    var s3 := Ask(s2).0;
    AskFit(s2, {});
    RemoveStagedFit(s3, {});
    if fetched {
      FetchedWhole(s1, version);
      AskKeeps(s2);
      PublishUpdateFit(s3, version, s.commit);
    }
  }

  lemma FetchedWhole(s: Store, version: nat)
    requires Fetch(s, version).1
    ensures Fetch(s, version).0.staged == Some(Whole(version))
  {
  }

  lemma RestoreFit(s: Store)
    requires Placed(s, {})
    ensures Placed(Restore(s).0, {})
  {
    hide SwapIn;
    RestoreInv(s);
    if s.up && s.held.Some? {
      var fb := s.held.value;
      var s0, x := s.(held := None), {fb.attempt};
      assert Reserved(s0) + x == Reserved(s);
      SwapInFit(s0, Aside(fb.attempt), x);
      var s1 := SwapIn(s0, Aside(fb.attempt)).0;
      assert s1.wanted ==> FitCopy(s1, fb.attempt);
    }
  }

  // -------------------------------------------------------------- a start

  predicate Distinct(listing: seq<Entry>) {
    forall i, j :: 0 <= i < j < |listing| ==> listing[i] != listing[j]
  }

  /** The entries of a listing still to come are of copies nothing has reserved yet. */
  predicate Fresh(s: Store, listing: seq<Entry>) {
    forall k :: AsideEntry(k) in listing ==> k !in Reserved(s)
  }

  lemma RemoveAsideFit(s: Store, k: nat)
    requires Placed(s, {}) && (IsWhole(s.dest) || !s.wanted) && k !in Reserved(s)
    ensures Placed(Remove(s, Aside(k)).0, {}) && Reserved(Remove(s, Aside(k)).0) <= Reserved(s)
  {
    hide Advance, Disturb;
    RemoveAsideInv(s, k, {});
    if s.up {
      var t := Advance(s);
      AdvanceSpared(s);
      SparedFit(s, t, {});
    }
  }

  lemma ClearOneFit(s: Store, e: Entry, rest: seq<Entry>, newest: Option<nat>, putBack: bool)
    requires Placed(s, {}) && Fresh(s, [e] + rest) && e !in rest
    ensures Placed(ClearOne(s, e, newest, putBack), {}) && Fresh(ClearOne(s, e, newest, putBack), rest)
  {
    hide Remove;
    RemoveStagedFit(s, {});
    RemoveStagedReserves(s);
    ClearOneInv(s, e, newest, putBack);
    assert forall k :: AsideEntry(k) in rest ==> AsideEntry(k) in [e] + rest;
    if e.AsideEntry? {
      assert e in [e] + rest;
      if IsWhole(s.dest) {
        RemoveAsideFit(s, e.attempt);
      }
    }
  }

  lemma RemoveStagedReserves(s: Store)
    ensures Reserved(Remove(s, Staged).0) <= Reserved(s)
  {
    hide Advance, Disturb;
    AdvanceSpared(s);
  }

  lemma {:induction false} ClearFit(s: Store, listing: seq<Entry>, newest: Option<nat>, putBack: bool)
    requires Placed(s, {}) && Fresh(s, listing) && Distinct(listing)
    ensures Placed(Clear(s, listing, newest, putBack), {})
    decreases |listing|
  {
    hide Placed, ClearOne, Fresh;
    if listing != [] {
      assert listing == [listing[0]] + listing[1..];
      assert listing[0] !in listing[1..];
      ClearOneFit(s, listing[0], listing[1..], newest, putBack);
      ClearFit(ClearOne(s, listing[0], newest, putBack), listing[1..], newest, putBack);
    }
  }

  /** The rename a start makes, if it makes one, does not fail. */
  predicate StartRenames(s: Store, fates: seq<Fate>) {
    s.dest.Some? || fates == [] || !fates[0].effect.Fails?
  }

  lemma PutBackAsideFit(s: Store)
    requires s.up && Placed(s, {}) && Reserved(s) == {} && StartRenames(s, s.script)
    ensures Placed(PutBackAside(s, s.aside.Keys).0, {}) && Reserved(PutBackAside(s, s.aside.Keys).0) == {}
  {
    PutBackInv(s, s.aside.Keys);
    if s.dest.Some? {
      PutBackStands(s, s.aside.Keys);
    } else if s.aside.Keys != {} {
      var k := Newest(s.aside.Keys);
      assert Advance(s).aside == s.aside;
      var r := MoveIn(s, Aside(k)).0;
      MovedInFit(s, k, {}) by {
        assert s.wanted ==> s.aside[k].Whole?;
      }
      PutBackStands(r, s.aside.Keys - {k});
    }
  }

  lemma RecoverFit(s: Store, listing: seq<Entry>)
    requires Placed(s, {}) && Reserved(s) == {} && StartRenames(s, s.script) && Distinct(listing)
    ensures Placed(Recover(s, listing), {})
  {
    hide PutBackAside, Clear;
    var s1 := s.(up := true, held := None, doomed := {});
    UndisturbedInv(s, s1.(up := s.up), {});
    PutBackAsideFit(s1);
    var (s2, putBack) := PutBackAside(s1, s1.aside.Keys);
    ClearFit(s2, listing, NewestOf(s2), putBack);
  }

  // ------------------------------------------------------------------ runs

  lemma DeleteFit(s: Store)
    requires Placed(s, {})
    ensures Placed(Delete(s), {})
  {
    hide Ask, Remove, Advance, Disturb;
    AskFit(s, {});
    DeleteInv(s);
    var s1 := Ask(s).0;
    AdvanceSpared(s1.(wanted := false, commit := None));
    forall t: Store, p: Source ensures Remove(t, p).0.wanted == t.wanted {
      RemoveWanted(t, p);
    }
  }

  lemma RemoveWanted(s: Store, p: Source)
    ensures Remove(s, p).0.wanted == s.wanted
  {
  }

  /** No start's rename fails, and each lists every entry once. */
  ghost predicate RenamesWork(s: Store, es: seq<Event>)
    decreases |es|
  {
    es == [] || (StartWorks(s, es[0]) && RenamesWork(Step(s, es[0]), es[1..]))
  }

  predicate StartWorks(s: Store, e: Event) {
    e.EvStart? && !s.up ==> Distinct(e.listing) && StartRenames(s, e.fates)
  }

  lemma ScriptFit(s: Store, fs: seq<Fate>)
    requires Placed(s, {})
    ensures Placed(s.(script := fs), {})
  {
    ScriptInv(s, fs);
  }

  lemma StepFit(s: Store, e: Event)
    requires Placed(s, {}) && StartWorks(s, e)
    ensures Placed(Step(s, e), {})
  {
    hide Placed, Update, Restore, Recover, Delete, Ask, Distinct;
    match e
    case EvUpdate(v, fs) =>
      ScriptFit(s, fs);
      UpdateFit(s.(script := fs), v);
    case EvLoaded(fs) =>
      ScriptFit(s, fs);
      AskFit(s.(script := fs), {});
      DroppedFit(Ask(s.(script := fs)).0);
    case EvFailedLoad(fs) =>
      ScriptFit(s, fs);
      RestoreFit(s.(script := fs));
    case EvCrash =>
      CrashFit(s);
    case EvStart(listing, fs) =>
      if !s.up {
        ScriptFit(s, fs);
        PlacedInv(s, {});
        DownInv(s, fs);
        RecoverFit(s.(script := fs), listing);
      }
    case EvDelete(fs) =>
      ScriptFit(s, fs);
      DeleteFit(s.(script := fs));
  }

  lemma DroppedFit(s: Store)
    requires Placed(s, {})
    ensures Placed(DropFallback(s), {})
  {
    LoadedInv(s);
  }

  lemma CrashFit(s: Store)
    requires Placed(s, {})
    ensures Placed(Crash(s), {})
  {
    CrashInv(s);
  }

  lemma {:induction false} RunFit(s: Store, es: seq<Event>)
    requires Placed(s, {}) && RenamesWork(s, es)
    ensures Placed(Run(s, es), {})
    decreases |es|
  {
    hide Placed, Step, StartWorks;
    if es != [] {
      StepFit(s, es[0]);
      RunFit(Step(s, es[0]), es[1..]);
    }
  }

  /**
    In every run of updates, restores, load reports, failures and crashes in
    which no start's rename fails, a folder that stands is complete, and when
    none stands the newest copy aside is, until the model is deleted.
  */
  lemma AFolderThatStandsIsComplete(s: Store, es: seq<Event>)
    requires Begins(s) && RenamesWork(s, es)
    ensures var t := Run(s, es);
            t.wanted ==>
              if t.dest.Some? then t.dest.value.Whole?
              else t.aside.Keys != {} && t.aside[Newest(t.aside.Keys)].Whole?
  {
    assert Placed(s, {});
    RunFit(s, es);
  }

  /** And every start whose rename works leaves a complete folder in place, crashing later or not. */
  lemma AStartLeavesItComplete(s: Store, es: seq<Event>, listing: seq<Entry>, fates: seq<Fate>)
    requires Begins(s) && RenamesWork(s, es)
    requires !Run(s, es).up && StartRenames(Run(s, es), fates)
    ensures var t := Run(s, es); t.wanted ==> IsWhole(Step(t, EvStart(listing, fates)).dest)
  {
    hide Recover;
    var t := Run(s, es);
    AFolderThatStandsIsComplete(s, es);
    if t.dest.Some? {
      AStartKeepsAFolder(t.(script := fates), listing);
    } else {
      AStartLeavesTheModelInPlace(t.(script := fates), listing);
    }
  }

  lemma AStartKeepsAFolder(s: Store, listing: seq<Entry>)
    requires s.dest.Some?
    ensures Recover(s, listing).dest == s.dest
  {
    var s1 := s.(up := true, held := None, doomed := {});
    PutBackStands(s1, s1.aside.Keys);
    ClearDest(s1, listing, NewestOf(s1), false);
  }
}
