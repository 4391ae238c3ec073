/**
  What an update, and the way back from one, make of the folders in a
  crash-free run whatever faults they meet, and which version the fallback is.
*/
module ModelStoreFallback {
  import opened Common
  import opened ModelStore

  // ----------------------------------------------------------- the scripts

  /** The process lives on and no load report arrives; anything may fail. */
  predicate Peaceful(fs: seq<Fate>) {
    forall f :: f in fs ==> !f.crash && !f.loaded
  }

  /** Every operation works and no load report arrives meanwhile. */
  predicate Flawless(fs: seq<Fate>) {
    forall f :: f in fs ==> f.effect.Works? && !f.crash && !f.loaded
  }

  /** At most one operation fails, and the process lives on. */
  predicate OneFault(fs: seq<Fate>)
    decreases |fs|
  {
    fs == [] ||
    (!fs[0].crash && !fs[0].loaded && if fs[0].effect.Works? then OneFault(fs[1..]) else Flawless(fs[1..]))
  }

  function Rest(fs: seq<Fate>): seq<Fate> {
    if fs == [] then [] else fs[1..]
  }

  /** How the next operation of a script ends. */
  function Meets(fs: seq<Fate>): Effect {
    if fs == [] then Works else fs[0].effect
  }

  lemma {:induction false} FlawlessIsOneFault(fs: seq<Fate>)
    requires Flawless(fs)
    ensures OneFault(fs)
    decreases |fs|
  {
    if fs != [] {
      assert forall f :: f in fs[1..] ==> f in fs;
      FlawlessIsOneFault(fs[1..]);
    }
  }

  lemma {:induction false} OneFaultIsPeaceful(fs: seq<Fate>)
    requires OneFault(fs)
    ensures Peaceful(fs)
    decreases |fs|
  {
    if fs != [] {
      if fs[0].effect.Works? {
        OneFaultIsPeaceful(fs[1..]);
      }
      assert forall f :: f in fs ==> f == fs[0] || f in fs[1..];
    }
  }

  lemma RestPromises(fs: seq<Fate>)
    ensures Peaceful(fs) ==> Peaceful(Rest(fs))
    ensures Flawless(fs) ==> Flawless(Rest(fs)) && Meets(fs).Works?
    ensures OneFault(fs) ==> OneFault(Rest(fs)) && (!Meets(fs).Works? ==> Flawless(Rest(fs)))
  {
    if fs != [] {
      assert fs[0] in fs;
      assert forall f :: f in fs[1..] ==> f in fs;
      if Flawless(fs[1..]) {
        FlawlessIsOneFault(fs[1..]);
      }
    }
  }

  // -------------------------------------------------------- single operations

  /** The same store, but for what clean-ups did to the copies being removed. */
  ghost predicate Same(s: Store, t: Store) {
    && t == s.(script := t.script, aside := t.aside, clock := t.clock)
    && t.clock >= s.clock
    && t.aside.Keys <= s.aside.Keys
    && (forall k :: k in s.aside && k !in s.doomed ==> k in t.aside && t.aside[k] == s.aside[k])
  }

  /** One operation was met, and left a script to go on with. */
  predicate Left(s: Store, t: Store) {
    t.script == Rest(s.script) && Peaceful(t.script)
  }

  lemma AdvanceSame(s: Store)
    requires Peaceful(s.script)
    ensures Same(s, Advance(s)) && Advance(s).clock == s.clock && Left(s, Advance(s)) && !NextFate(s).crash
    ensures NextFate(s).effect == Meets(s.script)
  {
    if s.script != [] {
      assert s.script[0] in s.script;
      assert forall f :: f in s.script[1..] ==> f in s.script;
    }
  }

  lemma MoveInEffect(s: Store, from: Source)
    requires s.up && Peaceful(s.script) && s.dest.None? && At(s, from).Some?
    requires from.Aside? ==> from.attempt !in s.doomed
    ensures var (t, ok) := MoveIn(s, from);
            && Left(s, t) && t.clock == s.clock && (ok <==> !Meets(s.script).Fails?)
            && (!ok ==> Same(s, t))
            && (ok ==> t.dest == At(s, from) && Same(Take(s, from).(dest := At(s, from)), t))
  {
    hide Advance, Disturb, Peaceful;
    AdvanceSame(s);
  }

  lemma MoveOutEffect(s: Store, to: Source)
    requires s.up && Peaceful(s.script) && s.dest.Some? && At(s, to).None?
    ensures var (t, ok) := MoveOut(s, to);
            && Left(s, t) && t.clock == s.clock && (ok <==> !Meets(s.script).Fails?)
            && (!ok ==> Same(s, t))
            && (ok ==> t.dest.None? && Same(Put(s, to, s.dest.value).(dest := None), t))
  {
    hide Advance, Disturb, Peaceful;
    AdvanceSame(s);
  }

  lemma AskEffect(s: Store)
    requires s.up && Peaceful(s.script)
    ensures var (t, ok) := Ask(s);
            Left(s, t) && Same(s, t) && t.clock == s.clock && (ok <==> Meets(s.script).Works?)
  {
    hide Advance, Disturb, Peaceful;
    AdvanceSame(s);
  }

  lemma RemoveStagedEffect(s: Store)
    requires s.up && Peaceful(s.script)
    ensures var (t, ok) := Remove(s, Staged);
            Left(s, t) && Same(s.(staged := t.staged), t) && t.clock == s.clock && (ok <==> Meets(s.script).Works?)
  {
    hide Advance, Disturb, Peaceful;
    AdvanceSame(s);
  }

  lemma FetchEffect(s: Store, version: nat)
    requires s.up && Peaceful(s.script)
    ensures var (t, ok) := Fetch(s, version);
            && Left(s, t) && Same(s.(staged := t.staged), t) && t.clock == s.clock && (ok <==> Meets(s.script).Works?)
            && (ok ==> t.staged == Some(Whole(version)))
  {
    hide Advance, Disturb, Peaceful;
    AdvanceSame(s);
  }

  lemma SameTrans(a: Store, b: Store, c: Store)
    requires Same(a, b) && Same(b, c)
    ensures Same(a, c)
  {
  }

  // ------------------------------------------------------------- the swap

  /**
    How a swap of a folder that stands ends. Missing leaves no folder and the
    old version aside; Stranded leaves the new version in the folder, refused
    there and not moved back out.
  */
  datatype Outcome = Done | Kept | Missing | Stranded

  function PutBackOutcome(fs: seq<Fate>): Outcome {
    if Meets(fs).Fails? then Missing else Kept
  }

  function CheckOutcome(fs: seq<Fate>): Outcome {
    if Meets(fs).Works? then Done
    else if Meets(Rest(fs)).Fails? then Stranded
    else PutBackOutcome(Rest(Rest(fs)))
  }

  function RestOutcome(fs: seq<Fate>): Outcome {
    if Meets(fs).Fails? then PutBackOutcome(Rest(fs)) else CheckOutcome(Rest(fs))
  }

  function StoppedOutcome(fs: seq<Fate>): Outcome {
    if Meets(fs).Fails? then Kept else RestOutcome(Rest(fs))
  }

  function SwapOutcome(fs: seq<Fate>): Outcome {
    if Meets(fs).Works? then StoppedOutcome(Rest(fs)) else Kept
  }

  /** A store a swap can start from: both versions stand, the new one complete. */
  predicate SwapReady(s: Store, from: Source) {
    && s.up && s.dest.Some?
    && IsWhole(At(s, from))
    && (forall k :: k in s.aside ==> k < s.clock)
    && (forall k :: k in s.doomed ==> k < s.clock)
    && (from.Aside? ==> from.attempt !in s.doomed)
  }

  /** The store between the two renames of a swap from s. */
  function OldAside(s: Store): Store
    requires s.dest.Some?
  {
    s.(dest := None, aside := s.aside[s.clock := s.dest.value], clock := s.clock + 1)
  }

  /** The store a swap from s leaves when it works. */
  function Swapped(s: Store, from: Source): Store
    requires s.dest.Some?
  {
    Take(OldAside(s), from).(dest := At(s, from))
  }

  /** What each outcome leaves, and whether the swap says it worked. */
  ghost predicate SwapResult(s: Store, from: Source, o: Outcome, r: (Store, Option<nat>))
    requires s.dest.Some?
  {
    && Peaceful(r.0.script)
    && match o
       case Done => r.1 == Some(s.clock) && Same(Swapped(s, from), r.0)
       case Kept => r.1.None? && Same(s, r.0)
       case Missing => r.1.None? && Same(OldAside(s), r.0)
       case Stranded => r.1.None? && Same(Swapped(s, from), r.0)
  }

  lemma PutBackMeets(s: Store, t: Store, from: Source)
    requires SwapReady(s, from) && Same(OldAside(s), t) && Peaceful(t.script)
    ensures SwapResult(s, from, PutBackOutcome(t.script), (MoveIn(t, Aside(s.clock)).0, None))
  {
    hide MoveIn, Peaceful, Rest, Meets;
    assert s.clock !in t.doomed;
    MoveInEffect(t, Aside(s.clock));
    var (r, ok) := MoveIn(t, Aside(s.clock));
    if ok {
      assert Same(s, Take(t, Aside(s.clock)).(dest := At(t, Aside(s.clock))));
    } else {
      SameTrans(OldAside(s), t, r);
    }
  }

  lemma CheckMeets(s: Store, t: Store, from: Source)
    requires SwapReady(s, from) && Same(Swapped(s, from), t) && Peaceful(t.script)
    ensures SwapResult(s, from, CheckOutcome(t.script), SwapInCheck(t, from, s.clock))
  {
    hide MoveIn, MoveOut, Ask, Peaceful, Rest, Meets, PutBackOutcome;
    var (s5, valid) := Validate(t);
    AskEffect(t);
    SameTrans(Swapped(s, from), t, s5);
    if !valid {
      var (s6, back) := MoveOut(s5, from);
      MoveOutEffect(s5, from);
      if back {
        var u := Put(s5, from, s5.dest.value).(dest := None);
        assert Same(OldAside(s), u) by {
          if from.Aside? {
            assert from.attempt < s.clock;
          }
        }
        SameTrans(OldAside(s), u, s6);
        PutBackMeets(s, s6, from);
      } else {
        SameTrans(Swapped(s, from), s5, s6);
      }
    }
  }

  lemma RestMeets(s: Store, t: Store, from: Source)
    requires SwapReady(s, from) && Same(OldAside(s), t) && Peaceful(t.script)
    ensures SwapResult(s, from, RestOutcome(t.script), SwapInRest(t, from, s.clock))
  {
    hide MoveIn, SwapInCheck, Peaceful, Rest, Meets, CheckOutcome, PutBackOutcome;
    assert At(t, from) == At(s, from);
    var (s4, moved) := MoveIn(t, from);
    MoveInEffect(t, from);
    if moved {
      var u := Take(t, from).(dest := At(t, from));
      assert Same(Swapped(s, from), u);
      SameTrans(Swapped(s, from), u, s4);
      CheckMeets(s, s4, from);
    } else {
      SameTrans(OldAside(s), t, s4);
      PutBackMeets(s, s4, from);
    }
  }

  lemma StoppedMeets(s: Store, t: Store, from: Source)
    requires SwapReady(s, from) && Same(s, t) && t.clock == s.clock && Peaceful(t.script)
    ensures SwapResult(s, from, StoppedOutcome(t.script), SwapInStopped(t, from))
  {
    hide MoveOut, SwapInRest, Peaceful, Rest, Meets, RestOutcome;
    var t2 := t.(clock := s.clock + 1);
    var (s3, out) := MoveOut(t2, Aside(s.clock));
    MoveOutEffect(t2, Aside(s.clock));
    if out {
      var u := Put(t2, Aside(s.clock), t2.dest.value).(dest := None);
      assert Same(OldAside(s), u);
      SameTrans(OldAside(s), u, s3);
      RestMeets(s, s3, from);
    }
  }

  /**
    A swap of a folder that stands, in a process that lives on, ends in one of
    four ways, and the faults its operations meet say which.
  */
  lemma ASwapEndsByItsFaults(s: Store, from: Source)
    requires SwapReady(s, from) && Peaceful(s.script)
    ensures SwapResult(s, from, SwapOutcome(s.script), SwapIn(s, from))
  {
    hide Ask, SwapInStopped, Peaceful, Rest, Meets, StoppedOutcome;
    AskEffect(s);
    var (s1, drained) := Ask(s);
    if drained {
      StoppedMeets(s, s1, from);
    }
  }

  /** It takes two faults to leave the folder missing or the new version stranded. */
  lemma OneFaultOutcome(fs: seq<Fate>)
    requires OneFault(fs)
    ensures SwapOutcome(fs).Done? || SwapOutcome(fs).Kept?
    ensures Flawless(fs) ==> SwapOutcome(fs).Done?
  {
    hide OneFault, Flawless, Rest, Meets;
    var f1 := Rest(fs);
    var f2 := Rest(f1);
    var f3 := Rest(f2);
    var f4 := Rest(f3);
    RestPromises(fs);
    RestPromises(f1);
    RestPromises(f2);
    RestPromises(f3);
    RestPromises(f4);
    RestPromises(Rest(f4));
  }

  /**
    A swap that meets at most one fault either moves the new version in and
    the old one aside, or leaves every folder as it found it.
  */
  lemma OneFaultNeverSplitsASwap(s: Store, from: Source)
    requires SwapReady(s, from) && OneFault(s.script)
    ensures match SwapIn(s, from).1
            case None => Same(s, SwapIn(s, from).0)
            case Some(a) => a == s.clock && Same(Swapped(s, from), SwapIn(s, from).0)
    ensures Flawless(s.script) ==> SwapIn(s, from).1.Some?
  {
    hide SwapIn, SwapOutcome;
    OneFaultIsPeaceful(s.script);
    OneFaultOutcome(s.script);
    ASwapEndsByItsFaults(s, from);
  }

  // --------------------------------------------------- the store at rest

  /**
    The store of a crash-free run whose folder stands: v0, recorded as c0, is
    the version that preceded the first update not yet known to load; held
    says whether one has been made since.
  */
  ghost predicate InPlace(s: Store, v0: nat, c0: Option<nat>) {
    && s.up && IsWhole(s.dest)
    && (forall k :: k in s.aside ==> k < s.clock)
    && (forall k :: k in s.doomed ==> k < s.clock)
    && match s.held
       case None => s.dest == Some(Whole(v0)) && s.commit == c0 && s.aside.Keys <= s.doomed
       case Some(fb) =>
         && fb.attempt in s.aside && s.aside[fb.attempt] == Whole(v0) && fb.commit == c0
         && fb.attempt !in s.doomed && s.aside.Keys <= s.doomed + {fb.attempt}
         && s.commit == Some(s.dest.value.version)
  }

  /** The newest copy aside put back where the folder is missing. */
  function BackIn(s: Store, n: nat): Store {
    Take(s, Aside(n)).(dest := At(s, Aside(n)))
  }

  /** The same with the folder missing: the newest copy aside is the version it held, under its record. */
  ghost predicate Away(s: Store, n: nat, v0: nat, c0: Option<nat>) {
    && s.dest.None? && n in s.aside && n !in s.doomed && n < s.clock
    && (forall k :: k in s.aside ==> k <= n)
    && InPlace(BackIn(s, n), v0, c0)
  }

  ghost predicate Resting(s: Store, v0: nat, c0: Option<nat>) {
    InPlace(s, v0, c0) || exists n :: Away(s, n, v0, c0)
  }

  lemma SameInPlace(s: Store, t: Store, v0: nat, c0: Option<nat>)
    requires InPlace(s, v0, c0) && Same(s.(staged := t.staged), t)
    ensures InPlace(t, v0, c0)
  {
  }

  lemma SameAway(s: Store, t: Store, n: nat, v0: nat, c0: Option<nat>)
    requires Away(s, n, v0, c0) && Same(s.(staged := t.staged), t)
    ensures Away(t, n, v0, c0)
  {
    SameInPlace(BackIn(s, n), BackIn(t, n), v0, c0);
  }

  /** Moving the folder of a store at rest aside leaves it at rest. */
  lemma MovedAway(s: Store, v0: nat, c0: Option<nat>)
    requires InPlace(s, v0, c0)
    ensures Away(OldAside(s), s.clock, v0, c0)
  {
    var t := BackIn(OldAside(s), s.clock);
    assert t.aside == s.aside;
    assert t == s.(clock := s.clock + 1);
  }

  // ---------------------------------------------- a swap that finds no folder

  lemma NewestIs(s: Store, t: Store, n: nat, v0: nat, c0: Option<nat>)
    requires Away(s, n, v0, c0) && Same(s, t)
    ensures t.aside.Keys != {} && Newest(t.aside.Keys) == n
  {
    assert n in t.aside.Keys;
  }

  /** A swap that finds no folder puts the newest copy aside back, if its rename works, and gives up. */
  lemma AnAwayFolderIsPutBack(s: Store, from: Source, n: nat, v0: nat, c0: Option<nat>)
    requires Away(s, n, v0, c0) && Peaceful(s.script)
    ensures var (r, swapped) := SwapIn(s, from);
            && swapped.None? && Peaceful(r.script)
            && (if Meets(s.script).Works? && !Meets(Rest(s.script)).Fails? then Same(BackIn(s, n), r) else Same(s, r))
  {
    hide Ask, MoveIn, Peaceful, InPlace;
    AskEffect(s) by {
      UpWhenAway(s, n, v0, c0);
    }
    var (s1, drained) := Ask(s);
    if drained {
      UpWhenAway(s, n, v0, c0);
      var s2 := s1.(clock := s1.clock + 1);
      NewestIs(s, s2, n, v0, c0);
      MoveInEffect(s2, Aside(n));
      var (r, ok) := MoveIn(s2, Aside(n));
      if ok {
        assert Same(BackIn(s, n), BackIn(s2, n));
        SameTrans(BackIn(s, n), BackIn(s2, n), r);
      } else {
        SameTrans(s, s2, r);
      }
    }
  }

  lemma UpWhenAway(s: Store, n: nat, v0: nat, c0: Option<nat>)
    requires Away(s, n, v0, c0)
    ensures s.up
  {
  }

  // ----------------------------------------------------------- an update

  /** The store once an update from s has published version. */
  function Published(s: Store, version: nat): Store
    requires s.dest.Some?
  {
    var t := Unchecked(s, version).(commit := Some(version));
    if s.held.Some? then t.(doomed := s.doomed + {s.clock})
    else t.(held := Some(Fallback(s.clock, s.commit)))
  }

  /** The store with the new version in the folder and nothing recorded of it. */
  function Unchecked(s: Store, version: nat): Store
    requires s.dest.Some?
  {
    Swapped(s.(staged := Some(Whole(version))), Staged)
  }

  function UpdateOutcome(fs: seq<Fate>): Outcome {
    if Meets(fs).Works? && Meets(Rest(fs)).Works? && Meets(Rest(Rest(fs))).Works?
    then SwapOutcome(Rest(Rest(Rest(fs)))) else Kept
  }

  /** What an update of a folder that stands leaves, by its outcome. */
  ghost predicate UpdateResult(s: Store, version: nat, o: Outcome, t: Store)
    requires s.dest.Some?
  {
    match o
    case Done => Same(Published(s, version), t)
    case Kept => Same(s.(staged := t.staged), t)
    case Missing => Same(OldAside(s).(staged := t.staged), t)
    case Stranded => Same(Unchecked(s, version).(staged := t.staged), t)
  }

  /** The staged part of an update, up to the swap. */
  lemma StagedMeets(s: Store, version: nat)
    requires s.up && Peaceful(s.script)
    ensures var (s1, cleared) := Remove(s, Staged);
            var (s2, fetched) := Fetch(s1, version);
            var (s3, accepted) := Ask(s2);
            && Peaceful(s1.script) && Same(s.(staged := s1.staged), s1) && s1.clock == s.clock
            && Peaceful(s2.script) && Same(s.(staged := s2.staged), s2) && s2.clock == s.clock
            && Left(s2, s3) && Same(s.(staged := s3.staged), s3) && s3.clock == s.clock
            && s3.script == Rest(Rest(Rest(s.script)))
            && (fetched ==> s3.staged == Some(Whole(version)))
            && (cleared <==> Meets(s.script).Works?) && (fetched <==> Meets(Rest(s.script)).Works?)
            && (accepted <==> Meets(Rest(Rest(s.script))).Works?)
  {
    hide Remove, Fetch, Ask, Peaceful, Rest, Meets;
    var s1 := Remove(s, Staged).0;
    RemoveStagedEffect(s);
    FetchEffect(s1, version);
    AskEffect(Fetch(s1, version).0);
  }

  lemma DroppedStaged(s: Store, t: Store)
    requires Same(s.(staged := t.staged), t) && t.up && Peaceful(t.script)
    ensures var r := Remove(t, Staged).0; Same(s.(staged := r.staged), r)
  {
    hide Remove, Peaceful;
    RemoveStagedEffect(t);
  }

  lemma PublishMeets(s: Store, t: Store, version: nat)
    requires s.up && s.dest.Some? && Peaceful(t.script)
    requires forall k :: k in s.aside || k in s.doomed ==> k < s.clock
    requires t.clock == s.clock && Same(s.(staged := Some(Whole(version))), t)
    ensures UpdateResult(s, version, SwapOutcome(t.script), PublishUpdate(t, version, s.commit))
  {
    hide SwapIn, Remove, SwapOutcome, Peaceful;
    ASwapEndsByItsFaults(t, Staged);
    var (r, swapped) := SwapIn(t, Staged);
    assert Same(Unchecked(s, version), Swapped(t, Staged));
    match SwapOutcome(t.script)
    case Done =>
      SameTrans(Unchecked(s, version), Swapped(t, Staged), r);
    case Kept =>
      DroppedStaged(s, r);
    case Missing =>
      DroppedStaged(OldAside(s), r);
    case Stranded =>
      SameTrans(Unchecked(s, version), Swapped(t, Staged), r);
      DroppedStaged(Unchecked(s, version), r);
  }

  /** An update of a folder that stands ends in one of the four ways, by the faults it meets. */
  lemma AnUpdateEndsByItsFaults(s: Store, version: nat)
    requires s.up && s.dest.Some? && Peaceful(s.script)
    requires forall k :: k in s.aside || k in s.doomed ==> k < s.clock
    ensures UpdateResult(s, version, UpdateOutcome(s.script), Update(s, version))
    ensures OneFault(s.script) ==> UpdateOutcome(s.script).Done? || UpdateOutcome(s.script).Kept?
    ensures Flawless(s.script) ==> UpdateOutcome(s.script).Done?
  {
    hide Remove, Fetch, Ask, PublishUpdate, SwapOutcome, Peaceful, Rest, Meets, OneFault, Flawless, Same;
    var (s1, cleared) := Remove(s, Staged);
    var (s2, fetched) := Fetch(s1, version);
    var (s3, accepted) := Ask(s2);
    StagedMeets(s, version);
    if cleared && fetched && accepted {
      PublishMeets(s, s3, version) by {
        ClockKept(s, s3);
      }
    }
    if cleared {
      DroppedStaged(s, s2) by {
        ClockKept(s, s2);
      }
      DroppedStaged(s, s3) by {
        ClockKept(s, s3);
      }
    }
    OneFaultUpdates(s.script);
  }

  lemma ClockKept(s: Store, t: Store)
    requires Same(s.(staged := t.staged), t)
    ensures t.up == s.up
  {
  }

  lemma OneFaultUpdates(fs: seq<Fate>)
    ensures OneFault(fs) ==> UpdateOutcome(fs).Done? || UpdateOutcome(fs).Kept?
    ensures Flawless(fs) ==> UpdateOutcome(fs).Done?
  {
    hide OneFault, Flawless, Rest, Meets, SwapOutcome;
    var f1 := Rest(fs);
    var f2 := Rest(f1);
    RestPromises(fs);
    RestPromises(f1);
    RestPromises(f2);
    if Flawless(Rest(f2)) {
      FlawlessIsOneFault(Rest(f2));
    }
    if OneFault(Rest(f2)) {
      OneFaultOutcome(Rest(f2));
    }
  }

  lemma PublishedInPlace(s: Store, version: nat, v0: nat, c0: Option<nat>)
    requires InPlace(s, v0, c0)
    ensures InPlace(Published(s, version), v0, c0)
  {
  }

  /** A version stranded in the folder leaves a copy aside that nothing holds and nothing removes. */
  lemma StrandedIsNotResting(s: Store, from: Source, t: Store, v0: nat, c0: Option<nat>)
    requires InPlace(s, v0, c0) && (from.Aside? ==> s.held == Some(Fallback(from.attempt, c0)))
    requires t.dest.Some? && t.held == s.held && t.doomed == s.doomed && s.clock in t.aside
    ensures !Resting(t, v0, c0)
  {
    assert s.clock !in t.doomed;
  }

  /**
    An update of a store at rest, whatever faults it meets, leaves it at rest
    if and only if it does not strand its version: its check in the folder
    refuses, and the version then cannot be moved back out.
  */
  lemma AnUpdateRestsExactly(s: Store, version: nat, v0: nat, c0: Option<nat>)
    requires Resting(s, v0, c0) && Peaceful(s.script)
    ensures Resting(Update(s, version), v0, c0) <==> !(s.dest.Some? && UpdateOutcome(s.script).Stranded?)
  {
    hide Update, UpdateOutcome, Peaceful, Published, OneFault, Flawless;
    if InPlace(s, v0, c0) {
      InPlaceUpdate(s, version, v0, c0);
    } else {
      var n :| Away(s, n, v0, c0);
      AwayUpdate(s, version, n, v0, c0);
    }
  }

  lemma InPlaceUpdate(s: Store, version: nat, v0: nat, c0: Option<nat>)
    requires InPlace(s, v0, c0) && Peaceful(s.script)
    ensures Resting(Update(s, version), v0, c0) <==> !UpdateOutcome(s.script).Stranded?
  {
    hide Update, UpdateOutcome, Peaceful, Published, OneFault, Flawless;
    var t := Update(s, version);
    AnUpdateEndsByItsFaults(s, version);
    match UpdateOutcome(s.script)
    case Done =>
      PublishedInPlace(s, version, v0, c0);
      SameInPlace(Published(s, version), t, v0, c0);
    case Kept =>
      SameInPlace(s, t, v0, c0);
    case Missing =>
      MovedAway(s, v0, c0);
      SameAway(OldAside(s), t, s.clock, v0, c0);
    case Stranded =>
      StrandedIsNotResting(s, Staged, t, v0, c0);
  }

  lemma AwayUpdate(s: Store, version: nat, n: nat, v0: nat, c0: Option<nat>)
    requires Away(s, n, v0, c0) && Peaceful(s.script)
    ensures Resting(Update(s, version), v0, c0)
  {
    hide Remove, Fetch, Ask, SwapIn, Peaceful, Rest, Meets, InPlace;
    UpWhenAway(s, n, v0, c0);
    var (s1, cleared) := Remove(s, Staged);
    var (s2, fetched) := Fetch(s1, version);
    var (s3, accepted) := Ask(s2);
    StagedMeets(s, version);
    SameAway(s, s1, n, v0, c0);
    if cleared {
      var r2, r3 := Remove(s2, Staged).0, Remove(s3, Staged).0;
      DroppedStaged(s, s2);
      SameAway(s, r2, n, v0, c0);
      DroppedStaged(s, s3);
      SameAway(s, r3, n, v0, c0);
      if fetched && accepted {
        SameAway(s, s3, n, v0, c0);
        AwaySwap(s3, Staged, n, v0, c0);
        var r := SwapIn(s3, Staged).0;
        RestingDropped(r, v0, c0);
      }
    }
  }

  lemma AwaySwap(s: Store, from: Source, n: nat, v0: nat, c0: Option<nat>)
    requires Away(s, n, v0, c0) && Peaceful(s.script)
    ensures SwapIn(s, from).1.None? && Peaceful(SwapIn(s, from).0.script)
    ensures Resting(SwapIn(s, from).0, v0, c0)
  {
    hide SwapIn, Peaceful, InPlace;
    var r := SwapIn(s, from).0;
    AnAwayFolderIsPutBack(s, from, n, v0, c0);
    if Same(s, r) {
      SameAway(s, r, n, v0, c0);
    } else {
      SameInPlace(BackIn(s, n), r, v0, c0);
    }
  }

  lemma RestingDropped(s: Store, v0: nat, c0: Option<nat>)
    requires Resting(s, v0, c0) && Peaceful(s.script)
    ensures Resting(Remove(s, Staged).0, v0, c0)
  {
    hide Remove, Peaceful;
    var r := Remove(s, Staged).0;
    if InPlace(s, v0, c0) {
      DroppedStaged(s, s);
      SameInPlace(s, r, v0, c0);
    } else {
      var n :| Away(s, n, v0, c0);
      DroppedStaged(s, s);
      SameAway(s, r, n, v0, c0);
    }
  }

  // ---------------------------------------------------- a failed first load

  lemma RestoredInPlace(s: Store, t: Store, v0: nat, c0: Option<nat>)
    requires InPlace(s, v0, c0) && s.held.Some?
    requires Same(Swapped(s.(held := None), Aside(s.held.value.attempt)), t)
    ensures InPlace(t.(commit := c0, doomed := t.doomed + {s.clock}), v0, c0)
  {
    var u := Swapped(s.(held := None), Aside(s.held.value.attempt));
    assert u.aside.Keys <= s.doomed + {s.clock};
  }

  /** Holding the fallback again after a swap that gave up. */
  function HeldAgain(s: Store, fb: Fallback): Store {
    s.(held := Some(fb))
  }

  lemma MovedAwayUnheld(s: Store, t: Store, v0: nat, c0: Option<nat>)
    requires InPlace(s, v0, c0) && s.held.Some? && Same(OldAside(s.(held := None)), t)
    ensures Away(HeldAgain(t, s.held.value), s.clock, v0, c0)
  {
    MovedAway(s, v0, c0);
    SameAway(OldAside(s), HeldAgain(t, s.held.value), s.clock, v0, c0);
  }

  lemma InPlaceFailedLoad(s: Store, v0: nat, c0: Option<nat>)
    requires InPlace(s, v0, c0) && s.held.Some? && Peaceful(s.script)
    ensures var (t, restored) := Restore(s);
            && (Resting(t, v0, c0) <==> !SwapOutcome(s.script).Stranded?)
            && (restored <==> SwapOutcome(s.script).Done?)
            && (restored ==> t.held.None? && t.dest == Some(Whole(v0)) && t.commit == c0)
            && (!restored ==> t.held == s.held)
  {
    hide SwapIn, SwapOutcome, Peaceful;
    var fb := s.held.value;
    var from, s0 := Aside(fb.attempt), s.(held := None);
    ASwapEndsByItsFaults(s0, from);
    var s1 := SwapIn(s0, from).0;
    match SwapOutcome(s.script)
    case Done =>
      RestoredInPlace(s, s1, v0, c0);
    case Kept =>
      SameInPlace(s, HeldAgain(s1, fb), v0, c0);
    case Missing =>
      MovedAwayUnheld(s, s1, v0, c0);
    case Stranded =>
      StrandedIsNotResting(s, from, HeldAgain(s1, fb), v0, c0);
  }

  lemma AwayFailedLoad(s: Store, n: nat, v0: nat, c0: Option<nat>)
    requires Away(s, n, v0, c0) && s.held.Some? && Peaceful(s.script)
    ensures Resting(Restore(s).0, v0, c0) && !Restore(s).1 && Restore(s).0.held == s.held
  {
    hide Ask, MoveIn, Peaceful, Rest, Meets, InPlace, Resting;
    AwayRests(s, n, v0, c0);
    UpWhenAway(s, n, v0, c0);
    var fb := s.held.value;
    var s0 := s.(held := None);
    AskEffect(s0);
    var (s1, drained) := Ask(s0);
    if drained {
      var s2 := s1.(clock := s1.clock + 1);
      NewestIs(s, HeldAgain(s2, fb), n, v0, c0);
      MoveInEffect(s2, Aside(n));
      var (r, ok) := MoveIn(s2, Aside(n));
      var t := HeldAgain(r, fb);
      if ok {
        assert Same(BackIn(s, n), HeldAgain(BackIn(s2, n), fb));
        SameTrans(BackIn(s, n), HeldAgain(BackIn(s2, n), fb), t);
        SameInPlace(BackIn(s, n), t, v0, c0);
        InPlaceRests(t, v0, c0);
      } else {
        SameTrans(s, HeldAgain(s2, fb), t);
        SameAway(s, t, n, v0, c0);
        AwayRests(t, n, v0, c0);
      }
    } else {
      SameAway(s, HeldAgain(s1, fb), n, v0, c0);
      AwayRests(HeldAgain(s1, fb), n, v0, c0);
    }
  }

  lemma AwayRests(s: Store, n: nat, v0: nat, c0: Option<nat>)
    requires Away(s, n, v0, c0)
    ensures Resting(s, v0, c0)
  {
  }

  lemma InPlaceRests(s: Store, v0: nat, c0: Option<nat>)
    requires InPlace(s, v0, c0)
    ensures Resting(s, v0, c0)
  {
  }

  /**
    A failed first load, whatever faults its restore meets, leaves the store at
    rest if and only if the restore does not strand the held version in the
    folder. It puts exactly that version back, under its own record, when it
    works, and otherwise holds it as before.
  */
  lemma AFailedLoadPutsItBack(s: Store, fates: seq<Fate>, v0: nat, c0: Option<nat>)
    requires Resting(s, v0, c0) && s.held.Some? && Peaceful(fates)
    ensures var t := Step(s, EvFailedLoad(fates));
            && (Resting(t, v0, c0) <==> !(s.dest.Some? && SwapOutcome(fates).Stranded?))
            && (t.held.None? <==> s.dest.Some? && SwapOutcome(fates).Done?)
            && (t.held.None? ==> t.dest == Some(Whole(v0)) && t.commit == c0)
            && (t.held.Some? ==> t.held == s.held)
    ensures Flawless(fates) ==> SwapOutcome(fates).Done?
  {
    hide Restore, SwapOutcome, Peaceful, Flawless;
    var s0 := s.(script := fates);
    if InPlace(s, v0, c0) {
      InPlaceFailedLoad(s0, v0, c0);
    } else {
      var n :| Away(s, n, v0, c0);
      SameAway(s, s0, n, v0, c0);
      AwayFailedLoad(s0, n, v0, c0);
    }
    if Flawless(fates) {
      FlawlessIsOneFault(fates);
      OneFaultOutcome(fates);
    }
  }

  // ------------------------------------------------------------------- runs

  /** Updates and failed loads that the process outlives, with no load between that answered. */
  predicate Attempts(es: seq<Event>) {
    forall e :: e in es ==> (e.EvUpdate? || e.EvFailedLoad?) && Peaceful(e.fates)
  }

  /** An attempt that strands its version in a folder that stood. */
  predicate Strands(s: Store, e: Event) {
    s.dest.Some? &&
    match e
    case EvUpdate(_, fates) => UpdateOutcome(fates).Stranded?
    case EvFailedLoad(fates) => s.held.Some? && SwapOutcome(fates).Stranded?
    case _ => false
  }

  ghost predicate NoneStrands(s: Store, es: seq<Event>)
    decreases |es|
  {
    es == [] || (!Strands(s, es[0]) && NoneStrands(Step(s, es[0]), es[1..]))
  }

  ghost predicate RestsThroughout(s: Store, es: seq<Event>, v0: nat, c0: Option<nat>)
    decreases |es|
  {
    Resting(s, v0, c0) && (es == [] || RestsThroughout(Step(s, es[0]), es[1..], v0, c0))
  }

  lemma AnAttemptRestsExactly(s: Store, e: Event, v0: nat, c0: Option<nat>)
    requires Resting(s, v0, c0) && Attempts([e])
    ensures Resting(Step(s, e), v0, c0) <==> !Strands(s, e)
  {
    hide Update, Restore, UpdateOutcome, SwapOutcome, Peaceful, InPlace;
    assert e in [e];
    var s0 := s.(script := e.fates);
    Rescripted(s, e.fates, v0, c0);
    match e
    case EvUpdate(version, fates) => AnUpdateRestsExactly(s0, version, v0, c0);
    case EvFailedLoad(fates) =>
      if s.held.Some? {
        AFailedLoadPutsItBack(s, fates, v0, c0);
      } else {
        assert Restore(s0).0 == s0 by {
          NothingToRestore(s0);
        }
      }
  }

  lemma NothingToRestore(s: Store)
    requires s.held.None?
    ensures Restore(s) == (s, false)
  {
  }

  lemma Rescripted(s: Store, fates: seq<Fate>, v0: nat, c0: Option<nat>)
    requires Resting(s, v0, c0)
    ensures Resting(s.(script := fates), v0, c0) && s.up
  {
    if !InPlace(s, v0, c0) {
      var n :| Away(s, n, v0, c0);
      SameAway(s, s.(script := fates), n, v0, c0);
    }
  }

  /**
    After any number of updates none of which has loaded, with failed loads
    between, the version held aside is the one that preceded the first of them,
    with its record's version, and no other copy aside stays but one that is to
    go back into a folder that is missing. It is so throughout if and only if
    no attempt strands its version.
  */
  lemma {:induction false} TheFallbackPrecedesTheFirstUpdate(s: Store, es: seq<Event>, v0: nat, c0: Option<nat>)
    requires Resting(s, v0, c0) && Attempts(es)
    ensures RestsThroughout(s, es, v0, c0) <==> NoneStrands(s, es)
    ensures NoneStrands(s, es) ==> Resting(Run(s, es), v0, c0)
    decreases |es|
  {
    hide Step, Strands, Resting;
    if es != [] {
      assert es[0] in es;
      assert forall e :: e in es[1..] ==> e in es;
      AnAttemptRestsExactly(s, es[0], v0, c0);
      if !Strands(s, es[0]) {
        TheFallbackPrecedesTheFirstUpdate(Step(s, es[0]), es[1..], v0, c0);
      } else {
        assert !RestsThroughout(Step(s, es[0]), es[1..], v0, c0);
      }
    }
  }

  /** What a store at rest says of the copy it holds. */
  lemma TheFallbackIsThatVersion(s: Store, v0: nat, c0: Option<nat>)
    requires Resting(s, v0, c0)
    ensures match s.held
            case None => s.commit == c0 && (s.dest.Some? ==> s.dest == Some(Whole(v0)))
            case Some(fb) => fb.attempt in s.aside && s.aside[fb.attempt] == Whole(v0) && fb.commit == c0
    ensures s.dest.Some? ==>
              forall k :: k in s.aside && k !in s.doomed ==> s.held.Some? && k == s.held.value.attempt
  {
    if !InPlace(s, v0, c0) {
      var n :| Away(s, n, v0, c0);
    }
  }

  // --------------------------------------------------- what stranding costs

  /** A script that strands an update: the check in the folder refuses, and the way back out fails. */
  function StrandingScript(): seq<Fate> {
    [Calm(), Calm(), Calm(), Calm(), Calm(), Calm(),
     Fate(Fails, false, false, {}, {}), Fate(Fails, false, false, {}, {})]
  }

  lemma TheStrandingScriptStrands()
    ensures Peaceful(StrandingScript()) && UpdateOutcome(StrandingScript()).Stranded?
  {
    var calm, fail := Calm(), Fate(Fails, false, false, {}, {});
    var fs := StrandingScript();
    assert Rest(fs) == [calm, calm, calm, calm, calm, fail, fail];
    assert Rest(Rest(fs)) == [calm, calm, calm, calm, fail, fail];
    assert Rest(Rest(Rest(fs))) == [calm, calm, calm, fail, fail];
    var gs := [calm, calm, calm, fail, fail];
    assert Rest(gs) == [calm, calm, fail, fail] && Rest(Rest(gs)) == [calm, fail, fail];
    assert Rest(Rest(Rest(gs))) == [fail, fail] && Rest([fail, fail]) == [fail];
  }

  /**
    What follows from it: with nothing held, the next update that works holds
    the version that was refused, under the record of the version before it.
  */
  lemma AStrandedVersionIsHeldNext(s: Store, v1: nat, first: seq<Fate>, v2: nat, second: seq<Fate>, v0: nat,
      c0: Option<nat>)
    requires InPlace(s, v0, c0) && s.held.None? && Peaceful(first) && Peaceful(second)
    requires UpdateOutcome(first).Stranded? && UpdateOutcome(second).Done?
    ensures var t := Run(s, [EvUpdate(v1, first), EvUpdate(v2, second)]);
            && t.held.Some? && t.held.value.commit == c0
            && t.held.value.attempt in t.aside && t.aside[t.held.value.attempt] == Whole(v1)
            && !Resting(t, v0, c0)
  {
    hide Update, UpdateOutcome, Peaceful, OneFault, Flawless;
    var es := [EvUpdate(v1, first), EvUpdate(v2, second)];
    assert es[1..] == [es[1]] && [es[1]][1..] == [];
    var s1 := Step(s, es[0]);
    AnUpdateEndsByItsFaults(s.(script := first), v1);
    assert s1.dest == Some(Whole(v1)) && s1.held.None? && s1.commit == c0 && s1.up && s.clock in s1.aside;
    var s2 := Step(s1, es[1]);
    AnUpdateEndsByItsFaults(s1.(script := second), v2);
    assert Same(Published(s1.(script := second), v2), s2);
    assert Run(s, es) == Run(s1, [es[1]]) == s2;
    assert s.clock in s2.aside && s.clock !in s2.doomed && s.clock != s1.clock;
    NotResting(s2, s.clock, v0, c0);
  }

  lemma NotResting(s: Store, k: nat, v0: nat, c0: Option<nat>)
    requires s.dest.Some? && k in s.aside && k !in s.doomed && s.held.Some? && s.held.value.attempt != k
    ensures !Resting(s, v0, c0)
  {
  }

  // ------------------------------------------------------------ a good load

  /** The version a store at rest serves, or would with its folder put back. */
  ghost function Served(s: Store): Content
    requires s.dest.Some? || s.aside.Keys != {}
  {
    if s.dest.Some? then s.dest.value else s.aside[Newest(s.aside.Keys)]
  }

  lemma LoadedInPlace(s: Store, t: Store, v0: nat, c0: Option<nat>)
    requires InPlace(s, v0, c0) && Same(s, t)
    ensures InPlace(DropFallback(t), s.dest.value.version, t.commit)
  {
  }

  /**
    A load that answered lets the fallback go, whatever the operations around
    it meet, and leaves no other copy aside; the version that answered is the
    one the next update will hold.
  */
  lemma ALoadLetsItGo(s: Store, fates: seq<Fate>, v0: nat, c0: Option<nat>)
    requires Resting(s, v0, c0) && Peaceful(fates)
    ensures var t := Step(s, EvLoaded(fates));
            && t.held.None? && t.dest == s.dest && t.commit == s.commit
            && (s.dest.Some? || s.aside.Keys != {}) && Served(s).Whole?
            && Resting(t, Served(s).version, t.commit)
  {
    hide Ask, Peaceful, Rest, Meets;
    var s0 := s.(script := fates);
    Rescripted(s, fates, v0, c0);
    AskEffect(s0);
    var s1 := Ask(s0).0;
    var t := DropFallback(s1);
    if InPlace(s, v0, c0) {
      LoadedInPlace(s0, s1, v0, c0);
    } else {
      var n :| Away(s, n, v0, c0);
      NewestIs(s, s, n, v0, c0);
      assert Same(BackIn(s, n), BackIn(s1, n));
      LoadedInPlace(BackIn(s, n), BackIn(s1, n), v0, c0);
      assert BackIn(t, n) == DropFallback(BackIn(s1, n));
      assert Away(t, n, Served(s).version, t.commit);
    }
  }
}
