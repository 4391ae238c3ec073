/**
  One model's directories under the models folder, the staged update that
  swaps a new version in, the fallback held until the new version has loaded,
  and the recovery a start makes of what a crash left (internal/app/staged.go).

  Every operation on disk consumes one Fate: whether it works, whether the
  process dies right after it, and what other goroutines did just before it.
  A script that has run out stands for operations that all work undisturbed,
  so a statement about every script is one about every failure, every crash
  point and every interleaving with load reports and clean-ups.
*/
module ModelStore {
  import opened Common

  /** What a directory holds: a complete version, or anything less. */
  datatype Content = Whole(version: nat) | Torn

  /** The version an update replaced, held aside until the new one loads. */
  datatype Fallback = Fallback(attempt: nat, commit: Option<nat>)

  /** Where a swap takes the new version from. */
  datatype Source = Staged | Aside(attempt: nat)

  /** An entry of the staging folder. */
  datatype Entry = StagedEntry | AsideEntry(attempt: nat)

  datatype Effect = Works | Fails | Tears

  /**
    What meets one disk operation: a report that the model loaded arriving
    just before it, the removals other goroutines finished or left half done
    by then, how the operation itself ends, and whether the process dies then.
    A rename cannot tear: for it Tears is Works.
  */
  datatype Fate = Fate(effect: Effect, crash: bool, loaded: bool, swept: set<nat>, torn: set<nat>)

  datatype Store = Store(
    dest: Option<Content>,        // the model's own folder
    staged: Option<Content>,      // the staged version
    aside: map<nat, Content>,     // old versions aside, by attempt
    commit: Option<nat>,          // the version the model's record names
    clock: nat,                   // the next attempt's name
    up: bool,                     // a process is running
    held: Option<Fallback>,       // that process's fallback for the model
    doomed: set<nat>,             // aside copies it has set out to remove
    wanted: bool,                 // the model has not been deleted
    script: seq<Fate>)

  predicate IsWhole(d: Option<Content>) {
    d.Some? && d.value.Whole?
  }

  // ---------------------------------------------------------------- steps

  function Calm(): Fate { Fate(Works, false, false, {}, {}) }

  /** dropFallback: the copy is no longer held, and will be removed. */
  function DropFallback(s: Store): Store {
    match s.held
    case None => s
    case Some(fb) => s.(held := None, doomed := s.doomed + {fb.attempt})
  }

  /** What other goroutines do before an operation. */
  function Disturb(s: Store, f: Fate): Store {
    var s1 := if f.loaded then DropFallback(s) else s;
    s1.(aside := map k | k in s1.aside && !(k in s1.doomed && k in f.swept) ::
                   if k in s1.doomed && k in f.torn then Torn else s1.aside[k])
  }

  function NextFate(s: Store): Fate {
    if s.script == [] then Calm() else s.script[0]
  }

  function Advance(s: Store): Store {
    Disturb(s.(script := if s.script == [] then [] else s.script[1..]), NextFate(s))
  }

  /** The process ends: what it held in memory is gone. */
  function Crash(s: Store): Store {
    s.(up := false, held := None, doomed := {})
  }

  function Settle(s: Store, f: Fate): Store {
    if f.crash then Crash(s) else s
  }

  function At(s: Store, p: Source): Option<Content> {
    match p
    case Staged => s.staged
    case Aside(k) => if k in s.aside then Some(s.aside[k]) else None
  }

  function Put(s: Store, p: Source, c: Content): Store {
    match p
    case Staged => s.(staged := Some(c))
    case Aside(k) => s.(aside := s.aside[k := c])
  }

  function Take(s: Store, p: Source): Store {
    match p
    case Staged => s.(staged := None)
    case Aside(k) => s.(aside := s.aside - {k})
  }

  /** Rename a copy in the staging folder to the model's folder. */
  function MoveIn(s: Store, from: Source): (Store, bool) {
    if !s.up then (s, false) else
    var f, s1 := NextFate(s), Advance(s);
    if f.effect.Fails? || At(s1, from).None? || s1.dest.Some? then (Settle(s1, f), false) else
    (Settle(Take(s1, from).(dest := At(s1, from)), f), !f.crash)
  }

  /** Rename the model's folder to a name in the staging folder. */
  function MoveOut(s: Store, to: Source): (Store, bool) {
    if !s.up then (s, false) else
    var f, s1 := NextFate(s), Advance(s);
    if f.effect.Fails? || s1.dest.None? || At(s1, to).Some? then (Settle(s1, f), false) else
    (Settle(Put(s1, to, s1.dest.value).(dest := None), f), !f.crash)
  }

  /** Remove a copy in the staging folder, wholly, in part or not at all. */
  function Remove(s: Store, p: Source): (Store, bool) {
    if !s.up then (s, false) else
    var f, s1 := NextFate(s), Advance(s);
    if f.effect.Fails? then (Settle(s1, f), false) else
    if f.effect.Tears? then
      (Settle(if At(s1, p).Some? then Put(s1, p, Torn) else s1, f), false) else
    (Settle(Take(s1, p), f), !f.crash)
  }

  /** Anything that only reads or stops a server, and may refuse. */
  function Ask(s: Store): (Store, bool) {
    if !s.up then (s, false) else
    var f, s1 := NextFate(s), Advance(s);
    (Settle(s1, f), f.effect.Works? && !f.crash)
  }

  /** Check the model's folder as a launch would. */
  function Validate(s: Store): (Store, bool) {
    var (s1, ok) := Ask(s);
    (s1, ok && IsWhole(s1.dest))
  }

  /** Fetch a version into the staging folder. */
  function Fetch(s: Store, version: nat): (Store, bool) {
    if !s.up then (s, false) else
    var f, s1 := NextFate(s), Advance(s);
    (Settle(s1.(staged := Some(if f.effect.Works? then Whole(version) else Torn)), f),
     f.effect.Works? && !f.crash)
  }

  /** What a fate does to the folders, by the operation that meets it. */
  lemma WhatFatesDo(s: Store, p: Source, version: nat)
    requires s.up
    ensures var f, before, t := NextFate(s), Advance(s), Remove(s, p).0;
            At(t, p) == match f.effect
                        case Works => None
                        case Fails => At(before, p)
                        case Tears => if At(before, p).Some? then Some(Torn) else None
    ensures Fetch(s, version).0.staged == Some(if NextFate(s).effect.Works? then Whole(version) else Torn)
    ensures var f, t := NextFate(s), Advance(s);
            forall k :: k in s.aside && k in t.doomed ==>
              (k in f.swept ==> k !in t.aside)
              && (k !in f.swept ==> k in t.aside && t.aside[k] == if k in f.torn then Torn else s.aside[k])
  {
  }

  // ----------------------------------------------------------- operations

  ghost function Newest(ks: set<nat>): (k: nat)
    requires ks != {}
    ensures k in ks && forall j | j in ks :: j <= k
  {
    var x :| x in ks;
    var rest := ks - {x};
    if rest == {} then assert ks == {x}; x else
    var y := Newest(rest);
    assert forall j | j in ks :: j == x || j in rest;
    if x > y then x else y
  }

  /** asideLeft and its rename: the newest copy aside goes back in place. */
  ghost function PutBackNewest(s: Store): Store {
    if s.aside.Keys == {} then s else MoveIn(s, Aside(Newest(s.aside.Keys))).0
  }

  /** swapIn: the attempt the old version was moved aside under, if it worked. */
  ghost function SwapIn(s: Store, from: Source): (Store, Option<nat>) {
    var (s1, drained) := Ask(s);
    if drained then SwapInStopped(s1, from) else (s1, None)
  }

  /** swapIn once no model server is left on the model's folder. */
  ghost function SwapInStopped(s1: Store, from: Source): (Store, Option<nat>) {
    var attempt := s1.clock;
    var s2 := s1.(clock := attempt + 1);
    if s2.dest.None? then (PutBackNewest(s2), None) else
    var (s3, out) := MoveOut(s2, Aside(attempt));
    if !out then (s3, None) else
    SwapInRest(s3, from, attempt)
  }

  /** The half of swapIn that runs while the old version is aside. */
  ghost function SwapInRest(s3: Store, from: Source, attempt: nat): (Store, Option<nat>) {
    if At(s3, from).None? then (MoveIn(s3, Aside(attempt)).0, None) else
    var (s4, moved) := MoveIn(s3, from);
    if !moved then (MoveIn(s4, Aside(attempt)).0, None) else
    SwapInCheck(s4, from, attempt)
  }

  /** The check in place, and the way back when it fails. */
  ghost function SwapInCheck(s4: Store, from: Source, attempt: nat): (Store, Option<nat>) {
    var (s5, valid) := Validate(s4);
    if valid then (s5, Some(attempt)) else
    var (s6, back) := MoveOut(s5, from);
    if back then (MoveIn(s6, Aside(attempt)).0, None) else (s6, None)
  }

  /** A staged download and the publication of its record. */
  ghost function Update(s: Store, version: nat): Store {
    var (s1, cleared) := Remove(s, Staged);
    if !cleared then s1 else
    var (s2, fetched) := Fetch(s1, version);
    if !fetched then Remove(s2, Staged).0 else
    var (s3, accepted) := Ask(s2);
    if !accepted then Remove(s3, Staged).0 else
    PublishUpdate(s3, version, s.commit)
  }

  /** The swap of a checked version, and what its publication holds or lets go. */
  ghost function PublishUpdate(s3: Store, version: nat, prior: Option<nat>): Store {
    var (s4, swapped) := SwapIn(s3, Staged);
    match swapped
    case None => Remove(s4, Staged).0
    case Some(attempt) =>
      if s4.held.Some? then
        s4.(commit := Some(version), doomed := s4.doomed + {attempt})
      else
        s4.(commit := Some(version), held := Some(Fallback(attempt, prior)))
  }

  /** restoreFallback: whether the version an update replaced is back. */
  ghost function Restore(s: Store): (Store, bool) {
    if !s.up || s.held.None? then (s, false) else
    var fb := s.held.value;
    var (s1, swapped) := SwapIn(s.(held := None), Aside(fb.attempt));
    match swapped
    case None => (if s1.up && s1.held.None? then s1.(held := Some(fb)) else s1, false)
    case Some(attempt) => (s1.(commit := fb.commit, doomed := s1.doomed + {attempt}), true)
  }

  /** putBackAside, newest first: what is left, and whether one went back. */
  ghost function PutBackAside(s: Store, todo: set<nat>): (Store, bool)
    decreases |todo|
  {
    if todo == {} then (s, false) else
    var k := Newest(todo);
    if s.dest.Some? then PutBackAside(s, todo - {k}) else
    var (s1, ok) := MoveIn(s, Aside(k));
    var (s2, later) := PutBackAside(s1, todo - {k});
    (s2, ok || later)
  }

  /** clearStagingKeepingAside over one listing of the staging folder. */
  function Clear(s: Store, listing: seq<Entry>, newest: Option<nat>, putBack: bool): Store
    decreases |listing|
  {
    if listing == [] then s else
    Clear(ClearOne(s, listing[0], newest, putBack), listing[1..], newest, putBack)
  }

  function ClearOne(s: Store, e: Entry, newest: Option<nat>, putBack: bool): Store {
    match e
    case StagedEntry => Remove(s, Staged).0
    case AsideEntry(k) =>
      if !IsWhole(s.dest) then s
      else if newest == Some(k) && !putBack && IsWhole(At(s, Aside(k))) then
        if s.up then s.(held := Some(Fallback(k, None))) else s
      else Remove(s, Aside(k)).0
  }

  ghost function NewestOf(s: Store): Option<nat> {
    if s.aside.Keys == {} then None else Some(Newest(s.aside.Keys))
  }

  /** recoverStaging, at a start. */
  ghost function Recover(s: Store, listing: seq<Entry>): Store {
    var s1 := s.(up := true, held := None, doomed := {});
    var (s2, putBack) := PutBackAside(s1, s1.aside.Keys);
    Clear(s2, listing, NewestOf(s2), putBack)
  }

  /** Delete: the model's folder, then the version held aside with it. */
  function Delete(s: Store): Store {
    var (s1, stopped) := Ask(s);
    if !stopped then s1 else
    var f, s2 := NextFate(s1), Advance(s1.(wanted := false, commit := None));
    if f.effect.Fails? then Settle(s2, f) else
    if f.effect.Tears? then
      Settle(s2.(dest := if s2.dest.Some? then Some(Torn) else None), f) else
    var s3 := Settle(s2.(dest := None), f);
    match s3.held
    case None => s3
    case Some(fb) => Remove(s3.(held := None), Aside(fb.attempt)).0
  }

  // ------------------------------------------------------------------ runs

  datatype Event =
    | EvUpdate(version: nat, fates: seq<Fate>)
    | EvLoaded(fates: seq<Fate>)
    | EvFailedLoad(fates: seq<Fate>)
    | EvCrash
    | EvStart(listing: seq<Entry>, fates: seq<Fate>)
    | EvDelete(fates: seq<Fate>)

  ghost function Step(s: Store, e: Event): Store {
    match e
    case EvUpdate(v, fs) => if s.up then Update(s.(script := fs), v) else s
    case EvLoaded(fs) => if s.up then DropFallback(Ask(s.(script := fs)).0) else s
    case EvFailedLoad(fs) => if s.up then Restore(s.(script := fs)).0 else s
    case EvCrash => Crash(s)
    case EvStart(listing, fs) => if s.up then s else Recover(s.(script := fs), listing)
    case EvDelete(fs) => if s.up then Delete(s.(script := fs)) else s
  }

  /** The process ends: the folders and the record stand, and what it held in memory is gone. */
  lemma ACrashForgets(s: Store)
    ensures var t := Step(s, EvCrash);
            && !t.up && t.held.None? && t.doomed == {}
            && t.dest == s.dest && t.staged == s.staged && t.aside == s.aside && t.commit == s.commit
            && t.wanted == s.wanted && t.clock == s.clock
  {
  }

  ghost function Run(s: Store, es: seq<Event>): Store
    decreases |es|
  {
    if es == [] then s else Run(Step(s, es[0]), es[1..])
  }
}
