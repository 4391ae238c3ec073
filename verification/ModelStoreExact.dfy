/** What recovery, a swap, a restore and a delete compute, exactly. */
module ModelStoreExact {
  import opened Common
  import opened ModelStore

  // -------------------------------------------------------------- recovery

  /** What a start makes of the folders when every operation works. */
  ghost function Recovered(s: Store): Store {
    var newest := NewestOf(s);
    var putBack := s.dest.None? && newest.Some?;
    var stands := if putBack then Some(s.aside[newest.value]) else s.dest;
    var left := if putBack then s.aside - {newest.value} else s.aside;
    var kept :=
      if !IsWhole(stands) then left
      else if !putBack && newest.Some? && left[newest.value].Whole? then
        map[newest.value := left[newest.value]]
      else map[];
    var held := if IsWhole(stands) && kept != map[] then Some(Fallback(newest.value, None)) else None;
    s.(up := true, doomed := {}, dest := stands, staged := None, aside := kept, held := held)
  }

  predicate Covers(listing: seq<Entry>, s: Store) {
    && (s.staged.Some? ==> StagedEntry in listing)
    && (forall k :: k in s.aside ==> AsideEntry(k) in listing)
  }

  lemma CalmAdvance(s: Store)
    requires s.script == []
    ensures Advance(s) == s
  {
    assert Advance(s).aside == s.aside;
  }

  lemma {:induction false} PutBackCalm(s: Store, todo: set<nat>)
    requires s.script == [] && s.up && todo <= s.aside.Keys
    ensures PutBackAside(s, todo) ==
            if s.dest.None? && todo != {} then
              (s.(dest := Some(s.aside[Newest(todo)]), aside := s.aside - {Newest(todo)}), true)
            else (s, false)
    decreases |todo|
  {
    if todo != {} {
      CalmAdvance(s);
      var k := Newest(todo);
      PutBackCalm(if s.dest.Some? then s else MoveIn(s, Aside(k)).0, todo - {k});
    }
  }

  /** Whether a copy aside stays beside a complete model folder. */
  predicate Stays(s: Store, k: nat, newest: Option<nat>, putBack: bool) {
    newest == Some(k) && !putBack && IsWhole(At(s, Aside(k)))
  }

  /** The copies aside a listing has removed. */
  function Cleared(s: Store, listing: seq<Entry>, newest: Option<nat>, putBack: bool): set<nat> {
    set k | k in s.aside && AsideEntry(k) in listing && IsWhole(s.dest) && !Stays(s, k, newest, putBack)
  }

  predicate Holds(s: Store, listing: seq<Entry>, newest: Option<nat>, putBack: bool) {
    newest.Some? && IsWhole(s.dest) && AsideEntry(newest.value) in listing && Stays(s, newest.value, newest, putBack)
  }

  ghost predicate ClearedTo(s: Store, t: Store, listing: seq<Entry>, newest: Option<nat>, putBack: bool) {
    && t == s.(staged := t.staged, aside := t.aside, held := t.held)
    && t.staged == (if StagedEntry in listing then None else s.staged)
    && t.aside == s.aside - Cleared(s, listing, newest, putBack)
    && t.held == (if Holds(s, listing, newest, putBack) then Some(Fallback(newest.value, None)) else s.held)
  }

  lemma ClearOneCalm(s: Store, e: Entry, newest: Option<nat>, putBack: bool)
    requires s.script == [] && s.up
    ensures ClearedTo(s, ClearOne(s, e, newest, putBack), [e], newest, putBack)
  {
    CalmAdvance(s);
  }

  lemma {:induction false} ClearCalm(s: Store, listing: seq<Entry>, newest: Option<nat>, putBack: bool)
    requires s.script == [] && s.up
    ensures ClearedTo(s, Clear(s, listing, newest, putBack), listing, newest, putBack)
    decreases |listing|
  {
    if listing != [] {
      var t := ClearOne(s, listing[0], newest, putBack);
      ClearOneCalm(s, listing[0], newest, putBack);
      ClearCalm(t, listing[1..], newest, putBack);
      assert listing == [listing[0]] + listing[1..];
      var both := Cleared(s, [listing[0]], newest, putBack) + Cleared(t, listing[1..], newest, putBack);
      forall k ensures k in both <==> k in Cleared(s, listing, newest, putBack) {
        assert AsideEntry(k) in listing <==> AsideEntry(k) in [listing[0]] || AsideEntry(k) in listing[1..];
        assert k in t.aside ==> At(t, Aside(k)) == At(s, Aside(k));
      }
      assert both == Cleared(s, listing, newest, putBack);
      var r := Clear(s, listing, newest, putBack);
      assert r.aside == s.aside - both;
      assert Holds(s, listing, newest, putBack) <==>
          Holds(s, [listing[0]], newest, putBack) || Holds(t, listing[1..], newest, putBack);
    }
  }

  /** With every operation working, a start computes Recovered, in any order of listing. */
  lemma RecoverIsRecovered(s: Store, listing: seq<Entry>)
    requires s.script == [] && Covers(listing, s)
    ensures Recover(s, listing) == Recovered(s)
  {
    var s1 := s.(up := true, held := None, doomed := {});
    PutBackCalm(s1, s1.aside.Keys);
    var (s2, putBack) := PutBackAside(s1, s1.aside.Keys);
    var newest, t := NewestOf(s2), Recover(s, listing);
    ClearCalm(s2, listing, newest, putBack);
    assert forall k :: k in s2.aside ==> AsideEntry(k) in listing;
    if IsWhole(s2.dest) {
      assert t.aside.Keys == set k | k in s2.aside && Stays(s2, k, newest, putBack);
      assert t.aside == Recovered(s).aside;
      if Holds(s2, listing, newest, putBack) {
        assert newest.value in t.aside;
      } else {
        assert t.aside.Keys == {};
        assert t.aside == map[];
      }
    } else {
      assert t.aside == s2.aside;
      assert t.held == Recovered(s).held;
    }
  }

  /** A second start, after a crash or not, finds nothing left to do. */
  lemma RecoverTwiceIsOnce(s: Store, first: seq<Entry>, second: seq<Entry>)
    requires s.script == [] && Covers(first, s) && Covers(second, Recover(s, first))
    ensures Recover(Recover(s, first), second) == Recover(s, first)
    ensures Recover(Crash(Recover(s, first)), second) == Recover(s, first)
  {
    RecoverIsRecovered(s, first);
    var t := Recover(s, first);
    RecoverIsRecovered(t, second);
    RecoverIsRecovered(Crash(t), second);
    if s.aside != map[] && IsWhole(t.dest) && t.aside != map[] {
      assert t.aside.Keys == {Newest(s.aside.Keys)};
      assert Newest(t.aside.Keys) == Newest(s.aside.Keys);
      assert t.aside == map[Newest(s.aside.Keys) := t.aside[Newest(s.aside.Keys)]];
    }
  }

  lemma ClearOneDest(s: Store, e: Entry, newest: Option<nat>, putBack: bool)
    ensures ClearOne(s, e, newest, putBack).dest == s.dest
  {
  }

  lemma {:induction false} ClearDest(s: Store, listing: seq<Entry>, newest: Option<nat>, putBack: bool)
    ensures Clear(s, listing, newest, putBack).dest == s.dest
    decreases |listing|
  {
    if listing != [] {
      ClearOneDest(s, listing[0], newest, putBack);
      ClearDest(ClearOne(s, listing[0], newest, putBack), listing[1..], newest, putBack);
    }
  }

  lemma {:induction false} PutBackStands(s: Store, todo: set<nat>)
    requires s.dest.Some?
    ensures PutBackAside(s, todo) == (s, false)
    decreases |todo|
  {
    if todo != {} {
      PutBackStands(s, todo - {Newest(todo)});
    }
  }

  /**
    When the first operation of a start, which is its rename if it makes one,
    does not fail, whatever becomes of every later one, the model's folder is
    the one that stood there, or else the newest copy aside.
  */
  lemma AStartLeavesTheModelInPlace(s: Store, listing: seq<Entry>)
    requires s.script == [] || !s.script[0].effect.Fails?
    ensures Recover(s, listing).dest ==
            if s.dest.Some? then s.dest
            else if s.aside.Keys == {} then None
            else Some(s.aside[Newest(s.aside.Keys)])
  {
    var s1 := s.(up := true, held := None, doomed := {});
    if s1.dest.Some? {
      PutBackStands(s1, s1.aside.Keys);
    } else if s1.aside.Keys != {} {
      var k := Newest(s1.aside.Keys);
      assert Advance(s1).aside == s1.aside;
      PutBackStands(MoveIn(s1, Aside(k)).0, s1.aside.Keys - {k});
    }
    var (s2, putBack) := PutBackAside(s1, s1.aside.Keys);
    ClearDest(s2, listing, NewestOf(s2), putBack);
  }
}
