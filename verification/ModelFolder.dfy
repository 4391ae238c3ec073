/**
  The staged update as the program runs it: one model's folders and the
  process's own fields, changed one operation at a time. Every method is held
  to the function of ModelStore that the theorems are about.
*/
module ModelFolder {
  import opened Common
  import opened ModelStore

  /** asideLeft: the newest of the copies aside, whatever order they are listed in. */
  method NewestAside(attempts: set<nat>) returns (best: Option<nat>)
    ensures best.None? <==> attempts == {}
    ensures best.Some? ==> best.value in attempts && forall k :: k in attempts ==> k <= best.value
  {
    best := None;
    var bestAt: int := -1;
    var rest := attempts;
    while rest != {}
      invariant rest <= attempts
      invariant best.None? <==> bestAt == -1
      invariant best.Some? ==> best.value == bestAt && best.value in attempts
      invariant forall k :: k in attempts && k !in rest ==> k <= bestAt
      decreases |rest|
    {
      var at :| at in rest;
      if at > bestAt {
        best, bestAt := Some(at), at;
      }
      rest := rest - {at};
    }
  }

  class Folder {
    var dest: Option<Content>
    var staged: Option<Content>
    var aside: map<nat, Content>
    var commit: Option<nat>
    var clock: nat
    var up: bool
    var held: Option<Fallback>
    var doomed: set<nat>
    var wanted: bool
    var script: seq<Fate>

    function View(): Store
      reads this
    {
      Store(dest, staged, aside, commit, clock, up, held, doomed, wanted, script)
    }

    /** A model just downloaded, with nothing aside. */
    constructor (version: nat)
      ensures View() == Store(Some(Whole(version)), None, map[], Some(version), 0, true, None, {}, true, [])
    {
      dest, staged, aside, commit := Some(Whole(version)), None, map[], Some(version);
      clock, up, held, doomed, wanted, script := 0, true, None, {}, true, [];
    }

    method Meet() returns (f: Fate)
      modifies this
      ensures View() == Advance(old(View())) && f == NextFate(old(View()))
    {
      f := if script == [] then Calm() else script[0];
      script := if script == [] then [] else script[1..];
      if f.loaded {
        ForgetFallback();
      }
      aside := map k | k in aside && !(k in doomed && k in f.swept) ::
        if k in doomed && k in f.torn then Torn else aside[k];
    }

    method End(f: Fate)
      modifies this
      ensures View() == Settle(old(View()), f)
    {
      if f.crash {
        up, held, doomed := false, None, {};
      }
    }

    method ForgetFallback()
      modifies this
      ensures View() == DropFallback(old(View()))
    {
      if held.Some? {
        doomed := doomed + {held.value.attempt};
        held := None;
      }
    }

    method PutAt(p: Source, c: Content)
      modifies this
      ensures View() == Put(old(View()), p, c)
    {
      match p
      case Staged => staged := Some(c);
      case Aside(k) => aside := aside[k := c];
    }

    method TakeFrom(p: Source)
      modifies this
      ensures View() == Take(old(View()), p)
    {
      match p
      case Staged => staged := None;
      case Aside(k) => aside := aside - {k};
    }

    method MoveIn(from: Source) returns (ok: bool)
      modifies this
      ensures (View(), ok) == ModelStore.MoveIn(old(View()), from)
    {
      if !up {
        return false;
      }
      var f := Meet();
      var c := At(View(), from);
      ok := !f.effect.Fails? && c.Some? && dest.None?;
      if ok {
        TakeFrom(from);
        dest := c;
      }
      End(f);
      ok := ok && !f.crash;
    }

    method MoveOut(to: Source) returns (ok: bool)
      modifies this
      ensures (View(), ok) == ModelStore.MoveOut(old(View()), to)
    {
      if !up {
        return false;
      }
      var f := Meet();
      ok := !f.effect.Fails? && dest.Some? && At(View(), to).None?;
      if ok {
        PutAt(to, dest.value);
        dest := None;
      }
      End(f);
      ok := ok && !f.crash;
    }

    method Remove(p: Source) returns (ok: bool)
      modifies this
      ensures (View(), ok) == ModelStore.Remove(old(View()), p)
    {
      if !up {
        return false;
      }
      var f := Meet();
      if f.effect.Works? {
        TakeFrom(p);
      } else if f.effect.Tears? && At(View(), p).Some? {
        PutAt(p, Torn);
      }
      End(f);
      ok := f.effect.Works? && !f.crash;
    }

    method Ask() returns (ok: bool)
      modifies this
      ensures (View(), ok) == ModelStore.Ask(old(View()))
    {
      if !up {
        return false;
      }
      var f := Meet();
      End(f);
      ok := f.effect.Works? && !f.crash;
    }

    method Validate() returns (ok: bool)
      modifies this
      ensures (View(), ok) == ModelStore.Validate(old(View()))
    {
      ok := Ask();
      ok := ok && IsWhole(dest);
    }

    method Fetch(version: nat) returns (ok: bool)
      modifies this
      ensures (View(), ok) == ModelStore.Fetch(old(View()), version)
    {
      if !up {
        return false;
      }
      var f := Meet();
      staged := Some(if f.effect.Works? then Whole(version) else Torn);
      End(f);
      ok := f.effect.Works? && !f.crash;
    }

    /** swapIn: the attempt the old version is aside under, or nothing. */
    method SwapIn(from: Source) returns (swapped: Option<nat>)
      modifies this
      ensures (View(), swapped) == ModelStore.SwapIn(old(View()), from)
    {
      var drained := Ask();
      if !drained {
        return None;
      }
      swapped := SwapInStopped(from);
    }

    method SwapInStopped(from: Source) returns (swapped: Option<nat>)
      modifies this
      ensures (View(), swapped) == ModelStore.SwapInStopped(old(View()), from)
    {
      hide ModelStore.SwapInRest, ModelStore.MoveIn, ModelStore.MoveOut;
      var attempt := clock;
      clock := clock + 1;
      if dest.None? {
        var left := NewestAside(aside.Keys);
        if left.Some? {
          assert left.value == Newest(aside.Keys);
          var _ := MoveIn(Aside(left.value));
        }
        return None;
      }
      var out := MoveOut(Aside(attempt));
      if !out {
        return None;
      }
      swapped := SwapInRest(from, attempt);
    }

    method SwapInRest(from: Source, attempt: nat) returns (swapped: Option<nat>)
      modifies this
      ensures (View(), swapped) == ModelStore.SwapInRest(old(View()), from, attempt)
    {
      hide ModelStore.MoveIn, ModelStore.MoveOut, ModelStore.Validate;
      if At(View(), from).None? {
        var _ := MoveIn(Aside(attempt));
        return None;
      }
      var moved := MoveIn(from);
      if !moved {
        var _ := MoveIn(Aside(attempt));
        return None;
      }
      var valid := Validate();
      if valid {
        return Some(attempt);
      }
      var back := MoveOut(from);
      if back {
        var _ := MoveIn(Aside(attempt));
      }
      return None;
    }

    /** stagedDownload, and the publication of what it fetched. */
    method Update(version: nat)
      modifies this
      ensures View() == ModelStore.Update(old(View()), version)
    {
      hide ModelStore.Remove, ModelStore.Fetch, ModelStore.Ask, ModelStore.SwapIn;
      var prior := commit;
      var ok := Remove(Staged);
      if !ok {
        return;
      }
      ok := Fetch(version);
      if ok {
        ok := Ask();
      }
      if !ok {
        var _ := Remove(Staged);
        return;
      }
      var swapped := SwapIn(Staged);
      if swapped.None? {
        var _ := Remove(Staged);
        return;
      }
      commit := Some(version);
      if held.Some? {
        doomed := doomed + {swapped.value};
      } else {
        held := Some(Fallback(swapped.value, prior));
      }
    }

    /** restoreFallback: whether the held version is back. */
    method Restore() returns (restored: bool)
      modifies this
      ensures (View(), restored) == ModelStore.Restore(old(View()))
    {
      hide ModelStore.SwapIn;
      if !up || held.None? {
        return false;
      }
      var fb := held.value;
      held := None;
      var swapped := SwapIn(Aside(fb.attempt));
      if swapped.None? {
        if up && held.None? {
          held := Some(fb);
        }
        return false;
      }
      commit := fb.commit;
      doomed := doomed + {swapped.value};
      return true;
    }

    /** putBackAside: whether a copy went back. */
    method PutBackAside() returns (putBack: bool)
      modifies this
      ensures (View(), putBack) == ModelStore.PutBackAside(old(View()), old(aside.Keys))
    {
      hide ModelStore.MoveIn;
      putBack := false;
      var todo := aside.Keys;
      while todo != {}
        invariant var (s, later) := ModelStore.PutBackAside(View(), todo);
                  ModelStore.PutBackAside(old(View()), old(aside.Keys)) == (s, putBack || later)
        decreases |todo|
      {
        var k := NewestAside(todo);
        assert k.value == Newest(todo);
        if dest.None? {
          var ok := MoveIn(Aside(k.value));
          putBack := putBack || ok;
        }
        todo := todo - {k.value};
      }
    }

    /** clearStagingKeepingAside over one listing of the staging folder. */
    method Clear(listing: seq<Entry>, putBack: bool)
      modifies this
      ensures View() == ModelStore.Clear(old(View()), listing, NewestOf(old(View())), putBack)
    {
      hide ModelStore.Remove;
      var newest := NewestAside(aside.Keys);
      assert newest == NewestOf(View());
      var i := 0;
      while i < |listing|
        invariant 0 <= i <= |listing|
        invariant ModelStore.Clear(View(), listing[i..], newest, putBack)
               == ModelStore.Clear(old(View()), listing, newest, putBack)
      {
        match listing[i] {
          case StagedEntry =>
            var _ := Remove(Staged);
          case AsideEntry(k) =>
            if IsWhole(dest) {
              if newest == Some(k) && !putBack && IsWhole(At(View(), Aside(k))) {
                if up {
                  held := Some(Fallback(k, None));
                }
              } else {
                var _ := Remove(Aside(k));
              }
            }
        }
        assert listing[i..][1..] == listing[i + 1..];
        i := i + 1;
      }
    }

    /** recoverStaging, as a start runs it. */
    method Recover(listing: seq<Entry>)
      modifies this
      ensures View() == ModelStore.Recover(old(View()), listing)
    {
      up, held, doomed := true, None, {};
      var putBack := PutBackAside();
      Clear(listing, putBack);
    }

    /** Delete: the model's folder, then the version held with it. */
    method Delete()
      modifies this
      ensures View() == ModelStore.Delete(old(View()))
    {
      hide ModelStore.Ask, ModelStore.Remove;
      var stopped := Ask();
      if !stopped {
        return;
      }
      wanted, commit := false, None;
      var f := Meet();
      if f.effect.Works? {
        dest := None;
      } else if f.effect.Tears? && dest.Some? {
        dest := Some(Torn);
      }
      End(f);
      if f.effect.Works? && held.Some? {
        var fb := held.value;
        held := None;
        var _ := Remove(Aside(fb.attempt));
      }
    }
  }
}
