/**
  What a load, a delete and a cancel get done when nothing refuses them: the
  safety of the claims is not bought by standing still.
*/
module DownloadProgress {
  import opened Common
  import opened DownloadClaims
  import opened DownloadRecords

  /** The steps of a load, under the pool's lock from beginning to end. */
  function Loading(k: Key): seq<Action> {
    [LoadBegin(k), ByLoad(AskDeleting)] + [ByLoad(AskSwapping), ByLoad(Launch)]
  }

  /** A load launches its model's server exactly when neither mark stands, and changes nothing else. */
  lemma ALoadLaunchesExactly(s: State, k: Key)
    requires s.loading.None?
    ensures Run(s, Loading(k)) ==
            s.(resident := if k !in s.deleting && k !in s.swapping then s.resident + {k} else s.resident)
  {
    hide Run;
    RunAppends(s, [LoadBegin(k), ByLoad(AskDeleting)], [ByLoad(AskSwapping), ByLoad(Launch)]);
    RunTwo(s, LoadBegin(k), ByLoad(AskDeleting));
    RunTwo(Step(Step(s, LoadBegin(k)), ByLoad(AskDeleting)), ByLoad(AskSwapping), ByLoad(Launch));
  }

  /** A load that is refused for another reason leaves everything as it was. */
  lemma ARefusedLoadChangesNothing(s: State, k: Key)
    requires s.loading.None?
    ensures Run(s, [LoadBegin(k), ByLoad(Refuse)]) == s
  {
    hide Run;
    RunTwo(s, LoadBegin(k), ByLoad(Refuse));
  }

  /** A server is unloaded, and no load begins or server goes while another load has the lock. */
  lemma TheLockIsHeld(s: State, k: Key)
    ensures s.loading.Some? ==> Step(s, LoadBegin(k)) == s && Step(s, Unload(k)) == s
    ensures s.loading.None? ==> Step(s, Unload(k)) == s.(resident := s.resident - {k})
  {
  }

  /** A delete marks the model and remembers the download in flight, if one is; a second is refused. */
  lemma ADeleteBegins(s: State, k: Key)
    ensures k in s.deleting ==> Step(s, MarkDeleting(k)) == s
    ensures k !in s.deleting ==>
              var t := Step(s, MarkDeleting(k));
              && t.deleting == s.deleting + {k} && |t.deletions| == |s.deletions| + 1
              && t.deletions[|s.deletions|].key == k && t.deletions[|s.deletions|].pc.Marking?
              && (k in s.downloads ==> t.deletions[|s.deletions|].waits == Some(s.downloads[k]))
              && (k !in s.downloads ==> t.deletions[|s.deletions|].waits.None?)
  {
  }

  /** What a delete waits for has closed its channel. */
  predicate MayGoOn(s: State, d: nat) {
    d < |s.deletions| && s.deletions[d].pc.Marking?
    && (s.deletions[d].waits.Some? ==> DoneClosed(s, s.deletions[d].waits.value))
  }

  /**
    A delete whose download has stopped, with no load under way, ends: the mark
    is lifted, no server of the model is left, and its record is gone. The
    folder goes only past a saved index.
  */
  lemma ADeleteCanEnd(s: State, d: nat, written: bool)
    requires MayGoOn(s, d) && s.loading.None?
    ensures var k := s.deletions[d].key;
            var gone := Run(s, [ByDelete(d, DownloadStopped), ByDelete(d, StopForDelete),
                                ByDelete(d, Unlist(written))]);
            && |gone.deletions| == |s.deletions| && k !in gone.records && k !in gone.resident
            && (gone.deletions[d].pc.Removing? <==> written && k in s.records)
            && (gone.deletions[d].pc.Over? <==> !(written && k in s.records))
            && (gone.deletions[d].pc.Over? ==> k !in gone.deleting)
            && var t := Step(gone, ByDelete(d, Removed));
            && t.deletions[d].pc.Over? && k !in t.deleting && k !in t.records && k !in t.resident
  {
    hide Run;
    RunThree(s, ByDelete(d, DownloadStopped), ByDelete(d, StopForDelete), ByDelete(d, Unlist(written)));
    GetsToUnlist(s, d);
  }

  lemma GetsToUnlist(s: State, d: nat)
    requires MayGoOn(s, d) && s.loading.None?
    ensures var k := s.deletions[d].key;
            Step(Step(s, ByDelete(d, DownloadStopped)), ByDelete(d, StopForDelete)) ==
            s.(resident := s.resident - {k}, deletions := s.deletions[d := s.deletions[d].(pc := Unlisting)])
  {
  }

  /** A delete that the pool refuses lifts its mark and keeps the record. */
  lemma ARefusedDeleteLetsGo(s: State, d: nat)
    requires MayGoOn(s, d)
    ensures var t := Run(s, [ByDelete(d, DownloadStopped), ByDelete(d, DeleteMove.Refused)]);
            && |t.deletions| == |s.deletions| && t.deletions[d].pc.Over?
            && t.deleting == s.deleting - {s.deletions[d].key} && t.records == s.records && t.resident == s.resident
  {
    hide Run;
    RunTwo(s, ByDelete(d, DownloadStopped), ByDelete(d, DeleteMove.Refused));
  }

  /** The moves of an update past its fetch, up to its publication. */
  function SwapMoves(id: nat): seq<Action> {
    [ByClaim(id, Mark), ByClaim(id, StopServer), ByClaim(id, MoveAside)]
    + [ByClaim(id, MoveIn), ByClaim(id, Finish(true))]
  }

  /**
    An update that nothing refuses swaps its version in: its server is stopped,
    its record says ready, and the mark and the claim are gone in one step.
  */
  lemma AnUpdateCanSwap(s: State, resident: set<Key>, listed: map<Key, Record>, actions: seq<Action>, id: nat)
    requires Reached(s, resident, listed, actions) && s.loading.None?
    requires id < |s.claims| && s.claims[id].pc.Working? && !s.claims[id].kind.First?
    ensures var k, t := s.claims[id].key, Run(s, SwapMoves(id));
            && t.claims == s.claims[id := s.claims[id].(pc := Ended)]
            && Says(t, k, Ready) && k !in t.downloads && k !in t.swapping && t.resident == s.resident - {k}
  {
    hide Run;
    ReachedInv(s, resident, listed, actions);
    RecordFactsOf(s, id);
    var first, second :=
      [ByClaim(id, Mark), ByClaim(id, StopServer), ByClaim(id, MoveAside)],
      [ByClaim(id, MoveIn), ByClaim(id, Finish(true))];
    RunAppends(s, first, second);
    RunThree(s, ByClaim(id, Mark), ByClaim(id, StopServer), ByClaim(id, MoveAside));
    RunTwo(Run(s, first), ByClaim(id, MoveIn), ByClaim(id, Finish(true)));
    hide Inv, Step;
    Marches(s, id);
    MarchesHome(Run(s, first), id);
  }

  lemma MarchesHome(s: State, id: nat)
    requires id < |s.claims| && s.claims[id].pc.OldAside?
    requires s.claims[id].key in s.downloads && s.downloads[s.claims[id].key] == id
    ensures var c := s.claims[id];
            var t := Step(Step(s, ByClaim(id, MoveIn)), ByClaim(id, Finish(true)));
            && t.claims == s.claims[id := c.(pc := Ended)] && Says(t, c.key, Ready)
            && c.key !in t.downloads && c.key !in t.swapping && t.resident == s.resident
  {
  }

  /** Where those moves lead, one after another. */
  lemma Marches(s: State, id: nat)
    requires id < |s.claims| && s.loading.None? && s.claims[id].pc.Working? && !s.claims[id].kind.First?
    ensures var c := s.claims[id];
            var t := Step(Step(Step(s, ByClaim(id, Mark)), ByClaim(id, StopServer)), ByClaim(id, MoveAside));
            t == s.(swapping := s.swapping + {c.key}, resident := s.resident - {c.key},
                    claims := s.claims[id := c.(pc := OldAside)])
  {
  }

  /** A rename of a swap that fails is undone, and what was moved aside goes back. */
  lemma ASwapCanGoBack(s: State, id: nat)
    requires id < |s.claims| && (s.claims[id].pc.OldAside? || s.claims[id].pc.InPlace?)
    ensures Step(s, ByClaim(id, PutBack)) == s.(claims := s.claims[id := s.claims[id].(pc := Stopped)])
  {
  }

  /** Close refuses every later claim, and its wait returns exactly when no claim holds a slot. */
  lemma CloseReturnsExactly(s: State, k: Key, restore: bool)
    ensures var t := Step(s, CloseApp); t.closed && Step(t, Register(k, restore)) == t
    ensures Step(s, CloseReturns).waited <==> s.waited || (s.closed && s.slots == 0)
  {
  }

  /** A cancel never gives a record to a model that has none, whatever went between its read and its write. */
  lemma ACancelRevivesNothing(s: State, x: nat)
    requires x < |s.cancels| && s.cancels[x].pc.Found?
    ensures var k, t := s.cancels[x].key, Step(s, ByCancel(x, WriteIt));
            t.records == (if k in s.records then s.records[k := Failed] else s.records) && t.cancels[x].pc.Done?
  {
  }

  /** A cancel ends in its two steps, and writes nothing but over a record that says downloading. */
  lemma ACancelEnds(s: State, x: nat)
    requires x < |s.cancels| && s.cancels[x].pc.Looked?
    ensures var k, t := s.cancels[x].key, Cancelled(s, x);
            && |t.cancels| == |s.cancels| && t.cancels[x].pc.Done?
            && t.records == if Says(s, k, Downloading) then s.records[k := Failed] else s.records
  {
  }
}
