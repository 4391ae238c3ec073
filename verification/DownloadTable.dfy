/**
  The holds of the downloads lock as the program runs them: the maps a claim
  is registered in, marked in and removed from. Each method is held to the
  step of DownloadClaims that the theorems are about.
*/
module DownloadTable {
  import opened Common
  import opened DownloadClaims

  datatype Started = Began(id: nat) | ShuttingDown | BeingDeleted | AlreadyDownloading

  lemma FinishIs(s: State, id: nat, good: bool)
    requires id < |s.claims| && (MayFinish(s.claims[id].pc) || s.claims[id].pc.Ended?)
    ensures var c := s.claims[id];
            Step(s, ByClaim(id, if c.pc.Ended? then FinishAgain else Finish(good))) ==
            s.(records := Publish(s.records, c, good), downloads := Without(s, id),
               swapping := if c.pc.InPlace? then s.swapping - {c.key} else s.swapping,
               claims := s.claims[id := c.(pc := Ended)])
  {
    hide Without;
    var c := s.claims[id];
    if c.pc.Ended? {
      assert s.claims[id := c.(pc := Ended)] == s.claims;
    }
  }

  class Table {
    var downloads: map<Key, nat>
    var deleting: set<Key>
    var swapping: set<Key>
    var records: map<Key, Record>
    var closed: bool
    var slots: int
    var claims: seq<Claim>
    var deletions: seq<Deletion>
    var cancels: seq<Cancelling>
    var loading: Option<Load>
    var resident: set<Key>
    var waited: bool

    function View(): State
      reads this
    {
      State(downloads, deleting, swapping, records, closed, slots, claims, deletions, cancels, loading, resident,
            waited)
    }

    constructor (onDisk: set<Key>, listed: map<Key, Record>)
      ensures View() == Initial(onDisk, listed)
    {
      downloads, deleting, swapping, records, closed := map[], {}, {}, Reconciled(listed), false;
      slots, claims, deletions, cancels, loading, resident, waited := 0, [], [], [], None, onDisk, false;
    }

    /** startDownload and restoreFallback up to the unlock. */
    method Start(key: Key, restore: bool) returns (r: Started)
      modifies this
      ensures View() == Step(old(View()), Register(key, restore))
      ensures r.ShuttingDown? <==> old(closed)
      ensures r.BeingDeleted? <==> !old(closed) && key in old(deleting)
      ensures r.AlreadyDownloading? <==> !old(closed) && key !in old(deleting) && key in old(downloads)
      ensures r.Began? ==> key in downloads && downloads[key] == r.id && r.id == |old(claims)|
      ensures r.Began? ==> slots == old(slots) + 1
      ensures !r.Began? ==> View() == old(View())
    {
      if closed {
        return ShuttingDown;
      }
      if key in deleting {
        return BeingDeleted;
      }
      if key in downloads {
        return AlreadyDownloading;
      }
      r := Began(|claims|);
      downloads := downloads[key := |claims|];
      claims := claims + [Claim(key, if restore then Restore else Unread, Claimed, 0)];
      slots := slots + 1;
    }

    method SetPc(id: nat, pc: ClaimPc)
      requires id < |claims|
      modifies this
      ensures View() == Go(old(View()), id, pc)
    {
      claims := claims[id := claims[id].(pc := pc)];
    }

    /** The record read past the claim: a model that is ready is updated, any other fetched into its folder. */
    method ReadPrior(id: nat)
      requires id < |claims| && claims[id].pc.Claimed? && claims[id].kind.Unread?
      modifies this
      ensures View() == Step(old(View()), ByClaim(id, ReadRecord))
      ensures claims[id].pc.Known? && (claims[id].kind.Update? <==> Says(View(), claims[id].key, Ready))
    {
      var c := claims[id];
      var ready := c.key in records && records[c.key].Ready?;
      claims := claims[id := c.(kind := if ready then Update else First, pc := Known)];
    }

    /** Put: the record changes first, and saves tells whether the index could be written then. */
    method PutDownloading(id: nat, saves: bool) returns (ok: bool)
      requires id < |claims| && claims[id].pc.Known? && claims[id].kind.First?
      modifies this
      ensures View() == Step(old(View()), ByClaim(id, WriteRecord(saves)))
      ensures ok == saves && Says(View(), claims[id].key, Downloading)
    {
      records := records[claims[id].key := Downloading];
      SetPc(id, if saves then Recorded else Unsaved);
      ok := saves;
    }

    /**
      startDownload past its claim, when nothing comes between: it hands the
      claim on to its goroutine, or returns because the record was not saved.
    */
    method HandOver(id: nat, saves: bool) returns (handed: bool)
      requires id < |claims| && claims[id].pc.Claimed? && claims[id].kind.Unread?
      modifies this
      ensures View() == Run(old(View()), ToWork(id, saves))
      ensures handed <==> saves || Says(old(View()), old(claims[id].key), Ready)
      ensures id < |claims| && claims[id].pc == if handed then Working else Unsaved
      ensures Says(View(), old(claims[id].key), if claims[id].kind.Update? then Ready else Downloading)
    {
      ghost var s0 := View();
      ReadPrior(id);
      handed := true;
      if claims[id].kind.First? {
        handed := PutDownloading(id, saves);
      }
      if handed {
        SetPc(id, Working);
      }
      RunThree(s0, ByClaim(id, ReadRecord), ByClaim(id, WriteRecord(saves)), ByClaim(id, HandOff));
    }

    /** The look of CancelDownload: a download in flight is told to stop, and nothing else is done. */
    method LookToCancel(key: Key) returns (r: Option<nat>)
      modifies this
      ensures View() == Step(old(View()), Cancel(key))
      ensures r.None? <==> key in downloads
      ensures r.Some? ==> r.value < |cancels| && cancels[r.value] == Cancelling(key, Looked)
    {
      if key in downloads {
        return None;
      }
      r := Some(|cancels|);
      cancels := cancels + [Cancelling(key, Looked)];
    }

    /** Its read of the record, whatever has come between. */
    method ReadToCancel(x: nat) returns (found: bool)
      requires x < |cancels| && cancels[x].pc.Looked?
      modifies this
      ensures View() == Step(old(View()), ByCancel(x, ReadIt))
      ensures found <==> Says(View(), cancels[x].key, Downloading)
    {
      var c := cancels[x];
      found := c.key in records && records[c.key].Downloading?;
      cancels := cancels[x := c.(pc := if found then Found else Done)];
    }

    /** And its write, whatever has come between. */
    method WriteToCancel(x: nat)
      requires x < |cancels| && cancels[x].pc.Found?
      modifies this
      ensures View() == Step(old(View()), ByCancel(x, WriteIt))
      ensures !Says(View(), cancels[x].key, Downloading)
    {
      var c := cancels[x];
      if c.key in records {
        records := records[c.key := Failed];
      }
      cancels := cancels[x := c.(pc := Done)];
    }

    /** The start of swapIn. */
    method MarkSwapping(id: nat)
      requires id < |claims| && claims[id].pc.Working? && !claims[id].kind.First?
      modifies this
      ensures View() == Step(old(View()), ByClaim(id, Mark))
    {
      swapping := swapping + {claims[id].key};
      SetPc(id, Marked);
    }

    /** endSwap, when a swap gives up. */
    method EndSwap(id: nat)
      requires id < |claims| && Swapping(claims[id].pc)
      modifies this
      ensures View() == Step(old(View()), ByClaim(id, GiveUp))
    {
      swapping := swapping - {claims[id].key};
      SetPc(id, Failing);
    }

    method Deregister(id: nat)
      requires id < |claims|
      modifies this`downloads
      ensures downloads == Without(old(View()), id)
    {
      var k := claims[id].key;
      if k in downloads && downloads[k] == id {
        downloads := downloads - {k};
      }
    }

    /** finishDownload, with the publication its caller hands it or with none. */
    method FinishDownload(id: nat, good: bool)
      requires id < |claims| && (MayFinish(claims[id].pc) || claims[id].pc.Ended?)
      modifies this
      ensures View() == Step(old(View()), ByClaim(id, if old(claims[id].pc).Ended? then FinishAgain else Finish(good)))
    {
      ghost var s0 := View();
      FinishIs(s0, id, good);
      hide Step;
      var c := claims[id];
      var first := c.kind.First? && c.pc.Working?;
      if c.pc.InPlace? || (first && good) {
        records := records[c.key := Ready];
      } else if first && c.key in records {
        records := records[c.key := Failed];
      }
      if c.pc.InPlace? {
        swapping := swapping - {c.key};
      }
      Deregister(id);
      SetPc(id, Ended);
    }

    /** The first of the two deferred steps. */
    method CloseDownload(id: nat)
      requires id < |claims| && claims[id].pc.Ended?
      modifies this
      ensures View() == Step(old(View()), ByClaim(id, CloseDone))
    {
      claims := claims[id := claims[id].(pc := DownloadClaims.Closed, closes := claims[id].closes + 1)];
    }

    /** The second. */
    method Release(id: nat)
      requires id < |claims| && claims[id].pc.Closed?
      modifies this
      ensures View() == Step(old(View()), ByClaim(id, ReleaseSlot))
    {
      slots := slots - 1;
      SetPc(id, Gone);
    }

    /** The two in a row, when nothing comes between. */
    method Leave(id: nat)
      requires id < |claims| && claims[id].pc.Ended?
      modifies this
      ensures View() == Run(old(View()), Leaving(id))
    {
      ghost var s0 := View();
      CloseDownload(id);
      Release(id);
      RunTwo(s0, ByClaim(id, CloseDone), ByClaim(id, ReleaseSlot));
    }

    /** Delete's claim, and the download it must wait for. */
    method BeginDelete(key: Key) returns (r: Option<nat>)
      modifies this
      ensures View() == Step(old(View()), MarkDeleting(key))
      ensures r.None? <==> key in old(deleting)
      ensures r.Some? ==> r.value < |deletions| && deletions[r.value].key == key && key in deleting
    {
      if key in deleting {
        return None;
      }
      var waits := if key in downloads then Some(downloads[key]) else None;
      r := Some(|deletions|);
      deleting := deleting + {key};
      deletions := deletions + [Deletion(key, waits, Marking)];
    }

    /** Registry.Remove: the record goes, the index is saved or not, and only then the folder. */
    method Unlist(d: nat, saves: bool) returns (goes: bool)
      requires d < |deletions| && deletions[d].pc.Unlisting?
      modifies this
      ensures View() == Step(old(View()), ByDelete(d, DeleteMove.Unlist(saves)))
      ensures deletions[d].key !in records
      ensures goes <==> deletions[d].pc.Removing?
      ensures goes <==> saves && old(deletions[d].key) in old(records)
    {
      var x := deletions[d];
      goes := saves && x.key in records;
      records := records - {x.key};
      if !goes {
        deleting := deleting - {x.key};
      }
      deletions := deletions[d := x.(pc := if goes then Removing else Over)];
    }

    method IsDeleting(key: Key) returns (b: bool)
      ensures b <==> key in deleting
    {
      b := key in deleting;
    }

    method IsSwapping(key: Key) returns (b: bool)
      ensures b <==> key in swapping
    {
      b := key in swapping;
    }

    /** modelSource.Resolve, asked and answered under the pool's lock. */
    method Resolve() returns (launched: bool)
      requires loading.Some? && loading.value.stage.Begun?
      modifies this
      ensures View() == Run(old(View()), [ByLoad(AskDeleting), ByLoad(AskSwapping), ByLoad(Launch)])
      ensures launched <==> old(loading.value.key) !in deleting && old(loading.value.key) !in swapping
    {
      ghost var s0 := View();
      var key := loading.value.key;
      var gone := IsDeleting(key);
      if !gone {
        gone := IsSwapping(key);
      }
      launched := !gone;
      loading := None;
      if launched {
        resident := resident + {key};
      }
      OneMore(s0, ByLoad(AskDeleting), [ByLoad(AskSwapping), ByLoad(Launch)]);
      var s1 := Step(s0, ByLoad(AskDeleting));
      OneMore(s1, ByLoad(AskSwapping), [ByLoad(Launch)]);
      OneMore(Step(s1, ByLoad(AskSwapping)), ByLoad(Launch), []);
      assert [ByLoad(AskDeleting)] + [ByLoad(AskSwapping), ByLoad(Launch)]
          == [ByLoad(AskDeleting), ByLoad(AskSwapping), ByLoad(Launch)];
      assert [ByLoad(AskSwapping)] + [ByLoad(Launch)] == [ByLoad(AskSwapping), ByLoad(Launch)];
      assert [ByLoad(Launch)] + [] == [ByLoad(Launch)];
    }

    /** Close, up to its wait. */
    method Close()
      modifies this
      ensures View() == Step(old(View()), CloseApp)
    {
      closed := true;
    }
  }
}
