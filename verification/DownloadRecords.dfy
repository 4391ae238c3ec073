/**
  What a model's record says of its downloads, against which downloads are in
  flight (internal/app/app.go, internal/registry/registry.go).
*/
module DownloadRecords {
  import opened Common
  import opened DownloadClaims

  /**
    A record that says downloading with nothing in flight. It can be: the first
    write of a record is made outside the downloads lock, and can fail with the
    record changed.
  */
  predicate Orphaned(s: State, k: Key) {
    Says(s, k, Downloading) && k !in s.downloads
  }

  // ----------------------------------------------------- who wrote it last

  /** What an action is to the record of one model, read off the action. */
  datatype Writing =
    | NoWrite
    | Begins(saved: bool) // a first download's first write
    | Ends                // a publication
    | Cancels
    | Unlists

  function ClaimWriting(c: Claim, m: ClaimMove): Writing {
    if m.WriteRecord? && c.pc.Known? && c.kind.First? then Begins(m.saved)
    else if m.Finish? && (c.pc.InPlace? || (c.pc.Working? && c.kind.First?)) then Ends
    else NoWrite
  }

  function WritingOf(s: State, a: Action, k: Key): Writing {
    if a.ByClaim? && a.id < |s.claims| && s.claims[a.id].key == k then ClaimWriting(s.claims[a.id], a.claimMove)
    else if a.ByCancel? && a.x < |s.cancels| && s.cancels[a.x] == Cancelling(k, Found) && a.cancelMove.WriteIt?
    then Cancels
    else if a.ByDelete? && a.d < |s.deletions| && s.deletions[a.d].key == k && s.deletions[a.d].pc.Unlisting?
            && a.deleteMove.Unlist?
    then Unlists
    else NoWrite
  }

  /** The last action of a run that wrote k's record. */
  function LastWriting(s: State, actions: seq<Action>, k: Key): Writing
    decreases |actions|
  {
    if actions == [] then NoWrite else
    var n := |actions| - 1;
    var w := WritingOf(Run(s, actions[..n]), actions[n], k);
    if w.NoWrite? then LastWriting(s, actions[..n], k) else w
  }

  lemma RunLast(s: State, actions: seq<Action>)
    requires actions != []
    ensures var n := |actions| - 1;
            Run(s, actions) == Step(Run(s, actions[..n]), actions[n])
  {
    hide Run, Step;
    var n := |actions| - 1;
    assert actions == actions[..n] + [actions[n]] && [actions[n]] + [] == [actions[n]];
    RunAppends(s, actions[..n], [actions[n]]);
    RunOne(Run(s, actions[..n]), actions[n]);
  }

  lemma RunOne(s: State, a: Action)
    ensures Run(s, [a]) == Step(s, a)
  {
    assert [a][1..] == [];
  }

  /** A record says downloading by a first write; by a saved one only while its download works. */
  predicate Accounted(s: State, k: Key, w: Writing) {
    && (Says(s, k, Downloading) <==> w.Begins?)
    && (w == Begins(true) ==>
          k in s.downloads && s.downloads[k] < |s.claims|
          && s.claims[s.downloads[k]].kind.First?
          && (s.claims[s.downloads[k]].pc.Recorded? || s.claims[s.downloads[k]].pc.Working?))
  }

  function Then(w: Writing, next: Writing): Writing {
    if next.NoWrite? then w else next
  }

  /** What a claim's move does to its model's record, and to the map. */
  lemma RecordAfter(s: State, id: nat, m: ClaimMove)
    requires id < |s.claims|
    requires Fetching(s.claims[id]) ==> s.claims[id].key in s.records
    ensures var c, t := s.claims[id], ClaimStep(s, id, m);
            && t.records == (match ClaimWriting(c, m)
                             case Begins(_) => s.records[c.key := Downloading]
                             case Ends => s.records[c.key := if c.pc.InPlace? || m.good then Ready else Failed]
                             case _ => s.records)
            && (t.downloads != s.downloads ==> m.FinishAgain? || (m.Finish? && MayFinish(c.pc)))
            && |t.claims| == |s.claims|
  {
    hide Registered, Renaming, Swapping;
  }

  lemma AccountedElsewhere(s: State, id: nat, m: ClaimMove, k: Key, w: Writing)
    requires Inv(s) && id < |s.claims| && s.claims[id].key != k && Accounted(s, k, w)
    ensures Accounted(ClaimStep(s, id, m), k, w)
  {
    hide ClaimStep, Inv;
    ClaimStepMoves(s, id, m);
    ClaimStepKeeps(s, id, m);
    RecordFactsOf(s, id);
    RecordAfter(s, id, m);
    KeepsOthers(s, id, m, k);
  }

  lemma RecordFactsOf(s: State, id: nat)
    requires Inv(s) && id < |s.claims|
    ensures Placed(s.claims[id]) && (Fetching(s.claims[id]) ==> s.claims[id].key in s.records)
    ensures var c := s.claims[id];
            c.key in s.downloads && s.downloads[c.key] == id <==> Registered(c.pc)
  {
    ClaimFacts(s, id);
  }

  lemma KeepsOthers(s: State, id: nat, m: ClaimMove, k: Key)
    requires Inv(s) && id < |s.claims| && s.claims[id].key != k
    ensures var t := ClaimStep(s, id, m);
            && (k in t.downloads <==> k in s.downloads)
            && (k in s.downloads ==> t.downloads[k] == s.downloads[k] && s.downloads[k] != id)
  {
    hide Inv, Registered, Renaming, Swapping, FinishStep;
    NamedElsewhere(s, id, k);
    if m.Finish? {
      FinishMoves(s, id, m.good);
    }
  }

  lemma NamedElsewhere(s: State, id: nat, k: Key)
    requires Inv(s) && id < |s.claims| && s.claims[id].key != k
    ensures k in s.downloads ==> s.downloads[k] != id
  {
  }

  lemma AccountedHere(s: State, id: nat, m: ClaimMove, w: Writing)
    requires Inv(s) && id < |s.claims| && Accounted(s, s.claims[id].key, w)
    ensures Accounted(ClaimStep(s, id, m), s.claims[id].key, Then(w, ClaimWriting(s.claims[id], m)))
  {
    hide Inv;
    RecordFactsOf(s, id);
    RecordAfter(s, id, m);
  }

  lemma AccountedByClaim(s: State, id: nat, m: ClaimMove, k: Key, w: Writing)
    requires Inv(s) && id < |s.claims| && Accounted(s, k, w)
    ensures Accounted(ClaimStep(s, id, m), k, Then(w, WritingOf(s, ByClaim(id, m), k)))
  {
    hide Inv, ClaimStep, Accounted, ClaimWriting;
    if s.claims[id].key == k {
      AccountedHere(s, id, m, w);
    } else {
      AccountedElsewhere(s, id, m, k, w);
    }
  }

  lemma AccountedByDelete(s: State, d: nat, m: DeleteMove, k: Key, w: Writing)
    requires Inv(s) && d < |s.deletions| && Accounted(s, k, w)
    ensures Accounted(DeleteStep(s, d, m), k, Then(w, WritingOf(s, ByDelete(d, m), k)))
  {
    hide Inv;
    DeleteFactsOf(s, d);
  }

  lemma DeleteFactsOf(s: State, d: nat)
    requires Inv(s) && d < |s.deletions|
    ensures Sole(s.deletions[d].pc) ==> s.deletions[d].key !in s.downloads
  {
  }

  lemma AccountedByCancel(s: State, x: nat, m: CancelMove, k: Key, w: Writing)
    requires Accounted(s, k, w) && x < |s.cancels|
    ensures Accounted(CancelStep(s, x, m), k, Then(w, WritingOf(s, ByCancel(x, m), k)))
  {
  }

  lemma AccountedRegister(s: State, k0: Key, restore: bool, k: Key, w: Writing)
    requires Inv(s) && Accounted(s, k, w)
    ensures Accounted(RegisterStep(s, k0, restore), k, w)
  {
  }

  lemma StepAccounted(s: State, a: Action, k: Key, w: Writing)
    requires Inv(s) && Accounted(s, k, w)
    ensures Accounted(Step(s, a), k, Then(w, WritingOf(s, a, k)))
  {
    hide Inv, ClaimStep, DeleteStep, CancelStep, RegisterStep, ClaimWriting;
    match a
    case ByClaim(id, m) =>
      if id < |s.claims| {
        AccountedByClaim(s, id, m, k, w);
      }
    case ByDelete(d, m) =>
      if d < |s.deletions| {
        AccountedByDelete(s, d, m, k, w);
      }
    case ByCancel(x, m) =>
      if x < |s.cancels| {
        AccountedByCancel(s, x, m, k, w);
      }
    case Register(k0, restore) => AccountedRegister(s, k0, restore, k, w);
    case _ =>
  }

  lemma {:induction false} RunAccounted(s: State, actions: seq<Action>, k: Key)
    requires Inv(s) && Accounted(s, k, NoWrite)
    ensures Accounted(Run(s, actions), k, LastWriting(s, actions, k))
    decreases |actions|
  {
    hide Inv, Accounted, Step, Run, WritingOf;
    if actions == [] {
      assert Run(s, actions) == s by {
        RunNone(s);
      }
    } else {
      var n := |actions| - 1;
      RunAccounted(s, actions[..n], k);
      RunInv(s, actions[..n]);
      RunLast(s, actions);
      StepAccounted(Run(s, actions[..n]), actions[n], k, LastWriting(s, actions[..n], k));
    }
  }

  lemma RunNone(s: State)
    ensures Run(s, []) == s
  {
  }

  lemma InitialInv(resident: set<Key>, listed: map<Key, Record>)
    ensures Inv(Initial(resident, listed))
    ensures forall k :: Accounted(Initial(resident, listed), k, NoWrite)
  {
    RunNone(Initial(resident, listed));
    ReachedInv(Initial(resident, listed), resident, listed, []);
  }

  /**
    A record says downloading with nothing in flight exactly when the last
    action to write it was the first write of a download that could not save
    it: no later first write, publication, cancel or delete has come.
  */
  lemma AnOrphanedRecordExactly(s: State, resident: set<Key>, listed: map<Key, Record>, actions: seq<Action>, k: Key)
    requires Reached(s, resident, listed, actions)
    ensures Orphaned(s, k) <==>
            k !in s.downloads && LastWriting(Initial(resident, listed), actions, k) == Begins(false)
  {
    hide Run, LastWriting, Inv;
    InitialInv(resident, listed);
    RunAccounted(Initial(resident, listed), actions, k);
  }

  /** A start records every download it finds interrupted as failed, and every other record as it was. */
  lemma AStartFailsTheInterrupted(resident: set<Key>, listed: map<Key, Record>)
    ensures var s := Initial(resident, listed);
            && s.records.Keys == listed.Keys
            && (forall k :: k in listed && listed[k].Downloading? ==> s.records[k].Failed?)
            && (forall k :: k in listed && !listed[k].Downloading? ==> s.records[k] == listed[k])
  {
  }

  // ------------------------------------------------ when the index is saved

  predicate FirstWrite(s: State, a: Action) {
    a.ByClaim? && a.id < |s.claims| && ClaimWriting(s.claims[a.id], a.claimMove).Begins?
  }

  predicate FailedWrite(s: State, a: Action) {
    FirstWrite(s, a) && !a.claimMove.saved
  }

  /** Every first write of the run is saved. */
  ghost predicate IndexSaves(s: State, actions: seq<Action>) {
    forall i :: 0 <= i < |actions| ==> !FailedWrite(Run(s, actions[..i]), actions[i])
  }

  /** No record is orphaned, nor would one be by a claim's ending here. */
  ghost predicate OrphansNone(s: State) {
    && (forall k :: !Orphaned(s, k))
    && (forall id, good, k :: !Orphaned(Step(s, ByClaim(id, Finish(good))), k))
  }

  ghost predicate NeverOrphaned(s: State, actions: seq<Action>) {
    forall i :: 0 <= i <= |actions| ==> OrphansNone(Run(s, actions[..i]))
  }

  lemma {:induction false} SavedRunBeginsSaved(s: State, actions: seq<Action>, k: Key)
    requires IndexSaves(s, actions)
    ensures LastWriting(s, actions, k) != Begins(false)
    decreases |actions|
  {
    hide Run, FailedWrite, WritingOf;
    if actions != [] {
      var n := |actions| - 1;
      IndexSavesBefore(s, actions, n);
      SavedRunBeginsSaved(s, actions[..n], k);
      BeginsByAFirstWrite(Run(s, actions[..n]), actions[n], k);
    }
  }

  lemma BeginsByAFirstWrite(s: State, a: Action, k: Key)
    ensures WritingOf(s, a, k).Begins? ==> FirstWrite(s, a)
    ensures WritingOf(s, a, k) == Begins(false) ==> FailedWrite(s, a)
  {
  }

  lemma IndexSavesBefore(s: State, actions: seq<Action>, n: nat)
    requires IndexSaves(s, actions) && n <= |actions|
    ensures IndexSaves(s, actions[..n])
  {
    hide Run, FailedWrite;
    forall i | 0 <= i < n ensures !FailedWrite(Run(s, actions[..n][..i]), actions[..n][i]) {
      assert actions[..n][..i] == actions[..i];
    }
  }

  /** A claim that ends orphans nothing but what it could not save. */
  lemma SavedThenEnded(s: State, id: nat, good: bool, k: Key, w: Writing)
    requires Inv(s) && Accounted(s, k, w) && w != Begins(false)
    ensures !Orphaned(s, k) && !Orphaned(Step(s, ByClaim(id, Finish(good))), k)
  {
    hide Inv, Step, ClaimWriting;
    StepAccounted(s, ByClaim(id, Finish(good)), k, w);
    BeginsByAFirstWrite(s, ByClaim(id, Finish(good)), k);
    NotAFirstWrite(s, id, good);
  }

  lemma NotAFirstWrite(s: State, id: nat, good: bool)
    ensures !FirstWrite(s, ByClaim(id, Finish(good)))
  {
  }

  /** A first write that is not saved, and then the end of its claim. */
  lemma UnsavedThenEnded(s: State, a: Action, good: bool)
    requires Inv(s) && FailedWrite(s, a)
    ensures Orphaned(Step(Step(s, a), ByClaim(a.id, Finish(good))), s.claims[a.id].key)
    ensures !OrphansNone(Step(s, a))
  {
    hide Inv;
    RecordFactsOf(s, a.id);
    StepInv(s, a);
    RecordFactsOf(Step(s, a), a.id);
  }

  /**
    No record says downloading with nothing in flight, at any point of a run
    and however the claims there end, if and only if every first write of the
    run could be saved.
  */
  lemma NeverOrphanedExactly(s: State, resident: set<Key>, listed: map<Key, Record>, actions: seq<Action>)
    requires s == Initial(resident, listed)
    ensures IndexSaves(s, actions) <==> NeverOrphaned(s, actions)
  {
    InitialInv(resident, listed);
    if IndexSaves(s, actions) {
      SavingOrphansNone(s, actions);
    }
    if NeverOrphaned(s, actions) {
      OrphaningNoneSaves(s, actions);
    }
  }

  lemma SavingOrphansNone(s: State, actions: seq<Action>)
    requires Inv(s) && (forall k :: Accounted(s, k, NoWrite)) && IndexSaves(s, actions)
    ensures NeverOrphaned(s, actions)
  {
    hide Inv, Run, Step, Accounted, OrphansNone, IndexSaves;
    forall i | 0 <= i <= |actions| ensures OrphansNone(Run(s, actions[..i])) {
      IndexSavesBefore(s, actions, i);
      SavedOrphansNone(s, actions[..i]);
    }
  }

  lemma SavedOrphansNone(s: State, actions: seq<Action>)
    requires Inv(s) && (forall k :: Accounted(s, k, NoWrite)) && IndexSaves(s, actions)
    ensures OrphansNone(Run(s, actions))
  {
    hide Inv, Run, Step, Accounted, IndexSaves;
    var t := Run(s, actions);
    RunInv(s, actions);
    forall id, good, k ensures !Orphaned(Step(t, ByClaim(id, Finish(good))), k) {
      SavedRunBeginsSaved(s, actions, k);
      RunAccounted(s, actions, k);
      SavedThenEnded(t, id, good, k, LastWriting(s, actions, k));
    }
    forall k ensures !Orphaned(t, k) {
      SavedRunBeginsSaved(s, actions, k);
      RunAccounted(s, actions, k);
      SavedThenEnded(t, 0, true, k, LastWriting(s, actions, k));
    }
  }

  lemma OrphaningNoneSaves(s: State, actions: seq<Action>)
    requires Inv(s) && NeverOrphaned(s, actions)
    ensures IndexSaves(s, actions)
  {
    hide Inv, Run, Step, FailedWrite, OrphansNone;
    forall i | 0 <= i < |actions| ensures !FailedWrite(Run(s, actions[..i]), actions[i]) {
      assert actions[..i + 1][..i] == actions[..i];
      assert OrphansNone(Run(s, actions[..i + 1]));
      RunLast(s, actions[..i + 1]);
      if FailedWrite(Run(s, actions[..i]), actions[i]) {
        RunInv(s, actions[..i]);
        UnsavedThenEnded(Run(s, actions[..i]), actions[i], true);
        assert false;
      }
    }
  }

  // --------------------------------------------- when no cancel is under way

  /**
    Every first download past its first write is recorded as downloading. It
    may not be: CancelDownload looks under the downloads lock, and reads and
    writes the record after it.
  */
  ghost predicate LiveSaysSo(s: State) {
    forall id :: 0 <= id < |s.claims| && Fetching(s.claims[id]) ==> Says(s, s.claims[id].key, Downloading)
  }

  /** A CancelDownload of k is past its look and has not ended. */
  ghost predicate UnderWay(s: State, k: Key) {
    exists x :: 0 <= x < |s.cancels| && s.cancels[x].key == k && !s.cancels[x].pc.Done?
  }

  /** A first write while a cancel of its model is under way. */
  ghost predicate CrossedWrite(s: State, a: Action) {
    FirstWrite(s, a) && UnderWay(s, s.claims[a.id].key)
  }

  /** Every first write of the run finds no cancel of its model under way. */
  ghost predicate WritesFindNoCancel(s: State, actions: seq<Action>) {
    forall i :: 0 <= i < |actions| ==> !CrossedWrite(Run(s, actions[..i]), actions[i])
  }

  /** A download's start that takes effect while a cancel of its model is under way. */
  ghost predicate CrossedStart(s: State, a: Action) {
    a.Register? && !a.restore && MayRegister(s, a.key) && UnderWay(s, a.key)
  }

  /** No start of the run does: a caller can see to that. */
  ghost predicate StartsFindNoCancel(s: State, actions: seq<Action>) {
    forall i :: 0 <= i < |actions| ==> !CrossedStart(Run(s, actions[..i]), actions[i])
  }

  /** The rest of a CancelDownload past its look. */
  function Cancelled(s: State, x: nat): State {
    Step(Step(s, ByCancel(x, ReadIt)), ByCancel(x, WriteIt))
  }

  /** Every download in flight is recorded so, and would be after any cancel's ending here. */
  ghost predicate LiveStaysSo(s: State) {
    LiveSaysSo(s) && forall x :: LiveSaysSo(Cancelled(s, x))
  }

  ghost predicate LiveSaysSoThroughout(s: State, actions: seq<Action>) {
    forall i :: 0 <= i <= |actions| ==> LiveStaysSo(Run(s, actions[..i]))
  }

  /** A download past its first write is recorded so, and no cancel of it is under way. */
  ghost predicate Apart(s: State) {
    forall id :: 0 <= id < |s.claims| && Fetching(s.claims[id]) ==>
      Says(s, s.claims[id].key, Downloading) && !UnderWay(s, s.claims[id].key)
  }

  lemma ApartByClaim(s: State, id: nat, m: ClaimMove)
    requires Inv(s) && Apart(s) && id < |s.claims| && !CrossedWrite(s, ByClaim(id, m))
    ensures Apart(ClaimStep(s, id, m))
  {
    hide Inv, ClaimStep, UnderWay;
    var t := ClaimStep(s, id, m);
    RecordFactsOf(s, id);
    ClaimStepMoves(s, id, m);
    RecordAfter(s, id, m);
    FetchingAfter(s, id, m);
    forall other | 0 <= other < |t.claims| && Fetching(t.claims[other])
      ensures Says(t, t.claims[other].key, Downloading) && !UnderWay(t, t.claims[other].key)
    {
      UnderWayAlike(s, t, t.claims[other].key);
      if other != id && !ClaimWriting(s.claims[id], m).NoWrite? {
        TwoKeys(s, id, other);
      }
    }
  }

  lemma UnderWayAlike(s: State, t: State, k: Key)
    requires s.cancels == t.cancels
    ensures UnderWay(s, k) <==> UnderWay(t, k)
  {
  }

  lemma FetchingAfter(s: State, id: nat, m: ClaimMove)
    requires id < |s.claims| == |ClaimStep(s, id, m).claims| && Placed(s.claims[id])
    ensures var c, t := s.claims[id], ClaimStep(s, id, m);
            && t.cancels == s.cancels
            && (Fetching(t.claims[id]) ==> Fetching(c) || ClaimWriting(c, m).Begins?)
            && (Fetching(c) && Fetching(t.claims[id]) ==> ClaimWriting(c, m).NoWrite?)
            && (!ClaimWriting(c, m).NoWrite? ==> Registered(c.pc))
  {
  }

  /** What a step of anything but a claim leaves as it was. */
  ghost predicate Framed(s: State, a: Action, t: State) {
    && s.claims <= t.claims
    && (forall id :: |s.claims| <= id < |t.claims| ==>
          a.Register? && MayRegister(s, a.key) && t.claims[id].key == a.key && t.claims[id].pc.Claimed?
          && t.claims[id].kind == if a.restore then Restore else Unread)
    && (forall x :: 0 <= x < |t.cancels| && !t.cancels[x].pc.Done? ==>
          UnderWay(s, t.cancels[x].key) || (a.Cancel? && t.cancels[x].key == a.key && a.key !in s.downloads))
    && (forall k :: Says(t, k, Ready) ==> Says(s, k, Ready))
    && (forall k :: Says(s, k, Downloading) && k in s.downloads && !UnderWay(s, k) ==> Says(t, k, Downloading))
  }

  lemma OthersFrame(s: State, a: Action)
    requires Inv(s) && !a.ByClaim?
    ensures Framed(s, a, Step(s, a))
  {
    hide Inv, UnderWay, DeleteStep, CancelStep;
    forall x | 0 <= x < |s.cancels| && !s.cancels[x].pc.Done? ensures UnderWay(s, s.cancels[x].key) {
      FindsIt(s, x);
    }
    if a.ByDelete? && a.d < |s.deletions| {
      DeleteFrames(s, a);
    } else if a.ByCancel? && a.x < |s.cancels| {
      CancelFrames(s, a);
    }
  }

  lemma FindsIt(s: State, x: nat)
    requires x < |s.cancels| && !s.cancels[x].pc.Done?
    ensures UnderWay(s, s.cancels[x].key)
  {
  }

  lemma DeleteFrames(s: State, a: Action)
    requires Inv(s) && a.ByDelete? && a.d < |s.deletions|
    requires forall x :: 0 <= x < |s.cancels| && !s.cancels[x].pc.Done? ==> UnderWay(s, s.cancels[x].key)
    ensures Framed(s, a, Step(s, a))
  {
    var k, t := s.deletions[a.d].key, Step(s, a);
    DeleteFactsOf(s, a.d);
    DeleteKeeps(s, a.d, a.deleteMove);
    hide Inv, UnderWay, DeleteStep;
    assert t.records == s.records || (t.records == s.records - {k} && k !in s.downloads);
  }

  lemma DeleteKeeps(s: State, d: nat, m: DeleteMove)
    requires d < |s.deletions|
    ensures var k, t := s.deletions[d].key, DeleteStep(s, d, m);
            && t.claims == s.claims && t.cancels == s.cancels && t.downloads == s.downloads
            && (t.records == s.records || (Sole(s.deletions[d].pc) && t.records == s.records - {k}))
  {
  }

  lemma CancelFrames(s: State, a: Action)
    requires a.ByCancel? && a.x < |s.cancels|
    requires forall x :: 0 <= x < |s.cancels| && !s.cancels[x].pc.Done? ==> UnderWay(s, s.cancels[x].key)
    ensures Framed(s, a, Step(s, a))
  {
    hide UnderWay;
  }

  lemma ApartByRest(s: State, a: Action)
    requires Inv(s) && Apart(s) && !a.ByClaim?
    ensures Apart(Step(s, a))
  {
    hide Inv, Step;
    var t := Step(s, a);
    OthersFrame(s, a);
    forall id | 0 <= id < |t.claims| && Fetching(t.claims[id])
      ensures Says(t, t.claims[id].key, Downloading) && !UnderWay(t, t.claims[id].key)
    {
      assert s.claims[id] == t.claims[id];
      RecordFactsOf(s, id);
    }
  }

  lemma StepApart(s: State, a: Action)
    requires Inv(s) && Apart(s) && !CrossedWrite(s, a)
    ensures Apart(Step(s, a))
  {
    hide Inv, Apart, ClaimStep, CrossedWrite;
    if a.ByClaim? {
      if a.id < |s.claims| {
        ApartByClaim(s, a.id, a.claimMove);
      }
    } else {
      ApartByRest(s, a);
    }
  }

  lemma WritesBefore(s: State, actions: seq<Action>, n: nat)
    requires WritesFindNoCancel(s, actions) && n <= |actions|
    ensures WritesFindNoCancel(s, actions[..n])
  {
    hide Run, CrossedWrite;
    forall i | 0 <= i < n ensures !CrossedWrite(Run(s, actions[..n][..i]), actions[..n][i]) {
      assert actions[..n][..i] == actions[..i];
    }
  }

  lemma {:induction false} RunApart(s: State, actions: seq<Action>)
    requires Inv(s) && Apart(s) && WritesFindNoCancel(s, actions)
    ensures Apart(Run(s, actions))
    decreases |actions|
  {
    hide Inv, Apart, Run, Step, CrossedWrite;
    if actions == [] {
      RunNone(s);
    } else {
      var n := |actions| - 1;
      WritesBefore(s, actions, n);
      RunApart(s, actions[..n]);
      RunInv(s, actions[..n]);
      RunLast(s, actions);
      StepApart(Run(s, actions[..n]), actions[n]);
    }
  }

  lemma ApartStaysSo(s: State)
    requires Inv(s) && Apart(s)
    ensures LiveStaysSo(s)
  {
    hide Inv, Step, CrossedWrite, Fetching;
    forall x ensures LiveSaysSo(Cancelled(s, x)) {
      var t := Step(s, ByCancel(x, ReadIt));
      NoCrossing(s, x, ReadIt);
      NoCrossing(t, x, WriteIt);
      StepInv(s, ByCancel(x, ReadIt));
      StepApart(s, ByCancel(x, ReadIt));
      StepApart(t, ByCancel(x, WriteIt));
    }
  }

  lemma NoCrossing(s: State, x: nat, m: CancelMove)
    ensures !CrossedWrite(s, ByCancel(x, m))
  {
  }

  /** A first write that crosses a cancel, and then the rest of the cancel. */
  lemma CrossedThenCancelled(s: State, a: Action)
    requires Inv(s) && CrossedWrite(s, a)
    ensures !LiveStaysSo(Step(s, a))
  {
    hide Inv;
    var k, t := s.claims[a.id].key, Step(s, a);
    var x :| 0 <= x < |s.cancels| && s.cancels[x].key == k && !s.cancels[x].pc.Done?;
    CancelEnds(t, x);
    assert Fetching(Cancelled(t, x).claims[a.id]);
    assert !LiveSaysSo(Cancelled(t, x));
  }

  lemma CancelEnds(s: State, x: nat)
    requires x < |s.cancels| && !s.cancels[x].pc.Done? && Says(s, s.cancels[x].key, Downloading)
    ensures var t := Cancelled(s, x);
            t.claims == s.claims && t.downloads == s.downloads && Says(t, s.cancels[x].key, Failed)
  {
  }

  /**
    A first download past its first write is recorded as downloading at every
    point of a run, however the cancels there end, if and only if every first
    write finds no CancelDownload of its model under way.
  */
  lemma LiveSaysSoExactly(s: State, resident: set<Key>, listed: map<Key, Record>, actions: seq<Action>)
    requires s == Initial(resident, listed)
    ensures WritesFindNoCancel(s, actions) <==> LiveSaysSoThroughout(s, actions)
  {
    hide Run, LiveStaysSo, CrossedWrite, Inv;
    InitialInv(resident, listed);
    if WritesFindNoCancel(s, actions) {
      forall i | 0 <= i <= |actions| ensures LiveStaysSo(Run(s, actions[..i])) {
        WritesBefore(s, actions, i);
        RunApart(s, actions[..i]);
        RunInv(s, actions[..i]);
        ApartStaysSo(Run(s, actions[..i]));
      }
    }
    if LiveSaysSoThroughout(s, actions) {
      forall i | 0 <= i < |actions| ensures !CrossedWrite(Run(s, actions[..i]), actions[i]) {
        assert actions[..i + 1][..i] == actions[..i];
        assert LiveStaysSo(Run(s, actions[..i + 1]));
        RunLast(s, actions[..i + 1]);
        if CrossedWrite(Run(s, actions[..i]), actions[i]) {
          RunInv(s, actions[..i]);
          CrossedThenCancelled(Run(s, actions[..i]), actions[i]);
          assert false;
        }
      }
    }
  }

  predicate InFlight(c: Claim) {
    !c.kind.Restore? && Registered(c.pc)
  }

  /** A download registers only with no cancel of its model under way, and none comes to be before it ends. */
  ghost predicate StartedApart(s: State) {
    forall id :: 0 <= id < |s.claims| && InFlight(s.claims[id]) ==> !UnderWay(s, s.claims[id].key)
  }

  lemma StartedApartByClaim(s: State, id: nat, m: ClaimMove)
    requires StartedApart(s) && id < |s.claims|
    ensures StartedApart(ClaimStep(s, id, m))
  {
    hide ClaimStep, UnderWay;
    var t := ClaimStep(s, id, m);
    ClaimStepMoves(s, id, m);
    NeverRegistersAgain(s, id, m);
    forall other | 0 <= other < |t.claims| && InFlight(t.claims[other]) ensures !UnderWay(t, t.claims[other].key) {
      UnderWayAlike(s, t, t.claims[other].key);
    }
  }

  lemma NeverRegistersAgain(s: State, id: nat, m: ClaimMove)
    requires id < |s.claims| == |ClaimStep(s, id, m).claims|
    ensures var t := ClaimStep(s, id, m);
            t.cancels == s.cancels && (InFlight(t.claims[id]) ==> InFlight(s.claims[id]))
  {
  }

  lemma StartedApartByRest(s: State, a: Action)
    requires Inv(s) && StartedApart(s) && !a.ByClaim? && !CrossedStart(s, a)
    ensures StartedApart(Step(s, a))
  {
    hide Inv, Step;
    var t := Step(s, a);
    OthersFrame(s, a);
    forall id | 0 <= id < |t.claims| && InFlight(t.claims[id]) ensures !UnderWay(t, t.claims[id].key) {
      if id < |s.claims| {
        assert s.claims[id] == t.claims[id];
        RecordFactsOf(s, id);
      }
    }
  }

  lemma StepStartedApart(s: State, a: Action)
    requires Inv(s) && StartedApart(s) && !CrossedStart(s, a)
    ensures StartedApart(Step(s, a)) && !CrossedWrite(s, a)
  {
    hide Inv;
    if a.ByClaim? {
      if a.id < |s.claims| {
        hide ClaimStep;
        StartedApartByClaim(s, a.id, a.claimMove);
      }
    } else {
      StartedApartByRest(s, a);
    }
  }

  lemma {:induction false} RunStartedApart(s: State, actions: seq<Action>)
    requires Inv(s) && StartedApart(s) && StartsFindNoCancel(s, actions)
    ensures StartedApart(Run(s, actions)) && WritesFindNoCancel(s, actions)
    decreases |actions|
  {
    hide Inv, StartedApart, Run, Step, CrossedWrite, CrossedStart;
    if actions == [] {
      RunNone(s);
    } else {
      var n := |actions| - 1;
      var before := actions[..n];
      assert StartsFindNoCancel(s, before) by {
        forall i | 0 <= i < n ensures !CrossedStart(Run(s, before[..i]), before[i]) {
          assert before[..i] == actions[..i];
        }
      }
      RunStartedApart(s, before);
      RunInv(s, before);
      RunLast(s, actions);
      StepStartedApart(Run(s, before), actions[n]);
      forall i | 0 <= i < |actions| ensures !CrossedWrite(Run(s, actions[..i]), actions[i]) {
        if i < n {
          assert before[..i] == actions[..i] && before[i] == actions[i];
        }
      }
    }
  }

  /** A caller that lets every CancelDownload of a model end before it starts one meets the condition. */
  lemma StartingAfterCancellingIsSafe(s: State, resident: set<Key>, listed: map<Key, Record>, actions: seq<Action>)
    requires s == Initial(resident, listed) && StartsFindNoCancel(s, actions)
    ensures LiveSaysSoThroughout(s, actions)
  {
    hide Inv, Run, LiveSaysSoThroughout;
    InitialInv(resident, listed);
    RunStartedApart(s, actions);
    LiveSaysSoExactly(s, resident, listed, actions);
  }

  // ------------------------------------------------------------ one step

  /**
    Where the index can be saved and no first write crosses a cancel, a
    record's final state and the deregistration are one step to any observer:
    a record says downloading exactly while a first download of the model that
    has written so is in flight.
  */
  lemma PublishedIsDeregistered(s: State, resident: set<Key>, listed: map<Key, Record>, actions: seq<Action>, k: Key)
    requires Reached(s, resident, listed, actions)
    requires IndexSaves(Initial(resident, listed), actions) && WritesFindNoCancel(Initial(resident, listed), actions)
    ensures Says(s, k, Downloading) <==>
            k in s.downloads && s.downloads[k] < |s.claims| && Fetching(s.claims[s.downloads[k]])
  {
    hide Inv, Run, IndexSaves, WritesFindNoCancel;
    var s0 := Initial(resident, listed);
    InitialInv(resident, listed);
    SavedRunBeginsSaved(s0, actions, k);
    RunAccounted(s0, actions, k);
    RunApart(s0, actions);
    RunInv(s0, actions);
    NamedBy(s, k);
  }

  lemma NamedBy(s: State, k: Key)
    requires Inv(s)
    ensures k in s.downloads ==> s.downloads[k] < |s.claims| && s.claims[s.downloads[k]].key == k
  {
  }

  /** A download that found its model not ready still finds it so. */
  ghost predicate FirstsNotReady(s: State) {
    forall id :: 0 <= id < |s.claims| && s.claims[id].kind.First? && Registered(s.claims[id].pc) ==>
      !Says(s, s.claims[id].key, Ready)
  }

  lemma NotReadyByClaim(s: State, id: nat, m: ClaimMove)
    requires Inv(s) && FirstsNotReady(s) && id < |s.claims|
    ensures FirstsNotReady(ClaimStep(s, id, m))
  {
    hide Inv, ClaimStep;
    var t := ClaimStep(s, id, m);
    RecordFactsOf(s, id);
    ClaimStepMoves(s, id, m);
    RecordAfter(s, id, m);
    FirstAfter(s, id, m);
    forall other | 0 <= other < |t.claims| && t.claims[other].kind.First? && Registered(t.claims[other].pc)
      ensures !Says(t, t.claims[other].key, Ready)
    {
      if other != id && Registered(s.claims[id].pc) {
        TwoKeys(s, id, other);
      }
    }
  }

  lemma FirstAfter(s: State, id: nat, m: ClaimMove)
    requires id < |s.claims| == |ClaimStep(s, id, m).claims| && Placed(s.claims[id])
    ensures var b, c := s.claims[id], ClaimStep(s, id, m).claims[id];
            && (c.kind.First? && Registered(c.pc) ==>
                  !ClaimWriting(b, m).Ends?
                  && if b.kind.First? then Registered(b.pc)
                     else !Says(s, b.key, Ready) && ClaimWriting(b, m).NoWrite?)
            && (!ClaimWriting(b, m).NoWrite? ==> Registered(b.pc))
  {
  }

  lemma TwoKeys(s: State, id: nat, other: nat)
    requires Inv(s) && id < |s.claims| && other < |s.claims| && id != other
    requires Registered(s.claims[other].pc) && Registered(s.claims[id].pc)
    ensures s.claims[other].key != s.claims[id].key
  {
  }

  lemma NotReadyByRest(s: State, a: Action)
    requires Inv(s) && FirstsNotReady(s) && !a.ByClaim?
    ensures FirstsNotReady(Step(s, a))
  {
    hide Inv, Step;
    OthersFrame(s, a);
  }

  lemma {:induction false} RunNotReady(s: State, actions: seq<Action>)
    requires Inv(s) && FirstsNotReady(s)
    ensures FirstsNotReady(Run(s, actions))
    decreases |actions|
  {
    hide Inv, FirstsNotReady, Step;
    if actions != [] {
      var a := actions[0];
      StepInv(s, a);
      if a.ByClaim? {
        if a.id < |s.claims| {
          NotReadyByClaim(s, a.id, a.claimMove);
        }
        StepByClaim(s, a.id, a.claimMove);
      } else {
        NotReadyByRest(s, a);
      }
      RunNotReady(Step(s, a), actions[1..]);
    }
  }

  lemma StepByClaim(s: State, id: nat, m: ClaimMove)
    ensures Step(s, ByClaim(id, m)) == if id < |s.claims| then ClaimStep(s, id, m) else s
  {
  }

  /**
    Over every run, whatever fails to be saved and whatever cancels cross it:
    a model whose record says it is ready has no first download in flight, so
    whoever sees one finish is not then refused the next.
  */
  lemma ReadyIsNotInFlight(s: State, resident: set<Key>, listed: map<Key, Record>, actions: seq<Action>, k: Key)
    requires Reached(s, resident, listed, actions) && Says(s, k, Ready)
    ensures k in s.downloads ==> s.downloads[k] < |s.claims| && !s.claims[s.downloads[k]].kind.First?
  {
    hide Inv, Run;
    InitialInv(resident, listed);
    RunNotReady(Initial(resident, listed), actions);
    ReachedInv(s, resident, listed, actions);
    NamedBy(s, k);
    if k in s.downloads {
      RecordFactsOf(s, s.downloads[k]);
    }
  }

  // -------------------------------------------------- runs that go wrong

  /** A download that may start and reads a record that is not ready's. */
  predicate MayStart(s: State, k: Key) {
    MayRegister(s, k) && !Says(s, k, Ready)
  }

  /** The moves of a download just registered, up to its first write. */
  function FirstMoves(id: nat, saved: bool): seq<Action> {
    [ByClaim(id, ReadRecord), ByClaim(id, WriteRecord(saved))]
  }

  lemma FirstMovesWrite(s: State, k: Key, saved: bool)
    requires MayStart(s, k)
    ensures var n := |s.claims|;
            var t := Run(Step(s, Register(k, false)), FirstMoves(n, saved));
            && |t.claims| == n + 1 && t.claims[n] == Claim(k, First, if saved then Recorded else Unsaved, 0)
            && t.cancels == s.cancels && Says(t, k, Downloading) && k in t.downloads && t.downloads[k] == n
  {
    hide Run;
    var n := |s.claims|;
    RunTwo(Step(s, Register(k, false)), ByClaim(n, ReadRecord), ByClaim(n, WriteRecord(saved)));
  }

  /** From any state a first write that fails, and the return that follows it, leave the model orphaned. */
  lemma AFailedWriteOrphans(s: State, k: Key, good: bool)
    requires MayStart(s, k)
    ensures var n := |s.claims|;
            Orphaned(Run(s, [Register(k, false)] + (FirstMoves(n, false) + [ByClaim(n, Finish(good))])), k)
  {
    hide Run;
    var n := |s.claims|;
    var end := [ByClaim(n, Finish(good))];
    OneMore(s, Register(k, false), FirstMoves(n, false) + end);
    RunAppends(Step(s, Register(k, false)), FirstMoves(n, false), end);
    FirstMovesWrite(s, k, false);
    RunOne(Run(Step(s, Register(k, false)), FirstMoves(n, false)), end[0]);
  }

  /** From any state a cancel that looks before a download starts and ends after its first write marks it failed. */
  lemma ACancelCanFailALiveDownload(s: State, k: Key)
    requires MayStart(s, k)
    ensures var n, x := |s.claims|, |s.cancels|;
            var t := Cancelled(Run(Step(Step(s, Cancel(k)), Register(k, false)), FirstMoves(n, true)), x);
            n < |t.claims| && Fetching(t.claims[n]) && t.claims[n].key == k && Says(t, k, Failed)
  {
    hide Run;
    var s1 := Step(s, Cancel(k));
    FirstMovesWrite(s1, k, true);
    CancelEnds(Run(Step(s1, Register(k, false)), FirstMoves(|s.claims|, true)), |s.cancels|);
  }

  /** What CancelDownload is for: an orphaned record is cleared, and the model may be fetched again. */
  lemma ACancelClearsAnOrphan(s: State, k: Key)
    requires Orphaned(s, k)
    ensures var t := Cancelled(Step(s, Cancel(k)), |s.cancels|);
            Says(t, k, Failed) && (MayRegister(s, k) ==> MayStart(t, k))
  {
  }
}
