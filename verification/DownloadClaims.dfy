/**
  Who may touch a model's folder: the claim a download, an update, a restore
  or a delete takes on a model, the marks the pool asks before it launches a
  server, and how Close waits (internal/app/app.go, internal/app/staged.go).
*/
module DownloadClaims {
  import opened Common

  type Key = string

  /** What a claim is for; a download knows only once it has read the record. */
  datatype Kind = Unread | First | Update | Restore

  datatype Record = Downloading | Ready | Failed

  /** Where a claim's goroutine stands. */
  datatype ClaimPc =
    | Claimed   // registered, the record not read
    | Known     // a download that has read it
    | Recorded  // a first download whose record says so, and is saved
    | Unsaved   // one whose record says so, and could not be saved
    | Working   // a first download writes the folder; an update fetches beside it
    | Marked    // the swapping mark is set, the old version not yet stopped
    | Stopped   // no model server is left: the folder may be renamed
    | OldAside  // between the two renames
    | InPlace   // the new version is in, the mark still set
    | Failing   // the swap has given up, the mark lifted
    | Ended     // state published and claim deregistered, in one step
    | Closed    // done is closed
    | Gone      // the wait group's slot is released

  datatype Claim = Claim(key: Key, kind: Kind, pc: ClaimPc, closes: nat)

  datatype DeletePc =
    | Marking   // waiting for the download in flight
    | Alone     // nothing in flight
    | Unlisting // no server left, the record still there
    | Removing  // the record gone, the folder going
    | Over

  datatype Deletion = Deletion(key: Key, waits: Option<nat>, pc: DeletePc)

  /** How far a load has got under the pool's lock. */
  datatype Stage = Begun | NotDeleting | MayLaunch

  datatype Load = Load(key: Key, stage: Stage)

  datatype CancelPc =
    | Looked    // no download in flight when it looked
    | Found     // and then the record said downloading
    | Done

  /** A CancelDownload that found none in flight. */
  datatype Cancelling = Cancelling(key: Key, pc: CancelPc)

  datatype State = State(
    downloads: map<Key, nat>,
    deleting: set<Key>,
    swapping: set<Key>,
    records: map<Key, Record>,
    closed: bool,
    slots: int,
    claims: seq<Claim>,
    deletions: seq<Deletion>,
    cancels: seq<Cancelling>,
    loading: Option<Load>,
    resident: set<Key>,
    waited: bool)

  /** ReconcileInterrupted: at a start no download is in flight. */
  function Reconciled(listed: map<Key, Record>): map<Key, Record> {
    map k | k in listed :: if listed[k].Downloading? then Failed else listed[k]
  }

  function Initial(resident: set<Key>, listed: map<Key, Record>): State {
    State(map[], {}, {}, Reconciled(listed), false, 0, [], [], [], None, resident, false)
  }

  /** What a claim's own goroutine may do next. */
  datatype ClaimMove =
    | ReadRecord | WriteRecord(saved: bool) | HandOff | Mark | StopServer | MoveAside | PutBack | MoveIn | GiveUp
    | Finish(good: bool) | FinishAgain | CloseDone | ReleaseSlot

  datatype DeleteMove = DownloadStopped | Refused | StopForDelete | Unlist(written: bool) | Removed

  datatype CancelMove = ReadIt | WriteIt

  datatype LoadMove = AskDeleting | AskSwapping | Refuse | Launch

  /**
    Every action is one hold of a lock, or one operation on disk between holds;
    a run interleaves the actions of any number of goroutines in any order. The
    pool's own lock is held from LoadBegin to the launch or the refusal, and the
    two marks are asked under it one after the other. The index of models is
    another lock's: a read or a write of a model's record is an action of its
    own, unless it is made in a hold of the downloads lock.
  */
  datatype Action =
    | Register(key: Key, restore: bool)
    | ByClaim(id: nat, claimMove: ClaimMove)
    | MarkDeleting(key: Key)
    | ByDelete(d: nat, deleteMove: DeleteMove)
    | Cancel(key: Key)
    | ByCancel(x: nat, cancelMove: CancelMove)
    | LoadBegin(key: Key)
    | ByLoad(loadMove: LoadMove)
    | Unload(key: Key)
    | CloseApp
    | CloseReturns

  /** A claim the downloads map still names. */
  predicate Registered(pc: ClaimPc) {
    !pc.Ended? && !pc.Closed? && !pc.Gone?
  }

  /** A swap that has stopped the model's server and may rename its folder. */
  predicate Renaming(pc: ClaimPc) {
    pc.Stopped? || pc.OldAside? || pc.InPlace?
  }

  /** A first download that has written its record and not yet its last. */
  predicate Fetching(c: Claim) {
    c.kind.First? && (c.pc.Recorded? || c.pc.Unsaved? || c.pc.Working?)
  }

  /** A delete past the stop of the model's server. */
  predicate Sole(pc: DeletePc) {
    pc.Unlisting? || pc.Removing?
  }

  /** A claim under which the swapping mark is set. */
  predicate Swapping(pc: ClaimPc) {
    pc.Marked? || Renaming(pc)
  }

  function Go(s: State, id: nat, pc: ClaimPc): State
    requires id < |s.claims|
  {
    s.(claims := s.claims[id := s.claims[id].(pc := pc)])
  }

  /** finishDownload's deregistration: only the claim it was called for. */
  function Without(s: State, id: nat): map<Key, nat>
    requires id < |s.claims|
  {
    var k := s.claims[id].key;
    if k in s.downloads && s.downloads[k] == id then s.downloads - {k} else s.downloads
  }

  predicate Says(s: State, k: Key, r: Record) {
    k in s.records && s.records[k] == r
  }

  /** What a download is, by the record it reads once it is registered. */
  function KindOf(s: State, k: Key): Kind {
    if Says(s, k, Ready) then Update else First
  }

  /** SetState to failed, which a model with no record has no use for. */
  function SetFailed(records: map<Key, Record>, k: Key): map<Key, Record> {
    if k in records then records[k := Failed] else records
  }

  /** The records once finishDownload has published, in the hold that deregisters. */
  function Publish(records: map<Key, Record>, c: Claim, good: bool): map<Key, Record> {
    if c.pc.InPlace? || (c.kind.First? && c.pc.Working? && good) then records[c.key := Ready]
    else if c.kind.First? && c.pc.Working? then SetFailed(records, c.key)
    else records
  }

  predicate MayFinish(pc: ClaimPc) {
    pc.Unsaved? || pc.Working? || pc.InPlace? || pc.Failing?
  }

  /** finishDownload: one hold of the lock. */
  function FinishStep(s: State, id: nat, good: bool): State
    requires id < |s.claims|
  {
    var c := s.claims[id];
    s.(records := Publish(s.records, c, good), downloads := Without(s, id),
       swapping := if c.pc.InPlace? then s.swapping - {c.key} else s.swapping,
       claims := s.claims[id := c.(pc := Ended)])
  }

  function GoDelete(s: State, d: nat, pc: DeletePc): State
    requires d < |s.deletions|
  {
    s.(deletions := s.deletions[d := s.deletions[d].(pc := pc)])
  }

  predicate DoneClosed(s: State, id: nat) {
    id < |s.claims| && s.claims[id].closes > 0
  }

  /** A move of claim id; one that is not enabled changes nothing. */
  function ClaimStep(s: State, id: nat, m: ClaimMove): State
    requires id < |s.claims|
  {
    var c := s.claims[id];
    match m
    case ReadRecord =>
      if c.pc.Claimed? && c.kind.Unread?
      then s.(claims := s.claims[id := c.(kind := KindOf(s, c.key), pc := Known)]) else s
    case WriteRecord(saved) =>
      if c.pc.Known? && c.kind.First?
      then Go(s.(records := s.records[c.key := Downloading]), id, if saved then Recorded else Unsaved) else s
    case HandOff =>
      if c.pc.Recorded? || (c.pc.Known? && c.kind.Update?) || (c.pc.Claimed? && c.kind.Restore?)
      then Go(s, id, Working) else s
    case Mark =>
      if c.pc.Working? && !c.kind.First? then Go(s.(swapping := s.swapping + {c.key}), id, Marked) else s
    case StopServer =>
      if c.pc.Marked? && s.loading.None? then Go(s.(resident := s.resident - {c.key}), id, Stopped) else s
    case MoveAside => if c.pc.Stopped? then Go(s, id, OldAside) else s
    case PutBack => if c.pc.OldAside? || c.pc.InPlace? then Go(s, id, Stopped) else s
    case MoveIn => if c.pc.OldAside? then Go(s, id, InPlace) else s
    case GiveUp =>
      if Swapping(c.pc) then Go(s.(swapping := s.swapping - {c.key}), id, Failing) else s
    case Finish(good) => if MayFinish(c.pc) then FinishStep(s, id, good) else s
    case FinishAgain => if c.pc.Ended? then s.(downloads := Without(s, id)) else s
    case CloseDone =>
      if c.pc.Ended? then s.(claims := s.claims[id := c.(pc := Closed, closes := c.closes + 1)]) else s
    case ReleaseSlot => if c.pc.Closed? then Go(s.(slots := s.slots - 1), id, Gone) else s
  }

  function DeleteStep(s: State, d: nat, m: DeleteMove): State
    requires d < |s.deletions|
  {
    var x := s.deletions[d];
    match m
    case DownloadStopped =>
      if x.pc.Marking? && (x.waits.Some? ==> DoneClosed(s, x.waits.value)) then GoDelete(s, d, Alone) else s
    case Refused =>
      if x.pc.Alone? then GoDelete(s.(deleting := s.deleting - {x.key}), d, Over) else s
    case StopForDelete =>
      if x.pc.Alone? && s.loading.None? then GoDelete(s.(resident := s.resident - {x.key}), d, Unlisting) else s
    case Unlist(written) =>
      if !x.pc.Unlisting? then s else
      var t := s.(records := s.records - {x.key});
      if x.key in s.records && written then GoDelete(t, d, Removing)
      else GoDelete(t.(deleting := s.deleting - {x.key}), d, Over)
    case Removed =>
      if x.pc.Removing? then GoDelete(s.(deleting := s.deleting - {x.key}), d, Over) else s
  }

  /** CancelDownload past its look at the map: a read of the record and a write of it. */
  function CancelStep(s: State, x: nat, m: CancelMove): State
    requires x < |s.cancels|
  {
    var c := s.cancels[x];
    match m
    case ReadIt =>
      if !c.pc.Looked? then s else
      s.(cancels := s.cancels[x := c.(pc := if Says(s, c.key, Downloading) then Found else Done)])
    case WriteIt =>
      if !c.pc.Found? then s else
      s.(records := SetFailed(s.records, c.key), cancels := s.cancels[x := c.(pc := Done)])
  }

  /** A load, under the pool's lock from beginning to end. */
  function LoadStep(s: State, l: Load, m: LoadMove): State {
    match m
    case AskDeleting =>
      if !l.stage.Begun? then s else
      s.(loading := if l.key in s.deleting then None else Some(Load(l.key, NotDeleting)))
    case AskSwapping =>
      if !l.stage.NotDeleting? then s else
      s.(loading := if l.key in s.swapping then None else Some(Load(l.key, MayLaunch)))
    case Launch =>
      if !l.stage.MayLaunch? then s else
      s.(resident := s.resident + {l.key}, loading := None)
    case Refuse => s.(loading := None)
  }

  /** startDownload's and restoreFallback's claim, under one hold of the lock. */
  function RegisterStep(s: State, k: Key, restore: bool): State {
    if !MayRegister(s, k) then s else
    s.(downloads := s.downloads[k := |s.claims|], slots := s.slots + 1,
       claims := s.claims + [Claim(k, if restore then Restore else Unread, Claimed, 0)])
  }

  predicate MayRegister(s: State, k: Key) {
    !s.closed && k !in s.deleting && k !in s.downloads
  }

  /** Delete's claim, which reads the download in flight in the same hold. */
  function MarkDeletingStep(s: State, k: Key): State {
    if k in s.deleting then s else
    var waits := if k in s.downloads then Some(s.downloads[k]) else None;
    s.(deleting := s.deleting + {k}, deletions := s.deletions + [Deletion(k, waits, Marking)])
  }

  /** One action of a run. */
  function Step(s: State, a: Action): State {
    match a
    case Register(k, restore) => RegisterStep(s, k, restore)
    case ByClaim(id, m) => if id < |s.claims| then ClaimStep(s, id, m) else s
    case MarkDeleting(k) => MarkDeletingStep(s, k)
    case ByDelete(d, m) => if d < |s.deletions| then DeleteStep(s, d, m) else s
    case Cancel(k) => if k in s.downloads then s else s.(cancels := s.cancels + [Cancelling(k, Looked)])
    case ByCancel(x, m) => if x < |s.cancels| then CancelStep(s, x, m) else s
    case LoadBegin(k) => if s.loading.None? then s.(loading := Some(Load(k, Begun))) else s
    case ByLoad(m) => if s.loading.Some? then LoadStep(s, s.loading.value, m) else s
    case Unload(k) => if s.loading.None? then s.(resident := s.resident - {k}) else s
    case CloseApp => s.(closed := true)
    case CloseReturns => if s.closed && s.slots == 0 then s.(waited := true) else s
  }

  function Run(s: State, actions: seq<Action>): State
    decreases |actions|
  {
    if actions == [] then s else Run(Step(s, actions[0]), actions[1..])
  }

  // ------------------------------------------------------------- invariant

  function Live(claims: seq<Claim>): set<nat> {
    set id | 0 <= id < |claims| && !claims[id].pc.Gone?
  }

  /** The maps and the claims' own places agree. */
  ghost predicate ClaimsOk(s: State) {
    && (forall k :: k in s.downloads ==>
          s.downloads[k] < |s.claims| && s.claims[s.downloads[k]].key == k && Registered(s.claims[s.downloads[k]].pc))
    && (forall id :: 0 <= id < |s.claims| && Registered(s.claims[id].pc) ==>
          s.claims[id].key in s.downloads && s.downloads[s.claims[id].key] == id)
    && (forall id :: 0 <= id < |s.claims| && Swapping(s.claims[id].pc) ==> s.claims[id].key in s.swapping)
    && (forall k :: k in s.swapping ==> k in s.downloads && Swapping(s.claims[s.downloads[k]].pc))
    && (forall id :: 0 <= id < |s.claims| ==>
          s.claims[id].closes == if s.claims[id].pc.Closed? || s.claims[id].pc.Gone? then 1 else 0)
  }

  /** A delete past its wait is alone with the model. */
  ghost predicate DeletionsOk(s: State) {
    && (forall d :: 0 <= d < |s.deletions| && !s.deletions[d].pc.Over? ==> s.deletions[d].key in s.deleting)
    && (forall d :: 0 <= d < |s.deletions| && s.deletions[d].pc.Marking? && s.deletions[d].key in s.downloads ==>
          s.deletions[d].waits == Some(s.downloads[s.deletions[d].key]))
    && (forall d :: 0 <= d < |s.deletions| && (s.deletions[d].pc.Alone? || Sole(s.deletions[d].pc)) ==>
          s.deletions[d].key !in s.downloads)
    && (forall d, e :: 0 <= d < e < |s.deletions| && !s.deletions[d].pc.Over? && !s.deletions[e].pc.Over? ==>
          s.deletions[d].key != s.deletions[e].key)
    && (forall d :: 0 <= d < |s.deletions| && s.deletions[d].waits.Some? ==> s.deletions[d].waits.value < |s.claims|)
  }

  /** Where a folder may be renamed or removed, no server is or can come to be. */
  ghost predicate ServersOk(s: State) {
    && (forall id :: 0 <= id < |s.claims| && Renaming(s.claims[id].pc) ==>
          s.claims[id].key !in s.resident && s.loading != Some(Load(s.claims[id].key, MayLaunch)))
    && (forall d :: 0 <= d < |s.deletions| && Sole(s.deletions[d].pc) ==>
          && s.deletions[d].key !in s.resident
          && (s.loading.Some? && s.loading.value.key == s.deletions[d].key ==> s.loading.value.stage.Begun?))
  }

  ghost predicate CloseOk(s: State) {
    && s.slots == |Live(s.claims)|
    && (s.waited ==> s.closed && s.slots == 0)
  }

  /** A claim is where its kind can be. */
  predicate Placed(c: Claim) {
    && (c.kind.Unread? ==> c.pc.Claimed? || !Registered(c.pc))
    && (c.kind.First? && Registered(c.pc) ==> c.pc.Known? || Fetching(c))
    && (c.pc.Claimed? ==> c.kind.Unread? || c.kind.Restore?)
    && (c.pc.Known? ==> c.kind.First? || c.kind.Update?)
    && (c.pc.Recorded? || c.pc.Unsaved? ==> c.kind.First?)
  }

  /** And a first download's model has a record from its first write to its last. */
  ghost predicate RecordOk(s: State) {
    forall id :: 0 <= id < |s.claims| ==>
      Placed(s.claims[id]) && (Fetching(s.claims[id]) ==> s.claims[id].key in s.records)
  }

  ghost predicate Inv(s: State) {
    ClaimsOk(s) && DeletionsOk(s) && ServersOk(s) && CloseOk(s) && RecordOk(s)
  }

  /** A move that neither registers, deregisters, marks nor unmarks. */
  lemma ClaimsOkInside(s: State, t: State, id: nat, c: Claim)
    requires ClaimsOk(s) && id < |s.claims| && t.claims == s.claims[id := c]
    requires t.downloads == s.downloads && t.swapping == s.swapping
    requires c.key == s.claims[id].key
    requires Registered(c.pc) == Registered(s.claims[id].pc) && Swapping(c.pc) == Swapping(s.claims[id].pc)
    requires c.closes == if c.pc.Closed? || c.pc.Gone? then 1 else 0
    ensures ClaimsOk(t)
  {
  }

  lemma ClaimsOkMarked(s: State, t: State, id: nat, c: Claim)
    requires ClaimsOk(s) && id < |s.claims| && t.claims == s.claims[id := c]
    requires t.downloads == s.downloads && c.key == s.claims[id].key && c.closes == s.claims[id].closes
    requires Registered(s.claims[id].pc) && Registered(c.pc)
    requires t.swapping == if Swapping(c.pc) then s.swapping + {c.key} else s.swapping - {c.key}
    ensures ClaimsOk(t)
  {
  }

  lemma ClaimsOkFinished(s: State, t: State, id: nat, c: Claim)
    requires ClaimsOk(s) && id < |s.claims| && t.claims == s.claims[id := c]
    requires Registered(s.claims[id].pc) && c == s.claims[id].(pc := Ended)
    requires t.downloads == s.downloads - {c.key}
    requires t.swapping == s.swapping - {c.key}
    ensures ClaimsOk(t)
  {
  }

  lemma ClaimFacts(s: State, id: nat)
    requires ClaimsOk(s) && id < |s.claims|
    ensures var c := s.claims[id];
            && (c.key in s.downloads && s.downloads[c.key] == id <==> Registered(c.pc))
            && (Registered(c.pc) ==> (c.key in s.swapping <==> Swapping(c.pc)))
            && c.closes == if c.pc.Closed? || c.pc.Gone? then 1 else 0
  {
  }

  lemma FinishMoves(s: State, id: nat, good: bool)
    requires id < |s.claims|
    ensures var c, t := s.claims[id], FinishStep(s, id, good);
            && |t.claims| == |s.claims| && t.claims == s.claims[id := c.(pc := Ended)]
            && t.deletions == s.deletions && t.deleting == s.deleting && t.slots == s.slots
            && t.loading == s.loading && t.resident == s.resident && t.waited == s.waited && t.closed == s.closed
            && t.downloads == (if c.key in s.downloads && s.downloads[c.key] == id
                               then s.downloads - {c.key} else s.downloads)
            && t.swapping == (if c.pc.InPlace? then s.swapping - {c.key} else s.swapping)
            && s.records.Keys <= t.records.Keys
  {
  }

  lemma NamedFacts(s: State, k: Key)
    requires ClaimsOk(s)
    ensures k in s.downloads ==>
              s.downloads[k] < |s.claims| && var c := s.claims[s.downloads[k]];
              c.key == k && Registered(c.pc) && c.closes == 0
  {
  }

  lemma ClaimsOkFinishing(s: State, id: nat, m: ClaimMove)
    requires ClaimsOk(s) && id < |s.claims| && m.Finish? && ClaimStep(s, id, m) != s
    ensures ClaimsOk(ClaimStep(s, id, m))
  {
    hide ClaimsOk;
    ClaimFacts(s, id);
    var c, t := s.claims[id], ClaimStep(s, id, m);
    FinishMoves(s, id, m.good);
    hide FinishStep;
    assert c.pc.InPlace? || s.swapping - {c.key} == s.swapping;
    ClaimsOkFinished(s, t, id, t.claims[id]);
  }

  predicate Quiet(m: ClaimMove) {
    !m.Mark? && !m.GiveUp? && !m.Finish? && !m.FinishAgain?
  }

  lemma ClaimsOkQuietly(s: State, id: nat, m: ClaimMove)
    requires ClaimsOk(s) && id < |s.claims| && Quiet(m) && ClaimStep(s, id, m) != s
    ensures ClaimsOk(ClaimStep(s, id, m))
  {
    hide ClaimsOk;
    ClaimFacts(s, id);
    QuietMove(s, id, m);
    var t := ClaimStep(s, id, m);
    hide ClaimStep;
    ClaimsOkInside(s, t, id, t.claims[id]);
  }

  lemma QuietMove(s: State, id: nat, m: ClaimMove)
    requires id < |s.claims| && Quiet(m) && ClaimStep(s, id, m) != s
    requires s.claims[id].closes == if s.claims[id].pc.Closed? || s.claims[id].pc.Gone? then 1 else 0
    ensures var t := ClaimStep(s, id, m);
            && |t.claims| == |s.claims| && t.claims == s.claims[id := t.claims[id]]
            && t.downloads == s.downloads && t.swapping == s.swapping
            && var b, c := s.claims[id], t.claims[id];
            && c.key == b.key && Registered(c.pc) == Registered(b.pc) && Swapping(c.pc) == Swapping(b.pc)
            && c.closes == if c.pc.Closed? || c.pc.Gone? then 1 else 0
  {
  }

  lemma ClaimsOkByClaim(s: State, id: nat, m: ClaimMove)
    requires ClaimsOk(s) && id < |s.claims|
    ensures ClaimsOk(ClaimStep(s, id, m))
  {
    hide ClaimsOk;
    ClaimFacts(s, id);
    var t := ClaimStep(s, id, m);
    if t != s {
      match m
      case Mark => ClaimsOkMarked(s, t, id, t.claims[id]);
      case GiveUp => ClaimsOkMarked(s, t, id, t.claims[id]);
      case Finish(_) => ClaimsOkFinishing(s, id, m);
      case FinishAgain => assert false;
      case _ => ClaimsOkQuietly(s, id, m);
    }
  }

  lemma RecordOkChanged(s: State, t: State, id: nat)
    requires RecordOk(s) && id < |s.claims| == |t.claims| && t.claims == s.claims[id := t.claims[id]]
    requires Placed(t.claims[id]) && (Fetching(t.claims[id]) ==> t.claims[id].key in t.records)
    requires s.records.Keys <= t.records.Keys
    ensures RecordOk(t)
  {
  }

  lemma RecordMove(s: State, id: nat, m: ClaimMove)
    requires id < |s.claims| == |ClaimStep(s, id, m).claims|
    requires Placed(s.claims[id]) && (Fetching(s.claims[id]) ==> s.claims[id].key in s.records)
    ensures var t := ClaimStep(s, id, m);
            && Placed(t.claims[id]) && (Fetching(t.claims[id]) ==> t.claims[id].key in t.records)
            && s.records.Keys <= t.records.Keys
  {
    hide FinishStep;
    if m.Finish? {
      FinishMoves(s, id, m.good);
    }
  }

  lemma RecordOkByClaim(s: State, id: nat, m: ClaimMove)
    requires RecordOk(s) && id < |s.claims|
    ensures RecordOk(ClaimStep(s, id, m))
  {
    hide RecordOk, ClaimStep;
    RecordFacts(s, id);
    ClaimStepMoves(s, id, m);
    RecordMove(s, id, m);
    RecordOkChanged(s, ClaimStep(s, id, m), id);
  }

  lemma RecordFacts(s: State, id: nat)
    requires RecordOk(s) && id < |s.claims|
    ensures Placed(s.claims[id]) && (Fetching(s.claims[id]) ==> s.claims[id].key in s.records)
  {
  }

  /** A delete that unlists a model finds no download of it. */
  lemma RecordOkByDelete(s: State, d: nat, m: DeleteMove)
    requires ClaimsOk(s) && DeletionsOk(s) && RecordOk(s) && d < |s.deletions|
    ensures RecordOk(DeleteStep(s, d, m))
  {
    hide DeletionsOk;
    var k, t := s.deletions[d].key, DeleteStep(s, d, m);
    DeleteFacts(s, d);
    forall id | 0 <= id < |t.claims| && Fetching(t.claims[id]) ensures t.claims[id].key in t.records {
      assert Registered(s.claims[id].pc);
    }
  }

  lemma DeleteFacts(s: State, d: nat)
    requires DeletionsOk(s) && d < |s.deletions|
    ensures var x := s.deletions[d];
            && (x.pc.Alone? || Sole(x.pc) ==> x.key !in s.downloads)
            && (x.pc.Marking? && x.key in s.downloads ==> x.waits == Some(s.downloads[x.key]))
            && (x.waits.Some? ==> x.waits.value < |s.claims|)
  {
  }

  lemma DeletionsOkFewer(s: State, t: State)
    requires DeletionsOk(s) && t.deletions == s.deletions && t.deleting == s.deleting && |t.claims| == |s.claims|
    requires forall k :: k in t.downloads ==> k in s.downloads && t.downloads[k] == s.downloads[k]
    ensures DeletionsOk(t)
  {
  }

  lemma DeletionsOkByClaim(s: State, id: nat, m: ClaimMove)
    requires DeletionsOk(s) && id < |s.claims|
    ensures DeletionsOk(ClaimStep(s, id, m))
  {
    hide DeletionsOk, ClaimStep;
    ClaimStepMoves(s, id, m);
    ClaimStepKeeps(s, id, m);
    DeletionsOkFewer(s, ClaimStep(s, id, m));
  }

  lemma ServersOkInside(s: State, t: State, id: nat)
    requires ServersOk(s) && id < |s.claims| == |t.claims| && t.claims == s.claims[id := t.claims[id]]
    requires t.deletions == s.deletions && t.loading == s.loading && t.resident <= s.resident
    requires t.claims[id].key == s.claims[id].key
    requires Renaming(t.claims[id].pc) && !Renaming(s.claims[id].pc) ==>
               t.claims[id].key !in t.resident && t.loading.None?
    ensures ServersOk(t)
  {
  }

  lemma ClaimStepMoves(s: State, id: nat, m: ClaimMove)
    requires id < |s.claims|
    ensures var t := ClaimStep(s, id, m);
            |t.claims| == |s.claims| && t.claims == s.claims[id := t.claims[id]] && t.claims[id].key == s.claims[id].key
  {
    hide Registered, Renaming, Swapping, FinishStep;
    assert s.claims[id := s.claims[id]] == s.claims;
    if m.Finish? {
      FinishMoves(s, id, m.good);
    }
  }

  lemma ClaimStepKeeps(s: State, id: nat, m: ClaimMove)
    requires id < |s.claims|
    ensures var t := ClaimStep(s, id, m);
            && t.deletions == s.deletions && t.deleting == s.deleting
            && t.loading == s.loading && t.resident <= s.resident
            && forall k :: k in t.downloads ==> k in s.downloads && t.downloads[k] == s.downloads[k]
  {
    hide Registered, Renaming, Swapping, FinishStep;
    if m.Finish? {
      FinishMoves(s, id, m.good);
    }
  }

  lemma RenamingBegins(s: State, id: nat, m: ClaimMove)
    requires id < |s.claims| == |ClaimStep(s, id, m).claims|
    requires Renaming(ClaimStep(s, id, m).claims[id].pc) && !Renaming(s.claims[id].pc)
    ensures ClaimStep(s, id, m).claims[id].key !in ClaimStep(s, id, m).resident && s.loading.None?
  {
    assert m.StopServer?;
  }

  lemma ServersOkByClaim(s: State, id: nat, m: ClaimMove)
    requires ClaimsOk(s) && ServersOk(s) && id < |s.claims|
    ensures ServersOk(ClaimStep(s, id, m))
  {
    hide ClaimsOk, ServersOk, ClaimStep;
    ClaimStepMoves(s, id, m);
    ClaimStepKeeps(s, id, m);
    if Renaming(ClaimStep(s, id, m).claims[id].pc) && !Renaming(s.claims[id].pc) {
      RenamingBegins(s, id, m);
    }
    ServersOkInside(s, ClaimStep(s, id, m), id);
  }

  lemma LiveMoved(claims: seq<Claim>, id: nat, c: Claim)
    requires id < |claims|
    ensures |Live(claims[id := c])| ==
            |Live(claims)| + (if c.pc.Gone? then 0 else 1) - (if claims[id].pc.Gone? then 0 else 1)
  {
    var others := Live(claims) - {id};
    assert Live(claims[id := c]) == if c.pc.Gone? then others else others + {id};
    assert Live(claims) == if claims[id].pc.Gone? then others else others + {id};
  }

  lemma SlotsMove(s: State, id: nat, m: ClaimMove)
    requires id < |s.claims| == |ClaimStep(s, id, m).claims|
    ensures var t := ClaimStep(s, id, m);
            && t.slots == s.slots - (if t.claims[id].pc.Gone? && !s.claims[id].pc.Gone? then 1 else 0)
            && (s.claims[id].pc.Gone? ==> t.claims[id].pc.Gone?) && t.waited == s.waited && t.closed == s.closed
  {
    hide FinishStep;
    if m.Finish? {
      FinishMoves(s, id, m.good);
    }
  }

  lemma CloseOkByClaim(s: State, id: nat, m: ClaimMove)
    requires CloseOk(s) && id < |s.claims|
    ensures CloseOk(ClaimStep(s, id, m))
  {
    hide Live, ClaimStep;
    var t := ClaimStep(s, id, m);
    ClaimStepMoves(s, id, m);
    SlotsMove(s, id, m);
    LiveMoved(s.claims, id, t.claims[id]);
    LiveMoved(t.claims, id, s.claims[id]);
  }

  lemma DeletionsOkByDelete(s: State, d: nat, m: DeleteMove)
    requires ClaimsOk(s) && DeletionsOk(s) && d < |s.deletions|
    ensures DeletionsOk(DeleteStep(s, d, m))
  {
    hide ClaimsOk, DeletionsOk;
    var t := DeleteStep(s, d, m);
    if t != s {
      DeleteMoves(s, d, m);
      DeletionsOkMoved(s, t, d, t.deletions[d]);
    }
  }

  lemma DeletionsOkMoved(s: State, t: State, d: nat, x: Deletion)
    requires DeletionsOk(s) && d < |s.deletions| && t.deletions == s.deletions[d := x]
    requires t.downloads == s.downloads && t.claims == s.claims
    requires x == s.deletions[d].(pc := x.pc) && !s.deletions[d].pc.Over? && !x.pc.Marking?
    requires t.deleting == if x.pc.Over? then s.deleting - {x.key} else s.deleting
    requires x.pc.Alone? || Sole(x.pc) ==> x.key !in s.downloads
    ensures DeletionsOk(t)
  {
  }

  /** A delete that moves, and what it waited for no longer in flight. */
  lemma DeleteMoves(s: State, d: nat, m: DeleteMove)
    requires ClaimsOk(s) && DeletionsOk(s) && d < |s.deletions| && DeleteStep(s, d, m) != s
    ensures var t := DeleteStep(s, d, m);
            && |t.deletions| == |s.deletions| && t.deletions == s.deletions[d := t.deletions[d]]
            && t.downloads == s.downloads && t.claims == s.claims
            && var x := t.deletions[d];
            && x == s.deletions[d].(pc := x.pc) && !s.deletions[d].pc.Over? && !x.pc.Marking?
            && t.deleting == (if x.pc.Over? then s.deleting - {x.key} else s.deleting)
            && (x.pc.Alone? || Sole(x.pc) ==> x.key !in s.downloads)
  {
    hide ClaimsOk, DeletionsOk;
    DeleteFacts(s, d);
    NamedFacts(s, s.deletions[d].key);
  }

  lemma ServersOkByDelete(s: State, d: nat, m: DeleteMove)
    requires ServersOk(s) && d < |s.deletions|
    ensures ServersOk(DeleteStep(s, d, m))
  {
  }

  lemma RestByDelete(s: State, d: nat, m: DeleteMove)
    requires ClaimsOk(s) && CloseOk(s) && d < |s.deletions|
    ensures ClaimsOk(DeleteStep(s, d, m)) && CloseOk(DeleteStep(s, d, m))
  {
    hide Live;
  }

  lemma InvByCancel(s: State, x: nat, m: CancelMove)
    requires Inv(s) && x < |s.cancels|
    ensures Inv(CancelStep(s, x, m))
  {
    hide Live;
  }

  lemma InvByDelete(s: State, d: nat, m: DeleteMove)
    requires Inv(s) && d < |s.deletions|
    ensures Inv(DeleteStep(s, d, m))
  {
    hide ClaimsOk, DeletionsOk, ServersOk, CloseOk, RecordOk, DeleteStep;
    DeletionsOkByDelete(s, d, m);
    ServersOkByDelete(s, d, m);
    RecordOkByDelete(s, d, m);
    RestByDelete(s, d, m);
  }

  lemma InvByLoad(s: State, l: Load, m: LoadMove)
    requires Inv(s) && s.loading == Some(l)
    ensures Inv(LoadStep(s, l, m))
  {
    hide ClaimsOk, DeletionsOk, ServersOk, CloseOk, RecordOk, LoadStep;
    RestByLoad(s, l, m);
    ServersOkByLoad(s, l, m);
  }

  lemma RestByLoad(s: State, l: Load, m: LoadMove)
    requires ClaimsOk(s) && DeletionsOk(s) && CloseOk(s) && RecordOk(s)
    ensures var t := LoadStep(s, l, m); ClaimsOk(t) && DeletionsOk(t) && CloseOk(t) && RecordOk(t)
  {
    var t := LoadStep(s, l, m);
    assert t == s.(loading := t.loading, resident := t.resident);
    hide LoadStep, Live;
  }

  lemma ServersOkByLoad(s: State, l: Load, m: LoadMove)
    requires ClaimsOk(s) && DeletionsOk(s) && ServersOk(s) && s.loading == Some(l)
    ensures ServersOk(LoadStep(s, l, m))
  {
  }

  lemma ClaimsOkRegister(s: State, k: Key, restore: bool)
    requires ClaimsOk(s)
    ensures ClaimsOk(RegisterStep(s, k, restore))
  {
    assert k !in s.downloads ==> k !in s.swapping;
  }

  lemma RecordOkRegister(s: State, k: Key, restore: bool)
    requires RecordOk(s)
    ensures RecordOk(RegisterStep(s, k, restore))
  {
  }

  lemma CloseOkRegister(s: State, k: Key, restore: bool)
    requires CloseOk(s)
    ensures CloseOk(RegisterStep(s, k, restore))
  {
    var t := RegisterStep(s, k, restore);
    if t != s {
      assert Live(t.claims) == Live(s.claims) + {|s.claims|};
    }
  }

  lemma DeletionsOkRegister(s: State, k: Key, restore: bool)
    requires DeletionsOk(s) && ServersOk(s)
    ensures DeletionsOk(RegisterStep(s, k, restore)) && ServersOk(RegisterStep(s, k, restore))
  {
  }

  lemma InvRegister(s: State, k: Key, restore: bool)
    requires Inv(s)
    ensures Inv(RegisterStep(s, k, restore))
  {
    hide ClaimsOk, DeletionsOk, ServersOk, CloseOk, RecordOk, RegisterStep;
    ClaimsOkRegister(s, k, restore);
    RecordOkRegister(s, k, restore);
    CloseOkRegister(s, k, restore);
    DeletionsOkRegister(s, k, restore);
  }

  lemma InvMarkDeleting(s: State, k: Key)
    requires Inv(s)
    ensures Inv(MarkDeletingStep(s, k))
  {
    hide RecordOk, Live;
    assert RecordOk(MarkDeletingStep(s, k)) by {
      RecordOkElsewhere(s, MarkDeletingStep(s, k));
    }
  }

  lemma RecordOkElsewhere(s: State, t: State)
    requires RecordOk(s) && t.claims == s.claims && t.records == s.records
    ensures RecordOk(t)
  {
  }

  lemma InvByClaim(s: State, id: nat, m: ClaimMove)
    requires Inv(s) && id < |s.claims|
    ensures Inv(ClaimStep(s, id, m))
  {
    hide ClaimStep, ClaimsOk, DeletionsOk, ServersOk, CloseOk, RecordOk;
    ClaimsOkByClaim(s, id, m);
    RecordOkByClaim(s, id, m);
    DeletionsOkByClaim(s, id, m);
    ServersOkByClaim(s, id, m);
    CloseOkByClaim(s, id, m);
  }

  lemma InvOtherwise(s: State, a: Action)
    requires Inv(s) && (a.Cancel? || a.LoadBegin? || a.Unload? || a.CloseApp? || a.CloseReturns?)
    ensures Inv(Step(s, a))
  {
    match a
    case LoadBegin(_) => InvLoads(s, Step(s, a));
    case Unload(_) => InvLoads(s, Step(s, a));
    case _ => InvElsewhere(s, Step(s, a));
  }

  lemma InvElsewhere(s: State, t: State)
    requires Inv(s)
    requires t == s.(cancels := t.cancels, closed := t.closed, waited := t.waited)
    requires (s.closed ==> t.closed) && (t.waited ==> t.closed && t.slots == 0)
    ensures Inv(t)
  {
    hide Live;
  }

  lemma InvLoads(s: State, t: State)
    requires Inv(s)
    requires t == s.(loading := t.loading, resident := t.resident) && t.resident <= s.resident
    requires t.loading == s.loading || (t.loading.Some? && t.loading.value.stage.Begun?)
    ensures Inv(t)
  {
    hide Live;
  }

  lemma StepInv(s: State, a: Action)
    requires Inv(s)
    ensures Inv(Step(s, a))
  {
    hide Inv, ClaimStep, DeleteStep, CancelStep, LoadStep, RegisterStep, MarkDeletingStep;
    match a
    case Register(k, restore) => InvRegister(s, k, restore);
    case ByClaim(id, m) =>
      if id < |s.claims| {
        InvByClaim(s, id, m);
      }
    case MarkDeleting(k) => InvMarkDeleting(s, k);
    case ByDelete(d, m) =>
      if d < |s.deletions| {
        InvByDelete(s, d, m);
      }
    case ByCancel(x, m) =>
      if x < |s.cancels| {
        InvByCancel(s, x, m);
      }
    case ByLoad(m) =>
      if s.loading.Some? {
        InvByLoad(s, s.loading.value, m);
      }
    case _ => InvOtherwise(s, a);
  }

  lemma {:induction false} RunInv(s: State, actions: seq<Action>)
    requires Inv(s)
    ensures Inv(Run(s, actions))
    decreases |actions|
  {
    hide Inv, Step;
    if actions != [] {
      StepInv(s, actions[0]);
      RunInv(Step(s, actions[0]), actions[1..]);
    }
  }

  // ---------------------------------------------------------- main results

  /** The claims that write, rename or check their model's own folder. */
  predicate Touches(c: Claim) {
    Renaming(c.pc) || (c.pc.Working? && c.kind.First?)
  }

  /** A state some run of the program reaches. */
  ghost predicate Reached(s: State, resident: set<Key>, listed: map<Key, Record>, actions: seq<Action>) {
    s == Run(Initial(resident, listed), actions)
  }

  lemma ReachedInv(s: State, resident: set<Key>, listed: map<Key, Record>, actions: seq<Action>)
    requires Reached(s, resident, listed, actions)
    ensures Inv(s)
  {
    assert Live([]) == {};
    RunInv(Initial(resident, listed), actions);
  }

  /**
    Whoever touches a model's folder is alone with it: no other download,
    update or restore of the model is, no delete is removing it; and when a
    swap renames it no server is resident on it, nor has a load got past both
    marks.
  */
  lemma AFolderHasOneToucher(s: State, resident: set<Key>, listed: map<Key, Record>, actions: seq<Action>, id: nat)
    requires Reached(s, resident, listed, actions)
    requires id < |s.claims| && Touches(s.claims[id])
    ensures var k := s.claims[id].key;
            && (forall other :: 0 <= other < |s.claims| && other != id && Registered(s.claims[other].pc) ==>
                s.claims[other].key != k)
            && (forall d :: 0 <= d < |s.deletions| && Sole(s.deletions[d].pc) ==> s.deletions[d].key != k)
            && (Renaming(s.claims[id].pc) ==> k !in s.resident && s.loading != Some(Load(k, MayLaunch)))
  {
    ReachedInv(s, resident, listed, actions);
  }

  /** A delete that removes a folder is alone with it, and no server is on it. */
  lemma ADeleteIsAlone(s: State, resident: set<Key>, listed: map<Key, Record>, actions: seq<Action>, d: nat)
    requires Reached(s, resident, listed, actions)
    requires d < |s.deletions| && Sole(s.deletions[d].pc)
    ensures var k := s.deletions[d].key;
            && (forall id :: 0 <= id < |s.claims| && Registered(s.claims[id].pc) ==> s.claims[id].key != k)
            && (forall e :: 0 <= e < |s.deletions| && e != d && !s.deletions[e].pc.Over? ==> s.deletions[e].key != k)
            && k !in s.resident
            && (s.loading.Some? && s.loading.value.key == k ==> s.loading.value.stage.Begun?)
  {
    ReachedInv(s, resident, listed, actions);
  }

  /** The swapping mark stands only under a registered claim that is swapping. */
  lemma TheMarkHasAClaim(s: State, resident: set<Key>, listed: map<Key, Record>, actions: seq<Action>, k: Key)
    requires Reached(s, resident, listed, actions)
    ensures k in s.swapping <==>
            exists id :: 0 <= id < |s.claims| && s.claims[id].key == k && Swapping(s.claims[id].pc)
                         && k in s.downloads && s.downloads[k] == id
  {
    ReachedInv(s, resident, listed, actions);
    if k in s.swapping {
      var id := s.downloads[k];
      assert Swapping(s.claims[id].pc);
    }
  }

  /** Done is closed once and the slot released once, however a claim ends. */
  lemma EveryClaimClosesOnce(s: State, resident: set<Key>, listed: map<Key, Record>, actions: seq<Action>)
    requires Reached(s, resident, listed, actions)
    ensures forall id :: 0 <= id < |s.claims| ==> s.claims[id].closes <= 1
    ensures forall id :: 0 <= id < |s.claims| && s.claims[id].pc.Gone? ==> s.claims[id].closes == 1
    ensures s.slots == |Live(s.claims)|
  {
    ReachedInv(s, resident, listed, actions);
  }

  /** Deregistering a second time removes nothing, least of all a newer claim. */
  lemma DeregisteringTwiceIsOnce(s: State, resident: set<Key>, listed: map<Key, Record>, actions: seq<Action>, id: nat)
    requires Reached(s, resident, listed, actions)
    ensures Step(s, ByClaim(id, FinishAgain)) == s
  {
    ReachedInv(s, resident, listed, actions);
    if id < |s.claims| {
      ClaimFacts(s, id);
    }
  }

  /** A claim is in the map from its registration until it ends, and no longer. */
  lemma AClaimIsNamedUntilItEnds(s: State, resident: set<Key>, listed: map<Key, Record>, actions: seq<Action>, id: nat)
    requires Reached(s, resident, listed, actions) && id < |s.claims|
    ensures var c := s.claims[id];
            c.key in s.downloads && s.downloads[c.key] == id <==> Registered(c.pc)
  {
    ReachedInv(s, resident, listed, actions);
    ClaimFacts(s, id);
  }

  /**
    The way out a claim can always take, whatever else is running and whether
    or not its first write is saved. A move it is past changes nothing.
  */
  function WayOut(id: nat, saved: bool, good: bool): seq<Action> {
    ToWork(id, saved) + ([ByClaim(id, GiveUp), ByClaim(id, Finish(good))] + Leaving(id))
  }

  function ToWork(id: nat, saved: bool): seq<Action> {
    [ByClaim(id, ReadRecord), ByClaim(id, WriteRecord(saved)), ByClaim(id, HandOff)]
  }

  function Leaving(id: nat): seq<Action> {
    [ByClaim(id, CloseDone), ByClaim(id, ReleaseSlot)]
  }

  lemma OneMore(s: State, a: Action, rest: seq<Action>)
    ensures Run(s, [a] + rest) == Run(Step(s, a), rest)
  {
    assert ([a] + rest)[1..] == rest;
  }

  lemma {:induction false} RunAppends(s: State, first: seq<Action>, rest: seq<Action>)
    ensures Run(s, first + rest) == Run(Run(s, first), rest)
    decreases |first|
  {
    hide Step;
    if first == [] {
      assert first + rest == rest;
    } else {
      assert (first + rest)[1..] == first[1..] + rest;
      RunAppends(Step(s, first[0]), first[1..], rest);
    }
  }

  lemma RunTwo(s: State, a: Action, b: Action)
    ensures Run(s, [a, b]) == Step(Step(s, a), b)
  {
    hide Step;
    OneMore(s, a, [b]);
    OneMore(Step(s, a), b, []);
    assert [a] + [b] == [a, b] && [b] + [] == [b];
  }

  lemma RunThree(s: State, a: Action, b: Action, c: Action)
    ensures Run(s, [a, b, c]) == Step(Step(Step(s, a), b), c)
  {
    hide Step;
    OneMore(s, a, [b, c]);
    RunTwo(Step(s, a), b, c);
    assert [a] + [b, c] == [a, b, c];
  }

  /** Nothing but claim id and what it holds has changed. */
  predicate Alike(s: State, t: State, id: nat) {
    && |t.claims| == |s.claims|
    && forall other :: 0 <= other < |s.claims| && other != id ==> t.claims[other] == s.claims[other]
  }

  lemma MoveKeeps(s: State, id: nat, m: ClaimMove)
    requires Inv(s) && id < |s.claims|
    ensures var t := Step(s, ByClaim(id, m)); Inv(t) && Alike(s, t, id)
    ensures !m.ReleaseSlot? ==> Step(s, ByClaim(id, m)).slots == s.slots
  {
    StepInv(s, ByClaim(id, m));
    ClaimStepMoves(s, id, m);
  }

  predicate AtWork(pc: ClaimPc) {
    !pc.Claimed? && !pc.Known? && !pc.Recorded?
  }

  lemma GetsToWork(s: State, id: nat, saved: bool)
    requires Inv(s) && id < |s.claims|
    ensures var t := Run(s, ToWork(id, saved));
            Inv(t) && Alike(s, t, id) && t.slots == s.slots && AtWork(t.claims[id].pc)
            && (s.claims[id].pc.Gone? <==> t.claims[id].pc.Gone?)
  {
    hide Inv, Run, Step;
    var s1 := Step(s, ByClaim(id, ReadRecord));
    MoveKeeps(s, id, ReadRecord);
    var s2 := Step(s1, ByClaim(id, WriteRecord(saved)));
    MoveKeeps(s1, id, WriteRecord(saved));
    MoveKeeps(s2, id, HandOff);
    RunThree(s, ByClaim(id, ReadRecord), ByClaim(id, WriteRecord(saved)), ByClaim(id, HandOff));
    PlacedHere(s, id);
    PlacedHere(s1, id);
    PlacedHere(s2, id);
    Onward(s, id, saved);
    Onward(s1, id, saved);
    Onward(s2, id, saved);
  }

  lemma Onward(s: State, id: nat, saved: bool)
    requires id < |s.claims|
    ensures var b, c := s.claims[id], Step(s, ByClaim(id, ReadRecord)).claims[id];
            if b.pc.Claimed? && b.kind.Unread? then c.pc.Known? else c == b
    ensures var b, c := s.claims[id], Step(s, ByClaim(id, WriteRecord(saved))).claims[id];
            if b.pc.Known? && b.kind.First? then c == b.(pc := if saved then Recorded else Unsaved) else c == b
    ensures var b, c := s.claims[id], Step(s, ByClaim(id, HandOff)).claims[id];
            if b.pc.Recorded? || (b.pc.Known? && b.kind.Update?) || (b.pc.Claimed? && b.kind.Restore?)
            then c.pc.Working? else c == b
  {
  }

  lemma PlacedHere(s: State, id: nat)
    requires Inv(s) && id < |s.claims|
    ensures Placed(s.claims[id])
  {
  }

  lemma EndsItsWork(s: State, id: nat, good: bool)
    requires Inv(s) && id < |s.claims| && AtWork(s.claims[id].pc)
    ensures var t := Run(s, [ByClaim(id, GiveUp), ByClaim(id, Finish(good))]);
            Inv(t) && Alike(s, t, id) && t.slots == s.slots && !Registered(t.claims[id].pc)
            && (s.claims[id].pc.Gone? <==> t.claims[id].pc.Gone?)
  {
    hide Inv, Run, FinishStep;
    var t := Step(s, ByClaim(id, GiveUp));
    MoveKeeps(s, id, GiveUp);
    MoveKeeps(t, id, Finish(good));
    RunTwo(s, ByClaim(id, GiveUp), ByClaim(id, Finish(good)));
    FinishMoves(t, id, good);
  }

  lemma Leaves(s: State, id: nat)
    requires Inv(s) && id < |s.claims| && !Registered(s.claims[id].pc) && !s.claims[id].pc.Gone?
    ensures var t := Run(s, Leaving(id));
            Inv(t) && Alike(s, t, id) && t.slots == s.slots - 1 && t.claims[id].pc.Gone?
  {
    hide Inv, Run;
    MoveKeeps(s, id, CloseDone);
    MoveKeeps(Step(s, ByClaim(id, CloseDone)), id, ReleaseSlot);
    RunTwo(s, ByClaim(id, CloseDone), ByClaim(id, ReleaseSlot));
  }

  /**
    No claim waits on another: from every place it can be in, its own moves
    alone deregister it, close done, and release its slot. So a delete that
    waits on done, and a Close that waits on the slots, wait on nothing else.
  */
  lemma EveryClaimCanEnd(
      s: State, resident: set<Key>, listed: map<Key, Record>, actions: seq<Action>, id: nat, saved: bool, good: bool)
    requires Reached(s, resident, listed, actions) && id < |s.claims| && !s.claims[id].pc.Gone?
    ensures var t := Run(s, WayOut(id, saved, good));
            && |t.claims| == |s.claims| && t.claims[id].pc.Gone? && DoneClosed(t, id)
            && t.slots == s.slots - 1
            && (forall k :: k in t.downloads ==> t.downloads[k] != id)
            && (forall other :: 0 <= other < |s.claims| && other != id ==> t.claims[other] == s.claims[other])
  {
    hide Run, Inv;
    ReachedInv(s, resident, listed, actions);
    var end := [ByClaim(id, GiveUp), ByClaim(id, Finish(good))];
    RunAppends(s, ToWork(id, saved), end + Leaving(id));
    var s1 := Run(s, ToWork(id, saved));
    RunAppends(s1, end, Leaving(id));
    GetsToWork(s, id, saved);
    EndsItsWork(s1, id, good);
    Leaves(Run(s1, end), id);
    GoneHere(Run(s, WayOut(id, saved, good)), id);
  }

  lemma GoneHere(s: State, id: nat)
    requires Inv(s) && id < |s.claims| && s.claims[id].pc.Gone?
    ensures DoneClosed(s, id) && forall k :: k in s.downloads ==> s.downloads[k] != id
  {
  }

  /** Once Close's wait has returned, every claim is gone and none can come. */
  lemma {:induction false} AfterCloseNothingRuns(
      s: State, resident: set<Key>, listed: map<Key, Record>, actions: seq<Action>, more: seq<Action>)
    requires Reached(s, resident, listed, actions) && s.waited
    ensures forall id :: 0 <= id < |s.claims| ==> s.claims[id].pc.Gone?
    ensures Run(s, more).claims == s.claims
  {
    ReachedInv(s, resident, listed, actions);
    StaysClosed(s, more);
  }

  lemma {:induction false} StaysClosed(s: State, more: seq<Action>)
    requires Inv(s) && s.waited
    ensures forall id :: 0 <= id < |s.claims| ==> s.claims[id].pc.Gone?
    ensures Run(s, more).claims == s.claims
    decreases |more|
  {
    assert Live(s.claims) == {};
    forall id | 0 <= id < |s.claims| ensures s.claims[id].pc.Gone? {
      assert id !in Live(s.claims);
    }
    if more != [] {
      StepInv(s, more[0]);
      GoneStays(s, more[0]);
      StaysClosed(Step(s, more[0]), more[1..]);
    }
  }

  lemma GoneStays(s: State, a: Action)
    requires Inv(s) && s.waited
    requires forall id :: 0 <= id < |s.claims| ==> s.claims[id].pc.Gone?
    ensures Step(s, a).claims == s.claims && Step(s, a).waited
  {
    if a.ByClaim? && a.id < |s.claims| {
      ClaimFacts(s, a.id);
    }
  }
}
