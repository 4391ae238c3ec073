/**
  The context probe as the program runs it: a measurement's marks changed in
  place step by step, kept across pauses, and dropped when the settings they
  were taken under move (internal/contextprobe/probe.go).
*/
module ProbeJob {
  import opened Common
  import opened ContextProbe
  import opened ProbeQueue

  /** What a step comes to besides an answer; Goes is a step the server answers. */
  datatype Fate = Goes | Yields | Holds | Pins | Stops | Aborts

  /** What one request meets, and the settings in force when it is made. */
  datatype Met = Met(fate: Fate, under: Provenance)

  /** The server a model is under each settings. */
  type Servers = Provenance -> Server

  datatype Figure = Figure(repo: string, window: nat, bound: Bound, guard: nat, under: Provenance)

  datatype Ended = NotACandidate | NoAnswer | Paused(why: Fate) | Moved | Unsaved | Measured

  class Bounds {
    var lo: int
    var loTokens: nat
    var hi: int
    var bound: Bound
    var guard: nat
    var cpt: real
    var swept: bool
    const prov: Provenance

    constructor (ceiling: int, prov: Provenance)
      ensures View() == Fresh(ceiling) && this.prov == prov
    {
      lo, loTokens, hi, bound, guard, cpt, swept := 0, 0, ceiling, ServedWindow, 0, 0.0, false;
      this.prov := prov;
    }

    function View(): Marks
      reads this
    {
      Marks(lo, loTokens, hi, bound, guard, cpt, swept)
    }
  }

  /** Marks that an uninterrupted measurement from the start would also reach the end of. */
  ghost predicate OnTheWay(server: Server, floor: pos, ceiling: int, m: Marks) {
    Standing(m, floor) && Final(server, floor, m) == Final(server, floor, Fresh(ceiling))
  }

  function NextFate(script: seq<Met>): Fate {
    if script == [] then Goes else script[0].fate
  }

  /** The settings the next request is made under; past the script, those of the run. */
  function NextUnder(script: seq<Met>, prov: Provenance): Provenance {
    if script == [] then prov else script[0].under
  }

  function Rest(script: seq<Met>): seq<Met> {
    if script == [] then [] else script[1..]
  }

  predicate Uninterrupted(script: seq<Met>) {
    forall m :: m in script ==> m.fate == Goes
  }

  /** No setting moves while the requests are made. */
  predicate Steady(script: seq<Met>, prov: Provenance) {
    forall m :: m in script ==> m.under == prov
  }

  lemma RestPromises(script: seq<Met>, prov: Provenance)
    ensures Uninterrupted(script) ==> NextFate(script) == Goes && Uninterrupted(Rest(script))
    ensures Steady(script, prov) ==> NextUnder(script, prov) == prov && Steady(Rest(script), prov)
  {
    if script != [] {
      assert script[0] in script;
      assert forall m :: m in script[1..] ==> m in script;
    }
  }

  /** One request at a size, or what came instead. */
  method Ask(servers: Servers, b: Bounds, size: int, script: seq<Met>)
      returns (fate: Fate, reply: Reply, rest: seq<Met>)
    ensures fate == NextFate(script) && rest == Rest(script)
    ensures reply == servers(NextUnder(script, b.prov))(size, CharsAsked(b.cpt))
  {
    fate, rest := NextFate(script), Rest(script);
    reply := servers(NextUnder(script, b.prov))(size, if b.cpt <= 0.0 then 4.0 else b.cpt);
  }

  /** Whether Due may name a model: asked for by hand, or never measured and not given up. */
  predicate Eligible(id: string, byKey: map<string, Candidate>, ready: seq<string>, queued: bool) {
    var key := FoldRepoId(id);
    && key in byKey && key in ProbeQueue.Keys(ready) && byKey[key].declared > 0 && !byKey[key].pinned
    && (queued || (!byKey[key].incomplete && !byKey[key].measured))
  }

  predicate IsFirst(due: Option<string>, ids: seq<string>, byKey: map<string, Candidate>, ready: seq<string>,
                    queued: bool) {
    match due
    case None => forall i :: 0 <= i < |ids| ==> !Eligible(ids[i], byKey, ready, queued)
    case Some(repo) =>
      exists i :: 0 <= i < |ids| && Eligible(ids[i], byKey, ready, queued) && repo == byKey[FoldRepoId(ids[i])].repo
                  && forall j :: 0 <= j < i ==> !Eligible(ids[j], byKey, ready, queued)
  }

  lemma {:induction false} HoldsAt(ids: seq<string>, key: string)
    ensures ProbeQueue.Holds(ids, key) <==> exists i :: 0 <= i < |ids| && FoldRepoId(ids[i]) == key
    ensures forall i :: 0 <= i < |ids| ==> ProbeQueue.Holds(ids, FoldRepoId(ids[i]))
  {
    if ids != [] {
      HoldsAt(ids[1..], key);
      if ProbeQueue.Holds(ids[1..], key) {
        var i :| 0 <= i < |ids| - 1 && FoldRepoId(ids[1..][i]) == key;
        assert FoldRepoId(ids[i + 1]) == key;
      }
      forall i | 0 <= i < |ids| ensures ProbeQueue.Holds(ids, FoldRepoId(ids[i])) {
        if i > 0 {
          assert ids[i] == ids[1..][i - 1];
        }
      }
    }
  }

  /** The first of a list that is eligible, for a caller who sees only candidates. */
  lemma FirstIsDue(due: Option<string>, queue: seq<string>, byKey: map<string, Candidate>, ready: seq<string>,
                   enabled: bool)
    requires if IsFirst(None, queue, byKey, ready, true) then
               (if enabled then IsFirst(due, ready, byKey, ready, false) else due.None?)
             else IsFirst(due, queue, byKey, ready, true)
    ensures due.Some? ==>
              exists k :: k in byKey && byKey[k].repo == due.value && ProbeQueue.Holds(ready, k)
                          && byKey[k].declared > 0 && !byKey[k].pinned
                          && (ProbeQueue.Holds(queue, k) || (enabled && !byKey[k].incomplete && !byKey[k].measured))
    ensures due.None? ==>
              forall k :: k in byKey && ProbeQueue.Holds(ready, k) && byKey[k].declared > 0 && !byKey[k].pinned ==>
                !ProbeQueue.Holds(queue, k) && (enabled ==> byKey[k].incomplete || byKey[k].measured)
  {
    HoldsAt(queue, "");
    if due.None? {
      forall k | k in byKey && ProbeQueue.Holds(ready, k) && byKey[k].declared > 0 && !byKey[k].pinned
        ensures !ProbeQueue.Holds(queue, k) && (enabled ==> byKey[k].incomplete || byKey[k].measured)
      {
        HoldsAt(queue, k);
        HoldsAt(ready, k);
      }
    }
  }

  /** A step at size that the server answered took the marks m to n. */
  ghost predicate Sat(server: Server, floor: pos, m: Marks, size: int, n: Marks, answered: bool) {
    && Pending(Entered(m), floor) == Some(size)
    && Noted(Entered(m), floor, size, server(size, CharsAsked(Entered(m).cpt))) == if answered then Some(n) else None
  }

  lemma SatEndsTheSame(server: Server, floor: pos, m: Marks, size: int, n: Marks, answered: bool)
    requires Standing(m, floor) && Sat(server, floor, m, size, n, answered)
    ensures answered ==> Standing(n, floor) && Final(server, floor, n) == Final(server, floor, m)
    ensures answered && m.loTokens != 0 ==> Left(n) < Left(m) && n.loTokens != 0
    ensures !answered ==> Final(server, floor, m).None?
  {
    if answered {
      StepsShrink(server, floor, m);
    }
  }

  lemma EndsHere(server: Server, floor: pos, m: Marks)
    requires Standing(m, floor) && m.swept && Pending(m, floor).None?
    ensures Final(server, floor, m) == Some(m)
  {
  }

  lemma OneOut(entries: seq<string>, i: nat)
    requires 0 < i < |entries|
    ensures [entries[0]] + (entries[1..][..i - 1] + entries[1..][i..]) == entries[..i] + entries[i + 1..]
  {
    assert entries[1..][..i - 1] == entries[1..i] && entries[1..][i..] == entries[i + 1..];
    assert [entries[0]] + entries[1..i] == entries[..i];
  }

  lemma {:induction false} WithoutAt(entries: seq<string>, key: string, i: nat)
    requires i <= |entries| && forall k :: 0 <= k < i ==> FoldRepoId(entries[k]) != key
    requires i < |entries| ==> FoldRepoId(entries[i]) == key
    ensures ProbeQueue.Without(entries, key) == if i < |entries| then entries[..i] + entries[i + 1..] else entries
  {
    if i > 0 {
      var rest := entries[1..];
      assert forall k :: 0 <= k < i - 1 ==> rest[k] == entries[k + 1];
      WithoutAt(rest, key, i - 1);
      if i < |entries| {
        OneOut(entries, i);
      }
    }
  }

  lemma KeptSplits(kept: seq<string>, entries: seq<string>, byKey: map<string, Candidate>, i: nat)
    requires i < |entries|
    ensures kept + Kept(entries[i..], byKey) ==
            (if Measurable(byKey, entries[i]) then kept + [entries[i]] else kept) + Kept(entries[i + 1..], byKey)
  {
    var rest := Kept(entries[i + 1..], byKey);
    assert entries[i..][0] == entries[i] && entries[i..][1..] == entries[i + 1..];
    if Measurable(byKey, entries[i]) {
      assert Kept(entries[i..], byKey) == [entries[i]] + rest;
      assert kept + ([entries[i]] + rest) == kept + [entries[i]] + rest;
    }
  }

  /** Which ends keep the marks for another sitting. */
  predicate LeavesMarks(r: Ended, forgotten: bool) {
    r.Unsaved? || (r.Paused? && r.why != Aborts && !((r.why == Yields || r.why == Holds) && forgotten))
  }

  /** Which ends take the model out of the queue. */
  predicate LeavesQueue(r: Ended) {
    r.NotACandidate? || r.NoAnswer? || r.Unsaved? || r.Measured? || r == Paused(Aborts) || r == Paused(Pins)
  }

  /** Which ends mark the model incomplete, so that only Measure now starts it again. */
  predicate GivesUp(r: Ended) {
    r.NoAnswer? || r.Unsaved? || r == Paused(Aborts) || r == Paused(Stops)
  }

  /** A model that is not queued is not taken out again. */
  lemma DequeuedTwice(q: Queue, repo: string)
    requires Unique(q.entries)
    ensures Dequeued(Dequeued(q, repo), repo) == Dequeued(q, repo)
  {
    WithoutHas(q.entries, FoldRepoId(repo));
    WithoutNone(Dequeued(q, repo).entries, FoldRepoId(repo));
  }

  lemma {:induction false} WithoutNone(entries: seq<string>, key: string)
    requires !ProbeQueue.Holds(entries, key)
    ensures ProbeQueue.Without(entries, key) == entries
  {
    if entries != [] {
      WithoutNone(entries[1..], key);
    }
  }

  function Outcome(answered: bool, unmoved: bool, saves: bool): Ended {
    if !answered then NoAnswer else if !unmoved then Moved else if saves then Measured else Unsaved
  }

  class Probe {
    const floor: pos
    var queue: seq<string>
    var queueGen: nat
    var bounds: map<string, Bounds>
    var forgotten: set<string>
    var incomplete: set<string>
    var figures: seq<Figure>

    ghost predicate Valid()
      reads this, bounds.Values
    {
      && Unique(queue)
      && (forall k :: k in bounds ==> Standing(bounds[k].View(), floor))
      && (forall k, l :: k in bounds && l in bounds && k != l ==> bounds[k] != bounds[l])
    }

    function Queued(): Queue
      reads this
    {
      Queue(queue, queueGen)
    }

    constructor (floor: pos)
      ensures Valid() && fresh(this) && this.floor == floor
      ensures Queued() == Queue([], 0) && bounds == map[] && figures == []
    {
      this.floor := floor;
      queue, queueGen, bounds, forgotten, incomplete, figures := [], 0, map[], {}, {}, [];
    }

    method MeasureNow(repo: string)
      requires Valid()
      modifies this`queue, this`queueGen, this`forgotten
      ensures Valid() && Queued() == Added(old(Queued()), repo)
      ensures forgotten == old(forgotten) - {FoldRepoId(repo)}
    {
      var key := FoldRepoId(repo);
      forgotten := forgotten - {key};
      var i := 0;
      while i < |queue|
        invariant 0 <= i <= |queue|
        invariant ProbeQueue.Holds(queue, key) == ProbeQueue.Holds(queue[i..], key)
      {
        assert queue[i..][1..] == queue[i + 1..];
        if FoldRepoId(queue[i]) == key {
          return;
        }
        i := i + 1;
      }
      UniqueAdded(queue, repo);
      queue := queue + [repo];
      queueGen := queueGen + 1;
    }

    method Dequeue(repo: string)
      requires Unique(queue)
      modifies this`queue
      ensures Unique(queue) && Queued() == Dequeued(old(Queued()), repo)
    {
      var key := FoldRepoId(repo);
      WithoutHas(queue, key);
      var i := 0;
      while i < |queue|
        invariant 0 <= i <= |queue| && queue == old(queue)
        invariant forall k :: 0 <= k < i ==> FoldRepoId(queue[k]) != key
      {
        if FoldRepoId(queue[i]) == key {
          WithoutAt(queue, key, i);
          queue := queue[..i] + queue[i + 1..];
          return;
        }
        i := i + 1;
      }
      WithoutAt(queue, key, i);
    }

    /** Forgets the model's measurement: nothing but Measure now starts it again. */
    method Cancel(repo: string)
      requires Valid()
      modifies this`queue, this`bounds, this`forgotten, this`incomplete
      ensures Valid() && Queued() == Dequeued(old(Queued()), repo)
      ensures bounds == old(bounds) - {FoldRepoId(repo)}
      ensures forgotten == old(forgotten) + {FoldRepoId(repo)} && incomplete == old(incomplete) + {FoldRepoId(repo)}
    {
      var key := FoldRepoId(repo);
      bounds := bounds - {key};
      forgotten := forgotten + {key};
      Dequeue(repo);
      incomplete := incomplete + {key};
    }

    method Prune(byKey: map<string, Candidate>)
      requires Valid()
      modifies this`queue
      ensures Valid() && queue == Kept(old(queue), byKey)
    {
      KeptHas(queue, byKey);
      var kept := [];
      var i := 0;
      while i < |queue|
        invariant 0 <= i <= |queue| && queue == old(queue)
        invariant kept + Kept(queue[i..], byKey) == Kept(queue, byKey)
      {
        KeptSplits(kept, queue, byKey, i);
        if Measurable(byKey, queue[i]) {
          kept := kept + [queue[i]];
        }
        i := i + 1;
      }
      assert queue[i..] == [] && kept + [] == kept;
      queue := kept;
    }

    /** Due, from the second time it takes the lock: a queued model first, then one never measured. */
    method Judge(gen: nat, byKey: map<string, Candidate>, ready: seq<string>, enabled: bool)
        returns (due: Option<string>)
      requires Valid()
      modifies this`queue
      ensures Valid() && Queued() == Judged(old(Queued()), gen, byKey)
      ensures if IsFirst(None, queue, byKey, ready, true) then
                (if enabled then IsFirst(due, ready, byKey, ready, false) else due.None?)
              else IsFirst(due, queue, byKey, ready, true)
      ensures due.Some? ==>
                exists k :: k in byKey && byKey[k].repo == due.value && ProbeQueue.Holds(ready, k)
                            && byKey[k].declared > 0 && !byKey[k].pinned
                            && (ProbeQueue.Holds(queue, k) || (enabled && !byKey[k].incomplete && !byKey[k].measured))
      ensures due.None? ==>
                forall k :: k in byKey && ProbeQueue.Holds(ready, k) && byKey[k].declared > 0 && !byKey[k].pinned ==>
                  !ProbeQueue.Holds(queue, k) && (enabled ==> byKey[k].incomplete || byKey[k].measured)
    {
      if gen == queueGen {
        Prune(byKey);
      }
      due := First(queue, byKey, ready, true);
      if due.None? && enabled {
        due := First(ready, byKey, ready, false);
      }
      FirstIsDue(due, queue, byKey, ready, enabled);
    }

    static method First(ids: seq<string>, byKey: map<string, Candidate>, ready: seq<string>, queued: bool)
        returns (due: Option<string>)
      ensures IsFirst(due, ids, byKey, ready, queued)
    {
      var i := 0;
      while i < |ids|
        invariant 0 <= i <= |ids|
        invariant forall j :: 0 <= j < i ==> !Eligible(ids[j], byKey, ready, queued)
      {
        if Eligible(ids[i], byKey, ready, queued) {
          return Some(byKey[FoldRepoId(ids[i])].repo);
        }
        i := i + 1;
      }
      due := None;
    }

    /** A run that ends for the reason a step gave. */
    method Finish(model: string, why: Fate)
      requires Unique(queue)
      modifies this`queue, this`bounds, this`incomplete
      ensures Unique(queue)
      ensures bounds == if why == Aborts || ((why == Yields || why == Holds) && FoldRepoId(model) in forgotten)
                        then old(bounds) - {FoldRepoId(model)} else old(bounds)
      ensures Queued() == if why == Aborts || why == Pins then Dequeued(old(Queued()), model) else old(Queued())
      ensures incomplete ==
              if why == Aborts || why == Stops then old(incomplete) + {FoldRepoId(model)} else old(incomplete)
    {
      var key := FoldRepoId(model);
      match why
      case Yields | Holds =>
        if key in forgotten {
          bounds := bounds - {key};
        }
      case Stops => incomplete := incomplete + {key};
      case Pins => Dequeue(model);
      case Aborts =>
        bounds := bounds - {key};
        Dequeue(model);
        incomplete := incomplete + {key};
      case Goes =>
    }

    /** The marks a run starts from: the ones kept, if the settings they were taken under still stand. */
    method Begin(model: string, declared: int, inForce: Provenance) returns (b: Bounds)
      requires Valid()
      modifies this`bounds
      ensures Valid() && FoldRepoId(model) in bounds && bounds[FoldRepoId(model)] == b && b.prov == inForce
      ensures bounds == old(bounds)[FoldRepoId(model) := b]
      ensures FoldRepoId(model) in old(bounds) && old(bounds)[FoldRepoId(model)].prov == inForce ==>
          b == old(bounds)[FoldRepoId(model)]
      ensures !(FoldRepoId(model) in old(bounds) && old(bounds)[FoldRepoId(model)].prov == inForce) ==>
                fresh(b) && b.View() == Fresh(Ceiling(declared, inForce.served))
    {
      var key := FoldRepoId(model);
      if key in bounds && bounds[key].prov == inForce {
        return bounds[key];
      }
      var cap := if declared < MaxProbeWindow then declared else MaxProbeWindow;
      if inForce.served > 0 && inForce.served < cap {
        cap := inForce.served;
      }
      b := new Bounds(cap, inForce);
      bounds := bounds[key := b];
    }

    /** The first request, at the floor. */
    method Calibrate(servers: Servers, b: Bounds, script: seq<Met>) returns (why: Fate, answered: bool, left: seq<Met>)
      requires Standing(b.View(), floor) && b.loTokens == 0
      modifies b
      ensures why == NextFate(script) && left == Rest(script)
      ensures why != Goes ==> b.View() == old(b.View()) && answered
      ensures why == Goes ==> Sat(servers(NextUnder(script, b.prov)), floor, old(b.View()), floor, b.View(), answered)
      ensures Standing(b.View(), floor) && (answered && why == Goes ==> b.loTokens != 0)
    {
      var reply: Reply;
      answered := true;
      why, reply, left := Ask(servers, b, floor, script);
      if why != Goes {
        return;
      }
      match reply {
        case Refused(_, _) => answered := false;
        case Accepted(tokens, prompt) =>
          b.lo, b.loTokens := floor, tokens;
          b.cpt := Clamped(prompt as real / tokens as real);
      }
    }

    /** Doubles from the largest size verified, up to a refusal or the ceiling. */
    method Sweep(servers: Servers, b: Bounds, script: seq<Met>) returns (why: Fate, left: seq<Met>)
      requires Standing(b.View(), floor) && b.loTokens != 0
      modifies b
      ensures Standing(b.View(), floor) && b.loTokens != 0
      ensures Steady(script, b.prov) ==>
                && Steady(left, b.prov)
                && Final(servers(b.prov), floor, b.View()) == Final(servers(b.prov), floor, old(b.View()))
      ensures why == Goes ==> b.swept
      ensures Uninterrupted(script) ==> why == Goes && Uninterrupted(left)
    {
      hide Final, Steady, Uninterrupted;
      ghost var server := servers(b.prov);
      var reply: Reply;
      why, left := Goes, script;
      while !b.swept
        invariant Standing(b.View(), floor) && b.loTokens != 0 && why == Goes
        invariant Steady(script, b.prov) ==>
                    Steady(left, b.prov) && Final(server, floor, b.View()) == Final(server, floor, old(b.View()))
        invariant Uninterrupted(script) ==> Uninterrupted(left)
        decreases !b.swept, Left(b.View())
      {
        ghost var m, asked := b.View(), servers(NextUnder(left, b.prov));
        var size := b.lo * 2;
        if size >= b.hi {
          b.swept := true;
          EnteredEndsTheSame(server, floor, m);
          break;
        }
        RestPromises(left, b.prov);
        why, reply, left := Ask(servers, b, size, left);
        if why != Goes {
          return;
        }
        match reply {
          case Accepted(tokens, _) => b.lo, b.loTokens := size, tokens;
          case Refused(bound, guard) => b.hi, b.bound, b.guard, b.swept := size, bound, guard, true;
        }
        SatEndsTheSame(asked, floor, m, size, b.View(), true);
      }
    }

    /** Halves what is left between, down to the tolerance. */
    method Bisect(servers: Servers, b: Bounds, script: seq<Met>) returns (why: Fate)
      requires Standing(b.View(), floor) && b.loTokens != 0 && b.swept
      modifies b
      ensures Standing(b.View(), floor) && b.loTokens != 0
      ensures Steady(script, b.prov) ==>
                Final(servers(b.prov), floor, b.View()) == Final(servers(b.prov), floor, old(b.View()))
      ensures why == Goes ==> b.swept && Pending(b.View(), floor).None?
      ensures Uninterrupted(script) ==> why == Goes
    {
      hide Final, Steady, Uninterrupted;
      ghost var server := servers(b.prov);
      var reply: Reply;
      var left := script;
      why := Goes;
      while b.hi - b.lo > (if b.lo / 8 > 1024 then b.lo / 8 else 1024)
        invariant Standing(b.View(), floor) && b.loTokens != 0 && b.swept && why == Goes
        invariant Steady(script, b.prov) ==>
                    Steady(left, b.prov) && Final(server, floor, b.View()) == Final(server, floor, old(b.View()))
        invariant Uninterrupted(script) ==> Uninterrupted(left)
        decreases Left(b.View())
      {
        ghost var m, asked := b.View(), servers(NextUnder(left, b.prov));
        var mid := (b.lo + b.hi) / 2;
        RestPromises(left, b.prov);
        why, reply, left := Ask(servers, b, mid, left);
        if why != Goes {
          return;
        }
        match reply {
          case Accepted(tokens, _) => b.lo, b.loTokens := mid, tokens;
          case Refused(bound, guard) => b.hi, b.bound, b.guard := mid, bound, guard;
        }
        SatEndsTheSame(asked, floor, m, mid, b.View(), true);
      }
    }

    /**
      One sitting: from the marks kept to a figure, or to whatever stopped it.
      A paused sitting in which no setting moved leaves marks on the way to the
      same figure.
    */
    method Walk(servers: Servers, b: Bounds, script: seq<Met>) returns (why: Fate, answered: bool)
      requires Standing(b.View(), floor)
      modifies b
      ensures Standing(b.View(), floor)
      ensures !answered ==> why == Goes
      ensures Steady(script, b.prov) ==>
                var end := Final(servers(b.prov), floor, old(b.View()));
                && (answered ==> Final(servers(b.prov), floor, b.View()) == end)
                && (answered && why == Goes ==> end == Some(b.View()))
                && (!answered ==> end.None?)
      ensures Uninterrupted(script) ==> why == Goes
    {
      hide Final, Pending, Noted, Sat, Steady, Uninterrupted;
      RestPromises(script, b.prov);
      var left := script;
      answered, why := true, Goes;
      if b.loTokens == 0 {
        why, answered, left := Calibrate(servers, b, left);
        if why != Goes {
          return;
        }
        SatEndsTheSame(servers(NextUnder(script, b.prov)), floor, old(b.View()), floor, b.View(), answered);
        if !answered {
          return;
        }
      }
      why, left := Sweep(servers, b, left);
      if why != Goes {
        return;
      }
      why := Bisect(servers, b, left);
      if why == Goes {
        EndsHere(servers(b.prov), floor, b.View());
      }
    }

    /** Whether the marks a run starts from lead where an uninterrupted measurement goes. */
    ghost predicate StartsOnTheWay(model: string, declared: int, inForce: Provenance, servers: Servers)
      reads this, bounds.Values
    {
      var key := FoldRepoId(model);
      key in bounds && bounds[key].prov == inForce ==>
        OnTheWay(servers(inForce), floor, Ceiling(declared, inForce.served), bounds[key].View())
    }

    /**
      One run of the job, with any setting moving at any request of it and a
      Cancel at any time during it. A figure is saved only when the settings
      read at its end are those its marks were taken under, and is stamped with
      them; when they stood throughout, it is the one figure an uninterrupted
      measurement under them ends at, whatever pauses came before. The Cancel
      touches only what the steps do not read, so it is taken before the end.
    */
    method Run(model: string, declared: Option<int>, inForce: Provenance, servers: Servers, script: seq<Met>,
               cancelled: bool, atEnd: Provenance, saves: bool)
      returns (r: Ended)
      requires Valid()
      modifies this, if FoldRepoId(model) in bounds then {bounds[FoldRepoId(model)]} else {}
      ensures Valid()
      ensures bounds - {FoldRepoId(model)} == old(bounds) - {FoldRepoId(model)}
      ensures r.NotACandidate? <==> declared.None? || declared.value <= 0
      ensures !r.Measured? ==> figures == old(figures)
      ensures r.Measured? ==>
                && atEnd == inForce && |figures| == |old(figures)| + 1 && figures[..|old(figures)|] == old(figures)
                && figures[|old(figures)|].repo == model && figures[|old(figures)|].under == inForce
      ensures Queued() == if cancelled || LeavesQueue(r) then Dequeued(old(Queued()), model) else old(Queued())
      ensures incomplete == old(incomplete)
                            + if !r.NotACandidate? && (cancelled || GivesUp(r)) then {FoldRepoId(model)} else {}
      ensures r.Moved? ==> atEnd != inForce
      ensures !r.NotACandidate? ==>
                && forgotten == (if cancelled then old(forgotten) + {FoldRepoId(model)} else old(forgotten))
                && (FoldRepoId(model) in bounds <==> !cancelled && LeavesMarks(r, FoldRepoId(model) in forgotten))
                && (FoldRepoId(model) in bounds ==> bounds[FoldRepoId(model)].prov == inForce)
      ensures (!r.NotACandidate? && Steady(script, inForce)
               && old(StartsOnTheWay(model, declared.value, inForce, servers))) ==>
                var end := Final(servers(inForce), floor, Fresh(Ceiling(declared.value, inForce.served)));
                && (r.Measured? ==>
                    var last := figures[|old(figures)|];
                    && end.Some? && last.window == end.value.loTokens
                    && last.bound == end.value.bound && last.guard == end.value.guard
                    && Took(servers(inForce), floor, end.value))
                && (r.NoAnswer? ==> end.None?)
                && StartsOnTheWay(model, declared.value, inForce, servers)
                && (Uninterrupted(script) ==> r == Outcome(end.Some?, atEnd == inForce, saves))
    {
      var key := FoldRepoId(model);
      if declared.None? || declared.value <= 0 {
        Dequeue(model);
        return NotACandidate;
      }
      hide Final, Fresh, Ceiling, ProbeQueue.Without, Unique, Steady, Uninterrupted, LeavesMarks, Outcome;
      ghost var ceiling := Ceiling(declared.value, inForce.served);
      var b := Begin(model, declared.value, inForce);
      assert bounds - {key} == old(bounds) - {key};
      assert old(StartsOnTheWay(model, declared.value, inForce, servers)) ==>
          OnTheWay(servers(inForce), floor, ceiling, b.View());
      r := Sit(model, b, servers, script, cancelled, atEnd, saves, ceiling);
      if Final(servers(inForce), floor, Fresh(ceiling)).Some? {
        AMeasurementIsTight(servers(inForce), floor, ceiling);
      }
    }

    /** A sitting from marks just begun or taken up, a Cancel that comes during it, and its end. */
    method Sit(model: string, b: Bounds, servers: Servers, script: seq<Met>, cancelled: bool, atEnd: Provenance,
               saves: bool, ghost ceiling: int)
      returns (r: Ended)
      requires Valid() && FoldRepoId(model) in bounds && bounds[FoldRepoId(model)] == b
      modifies this, b
      ensures Valid()
      ensures var key := FoldRepoId(model);
              && bounds == (if !cancelled && LeavesMarks(r, key in forgotten) then old(bounds) else old(bounds) - {key})
              && forgotten == (if cancelled then old(forgotten) + {key} else old(forgotten))
      ensures !r.NotACandidate? && (r.Moved? ==> atEnd != b.prov) && (r.Measured? ==> atEnd == b.prov)
      ensures !r.Measured? ==> figures == old(figures)
      ensures r.Measured? ==>
                && |figures| == |old(figures)| + 1 && figures[..|old(figures)|] == old(figures)
                && var last := figures[|old(figures)|];
                && last.repo == model && last.under == b.prov
                && last.window == b.loTokens && last.bound == b.bound && last.guard == b.guard
      ensures Queued() == if cancelled || LeavesQueue(r) then Dequeued(old(Queued()), model) else old(Queued())
      ensures incomplete == old(incomplete) + if cancelled || GivesUp(r) then {FoldRepoId(model)} else {}
      ensures Steady(script, b.prov) && old(OnTheWay(servers(b.prov), floor, ceiling, b.View())) ==>
                var end := Final(servers(b.prov), floor, Fresh(ceiling));
                && (r.Measured? ==> end == Some(b.View()))
                && (r.NoAnswer? ==> end.None?)
                && (LeavesMarks(r, FoldRepoId(model) in forgotten) ==>
                    OnTheWay(servers(b.prov), floor, ceiling, b.View()))
                && (Uninterrupted(script) ==> r == Outcome(end.Some?, atEnd == b.prov, saves))
    {
      hide Final, Fresh, ProbeQueue.Without, Unique, Steady, Uninterrupted, Standing;
      DequeuedTwice(Queued(), model);
      var why, answered := Walk(servers, b, script);
      if cancelled {
        Cancel(model);
      }
      r := End(model, b, why, answered, atEnd, saves);
    }

    /** What becomes of a sitting's marks. */
    method End(model: string, b: Bounds, why: Fate, answered: bool, atEnd: Provenance, saves: bool) returns (r: Ended)
      requires Unique(queue)
      modifies this
      ensures Unique(queue) && forgotten == old(forgotten)
      ensures !answered ==> r == NoAnswer
      ensures answered && why != Goes ==> r == Paused(why)
      ensures answered && why == Goes ==> r == Outcome(true, atEnd == b.prov, saves)
      ensures !r.Measured? ==> figures == old(figures)
      ensures r.Measured? ==>
                && |figures| == |old(figures)| + 1 && figures[..|old(figures)|] == old(figures)
                && var last := figures[|old(figures)|];
                && last.repo == model && last.under == b.prov
                && last.window == b.loTokens && last.bound == b.bound && last.guard == b.guard
      ensures Queued() == if LeavesQueue(r) then Dequeued(old(Queued()), model) else old(Queued())
      ensures incomplete == old(incomplete) + if GivesUp(r) then {FoldRepoId(model)} else {}
      ensures bounds ==
              if LeavesMarks(r, FoldRepoId(model) in forgotten) then old(bounds) else old(bounds) - {FoldRepoId(model)}
    {
      var key := FoldRepoId(model);
      if !answered {
        bounds := bounds - {key};
        Dequeue(model);
        incomplete := incomplete + {key};
        return NoAnswer;
      }
      if why != Goes {
        Finish(model, why);
        return Paused(why);
      }
      if atEnd != b.prov {
        bounds := bounds - {key};
        return Moved;
      }
      if !saves {
        incomplete := incomplete + {key};
        Dequeue(model);
        return Unsaved;
      }
      figures := figures + [Figure(model, b.loTokens, b.bound, b.guard, b.prov)];
      bounds := bounds - {key};
      Dequeue(model);
      r := Measured;
    }
  }
}
