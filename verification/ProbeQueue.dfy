/**
  The "Measure now" queue and its generation counter
  (internal/contextprobe/probe.go): Due reads the counter, then asks for the
  candidates with no lock held, and only then judges the queue against them.
*/
module ProbeQueue {
  import opened Common

  datatype Candidate = Candidate(repo: string, declared: int, measured: bool, incomplete: bool, pinned: bool)

  datatype Queue = Queue(entries: seq<string>, gen: nat)

  function Keys(entries: seq<string>): seq<string> {
    if entries == [] then [] else [FoldRepoId(entries[0])] + Keys(entries[1..])
  }

  predicate Holds(entries: seq<string>, key: string) {
    key in Keys(entries)
  }

  predicate Unique(entries: seq<string>) {
    entries == [] || (!Holds(entries[1..], FoldRepoId(entries[0])) && Unique(entries[1..]))
  }

  function Added(q: Queue, repo: string): Queue {
    if Holds(q.entries, FoldRepoId(repo)) then q else Queue(q.entries + [repo], q.gen + 1)
  }

  function Without(entries: seq<string>, key: string): seq<string> {
    if entries == [] then []
    else if FoldRepoId(entries[0]) == key then entries[1..]
    else [entries[0]] + Without(entries[1..], key)
  }

  function Dequeued(q: Queue, repo: string): Queue {
    q.(entries := Without(q.entries, FoldRepoId(repo)))
  }

  /** The candidates by key; a later one of a key takes its place. */
  function ByKey(cs: seq<Candidate>): map<string, Candidate> {
    if cs == [] then map[] else
    var rest := ByKey(cs[..|cs| - 1]);
    rest[FoldRepoId(cs[|cs| - 1].repo) := cs[|cs| - 1]]
  }

  predicate Measurable(byKey: map<string, Candidate>, repo: string) {
    FoldRepoId(repo) in byKey && !byKey[FoldRepoId(repo)].pinned
  }

  function Kept(entries: seq<string>, byKey: map<string, Candidate>): seq<string> {
    if entries == [] then []
    else if Measurable(byKey, entries[0]) then [entries[0]] + Kept(entries[1..], byKey)
    else Kept(entries[1..], byKey)
  }

  /** What judging leaves of the queue, against the candidates of the generation read first. */
  function Judged(q: Queue, gen: nat, byKey: map<string, Candidate>): Queue {
    if gen == q.gen then q.(entries := Kept(q.entries, byKey)) else q
  }

  // ------------------------------------------------------------ interleavings

  datatype Event = MeasureNow(repo: string) | Dequeue(repo: string) | Judge(gen: nat, byKey: map<string, Candidate>)

  function Step(q: Queue, e: Event): Queue {
    match e
    case MeasureNow(repo) => Added(q, repo)
    case Dequeue(repo) => Dequeued(q, repo)
    case Judge(gen, byKey) => Judged(q, gen, byKey)
  }

  function Run(q: Queue, es: seq<Event>): Queue
    decreases |es|
  {
    if es == [] then q else Run(Step(q, es[0]), es[1..])
  }

  lemma {:induction false} KeysJoin(a: seq<string>, b: seq<string>)
    ensures Keys(a + b) == Keys(a) + Keys(b)
  {
    if a == [] {
      assert a + b == b;
    } else {
      assert (a + b)[1..] == a[1..] + b;
      KeysJoin(a[1..], b);
    }
  }

  lemma {:induction false} UniqueAdded(entries: seq<string>, repo: string)
    requires Unique(entries) && !Holds(entries, FoldRepoId(repo))
    ensures Unique(entries + [repo])
  {
    if entries == [] {
      assert entries + [repo] == [repo];
      assert [repo][1..] == [];
    } else {
      assert (entries + [repo])[1..] == entries[1..] + [repo];
      KeysJoin(entries[1..], [repo]);
      UniqueAdded(entries[1..], repo);
    }
  }

  lemma {:induction false} WithoutHas(entries: seq<string>, key: string)
    requires Unique(entries)
    ensures Unique(Without(entries, key))
    ensures forall k :: Holds(Without(entries, key), k) <==> Holds(entries, k) && k != key
  {
    if entries != [] {
      var k0, left := FoldRepoId(entries[0]), Without(entries, key);
      WithoutHas(entries[1..], key);
      if k0 != key {
        assert left[1..] == Without(entries[1..], key);
        assert forall k :: Holds(left, k) <==> k == k0 || Holds(left[1..], k);
      }
      assert forall k :: Holds(entries, k) <==> k == k0 || Holds(entries[1..], k);
    }
  }

  lemma {:induction false} KeptHas(entries: seq<string>, byKey: map<string, Candidate>)
    ensures forall k :: Holds(Kept(entries, byKey), k) <==> Holds(entries, k) && k in byKey && !byKey[k].pinned
    ensures Unique(entries) ==> Unique(Kept(entries, byKey))
  {
    if entries != [] {
      KeptHas(entries[1..], byKey);
      if Measurable(byKey, entries[0]) {
        assert Kept(entries, byKey)[1..] == Kept(entries[1..], byKey);
      }
    }
  }

  lemma StepHas(q: Queue, e: Event)
    requires Unique(q.entries)
    ensures Unique(Step(q, e).entries)
    ensures Step(q, e).gen == q.gen || (e.MeasureNow? && Step(q, e).gen == q.gen + 1)
    ensures Step(q, e).gen == q.gen ==> forall k :: Holds(Step(q, e).entries, k) ==> Holds(q.entries, k)
  {
    match e
    case MeasureNow(repo) =>
      if !Holds(q.entries, FoldRepoId(repo)) {
        UniqueAdded(q.entries, repo);
      }
    case Dequeue(repo) => WithoutHas(q.entries, FoldRepoId(repo));
    case Judge(gen, byKey) => KeptHas(q.entries, byKey);
  }

  /** The counter only moves forward, and while it stands nothing new is in the queue. */
  lemma {:induction false} NothingNewWithinAGeneration(q: Queue, es: seq<Event>)
    requires Unique(q.entries)
    ensures Unique(Run(q, es).entries) && Run(q, es).gen >= q.gen
    ensures Run(q, es).gen == q.gen ==> forall k :: Holds(Run(q, es).entries, k) ==> Holds(q.entries, k)
    decreases |es|
  {
    if es != [] {
      StepHas(q, es[0]);
      NothingNewWithinAGeneration(Step(q, es[0]), es[1..]);
    }
  }

  /**
    Whatever runs between Due reading the counter and judging the queue, a
    model that was not queued when it read is not dropped for the candidates
    it read then.
  */
  lemma AHandRetryIsNotPruned(q: Queue, es: seq<Event>, byKey: map<string, Candidate>, key: string)
    requires Unique(q.entries) && !Holds(q.entries, key)
    ensures var now := Run(q, es); Holds(now.entries, key) ==> Holds(Judged(now, q.gen, byKey).entries, key)
  {
    NothingNewWithinAGeneration(q, es);
  }

  /**
    A model already queued has no such protection: it is dropped exactly when
    no other model was added meanwhile and the candidates leave it out, and
    asking for it again changes nothing.
  */
  lemma AQueuedModelIsPrunedExactly(q: Queue, es: seq<Event>, byKey: map<string, Candidate>, key: string)
    requires Unique(q.entries)
    ensures var now := Run(q, es);
            Holds(now.entries, key) && !Holds(Judged(now, q.gen, byKey).entries, key)
            <==> Holds(now.entries, key) && now.gen == q.gen && (key !in byKey || byKey[key].pinned)
  {
    KeptHas(Run(q, es).entries, byKey);
  }

  lemma AskingAgainChangesNothing(q: Queue, repo: string, byKey: map<string, Candidate>)
    requires Unique(q.entries) && Holds(q.entries, FoldRepoId(repo)) && FoldRepoId(repo) !in byKey
    ensures !Holds(Judged(Run(q, [MeasureNow(repo)]), q.gen, byKey).entries, FoldRepoId(repo))
  {
    assert [MeasureNow(repo)][1..] == [];
    assert Run(q, [MeasureNow(repo)]) == q;
    KeptHas(q.entries, byKey);
  }
}
