/**
  The size-rotating file (internal/applog/rotate.go): the current file is
  number 0 and the numbered ones follow, newest first. A record is what one
  Write put in the file.
*/
module RotatingLog {

  type Record = r: string | r != "" witness "x"

  type Files = map<nat, seq<Record>>

  /** What a file holds; one that is not there holds nothing. */
  function Slot(files: Files, i: nat): seq<Record> {
    if i in files then files[i] else []
  }

  /** The newest k files read oldest to newest. */
  function Flat(files: Files, k: nat): seq<Record> {
    if k == 0 then [] else Slot(files, k - 1) + Flat(files, k - 1)
  }

  function Size(rs: seq<Record>): nat {
    if rs == [] then 0 else |rs[0]| + Size(rs[1..])
  }

  lemma {:induction false} SizeAppended(rs: seq<Record>, r: Record)
    ensures Size(rs + [r]) == Size(rs) + |r|
  {
    if rs == [] {
      assert rs + [r] == [r] && [r][1..] == [];
    } else {
      assert (rs + [r])[1..] == rs[1..] + [r];
      SizeAppended(rs[1..], r);
    }
  }

  predicate IsSuffix(a: seq<Record>, w: seq<Record>) {
    |a| <= |w| && a == w[|w| - |a|..]
  }

  lemma NewerIsSuffix(files: Files, keep: nat, w: seq<Record>)
    requires keep > 0 && IsSuffix(Flat(files, keep), w)
    ensures IsSuffix(Flat(files, keep - 1), w)
  {
  }

  /** A file is within the cap, or is one record. */
  predicate Bounded(rs: seq<Record>, max: nat) {
    Size(rs) <= max || |rs| == 1
  }

  lemma {:induction false} SameBelow(a: Files, b: Files, k: nat)
    requires forall i :: 0 <= i < k ==> Slot(a, i) == Slot(b, i)
    ensures Flat(a, k) == Flat(b, k)
  {
    if k > 0 {
      SameBelow(a, b, k - 1);
    }
  }

  /** The names above a gap have moved up one from where they were, and those below have not moved. */
  predicate ShiftedDownTo(files: Files, was: Files, gap: nat, keep: nat) {
    && gap < keep
    && (forall i :: gap < i < keep ==> Slot(files, i) == Slot(was, i - 1))
    && Slot(files, gap) == []
    && (forall i :: 0 <= i < gap ==> Slot(files, i) == Slot(was, i))
  }

  /** One rename, which a missing file leaves undone. */
  function Moved(files: Files, from: nat, to: nat): Files
    requires from != to
  {
    if from in files then files[to := files[from]] - {from} else files
  }

  lemma OneMoreShifted(files: Files, was: Files, i: nat, keep: nat)
    requires i >= 1 && ShiftedDownTo(files, was, i, keep) && i !in files
    ensures ShiftedDownTo(Moved(files, i - 1, i), was, i - 1, keep) && i - 1 !in Moved(files, i - 1, i)
  {
    var after := Moved(files, i - 1, i);
    forall j | i - 1 < j < keep ensures Slot(after, j) == Slot(was, j - 1) {
      assert Slot(files, i - 1) == Slot(was, i - 1);
      if j > i {
        assert Slot(after, j) == Slot(files, j);
      }
    }
  }

  /** Wherever a shift stops, the files read as they did, but for the oldest. */
  lemma {:induction false} AStoppedShiftKeepsTheOrder(files: Files, was: Files, gap: nat, keep: nat, k: nat)
    requires ShiftedDownTo(files, was, gap, keep) && gap < k <= keep
    ensures Flat(files, k) == Flat(was, k - 1)
    decreases k
  {
    if k == gap + 1 {
      SameBelow(files, was, gap);
    } else {
      AStoppedShiftKeepsTheOrder(files, was, gap, keep, k - 1);
    }
  }

  lemma {:induction false} AppendedAtTheEnd(files: Files, r: Record, k: nat)
    requires k > 0
    ensures Flat(files[0 := Slot(files, 0) + [r]], k) == Flat(files, k) + [r]
  {
    var after := files[0 := Slot(files, 0) + [r]];
    if k == 1 {
      assert Flat(after, 1) == Slot(after, 0) + [] && Flat(files, 1) == Slot(files, 0) + [];
    } else {
      AppendedAtTheEnd(files, r, k - 1);
      assert Slot(files, k - 1) + (Flat(files, k - 1) + [r]) == Slot(files, k - 1) + Flat(files, k - 1) + [r];
    }
  }

  /** Whether operation i of a rotation succeeds; past the script they do. */
  predicate Succeeds(fates: seq<bool>, i: nat) {
    i < |fates| ==> fates[i]
  }

  /** Whether the first k do. */
  predicate Clean(fates: seq<bool>, k: nat) {
    forall i :: 0 <= i < k ==> Succeeds(fates, i)
  }

  /** A close, a removal, a rename for each name but one, and an open; with one name, a removal and no rename. */
  function Operations(keep: nat): nat {
    keep + 2
  }

  // --------------------------------------------- what is put where, exactly

  /** The files a run of writes has filled, oldest first, end to end. */
  function Joined(packs: seq<seq<Record>>): seq<Record> {
    if packs == [] then [] else Joined(packs[..|packs| - 1]) + packs[|packs| - 1]
  }

  /** The files kept are the newest of those filled. */
  predicate Keeps(files: Files, keep: nat, packs: seq<seq<Record>>) {
    packs != [] && forall i :: 0 <= i < keep ==> Slot(files, i) == if i < |packs| then packs[|packs| - 1 - i] else []
  }

  /** Each file but the newest was left for a record that did not fit in it. */
  predicate Forced(packs: seq<seq<Record>>, forcing: seq<string>, max: nat) {
    && |packs| == |forcing| + 1
    && (forall j :: 0 <= j < |forcing| ==> packs[j] != [] && Size(packs[j]) + |forcing[j]| > max)
  }

  /** The record a file was left for is the one the next file begins with. */
  predicate BeginsWith(packs: seq<seq<Record>>, forcing: seq<string>) {
    |packs| == |forcing| + 1 && forall j :: 0 <= j < |forcing| ==> packs[j + 1] != [] && packs[j + 1][0] == forcing[j]
  }

  /** A record after the last one. */
  function Grown(packs: seq<seq<Record>>, r: Record): seq<seq<Record>>
    requires packs != []
  {
    packs[|packs| - 1 := packs[|packs| - 1] + [r]]
  }

  lemma JoinedGrown(packs: seq<seq<Record>>, r: Record)
    requires packs != []
    ensures Joined(Grown(packs, r)) == Joined(packs) + [r]
    ensures Joined(packs + [[r]]) == Joined(packs) + [r] && Joined(packs + [[]]) == Joined(packs)
  {
    var before, last := packs[..|packs| - 1], packs[|packs| - 1];
    assert Grown(packs, r)[..|packs| - 1] == before;
    assert Joined(before) + (last + [r]) == (Joined(before) + last) + [r];
    assert (packs + [[r]])[..|packs|] == packs && (packs + [[]])[..|packs|] == packs;
  }

  lemma {:induction false} JoinedHead(p: seq<Record>, packs: seq<seq<Record>>)
    ensures Joined([p] + packs) == p + Joined(packs)
    decreases |packs|
  {
    if packs == [] {
      assert [p] + packs == [p] && [p][..0] == [];
    } else {
      var before, last := packs[..|packs| - 1], packs[|packs| - 1];
      JoinedHead(p, before);
      assert ([p] + packs)[..|packs|] == [p] + before;
      assert (p + Joined(before)) + last == p + (Joined(before) + last);
    }
  }

  function Newest(packs: seq<seq<Record>>, k: nat): seq<seq<Record>> {
    if k < |packs| then packs[|packs| - k..] else packs
  }

  lemma NewestOneMore(packs: seq<seq<Record>>, k: nat)
    requires 0 < k <= |packs|
    ensures Newest(packs, k) == [packs[|packs| - k]] + Newest(packs, k - 1)
    ensures Joined(Newest(packs, k)) == packs[|packs| - k] + Joined(Newest(packs, k - 1))
  {
    assert packs[|packs| - k..] == [packs[|packs| - k]] + packs[|packs| - (k - 1)..];
    JoinedHead(packs[|packs| - k], Newest(packs, k - 1));
  }

  lemma KeepsAt(files: Files, keep: nat, packs: seq<seq<Record>>, i: nat)
    requires Keeps(files, keep, packs) && i < keep
    ensures Slot(files, i) == if i < |packs| then packs[|packs| - 1 - i] else []
  {
  }

  lemma NothingNewest(packs: seq<seq<Record>>)
    ensures Joined(Newest(packs, 0)) == []
  {
    assert Newest(packs, 0) == [];
  }

  lemma {:induction false} FlatIsTheNewest(files: Files, keep: nat, packs: seq<seq<Record>>, k: nat)
    requires Keeps(files, keep, packs) && k <= keep
    ensures Flat(files, k) == Joined(Newest(packs, k))
  {
    hide Joined, Keeps, Slot;
    if k == 0 {
      NothingNewest(packs);
    } else {
      FlatIsTheNewest(files, keep, packs, k - 1);
      KeepsAt(files, keep, packs, k - 1);
      if k <= |packs| {
        NewestOneMore(packs, k);
      } else {
        assert Newest(packs, k) == Newest(packs, k - 1) == packs;
      }
    }
  }

  lemma {:induction false} SizeJoins(a: seq<Record>, b: seq<Record>)
    ensures Size(a + b) == Size(a) + Size(b)
    decreases |b|
  {
    if b == [] {
      assert a + b == a;
    } else {
      var n := |b| - 1;
      assert a + b == (a + b[..n]) + [b[n]] && b == b[..n] + [b[n]];
      SizeJoins(a, b[..n]);
      SizeAppended(a + b[..n], b[n]);
      SizeAppended(b[..n], b[n]);
    }
  }

  /** Two files in a row hold more than the cap. */
  lemma TwoAreMore(packs: seq<seq<Record>>, forcing: seq<string>, max: nat, j: nat)
    requires Forced(packs, forcing, max) && BeginsWith(packs, forcing) && j + 1 < |packs|
    ensures Size(packs[j]) + Size(packs[j + 1]) > max
  {
    var next, first := packs[j + 1], forcing[j];
    assert next != [] && next[0] == first;
    hide Forced, BeginsWith;
    assert Size(next) == |next[0]| + Size(next[1..]);
  }

  lemma Product(a: nat, b: nat)
    ensures a * b >= 0
  {
  }

  lemma OneHalfMore(k: nat, m: nat)
    requires k >= 2
    ensures k / 2 * m == (k - 2) / 2 * m + m
  {
    assert k / 2 == (k - 2) / 2 + 1;
  }

  lemma {:induction false} ManyAreMore(packs: seq<seq<Record>>, forcing: seq<string>, max: nat, k: nat)
    requires Forced(packs, forcing, max) && BeginsWith(packs, forcing) && k <= |packs|
    ensures Size(Joined(Newest(packs, k))) >= k / 2 * (max + 1)
    decreases k
  {
    hide Size, Joined, Forced, BeginsWith;
    if k >= 2 {
      var i := |packs| - k;
      var rest := Newest(packs, k - 2);
      ManyAreMore(packs, forcing, max, k - 2);
      TwoAreMore(packs, forcing, max, i);
      NewestOneMore(packs, k);
      NewestOneMore(packs, k - 1);
      SizeJoins(packs[i], packs[i + 1] + Joined(rest));
      SizeJoins(packs[i + 1], Joined(rest));
      OneHalfMore(k, max + 1);
    }
  }

  /** What the kept files hold of the files filled: all of them, or half their caps and more. */
  lemma MuchIsKept(files: Files, keep: nat, packs: seq<seq<Record>>, forcing: seq<string>, max: nat)
    requires Keeps(files, keep, packs) && Forced(packs, forcing, max) && BeginsWith(packs, forcing) && keep > 0
    ensures |packs| <= keep ==> Flat(files, keep) == Joined(packs)
    ensures |packs| > keep ==> Size(Flat(files, keep)) >= keep / 2 * (max + 1)
    ensures Size(Joined(packs)) <= max ==> Flat(files, keep) == Joined(packs)
  {
    FlatIsTheNewest(files, keep, packs, keep);
    if |packs| > keep {
      ManyAreMore(packs, forcing, max, keep);
    }
    if |packs| >= 2 {
      AllOfThemAreMore(packs, forcing, max);
    }
  }

  lemma AllOfThemAreMore(packs: seq<seq<Record>>, forcing: seq<string>, max: nat)
    requires Forced(packs, forcing, max) && BeginsWith(packs, forcing) && |packs| >= 2
    ensures Size(Joined(packs)) > max
  {
    hide Forced, BeginsWith, Joined, Size;
    ManyAreMore(packs, forcing, max, |packs|);
    assert Newest(packs, |packs|) == packs;
    OneHalfMore(|packs|, max + 1);
    Product((|packs| - 2) / 2, max + 1);
  }

  lemma NothingIsBounded(max: nat)
    ensures Bounded([], max)
  {
  }

  class Rotator {
    const max: nat
    const keep: nat
    var files: Files
    var isOpen: bool
    var n: nat
    var dead: bool
    /** Every record any writer of these files put in one. */
    ghost var written: seq<Record>

    ghost predicate Valid()
      reads this
    {
      && max > 0 && keep > 0
      && IsSuffix(Flat(files, keep), written)
      && (forall i :: i in files ==> Bounded(files[i], max))
      && (isOpen && !dead ==> 0 in files && n == Size(files[0]))
    }

    /** OpenRotator on a directory with none of its files. */
    constructor (max: nat, keep: nat)
      requires max > 0 && keep > 0
      ensures Valid() && this.max == max && this.keep == keep
      ensures files == map[0 := []] && written == [] && isOpen && !dead
    {
      this.max, this.keep := max, keep;
      files, isOpen, n, dead, written := map[0 := []], true, 0, false, [];
      new;
      NothingIsThere(files, keep);
    }

    /** open: continues the current file when it is there. */
    method Open(ok: bool)
      modifies this`files, this`isOpen, this`n
      ensures !ok ==> files == old(files) && isOpen == old(isOpen) && n == old(n)
      ensures ok ==> isOpen && files == old(files)[0 := Slot(old(files), 0)] && n == Size(Slot(old(files), 0))
    {
      if ok {
        if 0 !in files {
          files := files[0 := []];
        }
        isOpen, n := true, Size(files[0]);
      }
    }

    /**
      Shifts every name along and starts the current file again. Stopped at
      any of its operations, it has lost nothing but the oldest file.
    */
    method Rotate(fates: seq<bool>) returns (ok: bool)
      requires Valid() && isOpen && !dead
      modifies this`files, this`isOpen, this`n
      ensures forall i :: i in files ==> Bounded(files[i], max)
      ensures Flat(files, keep) == old(Flat(files, keep)) || Flat(files, keep) == old(Flat(files, keep - 1))
      ensures ok ==> isOpen && 0 in files && files[0] == [] && n == 0
      ensures ok ==> forall i :: 0 < i < keep ==> Slot(files, i) == old(Slot(files, i - 1))
      ensures ok <==> Clean(fates, Operations(keep))
    {
      hide Flat, Succeeds, Bounded;
      NothingIsBounded(max);
      if !Succeeds(fates, 0) {
        return false;
      }
      isOpen, n := false, 0;
      ghost var was := files;
      var i, done := keep - 1, 1;
      while i >= 1
        invariant 0 <= i <= keep - 1
        invariant done == if i == keep - 1 then 1 else keep + 1 - i
        invariant Clean(fates, done)
        invariant i == keep - 1 ==> files == was
        invariant i < keep - 1 ==> ShiftedDownTo(files, was, i, keep) && i !in files
        invariant forall j :: j in files ==> Bounded(files[j], max)
      {
        if i == keep - 1 {
          if !Succeeds(fates, done) {
            return false;
          }
          files, done := files - {i}, done + 1;
          assert ShiftedDownTo(files, was, i, keep);
        }
        AStoppedShiftKeepsTheOrder(files, was, i, keep, keep);
        if !Succeeds(fates, done) {
          return false;
        }
        OneMoreShifted(files, was, i, keep);
        files, done := Moved(files, i - 1, i), done + 1;
        i := i - 1;
      }
      if keep == 1 {
        if !Succeeds(fates, done) {
          return false;
        }
        files, done := files - {0}, done + 1;
      }
      assert ShiftedDownTo(files, was, 0, keep);
      AStoppedShiftKeepsTheOrder(files, was, 0, keep, keep);
      assert 0 !in files;
      ok := Succeeds(fates, done);
      SameBelow(files, files[0 := []], keep);
      Open(ok);
    }

    /** A record the current file has room for, or that finds it empty. */
    predicate Fits(b: string)
      reads this
    {
      Size(Slot(files, 0)) == 0 || Size(Slot(files, 0)) + |b| <= max
    }

    /** The files with what got through of a record at the end of the current one. */
    function Appended(r: string): Files
      reads this
    {
      if r == "" then files else files[0 := Slot(files, 0) + [r]]
    }

    /** Appends what got through of one record, rotating first if it would not fit. */
    method Write(b: string, fates: seq<bool>, through: nat) returns (accepted: bool)
      requires Valid() && through <= |b|
      modifies this
      ensures Valid()
      ensures accepted == (old(isOpen && !dead) && !dead)
      ensures !old(isOpen && !dead) ==> files == old(files)
      ensures old(isOpen && !dead) && old(Fits(b)) ==> files == old(Appended(b[..through]))
      ensures old(isOpen && !dead) && !old(Fits(b)) && accepted ==>
                && Slot(files, 0) == (if through > 0 then [b[..through]] else [])
                && forall i :: 0 < i < keep ==> Slot(files, i) == old(Slot(files, i - 1))
      ensures old(isOpen && !dead) && !old(Fits(b)) && !accepted ==>
                Flat(files, keep) == old(Flat(files, keep)) || Flat(files, keep) == old(Flat(files, keep - 1))
      ensures written == if accepted && through > 0 then old(written) + [b[..through]] else old(written)
      ensures old(isOpen && !dead) ==> (accepted <==> old(Fits(b)) || Clean(fates, Operations(keep)))
      ensures accepted ==> isOpen && !dead
    {
      hide Flat, IsSuffix, Bounded, Clean, Operations;
      NewerIsSuffix(files, keep, written);
      if dead || !isOpen {
        return false;
      }
      if n > 0 && n + |b| > max {
        var ok := Rotate(fates);
        if !ok {
          dead := true;
          return false;
        }
      }
      accepted := true;
      ghost var started := files;
      if through > 0 {
        Append(b[..through], |b|);
      }
      assert forall i :: 0 < i < keep ==> Slot(files, i) == Slot(started, i);
    }

    /** A record that fits, or that a started file takes whole. */
    method Append(r: Record, whole: nat)
      requires Valid() && isOpen && !dead && |r| <= whole && (n == 0 || n + whole <= max)
      modifies this`files, this`n, this`written
      ensures Valid() && written == old(written) + [r]
      ensures files == old(files)[0 := old(Slot(files, 0)) + [r]]
    {
      AppendedAtTheEnd(files, r, keep);
      SizeAppended(files[0], r);
      files := files[0 := files[0] + [r]];
      n := n + |r|;
      written := written + [r];
    }

    /** The writer closed, by itself or with its process, and opened over the same files. */
    method Reopen(ok: bool)
      requires Valid()
      modifies this
      ensures Valid() && written == old(written) && !dead && isOpen == ok
      ensures files == if ok then old(files)[0 := old(Slot(files, 0))] else old(files)
    {
      dead, isOpen := false, false;
      SameBelow(files, files[0 := Slot(files, 0)], keep);
      Open(ok);
    }
  }

  lemma {:induction false} NothingIsThere(files: Files, k: nat)
    requires forall i :: i in files ==> files[i] == []
    ensures Flat(files, k) == []
  {
    if k > 0 {
      NothingIsThere(files, k - 1);
    }
  }

  datatype Act = Writes(b: string, fates: seq<bool>, through: nat) | Reopens(ok: bool)

  /** What the accepted ones of a sequence of writes put through, in order. */
  function PutThrough(acts: seq<Act>, accepted: seq<bool>): seq<Record>
    requires |acts| == |accepted|
  {
    if acts == [] then [] else
    var last := |acts| - 1;
    var before := PutThrough(acts[..last], accepted[..last]);
    match acts[last]
    case Reopens(_) => before
    case Writes(b, _, through) =>
      var n := if through <= |b| then through else |b|;
      if accepted[last] && n > 0 then before + [b[..n]] else before
  }

  /** Nothing fails, and no writer is closed for good. */
  predicate Working(acts: seq<Act>) {
    forall a :: a in acts ==> if a.Writes? then forall ok :: ok in a.fates ==> ok else a.ok
  }

  /** Every write is of a record, and gets through whole. */
  predicate Whole(acts: seq<Act>) {
    forall a :: a in acts && a.Writes? ==> a.b != "" && a.through >= |a.b|
  }

  predicate Written(b: string, acts: seq<Act>) {
    exists a :: a in acts && a.Writes? && a.b == b
  }

  /** One write more, by what Write promises of the files. */
  lemma WriteFills(before: Files, after: Files, keep: nat, max: nat, packs: seq<seq<Record>>, forcing: seq<string>,
                   b: string, through: nat)
      returns (filled: seq<seq<Record>>, forced: seq<string>)
    requires Keeps(before, keep, packs) && Forced(packs, forcing, max) && through <= |b| && keep > 0
    requires Size(Slot(before, 0)) == 0 || Size(Slot(before, 0)) + |b| <= max ==>
               after == if b[..through] == "" then before else before[0 := Slot(before, 0) + [b[..through]]]
    requires !(Size(Slot(before, 0)) == 0 || Size(Slot(before, 0)) + |b| <= max) ==>
               && Slot(after, 0) == (if through > 0 then [b[..through]] else [])
               && forall i :: 0 < i < keep ==> Slot(after, i) == Slot(before, i - 1)
    ensures Keeps(after, keep, filled) && Forced(filled, forced, max)
    ensures Joined(filled) == Joined(packs) + if through > 0 then [b[..through]] else []
    ensures forced == forcing || forced == forcing + [b]
    ensures BeginsWith(packs, forcing) && through == |b| > 0 ==> BeginsWith(filled, forced)
  {
    assert Slot(before, 0) == packs[|packs| - 1];
    hide Size, Joined, Forced, BeginsWith, Keeps, Slot;
    var r, n := b[..through], |packs| - 1;
    filled, forced := packs, forcing;
    if Size(packs[n]) == 0 || Size(packs[n]) + |b| <= max {
      if through > 0 {
        filled := Grown(packs, r);
        StillForced(packs, forcing, max, r);
        JoinedGrown(packs, r);
        KeepsGrown(before, keep, packs, r);
      } else {
        assert Joined(packs) == Joined(packs) + [];
      }
    } else {
      var started: seq<Record> := if through > 0 then [r] else [];
      filled, forced := packs + [started], forcing + [b];
      JustForced(packs, forcing, max, b, started);
      JoinedGrown(packs, if through > 0 then r else "x");
      assert Joined(packs) == Joined(packs) + [];
      KeepsStarted(before, after, keep, packs, started);
    }
  }

  lemma KeepsGrown(files: Files, keep: nat, packs: seq<seq<Record>>, r: Record)
    requires Keeps(files, keep, packs)
    ensures Keeps(files[0 := Slot(files, 0) + [r]], keep, Grown(packs, r))
  {
    var after := files[0 := Slot(files, 0) + [r]];
    assert forall i :: 0 < i < keep ==> Slot(after, i) == Slot(files, i);
  }

  lemma KeepsStarted(before: Files, after: Files, keep: nat, packs: seq<seq<Record>>, started: seq<Record>)
    requires Keeps(before, keep, packs) && Slot(after, 0) == started
    requires forall i :: 0 < i < keep ==> Slot(after, i) == Slot(before, i - 1)
    ensures Keeps(after, keep, packs + [started])
  {
    var filled := packs + [started];
    forall i | 0 < i < keep ensures Slot(after, i) == if i < |filled| then filled[|filled| - 1 - i] else [] {
      assert Slot(before, i - 1) == if i - 1 < |packs| then packs[|packs| - 1 - (i - 1)] else [];
    }
  }

  lemma StillForced(packs: seq<seq<Record>>, forcing: seq<string>, max: nat, r: Record)
    requires Forced(packs, forcing, max)
    ensures Forced(Grown(packs, r), forcing, max)
    ensures BeginsWith(packs, forcing) ==> BeginsWith(Grown(packs, r), forcing)
  {
  }

  lemma JustForced(packs: seq<seq<Record>>, forcing: seq<string>, max: nat, b: string, started: seq<Record>)
    requires Forced(packs, forcing, max) && Size(packs[|packs| - 1]) + |b| > max && Size(packs[|packs| - 1]) != 0
    ensures Forced(packs + [started], forcing + [b], max)
    ensures BeginsWith(packs, forcing) && started != [] && started[0] == b ==>
              BeginsWith(packs + [started], forcing + [b])
  {
  }

  /**
    After any sequence of writes, failing rotations and restarts, the kept
    files read oldest to newest are the last records put through, whole, and
    each file is within the cap or is one record.
  */
  method AnyUse(max: nat, keep: nat, acts: seq<Act>)
      returns (files: Files, accepted: seq<bool>, ghost packs: seq<seq<Record>>, ghost forcing: seq<string>)
    requires max > 0 && keep > 0
    ensures |accepted| == |acts|
    ensures IsSuffix(Flat(files, keep), PutThrough(acts, accepted))
    ensures forall i :: i in files ==> Bounded(files[i], max)
    ensures Working(acts) ==> forall i :: 0 <= i < |accepted| ==> accepted[i]
    ensures Working(acts) ==>
              && Joined(packs) == PutThrough(acts, accepted) && Keeps(files, keep, packs)
              && Forced(packs, forcing, max) && (forall b :: b in forcing ==> Written(b, acts))
    ensures Working(acts) && Whole(acts) ==>
              && (|packs| > keep ==> Size(Flat(files, keep)) >= keep / 2 * (max + 1))
              && (|packs| <= keep || Size(PutThrough(acts, accepted)) <= max ==>
                  Flat(files, keep) == PutThrough(acts, accepted))
  {
    hide Flat, Size, Bounded, IsSuffix, Keeps, Forced, BeginsWith, Joined, Written;
    var r := new Rotator(max, keep);
    accepted, packs, forcing := [], [[]], [];
    NothingFilled(r.files, keep, max);
    var i := 0;
    while i < |acts|
      invariant 0 <= i == |accepted| <= |acts| && r.Valid() && fresh(r) && r.max == max && r.keep == keep
      invariant r.written == PutThrough(acts[..i], accepted)
      invariant Working(acts) ==> r.isOpen && !r.dead && forall j :: 0 <= j < i ==> accepted[j]
      invariant Working(acts) ==>
                  && Joined(packs) == r.written && Keeps(r.files, keep, packs) && Forced(packs, forcing, max)
                  && (forall b :: b in forcing ==> Written(b, acts)) && (Whole(acts) ==> BeginsWith(packs, forcing))
    {
      var ok := true;
      assert acts[i] in acts;
      ghost var before, put := r.files, r.written;
      match acts[i] {
        case Reopens(again) => r.Reopen(again);
          if Working(acts) {
            KeptOpen(before, r.files, keep, packs);
          }
        case Writes(b, fates, through) =>
          var n := if through <= |b| then through else |b|;
          ok := r.Write(b, fates, n);
          if Working(acts) {
            WrittenBy(acts, i, Operations(keep));
            packs, forcing := WriteFills(before, r.files, keep, max, packs, forcing, b, n);
          }
      }
      accepted := accepted + [ok];
      assert acts[..i + 1][..i] == acts[..i] && accepted[..i] == accepted[..|accepted| - 1];
      i := i + 1;
    }
    assert acts[..i] == acts;
    if Working(acts) && Whole(acts) {
      MuchIsKept(r.files, keep, packs, forcing, max);
    }
    return r.files, accepted, packs, forcing;
  }

  lemma NothingFilled(files: Files, keep: nat, max: nat)
    requires files == map[0 := []]
    ensures Joined([[]]) == [] && Keeps(files, keep, [[]]) && Forced([[]], [], max) && BeginsWith([[]], [])
  {
    var packs: seq<seq<Record>> := [[]];
    assert packs[..0] == [];
  }

  lemma KeptOpen(before: Files, after: Files, keep: nat, packs: seq<seq<Record>>)
    requires Keeps(before, keep, packs) && after == before[0 := Slot(before, 0)]
    ensures Keeps(after, keep, packs)
  {
    assert forall i :: 0 <= i < keep ==> Slot(after, i) == Slot(before, i);
  }

  lemma WrittenBy(acts: seq<Act>, i: nat, k: nat)
    requires i < |acts| && acts[i].Writes? && Working(acts)
    ensures Written(acts[i].b, acts) && Clean(acts[i].fates, k)
  {
    assert acts[i] in acts;
    forall j | 0 <= j < k ensures Succeeds(acts[i].fates, j) {
      assert j < |acts[i].fates| ==> acts[i].fates[j] in acts[i].fates;
    }
  }
}
