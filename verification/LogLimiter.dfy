/**
  The rate limit on log lines a client can cause (internal/gateway/observe.go):
  one line a key an interval, with entries swept once there are many.
*/
module LogLimiter {

  const MaxKeys := 256

  datatype Call = Call(key: string, now: int)

  /** Whether the line may be written, and what is then remembered. */
  function Allows(last: map<string, int>, every: int, c: Call): bool {
    !(c.key in last && c.now - last[c.key] < every)
  }

  function Swept(last: map<string, int>, every: int, now: int): map<string, int> {
    map k | k in last && now - last[k] < every :: last[k]
  }

  function Remembered(last: map<string, int>, every: int, c: Call): map<string, int> {
    if !Allows(last, every, c) then last
    else (if |last| >= MaxKeys then Swept(last, every, c.now) else last)[c.key := c.now]
  }

  function Answers(last: map<string, int>, every: int, cs: seq<Call>): seq<bool>
    decreases |cs|
  {
    if cs == [] then [] else [Allows(last, every, cs[0])] + Answers(Remembered(last, every, cs[0]), every, cs[1..])
  }

  /** A limiter that never forgets: a line is allowed unless one of its key was, less than the interval ago. */
  predicate MayWrite(cs: seq<Call>, allowed: seq<bool>, every: int, j: nat)
    requires |allowed| == |cs| && j < |cs|
  {
    forall i :: 0 <= i < j && allowed[i] && cs[i].key == cs[j].key ==> cs[j].now - cs[i].now >= every
  }

  predicate Forward(cs: seq<Call>) {
    forall i, j :: 0 <= i <= j < |cs| ==> cs[i].now <= cs[j].now
  }

  /**
    What the map tells of the calls so far: each entry is an allowed line, the
    last of its key, and a key without one has had none within the interval.
  */
  ghost predicate Tells(last: map<string, int>, every: int, cs: seq<Call>, allowed: seq<bool>, done: nat) {
    && done <= |cs| == |allowed|
    && (forall k :: k in last ==> exists i :: 0 <= i < done && allowed[i] && cs[i] == Call(k, last[k]))
    && (forall i, j :: 0 <= i < done <= j < |cs| && allowed[i] && !(cs[i].key in last) ==>
        cs[j].now - cs[i].now >= every)
    && (forall i :: 0 <= i < done && allowed[i] && cs[i].key in last ==> cs[i].now <= last[cs[i].key])
  }

  lemma AnswersCorrectly(last: map<string, int>, every: int, cs: seq<Call>, allowed: seq<bool>, done: nat)
    requires Forward(cs) && done < |cs| && Tells(last, every, cs, allowed, done)
    ensures Allows(last, every, cs[done]) <==> MayWrite(cs, allowed, every, done)
  {
    var c := cs[done];
    if c.key in last {
      var i :| 0 <= i < done && allowed[i] && cs[i] == Call(c.key, last[c.key]);
    }
  }

  lemma SweptTells(last: map<string, int>, every: int, cs: seq<Call>, allowed: seq<bool>, done: nat)
    requires Forward(cs) && done < |cs| && Tells(last, every, cs, allowed, done)
    ensures Tells(Swept(last, every, cs[done].now), every, cs, allowed, done)
  {
    var left := Swept(last, every, cs[done].now);
    forall i, j | 0 <= i < done <= j < |cs| && allowed[i] && !(cs[i].key in left)
        ensures cs[j].now - cs[i].now >= every {
      if cs[i].key in last {
        assert cs[i].now <= last[cs[i].key] && cs[done].now <= cs[j].now;
      }
    }
  }

  lemma RefusedTells(last: map<string, int>, every: int, cs: seq<Call>, allowed: seq<bool>, done: nat)
    requires done < |cs| && Tells(last, every, cs, allowed, done) && !allowed[done]
    ensures Tells(last, every, cs, allowed, done + 1)
  {
  }

  lemma AllowedTells(last: map<string, int>, every: int, cs: seq<Call>, allowed: seq<bool>, done: nat)
    requires Forward(cs) && done < |cs| && Tells(last, every, cs, allowed, done) && allowed[done]
    ensures Tells(last[cs[done].key := cs[done].now], every, cs, allowed, done + 1)
  {
    var next := last[cs[done].key := cs[done].now];
    forall k | k in next ensures exists i :: 0 <= i < done + 1 && allowed[i] && cs[i] == Call(k, next[k]) {
      if k == cs[done].key {
        assert cs[done] == Call(k, next[k]);
      } else {
        var i :| 0 <= i < done && allowed[i] && cs[i] == Call(k, last[k]);
      }
    }
  }

  lemma TellsOn(last: map<string, int>, every: int, cs: seq<Call>, allowed: seq<bool>, done: nat)
    requires Forward(cs) && done < |cs| && Tells(last, every, cs, allowed, done)
    requires allowed[done] == Allows(last, every, cs[done])
    ensures Tells(Remembered(last, every, cs[done]), every, cs, allowed, done + 1)
  {
    hide Tells, Swept, Forward;
    TellsLength(last, every, cs, allowed, done);
    if !allowed[done] {
      RefusedTells(last, every, cs, allowed, done);
    } else {
      SweptTells(last, every, cs, allowed, done);
      AllowedTells(Swept(last, every, cs[done].now), every, cs, allowed, done);
      AllowedTells(last, every, cs, allowed, done);
    }
  }

  lemma TellsLength(last: map<string, int>, every: int, cs: seq<Call>, allowed: seq<bool>, done: nat)
    requires Tells(last, every, cs, allowed, done)
    ensures done <= |cs| == |allowed|
  {
  }

  lemma {:induction false} AnswersFrom(last: map<string, int>, every: int, cs: seq<Call>, allowed: seq<bool>, done: nat)
    requires Forward(cs) && Tells(last, every, cs, allowed, done)
    requires allowed[done..] == Answers(last, every, cs[done..])
    ensures forall j :: done <= j < |cs| ==> (allowed[j] <==> MayWrite(cs, allowed, every, j))
    decreases |cs| - done
  {
    if done < |cs| {
      assert cs[done..][0] == cs[done] && cs[done..][1..] == cs[done + 1..];
      assert allowed[done..][0] == allowed[done] && allowed[done..][1..] == allowed[done + 1..];
      AnswersCorrectly(last, every, cs, allowed, done);
      TellsOn(last, every, cs, allowed, done);
      AnswersFrom(Remembered(last, every, cs[done]), every, cs, allowed, done + 1);
    }
  }

  lemma {:induction false} AsManyAnswers(last: map<string, int>, every: int, cs: seq<Call>)
    ensures |Answers(last, every, cs)| == |cs|
    decreases |cs|
  {
    if cs != [] {
      AsManyAnswers(Remembered(last, every, cs[0]), every, cs[1..]);
    }
  }

  /**
    On a clock that does not go back, the sweeping limiter answers exactly as
    one that never forgets: a line is written just when no line of its key was
    within the interval before.
  */
  lemma SweepingChangesNoAnswer(every: int, cs: seq<Call>)
    requires Forward(cs)
    ensures |Answers(map[], every, cs)| == |cs|
    ensures forall j :: 0 <= j < |cs| ==>
        (Answers(map[], every, cs)[j] <==> MayWrite(cs, Answers(map[], every, cs), every, j))
  {
    AsManyAnswers(map[], every, cs);
    var allowed := Answers(map[], every, cs);
    assert allowed[0..] == allowed && cs[0..] == cs;
    AnswersFrom(map[], every, cs, allowed, 0);
  }

  /**
    What is remembered: with fewer keys than the ceiling every one, and past it
    only those whose line is within the interval, and the one just allowed.
  */
  lemma RememberedExactly(last: map<string, int>, every: int, c: Call)
    requires Allows(last, every, c)
    ensures var after := Remembered(last, every, c);
            && c.key in after && after[c.key] == c.now
            && forall k :: k != c.key ==>
                 (k in after <==> k in last && (|last| < 256 || c.now - last[k] < every))
                 && (k in after ==> after[k] == last[k])
  {
  }

  class LogEvery {
    const every: int
    var last: map<string, int>

    constructor (every: int)
      ensures last == map[] && this.every == every
    {
      this.every, last := every, map[];
    }

    method Allow(key: string, now: int) returns (allowed: bool)
      modifies this
      ensures allowed == Allows(old(last), every, Call(key, now))
      ensures last == Remembered(old(last), every, Call(key, now))
    {
      if key in last && now - last[key] < every {
        return false;
      }
      if |last| >= MaxKeys {
        ghost var was := last;
        var left := last.Keys;
        while left != {}
          invariant left <= was.Keys
          invariant last == map k | k in was && (k in left || now - was[k] < every) :: was[k]
          decreases |left|
        {
          var k :| k in left;
          if now - last[k] >= every {
            last := last - {k};
          }
          left := left - {k};
        }
        assert last == Swept(was, every, now);
      }
      last := last[key := now];
      allowed := true;
    }
  }

  lemma OneAnswered(last: map<string, int>, every: int, cs: seq<Call>, i: nat, allowed: seq<bool>)
    requires i < |cs|
    ensures var c := Call(cs[i].key, cs[i].now);
            allowed + Answers(last, every, cs[i..]) ==
            allowed + [Allows(last, every, c)] + Answers(Remembered(last, every, c), every, cs[i + 1..])
  {
    hide Allows, Remembered;
    var a, rest := Allows(last, every, cs[i]), Answers(Remembered(last, every, cs[i]), every, cs[i + 1..]);
    assert cs[i..][0] == cs[i] && cs[i..][1..] == cs[i + 1..];
    assert allowed + ([a] + rest) == allowed + [a] + rest;
  }

  /** Every line a run of calls writes, and no other, is one the interval lets through. */
  method AnyCalls(every: int, cs: seq<Call>) returns (allowed: seq<bool>)
    requires Forward(cs)
    ensures |allowed| == |cs| && forall j :: 0 <= j < |cs| ==> (allowed[j] <==> MayWrite(cs, allowed, every, j))
  {
    hide Allows, Remembered, MayWrite, Forward;
    var l := new LogEvery(every);
    allowed := [];
    var i := 0;
    while i < |cs|
      invariant 0 <= i == |allowed| <= |cs| && l.every == every && fresh(l)
      invariant allowed + Answers(l.last, every, cs[i..]) == Answers(map[], every, cs)
    {
      OneAnswered(l.last, every, cs, i, allowed);
      var a := l.Allow(cs[i].key, cs[i].now);
      allowed := allowed + [a];
      i := i + 1;
    }
    assert cs[i..] == [] && allowed + [] == allowed;
    SweepingChangesNoAnswer(every, cs);
  }
}
