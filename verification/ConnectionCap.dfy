/**
  The connection caps of a listener (cmd/dessau/listeners.go): slots taken as
  connections are accepted and given back once each, in any order.
*/
module ConnectionCap {
  import opened Common

  datatype Verdict = Admitted | OverLoopback | OverListener | OverAddress

  datatype Conn = Conn(key: string, exempt: bool, live: bool)

  datatype State = State(open: int, loopback: int, byAddr: map<string, int>, conns: seq<Conn>)

  datatype Caps = Caps(perAddr: nat, total: nat)

  datatype Event = Accept(key: string, exempt: bool) | Close(i: nat)

  const Empty := State(0, 0, map[], [])

  function CountAt(byAddr: map<string, int>, key: string): int {
    if key in byAddr then byAddr[key] else 0
  }

  function Judge(caps: Caps, s: State, key: string, exempt: bool): Verdict {
    if exempt then (if s.loopback >= caps.total then OverLoopback else Admitted)
    else if s.open >= caps.total then OverListener
    else if CountAt(s.byAddr, key) >= caps.perAddr then OverAddress
    else Admitted
  }

  function Admit(caps: Caps, s: State, key: string, exempt: bool): State {
    if !Judge(caps, s, key, exempt).Admitted? then s
    else
      var s := s.(conns := s.conns + [Conn(key, exempt, true)]);
      if exempt then s.(loopback := s.loopback + 1)
      else s.(open := s.open + 1, byAddr := s.byAddr[key := CountAt(s.byAddr, key) + 1])
  }

  /** Gives a connection's slot back. */
  function Release(s: State, key: string, exempt: bool): State {
    if exempt then s.(loopback := s.loopback - 1)
    else
      var n := CountAt(s.byAddr, key) - 1;
      s.(open := s.open - 1, byAddr := if n <= 0 then s.byAddr - {key} else s.byAddr[key := n])
  }

  /** Closes a connection, for the first time or again. */
  function Shut(s: State, i: nat): State {
    if i >= |s.conns| || !s.conns[i].live then s
    else Release(s.(conns := s.conns[i := s.conns[i].(live := false)]), s.conns[i].key, s.conns[i].exempt)
  }

  function Step(caps: Caps, s: State, e: Event): State {
    match e
    case Accept(key, exempt) => Admit(caps, s, key, exempt)
    case Close(i) => Shut(s, i)
  }

  function Run(caps: Caps, s: State, es: seq<Event>): State
    decreases |es|
  {
    if es == [] then s else Run(caps, Step(caps, s, es[0]), es[1..])
  }

  /** One admitted is the last of the connections and live, one refused leaves no trace, and a close is for good. */
  lemma EachEventIsRecorded(caps: Caps, s: State, key: string, exempt: bool, i: nat)
    ensures var t := Step(caps, s, Accept(key, exempt));
            if Judge(caps, s, key, exempt).Admitted? then t.conns == s.conns + [Conn(key, exempt, true)] else t == s
    ensures var t := Step(caps, s, Close(i));
            if i < |s.conns| && s.conns[i].live then t.conns == s.conns[i := s.conns[i].(live := false)] else t == s
  {
  }

  // ------------------------------------------------------- live connections

  function LiveLoopback(cs: seq<Conn>): nat {
    if cs == [] then 0 else (if cs[0].live && cs[0].exempt then 1 else 0) + LiveLoopback(cs[1..])
  }

  function LiveRemote(cs: seq<Conn>): nat {
    if cs == [] then 0 else (if cs[0].live && !cs[0].exempt then 1 else 0) + LiveRemote(cs[1..])
  }

  function LiveFrom(cs: seq<Conn>, key: string): nat {
    if cs == [] then 0 else (if cs[0].live && !cs[0].exempt && cs[0].key == key then 1 else 0) + LiveFrom(cs[1..], key)
  }

  /** The sum of a map's figures. */
  ghost function Sum(m: map<string, int>): int {
    if m == map[] then 0 else
    assert m.Keys != {};
    var k :| k in m;
    m[k] + Sum(m - {k})
  }

  lemma {:induction false} SumTakes(m: map<string, int>, key: string)
    requires key in m
    ensures Sum(m) == m[key] + Sum(m - {key})
  {
    var k :| k in m && Sum(m) == m[k] + Sum(m - {k});
    if k != key {
      SumTakes(m - {k}, key);
      SumTakes(m - {key}, k);
      assert m - {k} - {key} == m - {key} - {k};
    }
  }

  lemma SumPuts(m: map<string, int>, key: string, n: int)
    ensures Sum(m[key := n]) == Sum(m) - CountAt(m, key) + n
  {
    var after := m[key := n];
    SumTakes(after, key);
    assert after - {key} == m - {key};
    if key in m {
      SumTakes(m, key);
    } else {
      assert m - {key} == m;
    }
  }

  ghost predicate Inv(caps: Caps, s: State) {
    && s.loopback == LiveLoopback(s.conns) <= caps.total
    && s.open == LiveRemote(s.conns) == Sum(s.byAddr) && s.open <= caps.total
    && (forall k :: CountAt(s.byAddr, k) == LiveFrom(s.conns, k))
    && (forall k :: k in s.byAddr ==> 1 <= s.byAddr[k] <= caps.perAddr)
  }

  lemma {:induction false} OneMore(cs: seq<Conn>, c: Conn)
    requires c.live
    ensures LiveLoopback(cs + [c]) == LiveLoopback(cs) + (if c.exempt then 1 else 0)
    ensures LiveRemote(cs + [c]) == LiveRemote(cs) + (if c.exempt then 0 else 1)
    ensures forall k :: LiveFrom(cs + [c], k) == LiveFrom(cs, k) + (if !c.exempt && c.key == k then 1 else 0)
  {
    if cs == [] {
      assert cs + [c] == [c] && [c][1..] == [];
    } else {
      assert (cs + [c])[1..] == cs[1..] + [c];
      OneMore(cs[1..], c);
    }
  }

  lemma {:induction false} OneLess(cs: seq<Conn>, i: nat)
    requires i < |cs| && cs[i].live
    ensures var after := cs[i := cs[i].(live := false)];
            && LiveLoopback(after) == LiveLoopback(cs) - (if cs[i].exempt then 1 else 0)
            && LiveRemote(after) == LiveRemote(cs) - (if cs[i].exempt then 0 else 1)
            && forall k :: LiveFrom(after, k) == LiveFrom(cs, k) - (if !cs[i].exempt && cs[i].key == k then 1 else 0)
  {
    var after := cs[i := cs[i].(live := false)];
    if i == 0 {
      assert after[1..] == cs[1..];
    } else {
      assert after[1..] == cs[1..][i - 1 := cs[i].(live := false)];
      OneLess(cs[1..], i - 1);
    }
  }

  lemma AdmitKeeps(caps: Caps, s: State, key: string, exempt: bool)
    requires Inv(caps, s)
    ensures Inv(caps, Admit(caps, s, key, exempt))
  {
    hide Sum, LiveLoopback, LiveRemote, LiveFrom;
    OneMore(s.conns, Conn(key, exempt, true));
    SumPuts(s.byAddr, key, CountAt(s.byAddr, key) + 1);
  }

  lemma ShutKeeps(caps: Caps, s: State, i: nat)
    requires Inv(caps, s)
    ensures Inv(caps, Shut(s, i))
  {
    hide Sum, LiveLoopback, LiveRemote, LiveFrom;
    if i < |s.conns| && s.conns[i].live {
      var c := s.conns[i];
      OneLess(s.conns, i);
      if !c.exempt {
        LiveAt(s.conns, i);
        assert CountAt(s.byAddr, c.key) >= 1;
        SumPuts(s.byAddr, c.key, CountAt(s.byAddr, c.key) - 1);
        SumTakes(s.byAddr, c.key);
      }
    }
  }

  lemma {:induction false} LiveAt(cs: seq<Conn>, i: nat)
    requires i < |cs| && cs[i].live && !cs[i].exempt
    ensures LiveFrom(cs, cs[i].key) >= 1
  {
    if i > 0 {
      LiveAt(cs[1..], i - 1);
    }
  }

  /**
    Over every interleaving of accepts and closes, repeated closes among them:
    the totals count the live connections, each address's entry counts its
    own and stands exactly while it has one, and no cap is passed.
  */
  lemma {:induction false} CountsAreTheLiveOnes(caps: Caps, s: State, es: seq<Event>)
    requires Inv(caps, s)
    ensures Inv(caps, Run(caps, s, es))
    decreases |es|
  {
    hide Inv;
    if es != [] {
      match es[0] {
        case Accept(key, exempt) => AdmitKeeps(caps, s, key, exempt);
        case Close(i) => ShutKeeps(caps, s, i);
      }
      CountsAreTheLiveOnes(caps, Step(caps, s, es[0]), es[1..]);
    }
  }

  lemma NothingOpen(caps: Caps)
    ensures Inv(caps, Empty)
  {
  }

  /** A connection is refused exactly when the cap it is named for is full of live connections. */
  lemma RefusedExactly(caps: Caps, es: seq<Event>, key: string, exempt: bool)
    ensures var s := Run(caps, Empty, es);
            var v := Judge(caps, s, key, exempt);
            && (v.OverLoopback? <==> exempt && LiveLoopback(s.conns) == caps.total)
            && (v.OverListener? <==> !exempt && LiveRemote(s.conns) == caps.total)
            && (v.OverAddress? <==>
                  !exempt && LiveRemote(s.conns) < caps.total && LiveFrom(s.conns, key) == caps.perAddr)
  {
    NothingOpen(caps);
    CountsAreTheLiveOnes(caps, Empty, es);
    var s := Run(caps, Empty, es);
    assert CountAt(s.byAddr, key) == LiveFrom(s.conns, key);
  }

  /** No slot leaks: with every connection closed, nothing is counted. */
  lemma ClosedMeansEmpty(caps: Caps, es: seq<Event>)
    requires forall c :: c in Run(caps, Empty, es).conns ==> !c.live
    ensures var s := Run(caps, Empty, es); s.open == 0 && s.loopback == 0 && s.byAddr == map[]
  {
    NothingOpen(caps);
    CountsAreTheLiveOnes(caps, Empty, es);
    var s := Run(caps, Empty, es);
    NoneLive(s.conns);
    forall k | k in s.byAddr ensures false {
      assert CountAt(s.byAddr, k) == LiveFrom(s.conns, k);
    }
  }

  lemma {:induction false} NoneLive(cs: seq<Conn>)
    requires forall c :: c in cs ==> !c.live
    ensures LiveLoopback(cs) == 0 && LiveRemote(cs) == 0 && forall k :: LiveFrom(cs, k) == 0
  {
    if cs != [] {
      assert cs[0] in cs;
      NoneLive(cs[1..]);
    }
  }

  // ------------------------------------------------ loopback and the network

  /** One side's connections. */
  function Own(cs: seq<Conn>, exempt: bool): seq<Conn> {
    if cs == [] then [] else if cs[0].exempt == exempt then [cs[0]] + Own(cs[1..], exempt) else Own(cs[1..], exempt)
  }

  /** Where a connection stands among its side's. */
  function Rank(cs: seq<Conn>, i: nat, exempt: bool): nat
    requires i <= |cs|
  {
    |Own(cs[..i], exempt)|
  }

  /** One side's events, as they would be if the other side did not connect. */
  function Side(caps: Caps, s: State, es: seq<Event>, exempt: bool): seq<Event>
    decreases |es|
  {
    if es == [] then []
    else
      var rest := Side(caps, Step(caps, s, es[0]), es[1..], exempt);
      match es[0]
      case Accept(key, ex) => if ex == exempt then [es[0]] + rest else rest
      case Close(i) =>
        if i < |s.conns| && s.conns[i].exempt == exempt then [Close(Rank(s.conns, i, exempt))] + rest else rest
  }

  /** How one side's connections are answered. */
  function Verdicts(caps: Caps, s: State, es: seq<Event>, exempt: bool): seq<Verdict>
    decreases |es|
  {
    if es == [] then []
    else
      var rest := Verdicts(caps, Step(caps, s, es[0]), es[1..], exempt);
      if es[0].Accept? && es[0].exempt == exempt then [Judge(caps, s, es[0].key, exempt)] + rest else rest
  }

  /** The states agree on one side, and the second has no other. */
  predicate SameSide(s: State, t: State, exempt: bool) {
    && t.conns == Own(s.conns, exempt)
    && (if exempt then s.loopback == t.loopback else s.open == t.open && s.byAddr == t.byAddr)
  }

  lemma {:induction false} OwnAppended(cs: seq<Conn>, c: Conn, exempt: bool)
    ensures Own(cs + [c], exempt) == if c.exempt == exempt then Own(cs, exempt) + [c] else Own(cs, exempt)
  {
    if cs == [] {
      assert cs + [c] == [c] && [c][1..] == [];
    } else {
      assert (cs + [c])[1..] == cs[1..] + [c];
      OwnAppended(cs[1..], c, exempt);
    }
  }

  lemma {:induction false} OwnReplaced(cs: seq<Conn>, i: nat, c: Conn, exempt: bool)
    requires i < |cs| && c.exempt == cs[i].exempt
    ensures var r := Rank(cs, i, exempt);
            if c.exempt == exempt then
              && r < |Own(cs, exempt)| && Own(cs, exempt)[r] == cs[i]
              && Own(cs[i := c], exempt) == Own(cs, exempt)[r := c]
            else Own(cs[i := c], exempt) == Own(cs, exempt)
  {
    if i == 0 {
      assert cs[i := c][1..] == cs[1..] && cs[..0] == [];
    } else {
      assert cs[i := c][1..] == cs[1..][i - 1 := c];
      assert cs[..i][0] == cs[0] && cs[..i][1..] == cs[1..][..i - 1];
      OwnReplaced(cs[1..], i - 1, c, exempt);
    }
  }

  lemma OtherSideSteps(caps: Caps, s: State, t: State, e: Event, exempt: bool)
    requires SameSide(s, t, exempt)
    requires match e case Accept(_, ex) => ex != exempt case Close(i) => i >= |s.conns| || s.conns[i].exempt != exempt
    ensures SameSide(Step(caps, s, e), t, exempt)
  {
    match e
    case Accept(key, ex) => OwnAppended(s.conns, Conn(key, ex, true), exempt);
    case Close(i) =>
      if i < |s.conns| {
        OwnReplaced(s.conns, i, s.conns[i].(live := false), exempt);
      }
  }

  lemma OwnSideSteps(caps: Caps, s: State, t: State, e: Event, exempt: bool)
    requires SameSide(s, t, exempt)
    requires match e case Accept(_, ex) => ex == exempt case Close(i) => i < |s.conns| && s.conns[i].exempt == exempt
    ensures var f := if e.Accept? then e else Close(Rank(s.conns, e.i, exempt));
            SameSide(Step(caps, s, e), Step(caps, t, f), exempt)
  {
    match e
    case Accept(key, ex) => OwnAppended(s.conns, Conn(key, ex, true), exempt);
    case Close(i) => OwnReplaced(s.conns, i, s.conns[i].(live := false), exempt);
  }

  /**
    Loopback is answered as if nothing came from the network, and the network
    as if nothing came from this Mac, whatever the other side opens and closes.
  */
  lemma {:induction false} SidesDoNotMeet(caps: Caps, s: State, t: State, es: seq<Event>, exempt: bool)
    requires SameSide(s, t, exempt)
    ensures Verdicts(caps, s, es, exempt) == Verdicts(caps, t, Side(caps, s, es, exempt), exempt)
    decreases |es|
  {
    hide SameSide, Step, Judge, Rank;
    if es != [] {
      var e := es[0];
      var rest := Side(caps, Step(caps, s, e), es[1..], exempt);
      if (match e case Accept(_, ex) => ex == exempt case Close(i) => i < |s.conns| && s.conns[i].exempt == exempt) {
        var f := if e.Accept? then e else Close(Rank(s.conns, e.i, exempt));
        assert ([f] + rest)[1..] == rest;
        OwnSideSteps(caps, s, t, e, exempt);
        SidesDoNotMeet(caps, Step(caps, s, e), Step(caps, t, f), es[1..], exempt);
        if e.Accept? {
          SameVerdict(caps, s, t, e.key, exempt);
        }
      } else {
        OtherSideSteps(caps, s, t, e, exempt);
        SidesDoNotMeet(caps, Step(caps, s, e), t, es[1..], exempt);
      }
    }
  }

  lemma SameVerdict(caps: Caps, s: State, t: State, key: string, exempt: bool)
    requires SameSide(s, t, exempt)
    ensures Judge(caps, s, key, exempt) == Judge(caps, t, key, exempt)
  {
  }

  class Listener {
    const caps: Caps
    var open: int
    var loopback: int
    var byAddr: map<string, int>
    var conns: seq<Conn>

    function View(): State
      reads this
    {
      State(open, loopback, byAddr, conns)
    }

    ghost predicate Valid()
      reads this
    {
      Inv(caps, View())
    }

    constructor (perAddr: nat, total: nat)
      ensures Valid() && View() == Empty && caps == Caps(perAddr, total)
    {
      caps := Caps(perAddr, total);
      open, loopback, byAddr, conns := 0, 0, map[], [];
    }

    /** admit, and the connection handed on when it is. */
    method Accept(key: string, exempt: bool) returns (v: Verdict)
      requires Valid()
      modifies this
      ensures Valid() && View() == Admit(caps, old(View()), key, exempt) && v == Judge(caps, old(View()), key, exempt)
    {
      AdmitKeeps(caps, View(), key, exempt);
      hide Inv;
      if exempt {
        if loopback >= caps.total {
          return OverLoopback;
        }
        loopback := loopback + 1;
      } else {
        if open >= caps.total {
          return OverListener;
        }
        var n := if key in byAddr then byAddr[key] else 0;
        if n >= caps.perAddr {
          return OverAddress;
        }
        open := open + 1;
        byAddr := byAddr[key := n + 1];
      }
      conns := conns + [Conn(key, exempt, true)];
      v := Admitted;
    }

    /** Closing a connection, which gives its slot back the first time only. */
    method Close(i: nat)
      requires Valid() && i < |conns|
      modifies this
      ensures Valid() && View() == Shut(old(View()), i)
    {
      ShutKeeps(caps, View(), i);
      hide Inv;
      var c := conns[i];
      if !c.live {
        return;
      }
      conns := conns[i := c.(live := false)];
      if c.exempt {
        loopback := loopback - 1;
        return;
      }
      open := open - 1;
      var n := (if c.key in byAddr then byAddr[c.key] else 0) - 1;
      byAddr := if n <= 0 then byAddr - {c.key} else byAddr[c.key := n];
    }
  }
}
