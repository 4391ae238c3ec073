/**
  The refresh goroutine's own variables, changed arm by arm
  (internal/discovery/discovery.go). Each method is one stretch between two
  places the goroutine waits, held to the step of BonjourRefresh.
*/
module BonjourLoop {
  import opened Common
  import opened BonjourRefresh

  class RefreshLoop {
    var pc: Pc
    var cancelled: bool
    var ads: seq<Ad>
    var responders: seq<Responder>
    var serving: bool
    var down: bool
    var last: Text
    var reports: seq<Report>

    function View(): Loop
      reads this
    {
      Loop(pc, cancelled, ads, responders, serving, down, last, reports)
    }

    ghost predicate Valid()
      reads this
    {
      LoopInv(View())
    }

    /** Start, once the service is registered. */
    constructor (text: Text)
      requires Filled(text)
      ensures Valid() && View() == NewLoop(text)
    {
      pc, cancelled, ads, responders := Select, false, [Ad(text, 0, false, false)], [Responder(0, true)];
      serving, down, last, reports := true, false, text, [];
    }

    /** stopped: whether the held registration's responder has returned. */
    method Stopped() returns (stopped: bool)
      requires Valid()
      ensures stopped <==> !Answering(View())
    {
      stopped := !responders[ads[|ads| - 1].responder].alive;
    }

    method CancelHeld(spend: bool)
      requires Valid()
      modifies this`ads
      ensures View() == SetHeld(old(View()),
          Held(old(View())).(cancelled := true, spent := spend || Held(old(View())).spent))
    {
      var ad := ads[|ads| - 1];
      ads := ads[|ads| - 1 := ad.(cancelled := true, spent := spend || ad.spent)];
    }

    method ReportDown()
      modifies this`down, this`reports
      ensures View() == GoDown(old(View()))
    {
      if !down {
        down, reports := true, reports + [Lost];
      }
    }

    /** The responder's channel closed. */
    method OnDeath()
      requires Valid() && pc.Select? && serving && !Answering(View())
      modifies this
      ensures Valid() && View() == LoopStep(old(View()), SeesDeath)
    {
      hide LoopInv;
      LoopStepKeeps(View(), SeesDeath);
      HasAd(View());
      if cancelled {
        pc := Leaving;
        return;
      }
      CancelHeld(false);
      serving := false;
      ReportDown();
    }

    /** The timer fired and the record now reads cur. */
    method OnTick(cur: Text)
      requires Valid() && pc.Select? && Filled(cur)
      modifies this
      ensures Valid() && View() == LoopStep(old(View()), Tick(cur))
    {
      hide LoopInv, SameText;
      LoopStepKeeps(View(), Tick(cur));
      HasAd(View());
      if down && serving {
        var stopped := Stopped();
        if !stopped {
          down, reports := false, reports + [Back];
        }
      }
      if serving && SameText(last, cur) {
        return;
      }
      pc := if serving then StandDown(cur) else Check(cur);
    }

    /** standDown: a responder that has gone by now is cancelled, and one that has not is withdrawn. */
    method OnStandDown()
      requires Valid() && pc.StandDown?
      modifies this
      ensures Valid() && View() == LoopStep(old(View()), StandsDown)
    {
      hide LoopInv, SameText;
      LoopStepKeeps(View(), StandsDown);
      HasAd(View());
      var stopped := Stopped();
      CancelHeld(!stopped);
      if stopped {
        serving, pc := false, Check(pc.cur);
      } else {
        pc := Goodbye(pc.cur);
      }
    }

    /** Past the goodbye: serves what still says the right thing, or registers it afresh. */
    method PutBack(ok: bool)
      requires Valid() && pc.Put?
      modifies this
      ensures Valid() && View() == LoopStep(old(View()), Puts(ok))
    {
      hide LoopInv, SameText;
      LoopStepKeeps(View(), Puts(ok));
      HasAd(View());
      var cur, r, ad := pc.cur, |responders|, ads[|ads| - 1];
      if !ad.spent && SameText(ad.text, cur) {
        responders := responders + [Responder(|ads| - 1, true)];
        ads := ads[|ads| - 1 := ad.(responder := r, cancelled := false)];
      } else if ok {
        responders := responders + [Responder(|ads|, true)];
        ads := ads + [Ad(cur, r, false, false)];
      } else {
        ReportDown();
        pc := Select;
        return;
      }
      serving, last, pc := true, cur, After;
    }

    /** The deferred withdraw of a goroutine on its way out. */
    method Leave()
      requires Valid() && pc.Leaving?
      modifies this
      ensures Valid() && View() == LoopStep(old(View()), Leaves)
    {
      LoopStepKeeps(View(), Leaves);
      CancelHeld(true);
      pc := LastGoodbye;
    }
  }
}
