/** The reveal sequencer owned by the hero section: the state cells the
    component keeps, the mount effects that generate the jitter and schedule
    the first timer, the timer callbacks, and the effect cleanup. Timers run on
    a virtual clock: each `Step` is the scheduled timer firing. */
module HeroReveal {
  import opened RevealSpec
  import opened RevealView

  class RevealSequencer {
    const titleWords: seq<string>
    var visibleWords: nat
    var subtitleVisible: bool
    /** A reveal timer is scheduled and has not been cleared. */
    var pending: bool
    var delays: seq<nat>
    var subtitleDelay: nat
    /** Virtual time since mount, in ms. */
    var now: nat
    /** Number of timers that have fired, and whether the cleanup has run. */
    ghost var ticks: nat
    ghost var cancelled: bool

    function State(): Reveal
      reads this
    {
      Reveal(visibleWords, subtitleVisible, pending)
    }

    ghost predicate Valid()
      reads this
    {
      && |delays| == |titleWords| && JitterBounded(delays)
      && subtitleDelay < MaxSubtitleJitterMs
      && State() == (if cancelled then Cancelled(After(|titleWords|, ticks)) else After(|titleWords|, ticks))
      && now == Elapsed(|titleWords|, ticks)
    }

    /** Mounting: the state cells start at 0 and false, the jitter effect
        draws one value per word and one for the subtitle, and the reveal
        effect schedules the first timer. */
    constructor (titleWords: seq<string>, wordDraws: seq<nat>, subtitleDraw: nat)
      requires |wordDraws| == |titleWords|
      requires forall i :: 0 <= i < |wordDraws| ==> wordDraws[i] < DrawScale
      requires subtitleDraw < DrawScale
      ensures Valid() && WellFormed(|titleWords|, State())
      ensures this.titleWords == titleWords
      ensures State() == Initial() && now == 0
      ensures delays == JitterTable(titleWords, wordDraws)
      ensures subtitleDelay == Jitter(subtitleDraw, MaxSubtitleJitterMs)
      ensures ticks == 0 && !cancelled
    {
      this.titleWords := titleWords;
      visibleWords := 0;
      subtitleVisible := false;
      delays := JitterTable(titleWords, wordDraws);
      subtitleDelay := Jitter(subtitleDraw, MaxSubtitleJitterMs);
      pending := true;
      now := 0;
      ticks := 0;
      cancelled := false;
    }

    /** The scheduled timer fires, if there is one: `fired` says whether it
        did and `delay` how long it waited. */
    method Step() returns (fired: bool, delay: nat)
      requires Valid()
      modifies this
      ensures Valid() && WellFormed(|titleWords|, State())
      ensures fired == old(pending)
      ensures delay == StepDelay(|titleWords|, old(State()))
      ensures State() == Next(|titleWords|, old(State()))
      ensures now == old(now) + delay
      ensures ticks == (if fired then old(ticks) + 1 else old(ticks))
      ensures delays == old(delays) && subtitleDelay == old(subtitleDelay) && cancelled == old(cancelled)
    {
      AfterClosedForm(|titleWords|, ticks);
      if !pending {
        fired, delay := false, 0;
        return;
      }
      fired := true;
      if visibleWords < |titleWords| {
        delay := WordIntervalMs;
        visibleWords := visibleWords + 1;
      } else {
        delay := SubtitleDelayMs;
        subtitleVisible := true;
        pending := false;
      }
      now := now + delay;
      ticks := ticks + 1;
      AfterClosedForm(|titleWords|, ticks);
    }

    /** The effect cleanup on unmount: the scheduled timer is cleared. */
    method Cancel()
      requires Valid()
      modifies this
      ensures Valid() && WellFormed(|titleWords|, State())
      ensures State() == Cancelled(old(State()))
      ensures cancelled && ticks == old(ticks) && now == old(now)
      ensures delays == old(delays) && subtitleDelay == old(subtitleDelay)
    {
      AfterClosedForm(|titleWords|, ticks);
      pending := false;
      cancelled := true;
    }
  }

  /** "Build Your Dreams" runs to completion: words at 600, 1200 and 1800 ms,
      the subtitle at 2600 ms, and nothing after that. */
  method BuildYourDreamsScenario(wordDraws: seq<nat>, subtitleDraw: nat)
    requires |wordDraws| == 3
    requires forall i :: 0 <= i < 3 ==> wordDraws[i] < DrawScale
    requires subtitleDraw < DrawScale
  {
    var r := new RevealSequencer(["Build", "Your", "Dreams"], wordDraws, subtitleDraw);
    var fired, delay := r.Step();
    assert r.now == 600 && r.visibleWords == 1;
    fired, delay := r.Step();
    assert r.now == 1200 && r.visibleWords == 2;
    fired, delay := r.Step();
    assert r.now == 1800 && r.visibleWords == 3 && !r.subtitleVisible;
    fired, delay := r.Step();
    assert delay == 800 && r.now == 2600 && r.subtitleVisible;
    fired, delay := r.Step();
    assert !fired && r.now == 2600 && r.State() == Reveal(3, true, false);
  }

  /** Unmounting after the first word: later steps fire nothing. */
  method CancelAfterFirstWordScenario(wordDraws: seq<nat>, subtitleDraw: nat)
    requires |wordDraws| == 3
    requires forall i :: 0 <= i < 3 ==> wordDraws[i] < DrawScale
    requires subtitleDraw < DrawScale
  {
    var r := new RevealSequencer(["Build", "Your", "Dreams"], wordDraws, subtitleDraw);
    var fired, delay := r.Step();
    r.Cancel();
    fired, delay := r.Step();
    fired, delay := r.Step();
    fired, delay := r.Step();
    assert !fired && r.visibleWords == 1 && !r.subtitleVisible && r.now == 600;
  }
}
