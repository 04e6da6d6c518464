/** The reveal state machine of the hero section.
    The title words are shown one at a time, each by a timer that fires
    600 ms after the previous word appeared; once every word is shown,
    one more timer shows the subtitle 800 ms later. Time is counted in
    whole milliseconds from the moment the component is mounted. */
module RevealSpec {

  /** Delay of the timer that shows the next title word. */
  const WordIntervalMs: nat := 600
  /** Delay of the timer that shows the subtitle once every word is shown. */
  const SubtitleDelayMs: nat := 800

  /** What the view reads (the number of words shown and whether the subtitle
      is shown), together with whether a reveal timer is currently scheduled. */
  datatype Reveal = Reveal(visibleWords: nat, subtitleVisible: bool, pending: bool)

  function Min(a: nat, b: nat): nat { if a <= b then a else b }

  /** The state right after mount: nothing is shown and the effect has
      scheduled the first timer. */
  function Initial(): Reveal { Reveal(0, false, true) }

  /** The states the sequencer can be in for a title of `n` words: the counter
      never passes `n`, and the subtitle is shown only after every word, at
      which point no timer is left. */
  predicate WellFormed(n: nat, s: Reveal) {
    s.visibleWords <= n && (s.subtitleVisible ==> s.visibleWords == n && !s.pending)
  }

  /** The effect cleanup run on unmount: the scheduled timer is cleared and
      nothing else changes. */
  function Cancelled(s: Reveal): (r: Reveal)
    ensures !r.pending
    ensures r.visibleWords == s.visibleWords && r.subtitleVisible == s.subtitleVisible
  {
    s.(pending := false)
  }

  /** How long the scheduled timer waits: 600 ms while a word is still hidden,
      800 ms for the subtitle, 0 when no timer is scheduled. */
  function StepDelay(n: nat, s: Reveal): (d: nat)
    ensures d == 0 <==> Next(n, s) == s
    ensures d == WordIntervalMs <==> Next(n, s).visibleWords == s.visibleWords + 1
    ensures d == SubtitleDelayMs <==> s.pending && Next(n, s).visibleWords == s.visibleWords
  {
    if !s.pending then 0
    else if s.visibleWords < n then WordIntervalMs
    else SubtitleDelayMs
  }

  /** The scheduled timer fires. A word timer shows one more word, and since
      the counter changed the effect schedules the next timer. The subtitle
      timer shows the subtitle; the counter did not change, so the effect is
      not run again and no timer is left. With no timer scheduled nothing
      happens. */
  function Next(n: nat, s: Reveal): (r: Reveal)
    ensures WellFormed(n, s) ==> WellFormed(n, r)
    ensures s.visibleWords <= r.visibleWords <= s.visibleWords + 1
    ensures s.subtitleVisible ==> r.subtitleVisible
    ensures r.visibleWords == s.visibleWords + 1 <==> s.pending && s.visibleWords < n
    ensures r.visibleWords != s.visibleWords ==> r.subtitleVisible == s.subtitleVisible
    ensures r.subtitleVisible && !s.subtitleVisible ==> s.pending && n <= s.visibleWords
    ensures !s.pending ==> r == s
  {
    if !s.pending then s
    else if s.visibleWords < n then Reveal(s.visibleWords + 1, s.subtitleVisible, true)
    else Reveal(s.visibleWords, true, false)
  }

  /** The state after `k` timers have fired, starting from `s`. */
  function Run(n: nat, s: Reveal, k: nat): Reveal {
    if k == 0 then s else Next(n, Run(n, s, k - 1))
  }

  /** The time, in ms, that `k` timers take to fire, starting from `s`. */
  function Wait(n: nat, s: Reveal, k: nat): nat {
    if k == 0 then 0 else Wait(n, s, k - 1) + StepDelay(n, Run(n, s, k - 1))
  }

  /** The state after the `k`-th transition since mount. */
  function After(n: nat, k: nat): Reveal { Run(n, Initial(), k) }

  /** The time since mount at which the `k`-th transition happens. */
  function Elapsed(n: nat, k: nat): nat { Wait(n, Initial(), k) }

  /** An independent, closed-form description of the state at time `t`:
      one more word every 600 ms up to `n`, the subtitle from 600*n + 800 on. */
  function StateAtTime(n: nat, t: nat): Reveal {
    if t >= n * WordIntervalMs + SubtitleDelayMs then Reveal(n, true, false)
    else Reveal(Min(t / WordIntervalMs, n), false, true)
  }

  /** While a word is hidden, a step waits 600 ms, shows exactly one more word
      and leaves the subtitle alone. */
  lemma WordStep(n: nat, s: Reveal)
    requires WellFormed(n, s) && s.pending && s.visibleWords < n
    ensures StepDelay(n, s) == WordIntervalMs
    ensures Next(n, s) == Reveal(s.visibleWords + 1, false, true)
  {
  }

  /** Once every word is shown, the step waits 800 ms and shows the subtitle. */
  lemma SubtitleStep(n: nat, s: Reveal)
    requires WellFormed(n, s) && s.pending && s.visibleWords == n
    ensures StepDelay(n, s) == SubtitleDelayMs
    ensures Next(n, s) == Reveal(n, true, false)
  {
  }

  /** With no timer scheduled, any number of steps change nothing and take
      no time. */
  lemma {:induction false} Idle(n: nat, s: Reveal, m: nat)
    requires !s.pending
    ensures Run(n, s, m) == s && Wait(n, s, m) == 0
  {
    if m > 0 {
      Idle(n, s, m - 1);
    }
  }

  /** With the subtitle shown the sequencer is terminal: nothing is scheduled,
      any number of further steps change nothing and take no time. */
  lemma {:induction false} Terminal(n: nat, s: Reveal, m: nat)
    requires WellFormed(n, s) && s.subtitleVisible
    ensures Run(n, s, m) == s && Wait(n, s, m) == 0
  {
    Idle(n, s, m);
  }

  /** A cleared timer never fires: after the cleanup, any number of steps
      leave the state as it was and take no time. */
  lemma {:induction false} CancelledIsFrozen(n: nat, s: Reveal, m: nat)
    ensures Run(n, Cancelled(s), m) == Cancelled(s)
    ensures Wait(n, Cancelled(s), m) == 0
  {
    Idle(n, Cancelled(s), m);
  }

  /** The first `n` transitions show the words one by one, the k-th at
      600*k ms, and the subtitle stays hidden. */
  lemma {:induction false} WordTimeline(n: nat, k: nat)
    requires k <= n
    ensures After(n, k) == Reveal(k, false, true)
    ensures Elapsed(n, k) == k * WordIntervalMs
  {
    if k > 0 {
      WordTimeline(n, k - 1);
    }
  }

  /** Transition n + 1 shows the subtitle at 600*n + 800 ms, and the state
      then stays as it is. */
  lemma {:induction false} SubtitleTimeline(n: nat, k: nat)
    requires n < k
    ensures After(n, k) == Reveal(n, true, false)
    ensures Elapsed(n, k) == n * WordIntervalMs + SubtitleDelayMs
  {
    if k == n + 1 {
      WordTimeline(n, n);
    } else {
      SubtitleTimeline(n, k - 1);
    }
  }

  /** The state after any number of transitions, in closed form: the counter is
      min(k, n), and the subtitle is shown exactly when k > n. */
  lemma AfterClosedForm(n: nat, k: nat)
    ensures After(n, k).visibleWords == Min(k, n)
    ensures After(n, k).subtitleVisible <==> n < k
    ensures WellFormed(n, After(n, k))
  {
    if k <= n {
      WordTimeline(n, k);
    } else {
      SubtitleTimeline(n, k);
    }
  }

  /** Progress is monotonic: a later transition never shows fewer words, never
      hides the subtitle again, and never happens earlier. */
  lemma {:induction false} Monotonic(n: nat, j: nat, k: nat)
    requires j <= k
    ensures After(n, j).visibleWords <= After(n, k).visibleWords
    ensures After(n, j).subtitleVisible ==> After(n, k).subtitleVisible
    ensures Elapsed(n, j) <= Elapsed(n, k)
  {
    if j < k {
      Monotonic(n, j, k - 1);
    }
  }

  /** The subtitle comes strictly after the last word, 800 ms later. */
  lemma SubtitleAfterLastWord(n: nat)
    ensures Elapsed(n, n + 1) == Elapsed(n, n) + SubtitleDelayMs
    ensures !After(n, n).subtitleVisible && After(n, n + 1).subtitleVisible
  {
    WordTimeline(n, n);
    SubtitleTimeline(n, n + 1);
  }

  /** With an empty title the first timer is the subtitle's: 800 ms after
      mount the subtitle is shown and no word transition happened. */
  lemma EmptyTitle()
    ensures StepDelay(0, Initial()) == SubtitleDelayMs
    ensures After(0, 1) == Reveal(0, true, false)
    ensures Elapsed(0, 1) == SubtitleDelayMs
  {
    SubtitleTimeline(0, 1);
  }

  /** The timeline of "Build Your Dreams": words at 600, 1200 and 1800 ms,
      the subtitle at 2600 ms. */
  lemma BuildYourDreamsTimeline()
    ensures Elapsed(3, 1) == 600 && After(3, 1).visibleWords == 1
    ensures Elapsed(3, 2) == 1200 && After(3, 2).visibleWords == 2
    ensures Elapsed(3, 3) == 1800 && After(3, 3).visibleWords == 3 && !After(3, 3).subtitleVisible
    ensures Elapsed(3, 4) == 2600 && After(3, 4).subtitleVisible
  {
    WordTimeline(3, 1);
    WordTimeline(3, 2);
    WordTimeline(3, 3);
    SubtitleTimeline(3, 4);
  }

  /** Unmounting after the first word of a three-word title: however long the
      clock runs on, one word stays shown and the subtitle stays hidden. */
  lemma CancelAfterFirstWord(m: nat)
    ensures Run(3, Cancelled(After(3, 1)), m) == Reveal(1, false, false)
  {
    WordTimeline(3, 1);
    CancelledIsFrozen(3, After(3, 1), m);
  }

  lemma DivideInterval(t: nat, k: nat)
    requires k * WordIntervalMs <= t < (k + 1) * WordIntervalMs
    ensures t / WordIntervalMs == k
  {
  }

  /** The step-by-step timeline agrees with the closed form: between the k-th
      and the next transition, the state at time t is the state after the
      k-th transition. */
  lemma StateAtTimeAgrees(n: nat, k: nat, t: nat)
    requires Elapsed(n, k) <= t
    requires k <= n ==> t < Elapsed(n, k + 1)
    ensures StateAtTime(n, t) == After(n, k)
  {
    if k <= n {
      WordTimeline(n, k);
      if k < n {
        WordTimeline(n, k + 1);
        DivideInterval(t, k);
      } else {
        SubtitleTimeline(n, k + 1);
        assert t / WordIntervalMs >= k;
      }
    } else {
      SubtitleTimeline(n, k);
    }
  }
}
