# Hero reveal sequencer

This project models the text-reveal logic of the `HeroFuturistic` landing-page hero. The title "Build Your Dreams" is split into words. A timer shows one more word 600 ms after each word appears. Once every word is shown, one more timer shows the subtitle 800 ms later. The view reads the counter `visibleWords` and the flag `subtitleVisible` to decide which items get their entrance animation class. It adds a small random "glitch" jitter to each item's animation start time.

The model has three modules:

- `RevealSpec` (`reveal_spec.dfy`) is the state machine as pure functions. `Next` fires the scheduled timer. `StepDelay` is how long that timer waits. `Run`, `After` and `Elapsed` give the states and the times of successive transitions. `StateAtTime` is an independent closed-form timeline. The lemmas prove progress, bounds, ordering, the terminal state, cancellation and the exact millisecond timeline, and they show that the step-by-step and closed-form timelines agree.
- `RevealView` (`reveal_view.dfy`) covers what the view renders from the state: word and subtitle classes and opacities, the shown words, the jitter table, and animation delays in whole milliseconds.
- `HeroReveal` (`hero_reveal.dfy`) holds the `RevealSequencer` class. Its fields are the component's state cells and the timer bookkeeping. The constructor is the mount and its effects. `Step` is a timer firing and `Cancel` is the effect cleanup. Ghost fields tie each object state to `RevealSpec.After` and `RevealSpec.Elapsed`. Two client methods replay the "Build Your Dreams" timeline and an unmount after the first word.

Two points about the source's behaviour shape the model:

- After the subtitle timer fires, the effect's dependencies (`visibleWords` and the word count, `hero-futuristic.tsx:208`) have not changed. So no new timer is scheduled, and the model's state has `pending == false`, which is terminal. A `Step` with no timer pending is a no-op that reports `fired == false` and a delay of 0.
- One reading of the component describes a repeating 600 ms ticker. The code instead schedules a fresh one-shot timeout each time the counter changes, and clears the old one in the cleanup. The model follows the code. Both give the same timeline: word k at 600·k ms and the subtitle at 600·N + 800 ms.

## Model

| member | source | states |
|---|---|---|
| RevealSpec.Next | src/components/ui/hero-futuristic.tsx:200-208 | a step keeps the counter within [0, N]; it raises the counter by exactly one iff a timer is pending and a word is hidden, and then leaves the subtitle alone; it sets the subtitle only when every word is shown; it never hides anything; with no timer pending it changes nothing |
| RevealSpec.StepDelay | src/components/ui/hero-futuristic.tsx:201-206 | the scheduled timer waits 0 ms exactly when firing it changes nothing (no timer pending), 600 ms exactly when it shows one more word, and 800 ms exactly when a pending timer fires without showing a word (the subtitle timer) |
| RevealSpec.Cancelled | src/components/ui/hero-futuristic.tsx:203-206 | the cleanup leaves no timer pending and keeps the shown words and the subtitle flag as they were |
| RevealSpec.Idle | src/components/ui/hero-futuristic.tsx:200-208 | with no timer pending, any number of steps change nothing and take no time |
| RevealSpec.WordStep | src/components/ui/hero-futuristic.tsx:201-202 | while a word is hidden, the step waits 600 ms and shows exactly one more word with the subtitle still hidden and the next timer scheduled |
| RevealSpec.SubtitleStep | src/components/ui/hero-futuristic.tsx:204-205 | with every word shown, the step waits 800 ms and shows the subtitle, leaving no timer scheduled |
| RevealSpec.Terminal | src/components/ui/hero-futuristic.tsx:204-208 | once the subtitle is shown, any number of further steps change nothing and take no time |
| RevealSpec.CancelledIsFrozen | src/components/ui/hero-futuristic.tsx:202-206 | after the cleanup clears the pending timeout, no transition ever happens and no time passes in transitions |
| RevealSpec.WordTimeline | src/components/ui/hero-futuristic.tsx:189-202 | for k ≤ N, after k transitions exactly k words are shown, the subtitle is hidden, and the k-th word appeared at 600·k ms |
| RevealSpec.SubtitleTimeline | src/components/ui/hero-futuristic.tsx:204-205 | every transition count beyond N gives all N words shown and the subtitle shown, at 600·N + 800 ms |
| RevealSpec.AfterClosedForm | src/components/ui/hero-futuristic.tsx:189-208 | after k transitions the counter is min(k, N), never above N; the subtitle is shown iff k > N; the state is well formed |
| RevealSpec.Monotonic | src/components/ui/hero-futuristic.tsx:200-208 | later transitions never show fewer words, never hide the subtitle again and never happen earlier |
| RevealSpec.SubtitleAfterLastWord | src/components/ui/hero-futuristic.tsx:201-205 | the subtitle is hidden when the last word appears and shown at the next transition, exactly 800 ms later |
| RevealSpec.EmptyTitle | src/components/ui/hero-futuristic.tsx:201-205 | with no words, the first timer is the subtitle's and shows it at 800 ms with no word transition |
| RevealSpec.BuildYourDreamsTimeline | src/components/ui/hero-futuristic.tsx:187-205 | for the three-word title, the words appear at 600, 1200 and 1800 ms and the subtitle at 2600 ms |
| RevealSpec.CancelAfterFirstWord | src/components/ui/hero-futuristic.tsx:200-206 | unmounting a three-word title after the first word leaves one word shown and the subtitle hidden forever |
| RevealSpec.StateAtTimeAgrees | src/components/ui/hero-futuristic.tsx:200-208 | at every time t between the k-th and next transition, the closed-form state at t equals the state after k steps |
| RevealView.WordClass | src/components/ui/hero-futuristic.tsx:218 | word i gets the fade-in/glitch class iff i < visibleWords, otherwise no class |
| RevealView.WordOpacity | src/components/ui/hero-futuristic.tsx:221 | word i's opacity is left to the stylesheet iff i < visibleWords, otherwise forced to 0 |
| RevealView.SubtitleClass | src/components/ui/hero-futuristic.tsx:231 | the subtitle gets its fade-in class iff it is visible, otherwise no class |
| RevealView.SubtitleOpacity | src/components/ui/hero-futuristic.tsx:234 | the subtitle's opacity is forced to 0 iff it is not visible |
| RevealView.RenderedShown | src/components/ui/hero-futuristic.tsx:218-221 | a word carries the fade-in class with its opacity not forced to 0 exactly when its index is below visibleWords |
| RevealView.ShownWordsArePrefix | src/components/ui/hero-futuristic.tsx:215-226 | the words rendered as shown, read one by one, are exactly the first min(visibleWords, N) words of the title |
| RevealView.RenderAfter | src/components/ui/hero-futuristic.tsx:215-234 | after k transitions the rendered words are the first min(k, N) title words, and the subtitle is rendered only when the whole title is |
| RevealView.Jitter | src/components/ui/hero-futuristic.tsx:196-197 | the jitter is the draw scaled to its bound (70 ms per word, 100 ms for the subtitle) and rounded down to whole ms: ms·1000 ≤ draw·max < (ms + 1)·1000, hence below the bound |
| RevealView.JitterTable | src/components/ui/hero-futuristic.tsx:196 | the jitter table has exactly one entry per title word; entry i is the jitter of draw i, scaled to 70 ms, hence below 70 ms |
| RevealView.JitterOf | src/components/ui/hero-futuristic.tsx:220 | a word's jitter is its table entry, 0 when the table has no entry for it yet, and below 70 ms when the table is bounded |
| RevealView.WordAnimationDelay | src/components/ui/hero-futuristic.tsx:220 | word i's animation delay is i·130 ms plus its table entry, or exactly i·130 ms when the table has no entry for it; it lies in [i·130, i·130 + 70) when the jitter is bounded (integer ms for the source's float seconds) |
| RevealView.SubtitleAnimationDelay | src/components/ui/hero-futuristic.tsx:233 | the subtitle's animation delay is N·130 + 200 ms plus the subtitle jitter, so at least N·130 + 200 ms, and less than N·130 + 300 ms when its jitter is below 100 ms (integer ms for the source's float seconds) |
| RevealView.StaggerKeepsOrder | src/components/ui/hero-futuristic.tsx:219-220 | with jitter below 70 ms, word animation delays strictly increase with the word index |
| RevealView.SubtitleAnimatesLast | src/components/ui/hero-futuristic.tsx:219-233 | the subtitle's animation delay exceeds every title word's |
| HeroReveal.RevealSequencer.constructor | src/components/ui/hero-futuristic.tsx:189-198 | on mount, no word or subtitle is shown, the jitter table holds one bounded entry per word, and the first timer is scheduled |
| HeroReveal.RevealSequencer.Step | src/components/ui/hero-futuristic.tsx:200-208 | a firing timer applies `Next` to the state and advances the clock by its 600 or 800 ms; the state stays the state after the transitions so far, at their elapsed time; the jitter is untouched |
| HeroReveal.RevealSequencer.Cancel | src/components/ui/hero-futuristic.tsx:200-208 | the cleanup clears the pending timeout and changes nothing else; every later step is a no-op |

## Left out

- `Scene` and `PostProcessing` (`hero-futuristic.tsx:14-184`) are left out. They cover the shaders, the Three.js materials, texture loading, the sine scan line and the opacity fade, all of which are GPU and floating-point animation.
- Real `setTimeout`/`clearTimeout` and React's effect scheduling are replaced by a virtual clock. Each `Step` is the next timer firing. React's development-mode double run of effects is not modelled.
- `Math.random()` is an input. A draw `d` in [0, 1000) stands for `d / 1000`.
- RevealView.Jitter: truncates the scaled draw to whole milliseconds, because animation delays are modelled in integer ms rather than the source's float seconds.
- The `animationDelay` strings (`hero-futuristic.tsx:220, 233`) are modelled as integer milliseconds. The float-to-string formatting is left out.
- `delays[index] || 0` is modelled as "0 when the table has no entry yet". The table holds non-negative numbers. The only falsy one is 0, from a draw of 0, and since `0 || 0` is 0 the model agrees there too.
- HeroReveal.RevealSequencer.constructor: merges the first render with the mount effects. The render before the jitter effect, with an empty jitter table and a subtitle jitter of 0, is not a state of the class. It changes nothing visible, because no word has its class before the first timer fires at 600 ms. `RevealView.JitterOf` and `RevealView.WordAnimationDelay` still cover the empty table.
- The subtitle text, the "Scroll to explore" button and all markup and styling are presentational and left out.
- `src/components/ui/star-border.tsx` and `src/app/page.tsx` are left out. They contain only layout and class composition, with no logic.
