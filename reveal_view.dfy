/** What the hero section renders from the reveal state: which title words and
    whether the subtitle carry their entrance animation, and the per-item
    animation delays with their random "glitch" jitter, in whole milliseconds. */
module RevealView {
  import opened RevealSpec

  /** Class of a word or subtitle whose entrance animation runs. */
  const WordShownClass: string := "fade-in glitch-text"
  const SubtitleShownClass: string := "fade-in-subtitle"

  /** Stagger between the animation starts of consecutive words. */
  const WordStaggerMs: nat := 130
  /** Extra offset of the subtitle's animation after the last word's stagger. */
  const SubtitleOffsetMs: nat := 200
  /** Jitter bounds: a word's jitter lies in [0, 70) ms, the subtitle's in [0, 100) ms. */
  const MaxWordJitterMs: nat := 70
  const MaxSubtitleJitterMs: nat := 100
  /** A random draw `d` in [0, DrawScale) stands for the uniform value d / DrawScale in [0, 1). */
  const DrawScale: nat := 1000

  /** The inline opacity of an item: left to the stylesheet, or forced to 0. */
  datatype Opacity = Inherited | Hidden

  /** Word `i` is shown exactly when the counter has passed it. */
  predicate WordShown(i: nat, visibleWords: nat) { i < visibleWords }

  function WordClass(i: nat, visibleWords: nat): (c: string)
    ensures c == WordShownClass <==> WordShown(i, visibleWords)
    ensures c != WordShownClass ==> c == ""
  {
    if WordShown(i, visibleWords) then WordShownClass else ""
  }

  function WordOpacity(i: nat, visibleWords: nat): (o: Opacity)
    ensures o == Inherited <==> WordShown(i, visibleWords)
  {
    if WordShown(i, visibleWords) then Inherited else Hidden
  }

  function SubtitleClass(subtitleVisible: bool): (c: string)
    ensures c == SubtitleShownClass <==> subtitleVisible
    ensures c != SubtitleShownClass ==> c == ""
  {
    if subtitleVisible then SubtitleShownClass else ""
  }

  function SubtitleOpacity(subtitleVisible: bool): (o: Opacity)
    ensures o == Inherited <==> subtitleVisible
  {
    if subtitleVisible then Inherited else Hidden
  }

  /** Word `i` is rendered as shown: it carries the fade-in class and its
      opacity is not forced to 0. That happens exactly when the counter has
      passed it. */
  predicate RenderedShown(i: nat, visibleWords: nat): (b: bool)
    ensures b <==> WordShown(i, visibleWords)
  {
    WordClass(i, visibleWords) == WordShownClass && WordOpacity(i, visibleWords) == Inherited
  }

  /** The words from index `i` on that are rendered as shown, in title order,
      read word by word. */
  function ShownFrom(words: seq<string>, visibleWords: nat, i: nat): seq<string>
    decreases |words| - i
  {
    if i >= |words| then []
    else (if RenderedShown(i, visibleWords) then [words[i]] else []) + ShownFrom(words, visibleWords, i + 1)
  }

  /** The title words rendered as shown. */
  function ShownWords(words: seq<string>, visibleWords: nat): seq<string> {
    ShownFrom(words, visibleWords, 0)
  }

  lemma {:induction false} ShownFromIsSlice(words: seq<string>, visibleWords: nat, i: nat)
    requires i <= |words|
    ensures ShownFrom(words, visibleWords, i)
         == if i < Min(visibleWords, |words|) then words[i..Min(visibleWords, |words|)] else []
    decreases |words| - i
  {
    if i < |words| {
      ShownFromIsSlice(words, visibleWords, i + 1);
    }
  }

  /** The shown words always form a prefix of the title, of length
      min(visibleWords, number of words). */
  lemma ShownWordsArePrefix(words: seq<string>, visibleWords: nat)
    ensures ShownWords(words, visibleWords) == words[..Min(visibleWords, |words|)]
  {
    ShownFromIsSlice(words, visibleWords, 0);
  }

  /** After k transitions the first min(k, n) words are shown, and the
      subtitle is rendered only once every word is. */
  lemma RenderAfter(words: seq<string>, k: nat)
    ensures ShownWords(words, After(|words|, k).visibleWords) == words[..Min(k, |words|)]
    ensures SubtitleClass(After(|words|, k).subtitleVisible) == SubtitleShownClass
        ==> ShownWords(words, After(|words|, k).visibleWords) == words
  {
    AfterClosedForm(|words|, k);
    ShownWordsArePrefix(words, After(|words|, k).visibleWords);
  }

  lemma QuotientBelow(x: nat, c: nat, m: nat)
    requires 0 < c && x < c * m
    ensures x / c < m && (x / c) * c <= x && x < (x / c + 1) * c
  {
    assert x == (x / c) * c + x % c;
  }

  lemma ProductBelow(a: nat, b: nat, m: nat)
    requires a < b && 0 < m
    ensures a * m < b * m
  {
  }

  /** Scales a draw in [0, DrawScale) to a jitter in [0, maxMs) ms, truncated to whole ms. */
  function Jitter(draw: nat, maxMs: nat): (ms: nat)
    requires draw < DrawScale && 0 < maxMs
    ensures ms < maxMs
    ensures ms * DrawScale <= draw * maxMs < (ms + 1) * DrawScale
  {
    var x := draw * maxMs;
    ProductBelow(draw, DrawScale, maxMs);
    QuotientBelow(x, DrawScale, maxMs);
    x / DrawScale
  }

  /** The per-word jitter table generated on mount: one draw per title word. */
  function JitterTable(words: seq<string>, draws: seq<nat>): (delays: seq<nat>)
    requires |draws| == |words|
    requires forall i :: 0 <= i < |draws| ==> draws[i] < DrawScale
    ensures |delays| == |words|
    ensures forall i :: 0 <= i < |delays| ==> delays[i] < MaxWordJitterMs
    ensures forall i :: 0 <= i < |delays| ==> delays[i] == Jitter(draws[i], MaxWordJitterMs)
  {
    seq(|words|, i requires 0 <= i < |words| => Jitter(draws[i], MaxWordJitterMs))
  }

  /** The jitter of a word, 0 while the table has no entry for it (before the
      mount effect has generated it). */
  function JitterOf(i: nat, delays: seq<nat>): (j: nat)
    ensures i < |delays| ==> j == delays[i]
    ensures |delays| <= i ==> j == 0
    ensures JitterBounded(delays) ==> j < MaxWordJitterMs
  {
    if i < |delays| then delays[i] else 0
  }

  /** The animation delay of word `i`: its stagger plus its jitter. */
  function WordAnimationDelay(i: nat, delays: seq<nat>): (d: nat)
    ensures i * WordStaggerMs <= d
    ensures JitterBounded(delays) ==> d < i * WordStaggerMs + MaxWordJitterMs
    ensures i < |delays| ==> d == i * WordStaggerMs + delays[i]
    ensures |delays| <= i ==> d == i * WordStaggerMs
  {
    i * WordStaggerMs + JitterOf(i, delays)
  }

  /** The animation delay of the subtitle, after the stagger of all `n` words. */
  function SubtitleAnimationDelay(n: nat, subtitleDelay: nat): (d: nat)
    ensures d == n * WordStaggerMs + SubtitleOffsetMs + subtitleDelay
    ensures n * WordStaggerMs + SubtitleOffsetMs <= d
    ensures subtitleDelay < MaxSubtitleJitterMs ==> d < n * WordStaggerMs + SubtitleOffsetMs + MaxSubtitleJitterMs
  {
    n * WordStaggerMs + SubtitleOffsetMs + subtitleDelay
  }

  /** Every entry of the jitter table lies in [0, 70) ms. */
  predicate JitterBounded(delays: seq<nat>) {
    forall i :: 0 <= i < |delays| ==> delays[i] < MaxWordJitterMs
  }

  /** Jitter is smaller than the stagger, so the words still start their
      animations in title order. */
  lemma StaggerKeepsOrder(delays: seq<nat>, i: nat, j: nat)
    requires JitterBounded(delays)
    requires i < j
    ensures WordAnimationDelay(i, delays) < WordAnimationDelay(j, delays)
  {
    assert i * WordStaggerMs + WordStaggerMs <= j * WordStaggerMs;
  }

  /** The subtitle starts its animation after every title word. */
  lemma SubtitleAnimatesLast(n: nat, delays: seq<nat>, subtitleDelay: nat, i: nat)
    requires JitterBounded(delays)
    requires i < n
    ensures WordAnimationDelay(i, delays) < SubtitleAnimationDelay(n, subtitleDelay)
  {
    assert i * WordStaggerMs + WordStaggerMs <= n * WordStaggerMs;
  }
}
