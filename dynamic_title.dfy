/**
 * The typewriter title rotator of the hero section.
 *
 * The component keeps four pieces of state (`currentIndex`, `currentText`,
 * `isDeleting`, `isTyping`). Every render re-runs one effect that, depending
 * on the state, arms a timer and then performs exactly one transition: type
 * one more character, switch from the hold to deleting, delete one
 * character, or (without a timer) advance to the next title. Here each such
 * transition is one tick: `Step` says what a tick does to the state and
 * `Wait` how long its timer waits before it happens.
 */
module DynamicTitle {

  /** Default typing interval per character, in milliseconds. */
  const DefaultSpeed: real := 100.0
  /** Default hold once a title is fully typed, in milliseconds. */
  const DefaultDelay: real := 2000.0

  datatype TitleState = TitleState(currentIndex: nat, currentText: string, isDeleting: bool, isTyping: bool)

  /** The state the component mounts with. */
  const Initial: TitleState := TitleState(0, "", false, true)

  /** A clean typing start on title `i`. */
  function Start(i: nat): TitleState {
    TitleState(i, "", false, true)
  }

  /**
   * The invariant of every reachable state: the index is in range, the shown
   * text is a prefix of the current title, and exactly one of the two
   * phase flags is set.
   */
  ghost predicate Inv(titles: seq<string>, s: TitleState) {
    && s.currentIndex < |titles|
    && s.currentText <= titles[s.currentIndex]
    && s.isTyping != s.isDeleting
  }

  /** The title after `i` in a rotation of `n` titles: `(i + 1) mod n`, see `NextIndexIsMod`. */
  function NextIndex(i: nat, n: nat): (j: nat)
    requires i < n
    ensures j < n
  {
    if i + 1 < n then i + 1 else 0
  }

  lemma NextIndexIsMod(i: nat, n: nat)
    requires i < n
    ensures NextIndex(i, n) == (i + 1) % n
  {
    if i + 1 < n {
      DivModUnique(i + 1, n, 0, i + 1);
    } else {
      DivModUnique(i + 1, n, 1, 0);
    }
  }

  /** The transition the effect performs when its timer fires. */
  function Step(titles: seq<string>, s: TitleState): (r: TitleState)
    requires s.currentIndex < |titles|
    ensures r.currentIndex < |titles|
  {
    var currentTitle := titles[s.currentIndex];
    if s.isTyping then
      if |s.currentText| < |currentTitle| then
        s.(currentText := currentTitle[..|s.currentText| + 1])
      else
        s.(isTyping := false, isDeleting := true)
    else if s.isDeleting then
      if |s.currentText| > 0 then
        s.(currentText := s.currentText[..|s.currentText| - 1])
      else
        s.(isDeleting := false, currentIndex := NextIndex(s.currentIndex, |titles|), isTyping := true)
    else
      s
  }

  /** Every tick keeps the text a prefix of the current title and exactly one phase flag set. */
  lemma StepKeepsInvariant(titles: seq<string>, s: TitleState)
    requires Inv(titles, s)
    ensures Inv(titles, Step(titles, s))
  {
  }

  /** A typing tick below the title's length appends exactly the next character of the title. */
  lemma TypingAppendsNextChar(titles: seq<string>, s: TitleState)
    requires Inv(titles, s) && s.isTyping && |s.currentText| < |titles[s.currentIndex]|
    ensures Step(titles, s) == s.(currentText := s.currentText + [titles[s.currentIndex][|s.currentText|]])
  {
    var title, n := titles[s.currentIndex], |s.currentText|;
    assert title[..n + 1] == title[..n] + [title[n]];
  }

  /** A deleting tick on a non-empty text removes exactly its last character. */
  lemma DeletingDropsLastChar(titles: seq<string>, s: TitleState)
    requires Inv(titles, s) && s.isDeleting && s.currentText != []
    ensures Step(titles, s).currentIndex == s.currentIndex
    ensures Step(titles, s).isDeleting && !Step(titles, s).isTyping
    ensures Step(titles, s).currentText + [s.currentText[|s.currentText| - 1]] == s.currentText
  {
  }

  /** The index moves only from an empty text, to the next title, and typing restarts. */
  lemma IndexMovesOnlyWhenEmpty(titles: seq<string>, s: TitleState)
    requires s.currentIndex < |titles|
    ensures Step(titles, s).currentIndex != s.currentIndex ==>
      && s.isDeleting && s.currentText == [] && Step(titles, s).currentText == []
      && Step(titles, s).currentIndex == NextIndex(s.currentIndex, |titles|)
      && Step(titles, s).isTyping && !Step(titles, s).isDeleting
  {
  }

  /**
   * How long the timer armed for the next tick waits: `speed` per typed
   * character, `delay` for the hold, `speed / 2` per deleted character, and
   * nothing for the advance, which the effect performs synchronously.
   */
  function Wait(titles: seq<string>, speed: real, delay: real, s: TitleState): real
    requires s.currentIndex < |titles|
  {
    var currentTitle := titles[s.currentIndex];
    if s.isTyping then
      if |s.currentText| < |currentTitle| then speed else delay
    else if s.isDeleting then
      if |s.currentText| > 0 then speed / 2.0 else 0.0
    else
      0.0
  }

  /** The state after `k` ticks. */
  function Steps(titles: seq<string>, s: TitleState, k: nat): (r: TitleState)
    requires s.currentIndex < |titles|
    ensures r.currentIndex < |titles|
    decreases k
  {
    if k == 0 then s else Step(titles, Steps(titles, s, k - 1))
  }

  /** The invariant holds after any number of ticks. */
  lemma {:induction false} StepsKeepInvariant(titles: seq<string>, s: TitleState, k: nat)
    requires Inv(titles, s)
    ensures Inv(titles, Steps(titles, s, k))
    decreases k
  {
    if k > 0 {
      StepsKeepInvariant(titles, s, k - 1);
      StepKeepsInvariant(titles, Steps(titles, s, k - 1));
    }
  }

  /** The time the first `k` ticks take. */
  function Elapsed(titles: seq<string>, speed: real, delay: real, s: TitleState, k: nat): real
    requires s.currentIndex < |titles|
    decreases k
  {
    if k == 0 then 0.0
    else Elapsed(titles, speed, delay, s, k - 1) + Wait(titles, speed, delay, Steps(titles, s, k - 1))
  }

  /** Ticks of one full cycle on title `i`: type, hold, delete, advance. */
  function CycleLength(titles: seq<string>, i: nat): nat
    requires i < |titles|
  {
    2 * |titles[i]| + 2
  }

  /** Ticks of `m` consecutive full cycles starting on title `i`. */
  function CyclesLength(titles: seq<string>, i: nat, m: nat): nat
    requires i < |titles|
    decreases m
  {
    if m == 0 then 0 else CycleLength(titles, i) + CyclesLength(titles, NextIndex(i, |titles|), m - 1)
  }

  /** Running `a + b` ticks is running `a` ticks and then `b` more. */
  lemma {:induction false} StepsAdd(titles: seq<string>, s: TitleState, a: nat, b: nat)
    requires s.currentIndex < |titles|
    ensures Steps(titles, s, a + b) == Steps(titles, Steps(titles, s, a), b)
    decreases b
  {
    if b > 0 {
      StepsAdd(titles, s, a, b - 1);
    }
  }

  /** The time of `a + b` ticks is the time of the first `a` plus the time of the next `b`. */
  lemma {:induction false} ElapsedAdd(titles: seq<string>, speed: real, delay: real, s: TitleState, a: nat, b: nat)
    requires s.currentIndex < |titles|
    ensures Elapsed(titles, speed, delay, s, a + b) ==
      Elapsed(titles, speed, delay, s, a) + Elapsed(titles, speed, delay, Steps(titles, s, a), b)
    decreases b
  {
    if b > 0 {
      ElapsedAdd(titles, speed, delay, s, a, b - 1);
      StepsAdd(titles, s, a, b - 1);
    }
  }

  /** `k` waits of `x` each, added one at a time. */
  function Times(k: nat, x: real): real
    decreases k
  {
    if k == 0 then 0.0 else Times(k - 1, x) + x
  }

  lemma {:induction false} TimesIsProduct(k: nat, x: real)
    ensures Times(k, x) == (k as real) * x
    decreases k
  {
    if k > 0 {
      TimesIsProduct(k - 1, x);
      assert (k as real) * x == ((k - 1) as real) * x + x;
    }
  }

  lemma MulAtLeast(d: int, n: int)
    requires d >= 1 && n > 0
    ensures d * n >= n
  {
  }

  /** Euclidean remainder is determined by any quotient/remainder decomposition. */
  lemma DivModUnique(a: int, n: int, q: int, r: int)
    requires n > 0 && 0 <= r < n && a == q * n + r
    ensures a % n == r
  {
    var q', r' := a / n, a % n;
    assert a == q' * n + r';
    assert (q - q') * n == r' - r;
    if q > q' {
      MulAtLeast(q - q', n);
    } else if q < q' {
      MulAtLeast(q' - q, n);
    }
  }

  lemma ModShift(x: int, n: int)
    requires n > 0 && x >= 0
    ensures (x + n) % n == x % n
  {
    var q, r := x / n, x % n;
    assert x == q * n + r;
    assert x + n == (q + 1) * n + r;
    DivModUnique(x + n, n, q + 1, r);
  }

  /** One typing tick on a strict prefix of length `j` shows the prefix of length `j + 1` after `speed`. */
  lemma TypingTick(titles: seq<string>, speed: real, delay: real, i: nat, j: nat)
    requires i < |titles| && j < |titles[i]|
    ensures Step(titles, TitleState(i, titles[i][..j], false, true)) == TitleState(i, titles[i][..j + 1], false, true)
    ensures Wait(titles, speed, delay, TitleState(i, titles[i][..j], false, true)) == speed
  {
  }

  /** One deleting tick on the prefix of length `j > 0` shows the prefix of length `j - 1` after `speed / 2`. */
  lemma DeletingTick(titles: seq<string>, speed: real, delay: real, i: nat, j: nat)
    requires i < |titles| && 0 < j <= |titles[i]|
    ensures Step(titles, TitleState(i, titles[i][..j], true, false)) == TitleState(i, titles[i][..j - 1], true, false)
    ensures Wait(titles, speed, delay, TitleState(i, titles[i][..j], true, false)) == speed / 2.0
  {
    assert titles[i][..j][..j - 1] == titles[i][..j - 1];
  }

  /** `k` typing ticks from the prefix of length `j` type the next `k` characters of the title. */
  lemma {:induction false} TypingRun(titles: seq<string>, i: nat, j: nat, k: nat)
    requires i < |titles| && j + k <= |titles[i]|
    ensures Steps(titles, TitleState(i, titles[i][..j], false, true), k) == TitleState(i, titles[i][..j + k], false, true)
    decreases k
  {
    if k > 0 {
      TypingRun(titles, i, j, k - 1);
      TypingTick(titles, 0.0, 0.0, i, j + k - 1);
    }
  }

  /** Those `k` typing ticks take `speed` each. */
  lemma {:induction false} TypingTime(titles: seq<string>, speed: real, delay: real, i: nat, j: nat, k: nat)
    requires i < |titles| && j + k <= |titles[i]|
    ensures Elapsed(titles, speed, delay, TitleState(i, titles[i][..j], false, true), k) == Times(k, speed)
    decreases k
  {
    if k > 0 {
      TypingTime(titles, speed, delay, i, j, k - 1);
      TypingRun(titles, i, j, k - 1);
      TypingTick(titles, speed, delay, i, j + k - 1);
    }
  }

  /** `k` deleting ticks from the prefix of length `j` remove its last `k` characters. */
  lemma {:induction false} DeletingRun(titles: seq<string>, i: nat, j: nat, k: nat)
    requires i < |titles| && k <= j <= |titles[i]|
    ensures Steps(titles, TitleState(i, titles[i][..j], true, false), k) == TitleState(i, titles[i][..j - k], true, false)
    decreases k
  {
    if k > 0 {
      DeletingRun(titles, i, j, k - 1);
      DeletingTick(titles, 0.0, 0.0, i, j - k + 1);
    }
  }

  /** Those `k` deleting ticks take `speed / 2` each. */
  lemma {:induction false} DeletingTime(titles: seq<string>, speed: real, delay: real, i: nat, j: nat, k: nat)
    requires i < |titles| && k <= j <= |titles[i]|
    ensures Elapsed(titles, speed, delay, TitleState(i, titles[i][..j], true, false), k) == Times(k, speed / 2.0)
    decreases k
  {
    if k > 0 {
      DeletingTime(titles, speed, delay, i, j, k - 1);
      DeletingRun(titles, i, j, k - 1);
      DeletingTick(titles, speed, delay, i, j - k + 1);
    }
  }

  /** From a clean start, `|title|` typing ticks show the whole title. */
  lemma TypedFully(titles: seq<string>, i: nat)
    requires i < |titles|
    ensures Steps(titles, Start(i), |titles[i]|) == TitleState(i, titles[i], false, true)
  {
    assert titles[i][..0] == "" && titles[i][..|titles[i]|] == titles[i];
    TypingRun(titles, i, 0, |titles[i]|);
  }

  /** The hold tick that follows switches to deleting and leaves the text as it is. */
  lemma Held(titles: seq<string>, i: nat)
    requires i < |titles|
    ensures Steps(titles, Start(i), |titles[i]| + 1) == TitleState(i, titles[i], true, false)
  {
    TypedFully(titles, i);
  }

  /** `|title|` deleting ticks then empty the text. */
  lemma Emptied(titles: seq<string>, i: nat)
    requires i < |titles|
    ensures Steps(titles, Start(i), 2 * |titles[i]| + 1) == TitleState(i, "", true, false)
  {
    var n := |titles[i]|;
    Held(titles, i);
    assert titles[i][..n] == titles[i];
    DeletingRun(titles, i, n, n);
    StepsAdd(titles, Start(i), n + 1, n);
  }

  /** The tick after that is the advance tick, taken on the emptied text. */
  lemma AdvanceFollows(titles: seq<string>, i: nat)
    requires i < |titles|
    ensures Steps(titles, Start(i), 2 * |titles[i]| + 2) == Step(titles, TitleState(i, "", true, false))
  {
    var k := 2 * |titles[i]| + 1;
    Emptied(titles, i);
    assert Steps(titles, Start(i), k + 1) == Step(titles, Steps(titles, Start(i), k));
  }

  /** Deleting from an empty text moves on to a clean start of the next title. */
  lemma AdvanceTick(titles: seq<string>, i: nat)
    requires i < |titles|
    ensures Step(titles, TitleState(i, "", true, false)) == Start(NextIndex(i, |titles|))
  {
  }

  lemma Advanced(titles: seq<string>, i: nat)
    requires i < |titles|
    ensures Steps(titles, Start(i), CycleLength(titles, i)) == Start(NextIndex(i, |titles|))
  {
    AdvanceFollows(titles, i);
    AdvanceTick(titles, i);
  }

  /**
   * One full cycle from a clean start on title `i`: after `|title|` ticks the
   * whole title is shown, the hold tick switches to deleting without changing
   * the text, `|title|` more ticks empty it, and the last tick moves on to a
   * clean start of the next title.
   */
  lemma FullCycle(titles: seq<string>, i: nat)
    requires i < |titles|
    ensures Steps(titles, Start(i), |titles[i]|) == TitleState(i, titles[i], false, true)
    ensures Steps(titles, Start(i), |titles[i]| + 1) == TitleState(i, titles[i], true, false)
    ensures Steps(titles, Start(i), 2 * |titles[i]| + 1) == TitleState(i, "", true, false)
    ensures Steps(titles, Start(i), CycleLength(titles, i)) == Start(NextIndex(i, |titles|))
    ensures NextIndex(i, |titles|) == (i + 1) % |titles|
  {
    NextIndexIsMod(i, |titles|);
    TypedFully(titles, i);
    Held(titles, i);
    Emptied(titles, i);
    Advanced(titles, i);
  }

  /** The typing phase of a cycle takes `speed` per character. */
  lemma TypingPhaseTime(titles: seq<string>, speed: real, delay: real, i: nat)
    requires i < |titles|
    ensures Elapsed(titles, speed, delay, Start(i), |titles[i]|) == Times(|titles[i]|, speed)
  {
    assert titles[i][..0] == "";
    TypingTime(titles, speed, delay, i, 0, |titles[i]|);
  }

  /** The hold adds `delay`. */
  lemma HoldPhaseTime(titles: seq<string>, speed: real, delay: real, i: nat)
    requires i < |titles|
    ensures Elapsed(titles, speed, delay, Start(i), |titles[i]| + 1) == Times(|titles[i]|, speed) + delay
  {
    var n := |titles[i]|;
    TypingPhaseTime(titles, speed, delay, i);
    TypedFully(titles, i);
    assert Elapsed(titles, speed, delay, Start(i), n + 1) ==
      Elapsed(titles, speed, delay, Start(i), n) + Wait(titles, speed, delay, Steps(titles, Start(i), n));
  }

  /** The deleting phase adds `speed / 2` per character. */
  lemma DeletingPhaseTime(titles: seq<string>, speed: real, delay: real, i: nat)
    requires i < |titles|
    ensures Elapsed(titles, speed, delay, Start(i), 2 * |titles[i]| + 1) ==
      Times(|titles[i]|, speed) + delay + Times(|titles[i]|, speed / 2.0)
  {
    var n := |titles[i]|;
    HoldPhaseTime(titles, speed, delay, i);
    Held(titles, i);
    assert titles[i][..n] == titles[i];
    DeletingTime(titles, speed, delay, i, n, n);
    ElapsedAdd(titles, speed, delay, Start(i), n + 1, n);
  }

  /** The advance adds nothing. */
  lemma AdvancePhaseTime(titles: seq<string>, speed: real, delay: real, i: nat)
    requires i < |titles|
    ensures Elapsed(titles, speed, delay, Start(i), CycleLength(titles, i)) ==
      Times(|titles[i]|, speed) + delay + Times(|titles[i]|, speed / 2.0)
  {
    var k := 2 * |titles[i]| + 1;
    DeletingPhaseTime(titles, speed, delay, i);
    Emptied(titles, i);
    assert Elapsed(titles, speed, delay, Start(i), k + 1) ==
      Elapsed(titles, speed, delay, Start(i), k) + Wait(titles, speed, delay, Steps(titles, Start(i), k));
  }

  /** A full cycle takes `|title| * speed + delay + |title| * (speed / 2)`. */
  lemma CycleDuration(titles: seq<string>, speed: real, delay: real, i: nat)
    requires i < |titles|
    ensures Elapsed(titles, speed, delay, Start(i), CycleLength(titles, i)) ==
      (|titles[i]| as real) * speed + delay + (|titles[i]| as real) * (speed / 2.0)
  {
    AdvancePhaseTime(titles, speed, delay, i);
    PhasesAsProducts(|titles[i]|, speed, delay);
  }

  lemma PhasesAsProducts(n: nat, speed: real, delay: real)
    ensures Times(n, speed) + delay + Times(n, speed / 2.0) == (n as real) * speed + delay + (n as real) * (speed / 2.0)
  {
    TimesIsProduct(n, speed);
    TimesIsProduct(n, speed / 2.0);
  }

  /** The title reached from `i` by `m` advances. */
  function Rotate(i: nat, m: nat, n: nat): (j: nat)
    requires i < n
    ensures j < n
    decreases m
  {
    if m == 0 then i else Rotate(NextIndex(i, n), m - 1, n)
  }

  lemma {:induction false} RotateIsMod(i: nat, m: nat, n: nat)
    requires i < n
    ensures Rotate(i, m, n) == (i + m) % n
    decreases m
  {
    if m == 0 {
      DivModUnique(i, n, 0, i);
    } else {
      var next := NextIndex(i, n);
      RotateIsMod(next, m - 1, n);
      if next == 0 {
        ModShift(m - 1, n);
        assert i + m == (m - 1) + n;
      }
    }
  }

  /** `m` full cycles from title `i` end on a clean start of the title `m` places further on. */
  lemma {:induction false} CyclesRotate(titles: seq<string>, i: nat, m: nat)
    requires i < |titles|
    ensures Steps(titles, Start(i), CyclesLength(titles, i, m)) == Start(Rotate(i, m, |titles|))
    decreases m
  {
    if m > 0 {
      var next := NextIndex(i, |titles|);
      var first, rest := CycleLength(titles, i), CyclesLength(titles, next, m - 1);
      assert CyclesLength(titles, i, m) == first + rest;
      Advanced(titles, i);
      StepsAdd(titles, Start(i), first, rest);
      CyclesRotate(titles, next, m - 1);
      assert Rotate(i, m, |titles|) == Rotate(next, m - 1, |titles|);
    }
  }

  /** `m` full cycles from title `i` end on a clean start of title `(i + m) mod |titles|`. */
  lemma Cycles(titles: seq<string>, i: nat, m: nat)
    requires i < |titles|
    ensures Steps(titles, Start(i), CyclesLength(titles, i, m)) == Start((i + m) % |titles|)
  {
    CyclesRotate(titles, i, m);
    RotateIsMod(i, m, |titles|);
  }

  /** After as many full cycles as there are titles the rotator is back where it started. */
  lemma BackToStart(titles: seq<string>, i: nat)
    requires i < |titles|
    ensures Steps(titles, Start(i), CyclesLength(titles, i, |titles|)) == Start(i)
  {
    CyclesRotate(titles, i, |titles|);
    RotateAround(i, |titles|);
  }

  /** `n` advances in a rotation of `n` titles lead back to the start. */
  lemma RotateAround(i: nat, n: nat)
    requires i < n
    ensures Rotate(i, n, n) == i
  {
    RotateIsMod(i, n, n);
    DivModUnique(i + n, n, 1, i);
  }

  class TitleRotator {
    const titles: seq<string>
    const speed: real
    const delay: real
    var currentIndex: nat
    var currentText: string
    var isDeleting: bool
    var isTyping: bool

    function State(): TitleState
      reads this
    {
      TitleState(currentIndex, currentText, isDeleting, isTyping)
    }

    ghost predicate Valid()
      reads this
    {
      Inv(titles, State())
    }

    /** Mounts the component: index 0, nothing typed, typing. */
    constructor (titles: seq<string>, speed: real := DefaultSpeed, delay: real := DefaultDelay)
      requires |titles| > 0
      ensures Valid()
      ensures this.titles == titles && this.speed == speed && this.delay == delay
      ensures State() == Initial
    {
      this.titles := titles;
      this.speed := speed;
      this.delay := delay;
      currentIndex := 0;
      currentText := "";
      isDeleting := false;
      isTyping := true;
    }

    /** Waits for the armed timer and performs the transition it leads to. */
    method Tick() returns (waited: real)
      requires Valid()
      modifies this
      ensures Valid()
      ensures State() == Step(titles, old(State()))
      ensures waited == Wait(titles, speed, delay, old(State()))
    {
      StepKeepsInvariant(titles, State());
      var currentTitle := titles[currentIndex];
      if isTyping {
        if |currentText| < |currentTitle| {
          waited := speed;
          currentText := currentTitle[..|currentText| + 1];
        } else {
          waited := delay;
          isTyping := false;
          isDeleting := true;
        }
      } else if isDeleting {
        if |currentText| > 0 {
          waited := speed / 2.0;
          currentText := currentText[..|currentText| - 1];
        } else {
          waited := 0.0;
          isDeleting := false;
          NextIndexIsMod(currentIndex, |titles|);
          currentIndex := (currentIndex + 1) % |titles|;
          isTyping := true;
        }
      } else {
        waited := 0.0;
      }
    }

    /** Lets `ticks` timers fire in sequence and reports the simulated time that passed. */
    method Run(ticks: nat) returns (elapsed: real)
      requires Valid()
      modifies this
      ensures Valid()
      ensures State() == Steps(titles, old(State()), ticks)
      ensures elapsed == Elapsed(titles, speed, delay, old(State()), ticks)
    {
      ghost var s0 := State();
      elapsed := 0.0;
      var k := 0;
      while k < ticks
        invariant 0 <= k <= ticks
        invariant Valid()
        invariant State() == Steps(titles, s0, k)
        invariant elapsed == Elapsed(titles, speed, delay, s0, k)
      {
        var waited := Tick();
        elapsed := elapsed + waited;
        k := k + 1;
      }
    }
  }
}
