/**
 * The hero title's typing effect: each tick types or deletes one character of the current
 * title, pauses at the end of a title, and moves on to the next title, cycling through four.
 * The ticks are `setTimeout` callbacks; the delay each one asks for is part of the result.
 */
module TypingEffect {

  const Titles: seq<string> := ["Software Developer", "UI/UX Designer", "Problem Solver", "Tech Enthusiast"]

  /** The variables the `type` closure updates. */
  datatype Typing = Typing(titleIndex: int, charIndex: int, isDeleting: bool)

  /** What one tick leaves behind: the new variables, the hero text and the next delay in ms. */
  datatype Tick = Tick(next: Typing, text: string, delay: int)

  /**
   * The states the closure can reach: the title index names a title, the character index lies
   * within it, typing stops before the full length and deleting stops before zero.
   */
  predicate Reachable(s: Typing)
  {
    && 0 <= s.titleIndex < |Titles|
    && 0 <= s.charIndex <= |Titles[s.titleIndex]|
    && (s.isDeleting ==> s.charIndex > 0)
    && (!s.isDeleting ==> s.charIndex < |Titles[s.titleIndex]|)
  }

  /** The state `initTypingEffect` starts from. */
  const Start := Typing(0, 0, false)

  /**
   * One call of `type`: show one character more or less, then switch to deleting at the end of
   * the title (pausing 2 s) or, once all is deleted, to the next title (pausing 0.5 s).
   */
  function TypeStep(s: Typing): (t: Tick)
    requires Reachable(s)
    ensures Reachable(t.next)
    ensures t.text == Titles[t.next.titleIndex][..t.next.charIndex]
    ensures t.next.charIndex == (if s.isDeleting then s.charIndex - 1 else s.charIndex + 1)
    ensures (t.next.isDeleting && !s.isDeleting) <==> (!s.isDeleting && s.charIndex + 1 == |Titles[s.titleIndex]|)
    ensures (!t.next.isDeleting && s.isDeleting) <==> (s.isDeleting && s.charIndex == 1)
    ensures t.next.titleIndex == if s.isDeleting && s.charIndex == 1 then (s.titleIndex + 1) % |Titles| else s.titleIndex
    ensures t.delay == if t.next.isDeleting != s.isDeleting then (if s.isDeleting then 500 else 2000)
                       else (if s.isDeleting then 50 else 100)
  {
    var title := Titles[s.titleIndex];
    var text := if s.isDeleting then title[..s.charIndex - 1] else title[..s.charIndex + 1];
    var charIndex := if s.isDeleting then s.charIndex - 1 else s.charIndex + 1;
    var speed := if s.isDeleting then 50 else 100;
    if !s.isDeleting && charIndex == |title| then
      Tick(Typing(s.titleIndex, charIndex, true), text, 2000)
    else if s.isDeleting && charIndex == 0 then
      Tick(Typing((s.titleIndex + 1) % |Titles|, 0, false), text, 500)
    else
      Tick(Typing(s.titleIndex, charIndex, s.isDeleting), text, speed)
  }

  /** The state after `n` ticks. */
  function Steps(s: Typing, n: nat): (r: Typing)
    requires Reachable(s)
    ensures Reachable(r)
  {
    if n == 0 then s else TypeStep(Steps(s, n - 1)).next
  }

  /** Typing a title: after `n` ticks from its start, `n` characters are shown, deleting from the full length on. */
  lemma {:induction false} TypingPhase(t: int, n: nat)
    requires 0 <= t < |Titles| && n <= |Titles[t]|
    ensures Steps(Typing(t, 0, false), n) == Typing(t, n, n == |Titles[t]|)
  {
    if n > 0 {
      TypingPhase(t, n - 1);
    }
  }

  /** Deleting a title: `m` ticks after it is complete, `m` characters are gone, and then the next title starts. */
  lemma {:induction false} DeletingPhase(t: int, m: nat)
    requires 0 <= t < |Titles| && m <= |Titles[t]|
    ensures Steps(Typing(t, 0, false), |Titles[t]| + m) ==
      if m < |Titles[t]| then Typing(t, |Titles[t]| - m, true) else Typing((t + 1) % |Titles|, 0, false)
  {
    if m == 0 {
      TypingPhase(t, |Titles[t]|);
    } else {
      DeletingPhase(t, m - 1);
    }
  }

  /** A full cycle of a title takes twice its length in ticks and ends at the start of the next title. */
  lemma TitleCycle(t: int)
    requires 0 <= t < |Titles|
    ensures Steps(Typing(t, 0, false), 2 * |Titles[t]|) == Typing((t + 1) % |Titles|, 0, false)
  {
    DeletingPhase(t, |Titles[t]|);
  }

  /** The closure of `initTypingEffect` over an existing `.hero-title` element. */
  class Typer {
    var titleIndex: int
    var charIndex: int
    var isDeleting: bool
    var typingSpeed: int
    var text: string

    ghost function State(): Typing
      reads this
    {
      Typing(titleIndex, charIndex, isDeleting)
    }

    constructor (text: string)
      ensures State() == Start && typingSpeed == 100 && this.text == text
    {
      titleIndex, charIndex, isDeleting, typingSpeed := 0, 0, false, 100;
      this.text := text;
    }

    /** `type`: one tick; `typingSpeed` is the delay of the `setTimeout` that schedules the next. */
    method Type()
      requires Reachable(State())
      modifies this
      ensures State() == TypeStep(old(State())).next
      ensures text == TypeStep(old(State())).text && typingSpeed == TypeStep(old(State())).delay
    {
      var currentTitle := Titles[titleIndex];
      if isDeleting {
        text := currentTitle[..charIndex - 1];
        charIndex := charIndex - 1;
        typingSpeed := 50;
      } else {
        text := currentTitle[..charIndex + 1];
        charIndex := charIndex + 1;
        typingSpeed := 100;
      }
      if !isDeleting && charIndex == |currentTitle| {
        isDeleting := true;
        typingSpeed := 2000;
      } else if isDeleting && charIndex == 0 {
        isDeleting := false;
        titleIndex := (titleIndex + 1) % |Titles|;
        typingSpeed := 500;
      }
    }
  }
}
