/**
 * The letters of the character-grid animation and the three routines that rewrite them:
 * `initializeLetters`, `updateLetters` and `handleSmoothTransitions`, with the frame routine
 * `animate` and the resize routine `resizeCanvas` that call them. `Math.random()` and
 * `Date.now()` are parameters; drawing on the canvas is not modelled.
 */
module LetterGlitch {
  import opened Options
  import opened Colors
  import opened JsMath
  import opened GlitchColor
  import opened GlitchGrid

  /** One cell: its character, its current colour, the colour it moves to, and how far it has got. */
  datatype Letter = Letter(ch: char, color: string, targetColor: string, colorProgress: real)

  /** The configured alphabet, `CONFIG.characters`. */
  const Characters: seq<char> := "ABCDEFGHIJKLMNOPQRSTUVWXYZ!@#$&*()-_+=/[]{};:<>.,0123456789"

  /** The configured palette, `CONFIG.glitchColors`. */
  const GlitchColors: seq<string> := ["#a855f7", "#7c3aed", "#c084fc", "#6d28d9", "#8b5cf6", "#ddd6fe"]

  /** `CONFIG.glitchSpeed`, in milliseconds. */
  const GlitchSpeed := 50.0

  /** The step `handleSmoothTransitions` adds to a letter's progress each frame. */
  const ProgressStep := 0.05

  /** A `Math.random()` value. */
  predicate Unit(r: real)
  {
    0.0 <= r < 1.0
  }

  /** `Math.floor(r * n)` for a random `r`: an index into a list of `n` items. */
  function Index(r: real, n: nat): (i: int)
    ensures Unit(r) && n > 0 ==> 0 <= i < n
  {
    if Unit(r) && n > 0 then IndexInRange(r, n); Floor(r * n as real) else Floor(r * n as real)
  }

  lemma IndexInRange(r: real, n: nat)
    requires Unit(r) && n > 0
    ensures 0 <= Floor(r * n as real) < n
  {
    MulNonNegative(r, n as real);
    MulNonNegative(1.0 - r, n as real);
    assert n as real - r * n as real == (1.0 - r) * n as real;
  }

  /** `getRandomChar` and `getRandomColor`: the item a random value selects. */
  function Pick<T>(xs: seq<T>, r: real): (x: T)
    requires |xs| > 0 && Unit(r)
    ensures x in xs
  {
    xs[Index(r, |xs|)]
  }

  /** The letter `initializeLetters` pushes, from the draws for its character, colour and target colour. */
  function FreshLetter(alphabet: seq<char>, palette: seq<string>, d: (real, real, real)): (l: Letter)
    requires |alphabet| > 0 && |palette| > 0 && Unit(d.0) && Unit(d.1) && Unit(d.2)
    ensures l.ch in alphabet && l.color in palette && l.targetColor in palette && l.colorProgress == 1.0
  {
    Letter(Pick(alphabet, d.0), Pick(palette, d.1), Pick(palette, d.2), 1.0)
  }

  predicate AllUnit(draws: seq<(real, real, real)>)
  {
    forall i :: 0 <= i < |draws| ==> Unit(draws[i].0) && Unit(draws[i].1) && Unit(draws[i].2)
  }

  /** The letters of a grid of `columns * rows` cells; a non-positive product gives none, as the loop bound does. */
  function LetterCount(columns: int, rows: int): (n: nat)
    ensures columns >= 0 && rows >= 0 ==> n == columns * rows
  {
    if columns * rows > 0 then columns * rows else 0
  }

  /** The letters every cell of the grid holds. */
  predicate WellFormed(ls: seq<Letter>, alphabet: seq<char>, palette: seq<string>)
  {
    forall i :: 0 <= i < |ls| ==>
      ls[i].ch in alphabet && ls[i].targetColor in palette && 0.0 <= ls[i].colorProgress <= 1.0
  }

  /** `updateLetters`' count: five percent of the letters, rounded down, but at least one. */
  function UpdateCount(n: nat): (k: int)
    ensures k >= 1
    ensures n >= 1 ==> k <= n
    ensures n < 20 ==> k == 1
    ensures n >= 20 ==> k as real <= n as real * 0.05 < k as real + 1.0
  {
    Max(1, Floor(n as real * 0.05))
  }

  /**
   * One iteration of `updateLetters`: the drawn letter gets a new character and a new target
   * colour; in smooth mode its transition restarts from progress 0, otherwise it jumps to the
   * target at once.
   */
  function Touch(ls: seq<Letter>, d: (real, real, real), alphabet: seq<char>, palette: seq<string>, smooth: bool)
    : (r: seq<Letter>)
    requires |ls| > 0 && |alphabet| > 0 && |palette| > 0 && Unit(d.0) && Unit(d.1) && Unit(d.2)
    ensures |r| == |ls|
  {
    var k := Index(d.0, |ls|);
    var l := ls[k].(ch := Pick(alphabet, d.1), targetColor := Pick(palette, d.2));
    ls[k := if smooth then l.(colorProgress := 0.0) else l.(color := l.targetColor, colorProgress := 1.0)]
  }

  /** The letters after the iterations of `updateLetters` that used `draws`, oldest first. */
  function ApplyUpdates(ls: seq<Letter>, draws: seq<(real, real, real)>, alphabet: seq<char>, palette: seq<string>, smooth: bool)
    : (r: seq<Letter>)
    requires |ls| > 0 && |alphabet| > 0 && |palette| > 0 && AllUnit(draws)
    ensures |r| == |ls|
    decreases |draws|
  {
    if |draws| == 0 then ls
    else
      var last := draws[|draws| - 1];
      Touch(ApplyUpdates(ls, draws[..|draws| - 1], alphabet, palette, smooth), last, alphabet, palette, smooth)
  }

  /** Some draw selects letter `k`. */
  predicate Touched(k: int, n: nat, draws: seq<(real, real, real)>)
  {
    exists j :: 0 <= j < |draws| && Index(draws[j].0, n) == k
  }

  /**
   * `updateLetters` changes only the letters it draws. Each drawn letter gets a character from
   * the alphabet and a target from the palette and, in smooth mode, restarts at progress 0
   * with its colour kept; otherwise it takes its target colour at progress 1.
   */
  lemma {:induction false} ApplyUpdatesEffect(ls: seq<Letter>, draws: seq<(real, real, real)>, alphabet: seq<char>,
                                              palette: seq<string>, smooth: bool, k: int)
    requires |ls| > 0 && |alphabet| > 0 && |palette| > 0 && AllUnit(draws)
    requires 0 <= k < |ls|
    ensures var r := ApplyUpdates(ls, draws, alphabet, palette, smooth);
      && (!Touched(k, |ls|, draws) ==> r[k] == ls[k])
      && (Touched(k, |ls|, draws) ==>
            && r[k].ch in alphabet && r[k].targetColor in palette
            && (smooth ==> r[k].colorProgress == 0.0 && r[k].color == ls[k].color)
            && (!smooth ==> r[k].colorProgress == 1.0 && r[k].color == r[k].targetColor))
    decreases |draws|
  {
    if |draws| > 0 {
      var init := draws[..|draws| - 1];
      var last := draws[|draws| - 1];
      ApplyUpdatesEffect(ls, init, alphabet, palette, smooth, k);
      if Index(last.0, |ls|) != k {
        if Touched(k, |ls|, draws) {
          var j :| 0 <= j < |draws| && Index(draws[j].0, |ls|) == k;
          assert j < |init| && init[j] == draws[j];
        }
        if Touched(k, |ls|, init) {
          var j :| 0 <= j < |init| && Index(init[j].0, |ls|) == k;
          assert draws[j] == init[j];
        }
      } else {
        assert Touched(k, |ls|, draws) by {
          assert Index(draws[|draws| - 1].0, |ls|) == k;
        }
        if smooth && !Touched(k, |ls|, init) {
          assert ApplyUpdates(ls, init, alphabet, palette, smooth)[k] == ls[k];
        }
      }
    }
  }

  /** `updateLetters` keeps the letters well formed. */
  lemma ApplyUpdatesWellFormed(ls: seq<Letter>, draws: seq<(real, real, real)>, alphabet: seq<char>,
                               palette: seq<string>, smooth: bool)
    requires |ls| > 0 && |alphabet| > 0 && |palette| > 0 && AllUnit(draws)
    requires WellFormed(ls, alphabet, palette)
    ensures WellFormed(ApplyUpdates(ls, draws, alphabet, palette, smooth), alphabet, palette)
  {
    var r := ApplyUpdates(ls, draws, alphabet, palette, smooth);
    forall k | 0 <= k < |r|
      ensures r[k].ch in alphabet && r[k].targetColor in palette && 0.0 <= r[k].colorProgress <= 1.0
    {
      ApplyUpdatesEffect(ls, draws, alphabet, palette, smooth, k);
    }
  }

  /**
   * One letter in `handleSmoothTransitions`, with `parse` reading its colours (`hexToRgb` as
   * written). A letter still short of 1 advances by 0.05, capped at 1; if both its colours
   * read, its colour becomes the interpolation at the new progress and the frame needs a redraw.
   */
  function Advance(l: Letter, parse: string -> Option<Rgb>): (r: (Letter, bool))
    ensures r.0.ch == l.ch && r.0.targetColor == l.targetColor
    ensures l.colorProgress >= 1.0 ==> r.0 == l && !r.1
    ensures l.colorProgress < 1.0 ==>
      r.0.colorProgress == MinReal(l.colorProgress + ProgressStep, 1.0) && r.0.colorProgress > l.colorProgress
    ensures 0.0 <= l.colorProgress <= 1.0 ==> 0.0 <= r.0.colorProgress <= 1.0
    ensures r.1 <==> l.colorProgress < 1.0 && parse(l.color).Some? && parse(l.targetColor).Some?
    ensures !r.1 ==> r.0.color == l.color
  {
    if l.colorProgress < 1.0 then
      var p := if l.colorProgress + ProgressStep > 1.0 then 1.0 else l.colorProgress + ProgressStep;
      match (parse(l.color), parse(l.targetColor))
      case (Some(s), Some(e)) => (l.(colorProgress := p, color := FormatRgb(Mix(s, e, p))), true)
      case _ => (l.(colorProgress := p), false)
    else (l, false)
  }

  /** The body of `handleSmoothTransitions`' loop, on one letter. */
  method AdvanceLetter(l: Letter, parse: string -> Option<Rgb>) returns (letter: Letter, redraw: bool)
    ensures (letter, redraw) == Advance(l, parse)
  {
    letter := l;
    redraw := false;
    if letter.colorProgress < 1.0 {
      letter := letter.(colorProgress := letter.colorProgress + ProgressStep);
      if letter.colorProgress > 1.0 {
        letter := letter.(colorProgress := 1.0);
      }
      var startRgb := parse(letter.color);
      var endRgb := parse(letter.targetColor);
      if startRgb.Some? && endRgb.Some? {
        letter := letter.(color := FormatRgb(Mix(startRgb.value, endRgb.value, letter.colorProgress)));
        redraw := true;
      }
    }
  }

  /** `k` frames of transitions on one letter. */
  function Steps(l: Letter, parse: string -> Option<Rgb>, k: nat): Letter
    decreases k
  {
    if k == 0 then l else Steps(Advance(l, parse).0, parse, k - 1)
  }

  /** A letter whose progress has reached 1 no longer changes. */
  lemma {:induction false} StepsSettled(l: Letter, parse: string -> Option<Rgb>, k: nat)
    requires l.colorProgress >= 1.0
    ensures Steps(l, parse, k) == l
    decreases k
  {
    if k > 0 {
      StepsSettled(Advance(l, parse).0, parse, k - 1);
    }
  }

  /** After `k` frames the progress of a letter that started in [0, 1] is its start plus `k` steps, capped at 1. */
  lemma {:induction false} ProgressAfter(l: Letter, parse: string -> Option<Rgb>, k: nat)
    requires 0.0 <= l.colorProgress <= 1.0
    ensures Steps(l, parse, k).colorProgress == MinReal(l.colorProgress + k as real * ProgressStep, 1.0)
    decreases k
  {
    if k > 0 {
      var l1 := Advance(l, parse).0;
      if l.colorProgress >= 1.0 {
        StepsSettled(l, parse, k);
      } else {
        ProgressAfter(l1, parse, k - 1);
      }
    }
  }

  /** A colour the reader cannot read never changes again. */
  lemma {:induction false} UnreadableColorKept(l: Letter, parse: string -> Option<Rgb>, k: nat)
    requires parse(l.color).None?
    ensures Steps(l, parse, k).color == l.color
    decreases k
  {
    if k > 0 {
      UnreadableColorKept(Advance(l, parse).0, parse, k - 1);
    }
  }

  /** The reader rejects every string `interpolateColor` writes. */
  ghost predicate RejectsFormatted(parse: string -> Option<Rgb>)
  {
    forall c: Rgb :: parse(FormatRgb(c)).None?
  }

  /** The reader reads back every byte colour `interpolateColor` writes. */
  ghost predicate ReadsFormatted(parse: string -> Option<Rgb>)
  {
    forall c: Rgb :: IsByteColor(c) ==> parse(FormatRgb(c)) == Some(c)
  }

  /**
   * With a reader that rejects what it writes, a transition from progress 0 stops after its
   * first step, 5% of the way from its start colour.
   */
  lemma StallsWith(l: Letter, parse: string -> Option<Rgb>, k: nat)
    requires RejectsFormatted(parse)
    requires parse(l.color).Some? && parse(l.targetColor).Some?
    requires l.colorProgress == 0.0 && k >= 1
    ensures Steps(l, parse, k).color == FormatRgb(Mix(parse(l.color).value, parse(l.targetColor).value, ProgressStep))
  {
    var l1 := Advance(l, parse).0;
    var m := Mix(parse(l.color).value, parse(l.targetColor).value, ProgressStep);
    assert l1.color == FormatRgb(m);
    assert parse(FormatRgb(m)).None?;
    UnreadableColorKept(l1, parse, k - 1);
    assert Steps(l, parse, k) == Steps(l1, parse, k - 1);
  }

  /**
   * As written, a transition stalls after its first step: the first step writes the colour as
   * `rgb(r,g,b)`, which `hexToRgb` rejects, so every later step only raises the progress and the
   * colour stays 5% of the way from where it started.
   */
  lemma TransitionStalls(l: Letter, k: nat)
    requires HexToRgb(l.color).Some? && HexToRgb(l.targetColor).Some?
    requires l.colorProgress == 0.0 && k >= 1
    ensures Steps(l, HexToRgb, k).color ==
      FormatRgb(Mix(HexToRgb(l.color).value, HexToRgb(l.targetColor).value, ProgressStep))
    ensures k >= 20 ==> Steps(l, HexToRgb, k).colorProgress == 1.0
  {
    forall c: Rgb
      ensures HexToRgb(FormatRgb(c)).None?
    {
      FormattedIsNotHex(c);
    }
    StallsWith(l, HexToRgb, k);
    ProgressAfter(l, HexToRgb, k);
  }

  /** The input that shows it: black to white stops at `rgb(13,13,13)`, by the twentieth frame at progress 1. */
  lemma BlackToWhiteStalls(k: nat)
    requires k >= 20
    ensures Steps(Letter('A', "#000000", "#ffffff", 0.0), HexToRgb, k).color == "rgb(13,13,13)"
    ensures Steps(Letter('A', "#000000", "#ffffff", 0.0), HexToRgb, k).colorProgress == 1.0
    ensures HexToRgb("#ffffff") == Some(Rgb(255, 255, 255))
  {
    BlackAndWhiteAreHex();
    TransitionStalls(Letter('A', "#000000", "#ffffff", 0.0), k);
    FirstMixOfBlackToWhite();
  }

  lemma BlackAndWhiteAreHex()
    ensures HexToRgb("#000000") == Some(Rgb(0, 0, 0))
    ensures HexToRgb("#ffffff") == Some(Rgb(255, 255, 255))
  {
    var black, white := Rgb(0, 0, 0), Rgb(255, 255, 255);
    HexRoundTrip(black);
    HexRoundTrip(white);
    assert ToHex(black) == "#000000";
    assert ToHex(white) == "#ffffff";
  }

  /** The first 5% step from black to white rounds 12.75 up to 13 on each channel. */
  lemma FirstMixOfBlackToWhite()
    ensures FormatRgb(Mix(Rgb(0, 0, 0), Rgb(255, 255, 255), ProgressStep)) == "rgb(13,13,13)"
  {
    assert Mix(Rgb(0, 0, 0), Rgb(255, 255, 255), ProgressStep) == Rgb(13, 13, 13);
    assert NatToString(13) == "13";
  }

  /**
   * With a reader that reads back what it writes, a transition reaches its target: once
   * enough frames have passed for the progress to reach 1, the colour reads as the target.
   */
  lemma {:induction false} ReachesWith(l: Letter, parse: string -> Option<Rgb>, k: nat)
    requires ReadsFormatted(parse)
    requires parse(l.color).Some? && IsByteColor(parse(l.color).value)
    requires parse(l.targetColor).Some? && IsByteColor(parse(l.targetColor).value)
    requires 0.0 <= l.colorProgress < 1.0 && l.colorProgress + k as real * ProgressStep >= 1.0
    ensures Steps(l, parse, k).colorProgress == 1.0
    ensures parse(Steps(l, parse, k).color) == parse(l.targetColor)
    decreases k
  {
    var l1 := Advance(l, parse).0;
    StepReadsBack(l, parse);
    assert Steps(l, parse, k) == Steps(l1, parse, k - 1);
    if l1.colorProgress >= 1.0 {
      StepsSettled(l1, parse, k - 1);
    } else {
      ReachesWith(l1, parse, k - 1);
    }
  }

  /**
   * One step with a reader that reads back what it writes: the new colour is an interpolated
   * byte colour that reads back, and it reads as the target once the progress reaches 1.
   */
  lemma StepReadsBack(l: Letter, parse: string -> Option<Rgb>)
    requires ReadsFormatted(parse)
    requires parse(l.color).Some? && IsByteColor(parse(l.color).value)
    requires parse(l.targetColor).Some? && IsByteColor(parse(l.targetColor).value)
    requires 0.0 <= l.colorProgress < 1.0
    ensures var l1 := Advance(l, parse).0;
      && parse(l1.color).Some? && IsByteColor(parse(l1.color).value)
      && (l1.colorProgress >= 1.0 ==> l1.colorProgress == 1.0 && parse(l1.color) == parse(l.targetColor))
  {
    var s, e := parse(l.color).value, parse(l.targetColor).value;
    var l1 := Advance(l, parse).0;
    var m := Mix(s, e, l1.colorProgress);
    assert l1.color == FormatRgb(m) && IsByteColor(m);
    assert parse(FormatRgb(m)) == Some(m);
  }

  /**
   * Reading both colour forms, a transition reaches its target: once enough frames have passed
   * for the progress to reach 1, the letter's colour reads as its target colour.
   */
  lemma TransitionReachesTarget(l: Letter, k: nat)
    requires ParseColor(l.color).Some? && IsByteColor(ParseColor(l.color).value)
    requires ParseColor(l.targetColor).Some? && IsByteColor(ParseColor(l.targetColor).value)
    requires 0.0 <= l.colorProgress < 1.0 && l.colorProgress + k as real * ProgressStep >= 1.0
    ensures Steps(l, ParseColor, k).colorProgress == 1.0
    ensures ParseColor(Steps(l, ParseColor, k).color) == ParseColor(l.targetColor)
  {
    forall c: Rgb | IsByteColor(c)
      ensures ParseColor(FormatRgb(c)) == Some(c)
    {
      ParseColorRoundTrips(c);
    }
    ReachesWith(l, ParseColor, k);
  }

  /** Every configured colour is a hex colour. */
  lemma GlitchColorsAreHex()
    ensures forall i :: 0 <= i < |GlitchColors| ==> HexToRgb(GlitchColors[i]).Some?
  {
    forall i | 0 <= i < |GlitchColors|
      ensures HexToRgb(GlitchColors[i]).Some?
    {
      HexToRgbAccepts(GlitchColors[i]);
      assert Body(GlitchColors[i]) == GlitchColors[i][1..];
    }
  }

  /** The animation's state. */
  class Glitch {
    var letters: seq<Letter>
    var grid: Grid
    var lastGlitchTime: real
    const alphabet: seq<char>
    const palette: seq<string>
    const smooth: bool

    ghost predicate Valid()
      reads this
    {
      |alphabet| > 0 && |palette| > 0 && WellFormed(letters, alphabet, palette)
    }

    /** The script's start-up state, before the first `resizeCanvas`. */
    constructor (now: real)
      ensures Valid() && letters == [] && grid == Grid(0, 0) && lastGlitchTime == now
      ensures alphabet == Characters && palette == GlitchColors && smooth
    {
      letters := [];
      grid := Grid(0, 0);
      lastGlitchTime := now;
      alphabet := Characters;
      palette := GlitchColors;
      smooth := true;
    }

    /** `initializeLetters`: the grid is recorded and the letters rebuilt, one per cell, all settled. */
    method InitializeLetters(columns: int, rows: int, draws: seq<(real, real, real)>)
      requires Valid()
      requires |draws| == LetterCount(columns, rows) && AllUnit(draws)
      modifies this`grid, this`letters
      ensures Valid() && grid == Grid(columns, rows)
      ensures |letters| == LetterCount(columns, rows)
      ensures forall i :: 0 <= i < |letters| ==> letters[i] == FreshLetter(alphabet, palette, draws[i])
      ensures forall i :: 0 <= i < |letters| ==>
        letters[i].colorProgress == 1.0 && letters[i].color in palette
    {
      grid := Grid(columns, rows);
      var total := columns * rows;
      letters := [];
      var i := 0;
      while i < total
        invariant 0 <= i && (total > 0 ==> i <= total) && (total <= 0 ==> i == 0)
        invariant |letters| == i
        invariant forall j :: 0 <= j < i ==> letters[j] == FreshLetter(alphabet, palette, draws[j])
        invariant WellFormed(letters, alphabet, palette) && grid == Grid(columns, rows)
      {
        letters := letters + [FreshLetter(alphabet, palette, draws[i])];
        i := i + 1;
      }
    }

    /**
     * `updateLetters`: nothing happens without letters; otherwise `UpdateCount` iterations each
     * draw an index, a character and a target colour.
     */
    method UpdateLetters(draws: seq<(real, real, real)>)
      requires Valid()
      requires |letters| > 0 ==> |draws| == UpdateCount(|letters|) && AllUnit(draws)
      modifies this`letters
      ensures Valid() && |letters| == old(|letters|)
      ensures old(|letters|) == 0 ==> letters == old(letters)
      ensures old(|letters|) > 0 ==> letters == ApplyUpdates(old(letters), draws, alphabet, palette, smooth)
    {
      if |letters| == 0 {
        return;
      }
      ghost var start := letters;
      var count := Max(1, Floor(|letters| as real * 0.05));
      var i := 0;
      while i < count
        invariant 0 <= i <= count
        invariant letters == ApplyUpdates(start, draws[..i], alphabet, palette, smooth)
      {
        var d := draws[i];
        var index := Index(d.0, |letters|);
        var l := letters[index].(ch := Pick(alphabet, d.1), targetColor := Pick(palette, d.2));
        if !smooth {
          l := l.(color := l.targetColor, colorProgress := 1.0);
        } else {
          l := l.(colorProgress := 0.0);
        }
        letters := letters[index := l];
        assert draws[..i + 1][..i] == draws[..i];
        i := i + 1;
      }
      assert draws[..count] == draws;
      ApplyUpdatesWellFormed(start, draws, alphabet, palette, smooth);
    }

    /**
     * `handleSmoothTransitions`, with `parse` reading a letter's colours: `hexToRgb` as
     * written. Every letter advances as `Advance` says; the result is whether any recoloured.
     */
    method HandleSmoothTransitions(parse: string -> Option<Rgb>) returns (needsRedraw: bool)
      requires Valid()
      modifies this`letters
      ensures Valid() && |letters| == old(|letters|)
      ensures forall i :: 0 <= i < |letters| ==> letters[i] == Advance(old(letters)[i], parse).0
      ensures needsRedraw <==> exists i :: 0 <= i < |letters| && Advance(old(letters)[i], parse).1
    {
      needsRedraw := false;
      ghost var start := letters;
      var i := 0;
      while i < |letters|
        invariant 0 <= i <= |letters| == |start|
        invariant forall j :: 0 <= j < i ==> letters[j] == Advance(start[j], parse).0
        invariant forall j :: i <= j < |letters| ==> letters[j] == start[j]
        invariant needsRedraw <==> exists j :: 0 <= j < i && Advance(start[j], parse).1
        invariant WellFormed(letters, alphabet, palette)
      {
        var letter, redraw := AdvanceLetter(letters[i], parse);
        needsRedraw := needsRedraw || redraw;
        letters := letters[i := letter];
        i := i + 1;
      }
    }

    /** `resizeCanvas`: the grid covering the container and a fresh letter per cell. */
    method ResizeCanvas(width: real, height: real, draws: seq<(real, real, real)>)
      requires Valid()
      requires |draws| == LetterCount(CalculateGrid(width, height).columns, CalculateGrid(width, height).rows)
      requires AllUnit(draws)
      modifies this`grid, this`letters
      ensures Valid() && grid == CalculateGrid(width, height)
      ensures |letters| == LetterCount(grid.columns, grid.rows)
      ensures forall i :: 0 <= i < |letters| ==> letters[i].colorProgress == 1.0 && letters[i].color in palette
    {
      var g := CalculateGrid(width, height);
      InitializeLetters(g.columns, g.rows, draws);
    }

    /**
     * `animate`, one frame at time `now`: at least `glitchSpeed` after the last glitch, the
     * letters are updated with `draws` and the time recorded; then, in smooth mode, the
     * transitions advance, reading colours in either form they are stored in.
     */
    method Animate(now: real, draws: seq<(real, real, real)>)
      requires Valid()
      requires now - lastGlitchTime >= GlitchSpeed && |letters| > 0 ==>
        |draws| == UpdateCount(|letters|) && AllUnit(draws)
      modifies this`letters, this`lastGlitchTime
      ensures Valid() && |letters| == old(|letters|)
      ensures lastGlitchTime == (if old(now - lastGlitchTime) >= GlitchSpeed then now else old(lastGlitchTime))
      ensures var updated := if old(now - lastGlitchTime) >= GlitchSpeed && old(|letters|) > 0
                             then ApplyUpdates(old(letters), draws, alphabet, palette, smooth) else old(letters);
        && (!smooth ==> letters == updated)
        && (smooth ==>
              |letters| == |updated| && forall i :: 0 <= i < |letters| ==> letters[i] == Advance(updated[i], ParseColor).0)
    {
      if now - lastGlitchTime >= GlitchSpeed {
        UpdateLetters(draws);
        lastGlitchTime := now;
      }
      if smooth {
        var _ := HandleSmoothTransitions(ParseColor);
      }
    }
  }
}
