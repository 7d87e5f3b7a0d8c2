/**
 * The palette lookup texture of the fluid effect (`makePaletteTexture`): the colour stops are
 * normalised to at least two, then laid out as one RGBA texel of four bytes per stop.
 */
module Palette {
  import opened Options
  import opened Colors

  const White := Rgb(255, 255, 255)

  /**
   * The stops actually used: a missing or empty list becomes two white stops, a single stop
   * is doubled (a one-texel texture could not be interpolated), a longer list is used as is.
   */
  function NormalizedStops(stops: Option<seq<Rgb>>): (arr: seq<Rgb>)
    ensures |arr| >= 2
    ensures stops.None? || stops.value == [] ==> arr == [White, White]
    ensures stops.Some? && |stops.value| == 1 ==> arr == [stops.value[0], stops.value[0]]
    ensures stops.Some? && |stops.value| >= 2 ==> arr == stops.value
    ensures forall c :: c in arr ==> c == White || (stops.Some? && c in stops.value)
  {
    if stops.Some? && |stops.value| > 0 then
      (if |stops.value| == 1 then [stops.value[0], stops.value[0]] else stops.value)
    else [White, White]
  }

  /**
   * Fills the `Uint8Array` of `4 * w` bytes: texel `i` holds the red, green and blue bytes of
   * stop `i` followed by an opaque alpha of 255.
   */
  method MakePaletteData(stops: Option<seq<Rgb>>) returns (data: array<int>)
    requires stops.Some? ==> forall c :: c in stops.value ==> IsByteColor(c)
    ensures data.Length == 4 * |NormalizedStops(stops)|
    ensures forall i :: 0 <= i < |NormalizedStops(stops)| ==>
      var c := NormalizedStops(stops)[i];
      data[4 * i] == c.r && data[4 * i + 1] == c.g && data[4 * i + 2] == c.b && data[4 * i + 3] == 255
    ensures forall k :: 0 <= k < data.Length ==> IsByte(data[k])
  {
    var arr := NormalizedStops(stops);
    var w := |arr|;
    data := new int[w * 4];
    for i := 0 to w
      invariant forall j :: 0 <= j < i ==> Texel(data, j, arr[j])
      invariant forall k :: 0 <= k < 4 * i ==> IsByte(data[k])
    {
      assert IsByteColor(arr[i]) by { assert arr[i] in arr; }
      WriteTexel(data, i, arr[i]);
    }
    forall i | 0 <= i < w
      ensures data[4 * i] == arr[i].r && data[4 * i + 1] == arr[i].g && data[4 * i + 2] == arr[i].b
      ensures data[4 * i + 3] == 255
    {
      assert Texel(data, i, arr[i]);
    }
  }

  /** Texel `i` of `data` holds colour `c` with an opaque alpha. */
  ghost predicate Texel(data: array<int>, i: int, c: Rgb)
    reads data
    requires 0 <= i && 4 * i + 3 < data.Length
  {
    data[4 * i] == c.r && data[4 * i + 1] == c.g && data[4 * i + 2] == c.b && data[4 * i + 3] == 255
  }

  /** Writes one texel, leaving the other bytes as they were. */
  method WriteTexel(data: array<int>, i: nat, c: Rgb)
    requires 4 * i + 3 < data.Length
    modifies data
    ensures Texel(data, i, c)
    ensures forall k :: 0 <= k < data.Length && (k < 4 * i || 4 * i + 3 < k) ==> data[k] == old(data[k])
  {
    data[4 * i] := c.r;
    data[4 * i + 1] := c.g;
    data[4 * i + 2] := c.b;
    data[4 * i + 3] := 255;
  }

  /** Every fourth byte of the texture, the alpha channel, is 255. */
  lemma AlphaOpaque(stops: Option<seq<Rgb>>, data: seq<int>)
    requires |data| == 4 * |NormalizedStops(stops)|
    requires forall i :: 0 <= i < |NormalizedStops(stops)| ==> data[4 * i + 3] == 255
    ensures forall k :: 0 <= k < |data| && k % 4 == 3 ==> data[k] == 255
  {
    forall k | 0 <= k < |data| && k % 4 == 3
      ensures data[k] == 255
    {
      var i := k / 4;
      assert 4 * i + 3 == k;
    }
  }
}
