/**
 * The chart palette and its Fisher–Yates shuffle (src/app/utils/colors.ts).
 * `Math.random` is an explicit source of draws: draw `t` is the value returned by the `t`-th call.
 */
module Colors {

  /** The fixed palette of 80 colours, in declaration order. */
  const Palette: seq<string> := [
    "#d9ed92", "#b5e48c", "#99d98c", "#76c893", "#52b69a", "#34a0a4", "#168aad", "#1a759f",
    "#1e6091", "#184e77", "#edc4b3", "#e6b8a2", "#deab90", "#d69f7e", "#cd9777", "#c38e70",
    "#b07d62", "#9d6b53", "#8a5a44", "#774936", "#0466c8", "#0353a4", "#023e7d", "#002855",
    "#001845", "#001233", "#33415c", "#5c677d", "#7d8597", "#979dac", "#ff6d00", "#ff7900",
    "#ff8500", "#ff9100", "#ff9e00", "#240046", "#3c096c", "#5a189a", "#7b2cbf", "#9d4edd",
    "#797d62", "#9b9b7a", "#baa587", "#d9ae94", "#f1dca7", "#ffcb69", "#e8ac65", "#d08c60",
    "#b58463", "#997b66", "#54478c", "#2c699a", "#048ba8", "#0db39e", "#16db93", "#83e377",
    "#b9e769", "#efea5a", "#f1c453", "#f29e4c", "#053c5e", "#1d3958", "#353652", "#4c334d",
    "#643047", "#7c2e41", "#942b3b", "#ab2836", "#c32530", "#db222a", "#eb5e28", "#f27f34",
    "#f9a03f", "#f6b049", "#f3c053", "#a1c349", "#94b33d", "#87a330", "#799431", "#6a8532"
  ]

  /** What `Math.random` returns: a number in [0, 1). */
  type Draw = x: real | 0.0 <= x < 1.0

  /**
   * `Math.floor(Math.random() * (i + 1))`: an index between 0 and `i`, both included. The product
   * is computed as `Scaled(x, i + 1)`; `PickIsFloorOfProduct` shows that this is the product.
   */
  function Pick(x: real, i: nat): (j: int)
    requires 0.0 <= x < 1.0
    ensures 0 <= j <= i
  {
    ScaledBelow(x, i + 1);
    Scaled(x, i + 1).Floor
  }

  /** The drawn index is the floor of the draw times `i + 1`, as in the source. */
  lemma PickIsFloorOfProduct(x: real, i: nat)
    requires 0.0 <= x < 1.0
    ensures Pick(x, i) == (x * (i + 1) as real).Floor
  {
    ScaledIsProduct(x, i + 1);
  }

  /** `x * n` as a sum of `n` copies of `x`, the form in which its bounds are proved by induction. */
  function Scaled(x: real, n: nat): real
  {
    if n == 0 then 0.0 else Scaled(x, n - 1) + x
  }

  lemma {:induction false} ScaledIsProduct(x: real, n: nat)
    ensures Scaled(x, n) == x * n as real
  {
    if n > 0 {
      ScaledIsProduct(x, n - 1);
      assert x * n as real == x * (n - 1) as real + x;
    }
  }

  /** A draw in [0, 1) scaled by `n` lies in [0, n). */
  lemma {:induction false} ScaledBelow(x: real, n: nat)
    requires 0.0 <= x < 1.0
    ensures 0.0 <= Scaled(x, n)
    ensures n > 0 ==> Scaled(x, n) < n as real
  {
    if n > 0 {
      ScaledBelow(x, n - 1);
    }
  }

  /** The destructuring swap `[a[i], a[j]] = [a[j], a[i]]` on a sequence. */
  function Swap<T>(s: seq<T>, i: int, j: int): (r: seq<T>)
    requires 0 <= i < |s| && 0 <= j < |s|
    ensures |r| == |s| && r[i] == s[j] && r[j] == s[i]
    ensures forall k :: 0 <= k < |s| && k != i && k != j ==> r[k] == s[k]
  {
    s[i := s[j]][j := s[i]]
  }

  /**
   * The loop of `shuffleArray` entered with counter `i` on contents `s`: while `i > 0`, swap
   * position `i` with the position picked by draw `|s| - 1 - i`, then decrement `i`.
   */
  function ShuffleFrom<T>(s: seq<T>, i: int, random: nat -> Draw): (r: seq<T>)
    requires i < |s|
    ensures |r| == |s|
    decreases i
  {
    if i <= 0 then s
    else ShuffleFrom(Swap(s, i, Pick(random(|s| - 1 - i), i)), i - 1, random)
  }

  /** The whole shuffle: the loop entered with `i = s.length - 1`. */
  function Shuffle<T>(s: seq<T>, random: nat -> Draw): (r: seq<T>)
    ensures |r| == |s|
  {
    ShuffleFrom(s, |s| - 1, random)
  }

  lemma SwapPermutes<T>(s: seq<T>, i: int, j: int)
    requires 0 <= i < |s| && 0 <= j < |s|
    ensures multiset(Swap(s, i, j)) == multiset(s)
  {
    var t := s[i := s[j]];
    assert multiset(t) == multiset(s) - multiset{s[i]} + multiset{s[j]};
    assert multiset(t[j := s[i]]) == multiset(t) - multiset{t[j]} + multiset{s[i]};
  }

  /** The shuffle keeps the length and is a permutation: the same elements, as often as before. */
  lemma {:induction false} ShufflePermutes<T>(s: seq<T>, i: int, random: nat -> Draw)
    requires i < |s|
    ensures multiset(ShuffleFrom(s, i, random)) == multiset(s)
    decreases i
  {
    if i > 0 {
      var j := Pick(random(|s| - 1 - i), i);
      SwapPermutes(s, i, j);
      ShufflePermutes(Swap(s, i, j), i - 1, random);
    }
  }

  /** Once the loop has passed position `i`, no later step touches positions above `i`. */
  lemma {:induction false} ShuffleKeepsSettled<T>(s: seq<T>, i: int, random: nat -> Draw, k: int)
    requires 0 <= k && i < k < |s|
    ensures ShuffleFrom(s, i, random)[k] == s[k]
    decreases i
  {
    if i > 0 {
      var j := Pick(random(|s| - 1 - i), i);
      ShuffleKeepsSettled(Swap(s, i, j), i - 1, random, k);
    }
  }

  /** Arrays of length 0 or 1 come back unchanged: the loop body never runs. */
  lemma ShortArraysUnchanged<T>(s: seq<T>, random: nat -> Draw)
    requires |s| <= 1
    ensures Shuffle(s, random) == s
  {
  }

  /**
   * `shuffleArray`: copies its argument into a new array and shuffles the copy in place,
   * leaving the argument untouched.
   */
  method ShuffleArray<T>(input: array<T>, random: nat -> Draw) returns (shuffled: array<T>)
    ensures fresh(shuffled)
    ensures input[..] == old(input[..])
    ensures shuffled[..] == Shuffle(input[..], random)
    ensures multiset(shuffled[..]) == multiset(input[..])
  {
    shuffled := Copy(input);
    ShuffleInPlace(shuffled, random);
    ShufflePermutes(input[..], input.Length - 1, random);
  }

  /** `[...array]`: a new array with the same elements. */
  method Copy<T>(input: array<T>) returns (copy: array<T>)
    ensures fresh(copy) && copy[..] == input[..]
  {
    copy := new T[input.Length](k requires 0 <= k < input.Length reads input => input[k]);
  }

  /** The loop of `shuffleArray`: for `i` from the last index down to 1, swap `a[i]` with `a[j]`, `0 <= j <= i`. */
  method ShuffleInPlace<T>(a: array<T>, random: nat -> Draw)
    modifies a
    ensures a[..] == Shuffle(old(a[..]), random)
  {
    ghost var target := Shuffle(a[..], random);
    var i := a.Length - 1;
    while i > 0
      invariant -1 <= i < a.Length
      invariant ShuffleFrom(a[..], i, random) == target
    {
      var j := Pick(random(a.Length - 1 - i), i);
      ghost var before := a[..];
      ShuffleStep(before, i, random, j);
      SwapAt(a, i, j);
      assert ShuffleFrom(a[..], i - 1, random) == target;
      i := i - 1;
    }
  }

  /** `[a[i], a[j]] = [a[j], a[i]]` on the array. */
  method SwapAt<T>(a: array<T>, i: int, j: int)
    requires 0 <= i < a.Length && 0 <= j < a.Length
    modifies a
    ensures a[..] == Swap(old(a[..]), i, j)
  {
    ghost var before := a[..];
    a[i], a[j] := a[j], a[i];
    SwappedInPlace(before, a[..], i, j);
  }

  /** One turn of the loop: swapping `i` with the picked `j` leaves the rest of the loop to do. */
  lemma ShuffleStep<T>(s: seq<T>, i: int, random: nat -> Draw, j: int)
    requires 0 < i < |s|
    requires j == Pick(random(|s| - 1 - i), i)
    ensures ShuffleFrom(s, i, random) == ShuffleFrom(Swap(s, i, j), i - 1, random)
  {
  }

  /** The array after the destructuring swap holds `Swap` of what it held before. */
  lemma SwappedInPlace<T>(before: seq<T>, after: seq<T>, i: int, j: int)
    requires 0 <= i < |before| && 0 <= j < |before| && |after| == |before|
    requires after[i] == before[j] && after[j] == before[i]
    requires forall k :: 0 <= k < |before| && k != i && k != j ==> after[k] == before[k]
    ensures after == Swap(before, i, j)
  {
  }

  /** `randomColors`: a freshly shuffled copy of the palette. */
  method RandomColors(random: nat -> Draw) returns (colors: array<string>)
    ensures fresh(colors)
    ensures colors[..] == Shuffle(Palette, random)
  {
    var palette := new string[|Palette|](k requires 0 <= k < |Palette| => Palette[k]);
    assert palette[..] == Palette;
    colors := ShuffleArray(palette, random);
  }

  /** Every result of `randomColors` holds the 80 palette colours, each exactly as often as the palette does. */
  lemma RandomColorsArePalette(random: nat -> Draw)
    ensures multiset(Shuffle(Palette, random)) == multiset(Palette)
  {
    ShufflePermutes(Palette, |Palette| - 1, random);
  }

  /** The palette holds 80 colours, so every result of `randomColors` does too. */
  lemma PaletteSize(random: nat -> Draw)
    ensures |Palette| == 80 && |Shuffle(Palette, random)| == 80
  {
  }
}
