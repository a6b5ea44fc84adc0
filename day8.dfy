/** Day 8: an image sent as digits, layer after layer of `width * height`
    pixels. Pixel 0 is black, 1 is white and 2 is transparent. */
module Day8 {
  import opened Common
  import Text

  type Layer = seq<int>

  // ---------------------------------------------------------------------
  // split_layers

  /** `c.to_i` on each character. */
  function Values(data: string): (v: seq<int>)
    ensures |v| == |data| && forall i :: 0 <= i < |data| ==> v[i] == Text.CharToI(data[i])
  {
    seq(|data|, i requires 0 <= i < |data| => Text.CharToI(data[i]))
  }

  /** Each value is Ruby's `to_i` of its one-character string. */
  lemma ValuesAreToI(data: string)
    ensures forall i :: 0 <= i < |data| ==> Values(data)[i] == Text.ToI([data[i]])
  {
    forall i | 0 <= i < |data|
      ensures Values(data)[i] == Text.ToI([data[i]])
    {
      Text.CharToIIsToI(data[i]);
    }
  }

  /** `each_slice(size)`: consecutive runs of `size`, the last one shorter. */
  function Slices(v: seq<int>, size: nat): seq<Layer>
    requires size > 0
    decreases |v|
  {
    if v == [] then []
    else if |v| <= size then [v]
    else [v[..size]] + Slices(v[size..], size)
  }

  /** The layers one after another. */
  function Concat(layers: seq<Layer>): seq<int>
  {
    if layers == [] then [] else layers[0] + Concat(layers[1..])
  }

  /** The slices give back the data in order; every slice but the last holds
      `size` values, and the last holds at least one and at most `size`. */
  lemma {:induction false} SlicesSpec(v: seq<int>, size: nat)
    requires size > 0
    ensures Concat(Slices(v, size)) == v
    ensures var s := Slices(v, size);
      && (s == [] <==> v == [])
      && (forall i :: 0 <= i < |s| - 1 ==> |s[i]| == size)
      && (s != [] ==> 0 < |s[|s| - 1]| <= size)
    decreases |v|
  {
    if |v| > size {
      SlicesSpec(v[size..], size);
      var s := Slices(v, size);
      var rest := Slices(v[size..], size);
      assert s[1..] == rest;
      assert v[..size] + v[size..] == v;
      forall i | 0 <= i < |s| - 1 ensures |s[i]| == size {
        if i > 0 {
          assert s[i] == rest[i - 1];
        }
      }
    }
  }

  /** `split_layers(data, width, height)`. A slice size that is not positive
      makes `each_slice` raise, which is `None` here. */
  method SplitLayers(data: string, width: int, height: int) returns (r: Option<seq<Layer>>)
    ensures width * height <= 0 ==> r == None
    ensures width * height > 0 ==> r == Some(Slices(Values(data), width * height))
  {
    if width * height <= 0 {
      return None;
    }
    var size := width * height;
    ghost var v := Values(data);
    var layers: seq<Layer> := [];
    var pos := 0;
    while pos < |data|
      invariant 0 <= pos <= |data|
      invariant layers + Slices(v[pos..], size) == Slices(v, size)
      decreases |data| - pos
    {
      var end := if pos + size < |data| then pos + size else |data|;
      var layer := ReadLayer(data, pos, end);
      SliceAt(v, pos, size);
      assert layers + [layer] + Slices(v[end..], size) == layers + Slices(v[pos..], size);
      layers := layers + [layer];
      pos := end;
    }
    assert v[|data|..] == [];
    assert layers + Slices(v[|data|..], size) == layers;
    r := Some(layers);
  }

  /** The values of `data[start..end]`, one character at a time. */
  method ReadLayer(data: string, start: nat, end: nat) returns (layer: Layer)
    requires start <= end <= |data|
    ensures layer == Values(data)[start..end]
  {
    layer := [];
    for i := start to end
      invariant layer == Values(data)[start..i]
    {
      layer := layer + [Text.CharToI(data[i])];
    }
  }

  lemma SliceAt(v: seq<int>, pos: nat, size: nat)
    requires size > 0 && pos < |v|
    ensures var end := if pos + size < |v| then pos + size else |v|;
      Slices(v[pos..], size) == [v[pos..end]] + Slices(v[end..], size)
  {
    var end := if pos + size < |v| then pos + size else |v|;
    if pos + size < |v| {
      assert v[pos..][size..] == v[end..];
      assert v[pos..][..size] == v[pos..end];
    } else {
      assert v[end..] == [];
      assert v[pos..] == v[pos..end];
    }
  }

  // ---------------------------------------------------------------------
  // count_elem, layer_counts

  /** `count_elem(data, target)`: the number of entries equal to `target`. */
  function CountElem(data: seq<int>, target: int): (n: nat)
    ensures n == multiset(data)[target]
  {
    if data == [] then 0
    else
      var init, last := data[..|data| - 1], data[|data| - 1];
      assert data == init + [last];
      CountElem(init, target) + (if last == target then 1 else 0)
  }

  /** How many 0s, 1s and 2s a layer holds: `counts[i][0]`, `[1]` and `[2]`. */
  datatype Counts = Counts(zeros: nat, ones: nat, twos: nat)

  /** `layer_counts(layers)`, indexed by layer. */
  method LayerCounts(layers: seq<Layer>) returns (counts: seq<Counts>)
    ensures |counts| == |layers|
    ensures forall i :: 0 <= i < |layers| ==>
      counts[i] == Counts(multiset(layers[i])[0], multiset(layers[i])[1], multiset(layers[i])[2])
  {
    counts := [];
    for i := 0 to |layers|
      invariant |counts| == i
      invariant forall j :: 0 <= j < i ==>
        counts[j] == Counts(multiset(layers[j])[0], multiset(layers[j])[1], multiset(layers[j])[2])
    {
      var layer := layers[i];
      counts := counts + [Counts(CountElem(layer, 0), CountElem(layer, 1), CountElem(layer, 2))];
    }
  }

  // ---------------------------------------------------------------------
  // find_least_zeros

  /** The starting value of `least_zs`. */
  const Unset := 99999999

  /** `find_least_zeros(layer_counts)`. The comparison is strict, so of the
      layers with the fewest zeros the first one wins; when no layer has
      fewer zeros than the starting value the answer stays 0. */
  method FindLeastZeros(counts: seq<Counts>) returns (least: nat)
    ensures (forall j :: 0 <= j < |counts| ==> counts[j].zeros >= Unset) ==> least == 0
    ensures (exists j :: 0 <= j < |counts| && counts[j].zeros < Unset) ==>
      && least < |counts|
      && (forall j :: 0 <= j < |counts| ==> counts[least].zeros <= counts[j].zeros)
      && (forall j :: 0 <= j < least ==> counts[least].zeros < counts[j].zeros)
  {
    var leastZeros := Unset;
    least := 0;
    for i := 0 to |counts|
      invariant leastZeros <= Unset
      invariant (forall j :: 0 <= j < i ==> counts[j].zeros >= Unset) ==> least == 0 && leastZeros == Unset
      invariant (exists j :: 0 <= j < i && counts[j].zeros < Unset) ==> least < i && leastZeros == counts[least].zeros
      invariant forall j :: 0 <= j < i ==> leastZeros <= counts[j].zeros
      invariant forall j :: 0 <= j < least ==> leastZeros < counts[j].zeros
    {
      if counts[i].zeros < leastZeros {
        leastZeros := counts[i].zeros;
        least := i;
      }
    }
  }

  // ---------------------------------------------------------------------
  // flatten

  /** A pixel of the flattened image: nil, or the colour written there. */
  type Pixel = Option<int>

  /** `output[i]`, which reads nil past the end. */
  function At(output: seq<Pixel>, i: nat): Pixel
  {
    if i < |output| then output[i] else None
  }

  /** `output[i] = p`: an array grown past its end is padded with nil. */
  function Store(output: seq<Pixel>, i: nat, p: Pixel): (r: seq<Pixel>)
    ensures |r| == Max(|output|, i + 1) && r[i] == p
    ensures forall j :: 0 <= j < |r| && j != i ==> r[j] == At(output, j)
  {
    if i < |output| then output[i := p]
    else output + seq(i - |output|, _ => None) + [p]
  }

  /** A colour that covers what lies below it: black or white. */
  predicate Opaque(v: int) { v == 0 || v == 1 }

  /** One arm of the `case`: 0 and 1 are written; 2 writes back what is
      there, which still grows the array; any other value writes nothing. */
  function Paint(output: seq<Pixel>, i: nat, v: int): seq<Pixel>
  {
    if Opaque(v) then Store(output, i, Some(v))
    else if v == 2 then Store(output, i, At(output, i))
    else output
  }

  /** The inner loop of `flatten` over the first `n` pixels of a layer. */
  function PaintLayer(output: seq<Pixel>, layer: Layer, n: nat): seq<Pixel>
    requires n <= |layer|
  {
    if n == 0 then output else Paint(PaintLayer(output, layer, n - 1), n - 1, layer[n - 1])
  }

  /** `flatten(layers)`: the layers painted from the last to the first. */
  function FlattenSpec(layers: seq<Layer>): seq<Pixel>
  {
    if layers == [] then [] else PaintLayer(FlattenSpec(layers[1..]), layers[0], |layers[0]|)
  }

  /** One past the last of the first `n` pixels that the `case` writes (0, 1 or 2). */
  function Reach(layer: Layer, n: nat): (r: nat)
    requires n <= |layer|
    ensures r <= n
    ensures forall j :: 0 <= j < n && (Opaque(layer[j]) || layer[j] == 2) ==> j < r
    ensures r > 0 ==> Opaque(layer[r - 1]) || layer[r - 1] == 2
  {
    if n == 0 then 0 else if Opaque(layer[n - 1]) || layer[n - 1] == 2 then n else Reach(layer, n - 1)
  }

  /** The length of the flattened image. */
  function FlatLength(layers: seq<Layer>): nat
  {
    if layers == [] then 0 else Max(Reach(layers[0], |layers[0]|), FlatLength(layers[1..]))
  }

  /** Pixel `i` of the lowest-numbered layer that is black or white there. */
  function TopPixel(layers: seq<Layer>, i: nat): Pixel
  {
    if layers == [] then None
    else if i < |layers[0]| && Opaque(layers[0][i]) then Some(layers[0][i])
    else TopPixel(layers[1..], i)
  }

  /** Painting the first `n` pixels of a layer writes its black and white
      pixels there, keeps every other pixel, and grows the image to reach
      the last pixel that the `case` writes. */
  lemma {:induction false} PaintLayerSpec(output: seq<Pixel>, layer: Layer, n: nat)
    requires n <= |layer|
    ensures var r := PaintLayer(output, layer, n);
      && |r| == Max(|output|, Reach(layer, n))
      && forall j :: 0 <= j < |r| ==>
           r[j] == if j < n && Opaque(layer[j]) then Some(layer[j]) else At(output, j)
  {
    if n > 0 {
      var prev := PaintLayer(output, layer, n - 1);
      PaintLayerSpec(output, layer, n - 1);
      var r := PaintLayer(output, layer, n);
      assert r == Paint(prev, n - 1, layer[n - 1]);
      forall j | 0 <= j < |r| && j != n - 1
        ensures r[j] == if j < n && Opaque(layer[j]) then Some(layer[j]) else At(output, j)
      {
        assert r[j] == At(prev, j);
      }
    }
  }

  /** Pixel `i` of the flattened image is that of the first layer that is
      black or white there, or nil when none is; transparent never covers. */
  lemma {:induction false} FlattenMeaning(layers: seq<Layer>)
    ensures |FlattenSpec(layers)| == FlatLength(layers)
    ensures forall i :: 0 <= i < |FlattenSpec(layers)| ==> FlattenSpec(layers)[i] == TopPixel(layers, i)
  {
    if layers != [] {
      FlattenMeaning(layers[1..]);
      PaintLayerSpec(FlattenSpec(layers[1..]), layers[0], |layers[0]|);
      forall i | 0 <= i < |FlattenSpec(layers)| ensures FlattenSpec(layers)[i] == TopPixel(layers, i) {
        if i >= |FlattenSpec(layers[1..])| {
          TopPixelBeyond(layers[1..], i);
        }
      }
    }
  }

  /** Past the flattened image no layer is black or white. */
  lemma {:induction false} TopPixelBeyond(layers: seq<Layer>, i: nat)
    requires i >= FlatLength(layers)
    ensures TopPixel(layers, i) == None
  {
    if layers != [] {
      TopPixelBeyond(layers[1..], i);
    }
  }

  /** The inner loop of `flatten`, on the output array. */
  method PaintOver(output0: seq<Pixel>, layer: Layer) returns (output: seq<Pixel>)
    ensures output == PaintLayer(output0, layer, |layer|)
  {
    output := output0;
    for i := 0 to |layer|
      invariant output == PaintLayer(output0, layer, i)
    {
      var value := layer[i];
      if value == 0 || value == 1 {
        output := Store(output, i, Some(value));
      } else if value == 2 {
        output := Store(output, i, At(output, i));
      }
    }
  }

  /** `flatten(layers)` */
  method Flatten(layers: seq<Layer>) returns (output: seq<Pixel>)
    ensures output == FlattenSpec(layers)
  {
    output := [];
    var k := |layers|;
    while k > 0
      invariant 0 <= k <= |layers|
      invariant output == FlattenSpec(layers[k..])
      decreases k
    {
      k := k - 1;
      assert layers[k..][1..] == layers[k + 1..];
      output := PaintOver(output, layers[k]);
    }
  }
}
