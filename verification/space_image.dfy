/**
 * `p15/src/main.rs`: an image arrives as a run of digit bytes, cut into layers of 25 × 6
 * pixels; the checksum is, for the layer with the fewest `0` digits, the number of `1` digits
 * times the number of `2` digits. `p16/src/main.rs` cuts the layers the same way (module
 * `ImageDecoder`).
 */
module SpaceImage {
  import opened Util
  import StableSort

  type Byte = b: int | 0 <= b < 256

  const WIDTH: nat := 25
  const HEIGHT: nat := 6
  /** `layer_data_size`: the bytes of one layer. */
  const LAYER_SIZE: nat := 150

  const DIGIT_ZERO: Byte := 48
  const DIGIT_ONE: Byte := 49
  const DIGIT_TWO: Byte := 50

  /** `count_pixels`: how many bytes of the layer equal `d`. */
  function CountPixels(layer: seq<Byte>, d: Byte): (n: nat)
    ensures n == multiset(layer)[d]
    ensures n <= |layer|
  {
    if layer == [] then 0
    else
      assert layer == layer[..|layer| - 1] + [layer[|layer| - 1]];
      CountPixels(layer[..|layer| - 1], d) + (if layer[|layer| - 1] == d then 1 else 0)
  }

  /** `input.chunks_exact(layer_data_size)`: the whole layers, front to back; a shorter tail is dropped. */
  function Layers(input: seq<Byte>): (layers: seq<seq<Byte>>)
    ensures |layers| == |input| / LAYER_SIZE
    ensures forall i :: 0 <= i < |layers| ==> |layers[i]| == LAYER_SIZE
    decreases |input|
  {
    if |input| < LAYER_SIZE then [] else [input[..LAYER_SIZE]] + Layers(input[LAYER_SIZE..])
  }

  /** Layer `i` is the `i`-th run of `LAYER_SIZE` bytes of the input. */
  lemma {:induction false} LayersMeaning(input: seq<Byte>, i: nat)
    requires i < |Layers(input)|
    ensures (i + 1) * LAYER_SIZE <= |input|
    ensures Layers(input)[i] == input[i * LAYER_SIZE..(i + 1) * LAYER_SIZE]
    decreases i
  {
    var rest := input[LAYER_SIZE..];
    assert Layers(input) == [input[..LAYER_SIZE]] + Layers(rest);
    if i > 0 {
      LayersMeaning(rest, i - 1);
      assert (i - 1) * LAYER_SIZE + LAYER_SIZE == i * LAYER_SIZE;
      assert i * LAYER_SIZE + LAYER_SIZE == (i + 1) * LAYER_SIZE;
      assert Layers(input)[i] == Layers(rest)[i - 1];
      assert rest[(i - 1) * LAYER_SIZE..i * LAYER_SIZE] == input[i * LAYER_SIZE..(i + 1) * LAYER_SIZE];
    }
  }

  /** The number of `0` digits of a layer: the key `run` sorts by. */
  function Zeros(layer: seq<Byte>): nat
  {
    CountPixels(layer, DIGIT_ZERO)
  }

  /** `layers.sort_by_key(|l| l.count_pixels(b'0'))`. */
  function SortByZeros(layers: seq<seq<Byte>>): (sorted: seq<seq<Byte>>)
    ensures |sorted| == |layers|
  {
    StableSort.SortByKey(Zeros, layers)
  }

  /** The ways `run` can fail: with no whole layer, `layers[0]` panics. */
  datatype ImageError = NoLayer | UnknownPixel(value: Byte)

  /** `run` of p15: the checksum of the layer the sort puts first. */
  function Run(input: seq<Byte>): Result<nat, ImageError>
  {
    var layers := Layers(input);
    if layers == [] then Err(NoLayer)
    else
      var fewest := SortByZeros(layers)[0];
      Ok(CountPixels(fewest, DIGIT_ONE) * CountPixels(fewest, DIGIT_TWO))
  }

  /**
   * `run` fails exactly when the input is shorter than one layer; otherwise the checksum
   * belongs to the first whole layer with the fewest zeros.
   */
  lemma RunMeaning(input: seq<Byte>)
    ensures Run(input).Err? <==> |input| < LAYER_SIZE
    ensures Run(input).Ok? ==> exists i :: (StableSort.FirstLeast(Zeros, Layers(input), i)
      && Run(input).value == CountPixels(Layers(input)[i], DIGIT_ONE) * CountPixels(Layers(input)[i], DIGIT_TWO))
  {
    if Layers(input) != [] {
      StableSort.SortByKeyHead(Zeros, Layers(input));
    }
  }
}
