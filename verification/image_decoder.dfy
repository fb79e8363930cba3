/**
 * `p16/src/main.rs`: decoding the image. Each digit byte of a layer is a pixel (white, black
 * or transparent); the layers are stacked front to back, and a pixel of the image shows the
 * first layer that is not transparent there. The image is shown as 6 rows of 25 symbols.
 */
module ImageDecoder {
  import opened Util
  import opened SpaceImage

  datatype PixelValue = White | Black | Transparent

  /** The `Display` of a pixel: one symbol each. */
  function Symbol(p: PixelValue): (c: char)
    ensures c in " #/"
  {
    match p
    case White => ' '
    case Black => '#'
    case Transparent => '/'
  }

  /** Different pixels show as different symbols. */
  lemma SymbolDistinct(p: PixelValue, q: PixelValue)
    ensures Symbol(p) == Symbol(q) <==> p == q
  {
  }

  /** `PixelValue::from`: the digits `0`, `1`, `2`; any other byte makes the conversion panic. */
  function FromByte(b: Byte): (r: Result<PixelValue, ImageError>)
    ensures r.Ok? <==> b == DIGIT_ZERO || b == DIGIT_ONE || b == DIGIT_TWO
    ensures r.Err? ==> r.error == UnknownPixel(b)
  {
    if b == DIGIT_ZERO then Ok(White)
    else if b == DIGIT_ONE then Ok(Black)
    else if b == DIGIT_TWO then Ok(Transparent)
    else Err(UnknownPixel(b))
  }

  /** The digit that stands for a pixel. */
  function ToByte(p: PixelValue): Byte
  {
    match p
    case White => DIGIT_ZERO
    case Black => DIGIT_ONE
    case Transparent => DIGIT_TWO
  }

  /** Every pixel is read back from its digit, and every digit that is read comes from its pixel. */
  lemma FromByteToByte(p: PixelValue, b: Byte)
    ensures FromByte(ToByte(p)) == Ok(p)
    ensures FromByte(b) == Ok(p) ==> ToByte(p) == b
  {
  }

  predicate Known(b: Byte)
  {
    FromByte(b).Ok?
  }

  /** `add_backing_pixel`: a transparent pixel takes the pixel behind it; any other stays. */
  function Backed(cur: PixelValue, other: PixelValue): (r: PixelValue)
    ensures r == cur || r == other
    ensures r == Transparent <==> cur == Transparent && other == Transparent
  {
    if cur == Transparent then other else cur
  }

  /** A pixel that is not transparent is never changed by the pixels behind it. */
  lemma BackedStays(cur: PixelValue, other: PixelValue)
    requires cur != Transparent
    ensures Backed(cur, other) == cur
    ensures Backed(Backed(cur, other), other) == Backed(cur, other)
  {
  }

  /** Transparent is neutral on both sides, and stacking is associative. */
  lemma BackedLaws(a: PixelValue, b: PixelValue, c: PixelValue)
    ensures Backed(Transparent, a) == a && Backed(a, Transparent) == a
    ensures Backed(Backed(a, b), c) == Backed(a, Backed(b, c))
  {
  }

  /** `add_backing_pixel` on pixel `k` of the image, through the mutable reference `iter_mut` yields. */
  method AddBackingPixel(pixels: array<PixelValue>, k: nat, other: PixelValue)
    requires k < pixels.Length
    modifies pixels
    ensures pixels[..] == old(pixels[..])[k := Backed(old(pixels[k]), other)]
  {
    var next := if pixels[k] == Transparent then other else pixels[k];
    pixels[k] := next;
  }

  /** How many bytes of `layer` `zip` pairs with the image's pixels. */
  function Overlap(layer: seq<Byte>): (n: nat)
    ensures n <= LAYER_SIZE && n <= |layer|
  {
    Min(|layer|, LAYER_SIZE)
  }

  /** Every byte the image reads from the layers is a pixel digit. */
  predicate AllKnown(layers: seq<seq<Byte>>)
  {
    forall i, k :: 0 <= i < |layers| && 0 <= k < Overlap(layers[i]) ==> Known(layers[i][k])
  }

  /** Byte `k` of layer `i` is the first byte `from_layers` reads that is not a pixel digit. */
  predicate FirstUnknown(layers: seq<seq<Byte>>, i: int, k: int)
  {
    0 <= i < |layers| && 0 <= k < Overlap(layers[i]) && !Known(layers[i][k])
    && AllKnown(layers[..i])
    && forall m :: 0 <= m < k ==> Known(layers[i][m])
  }

  /**
   * What the image shows at pixel `j`: the pixel of the first layer (front to back) that has one
   * there and is not transparent; transparent when there is none.
   */
  function Visible(layers: seq<seq<Byte>>, j: nat): (p: PixelValue)
    requires AllKnown(layers) && j < LAYER_SIZE
    decreases |layers|
  {
    if layers == [] then Transparent
    else
      assert AllKnown(layers[1..]) by {
        assert forall i :: 1 <= i < |layers| ==> layers[1..][i - 1] == layers[i];
      }
      if j < |layers[0]| && FromByte(layers[0][j]).value != Transparent then FromByte(layers[0][j]).value
      else Visible(layers[1..], j)
  }

  /** A layer more at the back changes only the pixels that were still transparent. */
  lemma {:induction false} VisibleSnoc(layers: seq<seq<Byte>>, layer: seq<Byte>, j: nat)
    requires AllKnown(layers + [layer]) && j < LAYER_SIZE
    ensures AllKnown(layers)
    ensures j < |layer| ==>
      FromByte(layer[j]).Ok? && Visible(layers + [layer], j) == Backed(Visible(layers, j), FromByte(layer[j]).value)
    ensures j >= |layer| ==> Visible(layers + [layer], j) == Visible(layers, j)
    decreases |layers|
  {
    var all := layers + [layer];
    assert forall i :: 0 <= i < |layers| ==> all[i] == layers[i];
    if layers != [] {
      assert all[1..] == layers[1..] + [layer];
      VisibleSnoc(layers[1..], layer, j);
    } else {
      assert all[1..] == [];
    }
  }

  /**
   * `Image::from_layers`: start from a transparent image and back each pixel, layer after
   * layer, with the pixel the layer has there. The first byte that is not a pixel digit ends it
   * with an error, as the panic in `PixelValue::from` does.
   */
  method FromLayers(layers: seq<seq<Byte>>) returns (r: Result<seq<PixelValue>, ImageError>)
    ensures r.Ok? <==> AllKnown(layers)
    ensures r.Ok? ==> |r.value| == LAYER_SIZE && forall j :: 0 <= j < LAYER_SIZE ==> r.value[j] == Visible(layers, j)
    ensures r.Err? ==> exists i, k :: FirstUnknown(layers, i, k) && r.error == UnknownPixel(layers[i][k])
  {
    var pixels := new PixelValue[LAYER_SIZE](_ => Transparent);
    for i := 0 to |layers|
      invariant AllKnown(layers[..i])
      invariant forall j :: 0 <= j < LAYER_SIZE ==> pixels[j] == Visible(layers[..i], j)
    {
      var layer := layers[i];
      var n := Min(LAYER_SIZE, |layer|);
      for k := 0 to n
        invariant forall m :: 0 <= m < k ==> Known(layer[m])
        invariant forall j :: 0 <= j < k ==> pixels[j] == Backed(Visible(layers[..i], j), FromByte(layer[j]).value)
        invariant forall j :: k <= j < LAYER_SIZE ==> pixels[j] == Visible(layers[..i], j)
      {
        var backing := FromByte(layer[k]);
        if backing.Err? {
          assert FirstUnknown(layers, i, k);
          return Err(backing.error);
        }
        AddBackingPixel(pixels, k, backing.value);
      }
      assert layers[..i + 1] == layers[..i] + [layer];
      assert AllKnown(layers[..i + 1]) by {
        assert forall a :: 0 <= a < i ==> layers[..i + 1][a] == layers[..i][a];
      }
      forall j | 0 <= j < LAYER_SIZE
        ensures pixels[j] == Visible(layers[..i + 1], j)
      {
        VisibleSnoc(layers[..i], layer, j);
      }
    }
    assert layers[..|layers|] == layers;
    return Ok(pixels[..]);
  }

  /** The symbols of the first `j` pixels of row `i`. */
  function RowPrefix(pixels: seq<PixelValue>, i: nat, j: nat): (s: string)
    requires |pixels| == LAYER_SIZE && i < HEIGHT && j <= WIDTH
    ensures |s| == j
  {
    if j == 0 then ""
    else
      assert i * WIDTH + (j - 1) < LAYER_SIZE;
      RowPrefix(pixels, i, j - 1) + [Symbol(pixels[i * WIDTH + (j - 1)])]
  }

  /** The first `i` rows of the image, each ended by a newline. */
  function Render(pixels: seq<PixelValue>, i: nat): (s: string)
    requires |pixels| == LAYER_SIZE && i <= HEIGHT
  {
    if i == 0 then "" else Render(pixels, i - 1) + RowPrefix(pixels, i - 1, WIDTH) + "\n"
  }

  /** The `Display` of `Image`: row by row, 25 pixel symbols and a newline each. */
  method Show(pixels: seq<PixelValue>) returns (s: string)
    requires |pixels| == LAYER_SIZE
    ensures s == Render(pixels, HEIGHT)
  {
    s := "";
    for i := 0 to HEIGHT
      invariant s == Render(pixels, i)
    {
      for j := 0 to WIDTH
        invariant s == Render(pixels, i) + RowPrefix(pixels, i, j)
      {
        s := s + [Symbol(pixels[i * WIDTH + j])];
      }
      s := s + "\n";
    }
  }

  /** Symbol `j` of row `i`'s prefix shows pixel `i * WIDTH + j`. */
  lemma {:induction false} RowPrefixAt(pixels: seq<PixelValue>, i: nat, j: nat, n: nat)
    requires |pixels| == LAYER_SIZE && i < HEIGHT && j < n <= WIDTH
    ensures i * WIDTH + j < LAYER_SIZE
    ensures RowPrefix(pixels, i, n)[j] == Symbol(pixels[i * WIDTH + j])
    decreases n
  {
    if j < n - 1 {
      RowPrefixAt(pixels, i, j, n - 1);
    }
  }

  /** The first `i` rows take `WIDTH + 1` characters each, and rendering more rows only appends. */
  lemma {:induction false} RenderPrefix(pixels: seq<PixelValue>, i: nat, n: nat)
    requires |pixels| == LAYER_SIZE && i <= n <= HEIGHT
    ensures |Render(pixels, n)| == n * (WIDTH + 1)
    ensures Render(pixels, i) == Render(pixels, n)[..i * (WIDTH + 1)]
    decreases n
  {
    if n > 0 {
      RenderPrefix(pixels, if i == n then n - 1 else i, n - 1);
      assert n * (WIDTH + 1) == (n - 1) * (WIDTH + 1) + WIDTH + 1;
    }
  }

  /**
   * The text shows `HEIGHT` lines of `WIDTH` symbols: row `i`, column `j` is pixel
   * `i * WIDTH + j`, and each line ends with a newline.
   */
  lemma RenderMeaning(pixels: seq<PixelValue>, i: nat, j: nat)
    requires |pixels| == LAYER_SIZE && i < HEIGHT && j < WIDTH
    ensures |Render(pixels, HEIGHT)| == HEIGHT * (WIDTH + 1)
    ensures i * WIDTH + j < LAYER_SIZE
    ensures Render(pixels, HEIGHT)[i * (WIDTH + 1) + j] == Symbol(pixels[i * WIDTH + j])
    ensures Render(pixels, HEIGHT)[i * (WIDTH + 1) + WIDTH] == '\n'
  {
    RenderPrefix(pixels, i + 1, HEIGHT);
    RenderPrefix(pixels, i, i + 1);
    RowPrefixAt(pixels, i, j, WIDTH);
    var base := i * (WIDTH + 1);
    assert (i + 1) * (WIDTH + 1) == base + WIDTH + 1;
    var before, line := Render(pixels, i), RowPrefix(pixels, i, WIDTH) + "\n";
    assert |before| == base;
    assert Render(pixels, i + 1) == before + line;
    assert Render(pixels, i + 1)[base + j] == line[j];
    assert Render(pixels, i + 1)[base + WIDTH] == line[WIDTH];
  }

  /** `run` of p16: the image the whole layers of the input compose to. */
  method Run(input: seq<Byte>) returns (r: Result<seq<PixelValue>, ImageError>)
    ensures r.Ok? <==> AllKnown(Layers(input))
    ensures r.Ok? ==> |r.value| == LAYER_SIZE && forall j :: 0 <= j < LAYER_SIZE ==> r.value[j] == Visible(Layers(input), j)
    ensures r.Err? ==> exists i, k :: FirstUnknown(Layers(input), i, k) && r.error == UnknownPixel(Layers(input)[i][k])
  {
    r := FromLayers(Layers(input));
  }
}
