/** Abstract raster images: a width, a height and a grid of pixels indexed
    `rows[y][x]`, together with the handful of image operations the tarot
    reader uses (mirror, flip, rotation, resize, paste). */
module Images {
  import opened Results

  /** One RGB pixel. */
  datatype Pixel = Rgb(red: nat, green: nat, blue: nat)

  /** The background colour of the spread canvas, (255, 255, 255). */
  const White: Pixel := Rgb(255, 255, 255)

  datatype Image = Image(width: nat, height: nat, rows: seq<seq<Pixel>>)

  /** The grid has exactly `height` rows of exactly `width` pixels. */
  predicate Valid(img: Image) {
    && |img.rows| == img.height
    && forall y :: 0 <= y < |img.rows| ==> |img.rows[y]| == img.width
  }

  /** What a successfully decoded PNG is: a well-formed, non-empty raster. */
  predicate Decodable(img: Image) {
    Valid(img) && img.width > 0 && img.height > 0
  }

  /** The pixel in column `x` of row `y`. */
  function At(img: Image, x: int, y: int): Pixel
    requires Valid(img) && 0 <= x < img.width && 0 <= y < img.height
  {
    img.rows[y][x]
  }

  /** Two well-formed images of the same size that agree at every pixel are equal. */
  lemma {:induction false} Extensionality(a: Image, b: Image)
    requires Valid(a) && Valid(b)
    requires a.width == b.width && a.height == b.height
    requires forall x, y :: 0 <= x < a.width && 0 <= y < a.height ==> At(a, x, y) == At(b, x, y)
    ensures a == b
  {
    forall y | 0 <= y < a.height
      ensures a.rows[y] == b.rows[y]
    {
      forall x | 0 <= x < a.width
        ensures a.rows[y][x] == b.rows[y][x]
      {
        assert At(a, x, y) == At(b, x, y);
      }
    }
  }

  /** `Image.new(mode, (w, h), fill)`: a canvas of one colour. */
  function Blank(w: nat, h: nat, fill: Pixel): (r: Image)
    ensures Valid(r) && r.width == w && r.height == h
    ensures forall x, y :: 0 <= x < w && 0 <= y < h ==> At(r, x, y) == fill
  {
    Image(w, h, seq(h, _ => seq(w, _ => fill)))
  }

  /** `ImageOps.mirror`: left and right are exchanged. */
  function Mirror(img: Image): (r: Image)
    requires Valid(img)
    ensures Valid(r) && r.width == img.width && r.height == img.height
    ensures forall x, y :: 0 <= x < img.width && 0 <= y < img.height ==>
      At(r, x, y) == At(img, img.width - 1 - x, y)
  {
    Image(img.width, img.height,
      seq(img.height, (y: int) requires 0 <= y < img.height =>
        seq(img.width, (x: int) requires 0 <= x < img.width =>
          img.rows[y][img.width - 1 - x])))
  }

  /** `ImageOps.flip`: top and bottom are exchanged. */
  function Flip(img: Image): (r: Image)
    requires Valid(img)
    ensures Valid(r) && r.width == img.width && r.height == img.height
    ensures forall x, y :: 0 <= x < img.width && 0 <= y < img.height ==>
      At(r, x, y) == At(img, x, img.height - 1 - y)
  {
    Image(img.width, img.height,
      seq(img.height, (y: int) requires 0 <= y < img.height =>
        seq(img.width, (x: int) requires 0 <= x < img.width =>
          img.rows[img.height - 1 - y][x])))
  }

  /** `img.rotate(180)`: a half turn about the centre; the size is unchanged. */
  function Rotate180(img: Image): (r: Image)
    requires Valid(img)
    ensures Valid(r) && r.width == img.width && r.height == img.height
    ensures forall x, y :: 0 <= x < img.width && 0 <= y < img.height ==>
      At(r, x, y) == At(img, img.width - 1 - x, img.height - 1 - y)
  {
    Image(img.width, img.height,
      seq(img.height, (y: int) requires 0 <= y < img.height =>
        seq(img.width, (x: int) requires 0 <= x < img.width =>
          img.rows[img.height - 1 - y][img.width - 1 - x])))
  }

  /** `img.rotate(90, expand=True)`: a quarter turn counter-clockwise onto a
      canvas grown to hold the whole result, so width and height swap. */
  function Rotate90Expand(img: Image): (r: Image)
    requires Valid(img)
    ensures Valid(r) && r.width == img.height && r.height == img.width
    ensures forall x, y :: 0 <= x < img.height && 0 <= y < img.width ==>
      At(r, x, y) == At(img, img.width - 1 - y, x)
  {
    Image(img.height, img.width,
      seq(img.width, (y: int) requires 0 <= y < img.width =>
        seq(img.height, (x: int) requires 0 <= x < img.height =>
          img.rows[x][img.width - 1 - y])))
  }

  /** Mirroring then flipping maps pixel (x, y) to (w-1-x, h-1-y): it is the
      half-turn rotation. */
  lemma MirrorFlipIsRotate180(img: Image)
    requires Valid(img)
    ensures Flip(Mirror(img)) == Rotate180(img)
  {
    var a := Flip(Mirror(img));
    var b := Rotate180(img);
    forall x, y | 0 <= x < img.width && 0 <= y < img.height
      ensures At(a, x, y) == At(b, x, y)
    {
      assert At(a, x, y) == At(Mirror(img), x, img.height - 1 - y);
    }
    Extensionality(a, b);
  }

  /** Mirroring then flipping twice gives back the original image. */
  lemma MirrorFlipInvolution(img: Image)
    requires Valid(img)
    ensures Flip(Mirror(Flip(Mirror(img)))) == img
  {
    var once := Flip(Mirror(img));
    var twice := Flip(Mirror(once));
    forall x, y | 0 <= x < img.width && 0 <= y < img.height
      ensures At(twice, x, y) == At(img, x, y)
    {
      assert At(twice, x, y) == At(Mirror(once), x, img.height - 1 - y);
      assert At(once, img.width - 1 - x, img.height - 1 - y)
          == At(Mirror(img), img.width - 1 - x, y);
    }
    Extensionality(twice, img);
  }

  /** Two expanding quarter turns make the half turn used for reversed cards. */
  lemma Rotate90TwiceIsRotate180(img: Image)
    requires Valid(img)
    ensures Rotate90Expand(Rotate90Expand(img)) == Rotate180(img)
  {
    var once := Rotate90Expand(img);
    var twice := Rotate90Expand(once);
    forall x, y | 0 <= x < img.width && 0 <= y < img.height
      ensures At(twice, x, y) == At(Rotate180(img), x, y)
    {
      assert At(twice, x, y) == At(once, img.height - 1 - y, x);
    }
    Extensionality(twice, Rotate180(img));
  }

  /** The source index that nearest-neighbour sampling reads for target index
      `i` of `n`, when scaling a side of length `m` to length `n`: the centre
      of target cell i, (i + 1/2) * m / n, rounded down. */
  function NearestIndex(i: int, n: nat, m: nat): (r: nat)
    requires 0 <= i < n && m > 0
    ensures r < m
  {
    NearestInRange(i, n, m);
    (2 * i + 1) * m / (2 * n)
  }

  lemma NearestInRange(i: nat, n: nat, m: nat)
    requires i < n && m > 0
    ensures (2 * i + 1) * m / (2 * n) < m
  {
    var a, d := 2 * i + 1, 2 * n;
    MulMonotone(a, d, m);
    assert a * m < d * m;
    DivBelow(a * m, d, m);
  }

  lemma MulMonotone(a: int, b: int, m: nat)
    ensures a < b && m > 0 ==> a * m < b * m
    ensures a <= b ==> a * m <= b * m
  {}

  lemma DivBelow(num: nat, den: nat, m: nat)
    requires den > 0 && num < den * m
    ensures num / den < m
  {
    var q := num / den;
    assert q * den <= num;
    MulMonotone(m, q, den);
  }

  /** `img.resize((w, h))`, sampled nearest-neighbour: every target pixel
      takes the source pixel whose cell contains the target cell's centre. */
  function Resize(img: Image, w: nat, h: nat): (r: Image)
    requires Decodable(img)
    ensures Valid(r) && r.width == w && r.height == h
    ensures forall x, y :: 0 <= x < w && 0 <= y < h ==>
      At(r, x, y) == At(img, NearestIndex(x, w, img.width), NearestIndex(y, h, img.height))
  {
    Image(w, h,
      seq(h, (y: int) requires 0 <= y < h =>
        seq(w, (x: int) requires 0 <= x < w =>
          img.rows[NearestIndex(y, h, img.height)][NearestIndex(x, w, img.width)])))
  }

  /** A top-left corner on a canvas. */
  datatype Point = Point(x: nat, y: nat)

  /** An image to be pasted with its top-left corner at `at`. */
  datatype Layer = Layer(at: Point, image: Image)

  /** The layer's image occupies canvas pixel (x, y). */
  predicate Covers(layer: Layer, x: int, y: int) {
    && layer.at.x <= x < layer.at.x + layer.image.width
    && layer.at.y <= y < layer.at.y + layer.image.height
  }

  /** `canvas.paste(image, at, mask)` with a fully opaque mask: the covered
      pixels are overwritten, the part falling off the canvas is clipped and
      every other pixel is kept. */
  function Paste(canvas: Image, layer: Layer): (r: Image)
    requires Valid(canvas) && Valid(layer.image)
    ensures Valid(r) && r.width == canvas.width && r.height == canvas.height
    ensures forall x, y :: 0 <= x < canvas.width && 0 <= y < canvas.height ==>
      At(r, x, y) == (if Covers(layer, x, y)
                      then At(layer.image, x - layer.at.x, y - layer.at.y)
                      else At(canvas, x, y))
  {
    Image(canvas.width, canvas.height,
      seq(canvas.height, (y: int) requires 0 <= y < canvas.height =>
        seq(canvas.width, (x: int) requires 0 <= x < canvas.width =>
          if Covers(layer, x, y)
          then layer.image.rows[y - layer.at.y][x - layer.at.x]
          else canvas.rows[y][x])))
  }

  predicate ValidLayers(layers: seq<Layer>) {
    forall i :: 0 <= i < |layers| ==> Valid(layers[i].image)
  }

  /** Pastes the layers onto the canvas one after another, in order. */
  function Compose(canvas: Image, layers: seq<Layer>): (r: Image)
    requires Valid(canvas) && ValidLayers(layers)
    ensures Valid(r) && r.width == canvas.width && r.height == canvas.height
    decreases |layers|
  {
    if layers == [] then canvas
    else Paste(Compose(canvas, layers[..|layers| - 1]), layers[|layers| - 1])
  }

  /** The last layer covering (x, y), if any covers it. */
  function Topmost(layers: seq<Layer>, x: int, y: int): (r: Option<nat>)
    ensures r.None? <==> forall j :: 0 <= j < |layers| ==> !Covers(layers[j], x, y)
    ensures r.Some? ==> && r.value < |layers|
                        && Covers(layers[r.value], x, y)
                        && forall j :: r.value < j < |layers| ==> !Covers(layers[j], x, y)
    decreases |layers|
  {
    if layers == [] then None
    else if Covers(layers[|layers| - 1], x, y) then Some(|layers| - 1)
    else Topmost(layers[..|layers| - 1], x, y)
  }

  /** Every canvas pixel of a composition shows the last layer pasted over it,
      or the original canvas where no layer reaches. */
  lemma {:induction false} ComposeShowsTopmost(canvas: Image, layers: seq<Layer>, x: int, y: int)
    requires Valid(canvas) && ValidLayers(layers)
    requires 0 <= x < canvas.width && 0 <= y < canvas.height
    ensures At(Compose(canvas, layers), x, y) ==
      match Topmost(layers, x, y)
      case None => At(canvas, x, y)
      case Some(i) => At(layers[i].image, x - layers[i].at.x, y - layers[i].at.y)
    decreases |layers|
  {
    if layers != [] {
      var n := |layers| - 1;
      var init := layers[..n];
      assert ValidLayers(init) by {
        forall i | 0 <= i < |init| ensures Valid(init[i].image) {
          assert init[i] == layers[i];
        }
      }
      ComposeShowsTopmost(canvas, init, x, y);
      if !Covers(layers[n], x, y) {
        assert Topmost(layers, x, y) == Topmost(init, x, y);
        match Topmost(init, x, y)
        case None =>
        case Some(i) => assert init[i] == layers[i];
      }
    }
  }
}
