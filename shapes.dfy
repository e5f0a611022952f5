/** The integer shape arithmetic of the two networks: every convolution and pooling
    layer uses 'same' padding, so a layer with stride `s` maps a spatial size `n` to
    ceil(n / s); the discriminator's final `Reshape` only succeeds when the number
    of values it is handed equals `DISC_SOFTMAX_OUTPUT_DIM`. */
module Shapes {
  import opened Common
  import opened Params

  /** A per-image tensor shape, channels last. */
  datatype Shape = Shape(height: nat, width: nat, channels: nat)

  datatype Layer =
    | Conv(filters: nat, kernel: nat, stride: nat)
    | MaxPool(pool: nat, stride: nat)
      /** Two same-padded stride-1 convolutions with `filters` feature maps, whose
          output is summed with the block's input. */
    | ResBlock(filters: nat, kernel: nat)

  /** ceil(n / s): the least multiple count of `s` that covers `n`. */
  function CeilDiv(n: nat, s: nat): (r: nat)
    requires 0 < s
    ensures n <= r * s < n + s
    decreases n
  {
    if n == 0 then 0
    else if n <= s then 1
    else 1 + CeilDiv(n - s, s)
  }

  /** The shape a layer produces from `x`; a zero stride and a residual sum of two
      differently shaped tensors are errors. */
  function LayerOutput(x: Shape, layer: Layer): (r: Result<Shape>)
    ensures r.Err? <==> (layer.ResBlock? && layer.filters != x.channels) || (!layer.ResBlock? && layer.stride == 0)
    ensures r.Err? ==> r.error == ValueError
    ensures r.Ok? && !layer.ResBlock? ==> r.value.height * layer.stride >= x.height
  {
    match layer
    case Conv(filters, _, stride) =>
      if stride == 0 then Err(ValueError)
      else Ok(Shape(CeilDiv(x.height, stride), CeilDiv(x.width, stride), filters))
    case MaxPool(_, stride) =>
      if stride == 0 then Err(ValueError)
      else Ok(Shape(CeilDiv(x.height, stride), CeilDiv(x.width, stride), x.channels))
    case ResBlock(filters, _) =>
      if filters != x.channels then Err(ValueError) else Ok(x)
  }

  /** The shape a stack of layers produces, or the first layer's error. */
  function NetworkOutput(x: Shape, layers: seq<Layer>): (r: Result<Shape>)
    ensures r.Err? ==> r.error == ValueError
    decreases |layers|
  {
    if layers == [] then Ok(x)
    else
      var y := LayerOutput(x, layers[0]);
      if y.Err? then y else NetworkOutput(y.value, layers[1..])
  }

  /** `layers.Reshape((n,))`: a flat vector of `n` values, when the tensor holds that many. */
  function Reshape(x: Shape, n: nat): (r: Result<nat>)
    ensures r.Ok? <==> x.height * x.width * x.channels == n
    ensures r.Ok? ==> r.value == n
    ensures r.Err? ==> r.error == ValueError
  {
    if x.height * x.width * x.channels == n then Ok(n) else Err(ValueError)
  }

  /** `discriminator_network` up to the reshape: two stride-2 convolutions, a 3x3
      stride-1 max-pool and three stride-1 convolutions, the last with 2 maps. */
  const DiscriminatorLayers: seq<Layer> :=
    [Conv(96, 3, 2), Conv(64, 3, 2), MaxPool(3, 1), Conv(32, 3, 1), Conv(32, 1, 1), Conv(2, 1, 1)]

  /** `refiner_network`: a 3x3 convolution to 64 maps, four ResNet blocks, and a 1x1
      convolution to a single map. */
  const RefinerLayers: seq<Layer> :=
    [Conv(64, 3, 1), ResBlock(64, 3), ResBlock(64, 3), ResBlock(64, 3), ResBlock(64, 3), Conv(1, 1, 1)]

  /** The discriminator's output vector length for an input of `height` x `width`. */
  function DiscriminatorOutput(height: nat, width: nat): (r: Result<nat>)
    ensures r.Ok? ==> r.value == DiscSoftmaxOutputDim
    ensures r.Err? ==> r.error == ValueError
  {
    var cells := NetworkOutput(Shape(height, width, ImgChannels), DiscriminatorLayers);
    if cells.Err? then Err(cells.error) else Reshape(cells.value, DiscSoftmaxOutputDim)
  }

  /** Stride 1 keeps a spatial size. */
  lemma StrideOneKeeps(n: nat)
    ensures CeilDiv(n, 1) == n
  {
  }

  /** A stride-2 layer maps `n` to the `r` whose double covers `n` by less than 2. */
  lemma HalfUp(n: nat, r: nat)
    requires n <= 2 * r < n + 2
    ensures CeilDiv(n, 2) == r
  {
  }

  /** A stack whose first layer succeeds continues from that layer's output. */
  lemma FirstLayer(x: Shape, layers: seq<Layer>, y: Shape)
    requires layers != [] && LayerOutput(x, layers[0]) == Ok(y)
    ensures NetworkOutput(x, layers) == NetworkOutput(y, layers[1..])
  {
  }

  /** The two stride-2 convolutions halve each spatial size twice, rounding up. */
  lemma DiscriminatorDownsamples(x: Shape)
    ensures NetworkOutput(x, DiscriminatorLayers)
         == NetworkOutput(Shape(CeilDiv(CeilDiv(x.height, 2), 2), CeilDiv(CeilDiv(x.width, 2), 2), 64),
                          DiscriminatorLayers[2..])
  {
    var l := DiscriminatorLayers;
    var x1 := Shape(CeilDiv(x.height, 2), CeilDiv(x.width, 2), 96);
    FirstLayer(x, l, x1);
    FirstLayer(x1, l[1..], Shape(CeilDiv(x1.height, 2), CeilDiv(x1.width, 2), 64));
    assert l[1..][1..] == l[2..];
  }

  /** The stride-1 pool and convolutions keep the spatial size and end with 2 maps. */
  lemma DiscriminatorKeepsCells(height: nat, width: nat, channels: nat)
    ensures NetworkOutput(Shape(height, width, channels), DiscriminatorLayers[2..]) == Ok(Shape(height, width, 2))
  {
    StrideOneKeeps(height);
    StrideOneKeeps(width);
    var l := DiscriminatorLayers[2..];
    FirstLayer(Shape(height, width, channels), l, Shape(height, width, channels));
    FirstLayer(Shape(height, width, channels), l[1..], Shape(height, width, 32));
    FirstLayer(Shape(height, width, 32), l[2..], Shape(height, width, 32));
    FirstLayer(Shape(height, width, 32), l[3..], Shape(height, width, 2));
    assert l[4..] == [];
  }

  /** For any input, the discriminator halves each spatial size twice (rounding up),
      keeps it through the pool and the 1-stride convolutions, and ends with 2 maps. */
  lemma DiscriminatorShape(x: Shape)
    ensures NetworkOutput(x, DiscriminatorLayers)
         == Ok(Shape(CeilDiv(CeilDiv(x.height, 2), 2), CeilDiv(CeilDiv(x.width, 2), 2), 2))
  {
    DiscriminatorDownsamples(x);
    DiscriminatorKeepsCells(CeilDiv(CeilDiv(x.height, 2), 2), CeilDiv(CeilDiv(x.width, 2), 2), 64);
  }

  /** The hard-coded 252 is right for the script's 35 x 55 images: 35 -> 18 -> 9 rows,
      55 -> 28 -> 14 columns, 2 maps, and 9 * 14 * 2 = 252. */
  lemma SoftmaxDimMatchesImageSize()
    ensures NetworkOutput(Shape(ImgHeight, ImgWidth, ImgChannels), DiscriminatorLayers) == Ok(Shape(9, 14, 2))
    ensures 9 * 14 * 2 == DiscSoftmaxOutputDim
    ensures DiscriminatorOutput(ImgHeight, ImgWidth) == Ok(DiscSoftmaxOutputDim)
  {
    HalfUp(35, 18);
    HalfUp(18, 9);
    HalfUp(55, 28);
    HalfUp(28, 14);
    DiscriminatorShape(Shape(ImgHeight, ImgWidth, ImgChannels));
  }

  /** The constant is tied to the image size: the discriminator builds exactly when
      the quartered (rounded up) height and width and the 2 maps multiply to 252. */
  lemma DiscriminatorBuildsIff(height: nat, width: nat)
    ensures DiscriminatorOutput(height, width).Ok?
        <==> CeilDiv(CeilDiv(height, 2), 2) * CeilDiv(CeilDiv(width, 2), 2) * 2 == DiscSoftmaxOutputDim
    ensures DiscriminatorOutput(height, width).Err? ==> DiscriminatorOutput(height, width).error == ValueError
  {
    DiscriminatorShape(Shape(height, width, ImgChannels));
  }

  /** A 37-row image would no longer fit: 37 -> 19 -> 10 rows give 10 * 14 * 2 = 280. */
  lemma TallerImageBreaksReshape()
    ensures DiscriminatorOutput(37, ImgWidth) == Err(ValueError)
  {
    HalfUp(37, 19);
    HalfUp(19, 10);
    HalfUp(55, 28);
    HalfUp(28, 14);
    DiscriminatorShape(Shape(37, ImgWidth, ImgChannels));
  }

  /** The refiner keeps the spatial size of any input and always ends with one map,
      whatever the input's channel count. */
  lemma RefinerShape(x: Shape)
    ensures NetworkOutput(x, RefinerLayers) == Ok(Shape(x.height, x.width, 1))
  {
    StrideOneKeeps(x.height);
    StrideOneKeeps(x.width);
    var l := RefinerLayers;
    var y := Shape(x.height, x.width, 64);
    FirstLayer(x, l, y);
    FirstLayer(y, l[1..], y);
    FirstLayer(y, l[2..], y);
    FirstLayer(y, l[3..], y);
    FirstLayer(y, l[4..], y);
    FirstLayer(y, l[5..], Shape(x.height, x.width, 1));
    assert l[6..] == [];
  }

  /** A refined image has the shape of the synthetic one it came from exactly when
      images have one channel, as `img_channels = 1` makes them. */
  lemma RefinedShapeMatchesIff(x: Shape)
    ensures NetworkOutput(x, RefinerLayers) == Ok(x) <==> x.channels == 1
    ensures NetworkOutput(Shape(ImgHeight, ImgWidth, ImgChannels), RefinerLayers)
         == Ok(Shape(ImgHeight, ImgWidth, ImgChannels))
  {
    RefinerShape(x);
    RefinerShape(Shape(ImgHeight, ImgWidth, ImgChannels));
  }
}
