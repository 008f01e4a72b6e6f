/** Placing the pixels read of a layer on the full canvas, in place in a flat RGBA buffer. */
module CanvasPixels {
  import opened Options
  import opened BigEndian

  /** The pixels of a layer: `components` bytes each, row after row, with its top left corner on the canvas. */
  datatype Layer = Layer(source: seq<Byte>, width: nat, height: nat, components: nat, left: int, top: int)

  function Column(index: nat, canvasWidth: nat): nat
    requires canvasWidth > 0
  {
    index / 4 % canvasWidth
  }

  function Row(index: nat, canvasWidth: nat): nat
    requires canvasWidth > 0
  {
    index / 4 / canvasWidth
  }

  // `source[offset] ?? 0`
  function ByteAt(source: seq<Byte>, offset: nat): Byte {
    if offset < |source| then source[offset] else 0
  }

  // Byte `channel` of the layer's pixel (x, y) as RGBA: a layer without alpha is opaque.
  function Sample(layer: Layer, x: nat, y: nat, channel: nat): Byte {
    if channel == 3 && layer.components == 3 then 255
    else ByteAt(layer.source, (y * layer.width + x) * layer.components + channel)
  }

  // Pixel (x, y) comes before (toX, toY) in the order the layer is read.
  predicate IsRead(x: int, y: int, toX: nat, toY: nat) {
    y < toY || (y == toY && x < toX)
  }

  /** Byte `index` of the full canvas: the layer's where the layer covers it, transparent black elsewhere. */
  function CoveredByte(layer: Layer, canvasWidth: nat, index: nat): Byte
    requires canvasWidth > 0
  {
    var x, y := Column(index, canvasWidth) - layer.left, Row(index, canvasWidth) - layer.top;
    if 0 <= x < layer.width && 0 <= y < layer.height then Sample(layer, x, y, index % 4) else 0
  }

  /** Byte `index` of the canvas once the layer's pixels before (toX, toY) are placed. */
  function CanvasByte(layer: Layer, canvasWidth: nat, index: nat, toX: nat, toY: nat): Byte
    requires canvasWidth > 0
  {
    var x, y := Column(index, canvasWidth) - layer.left, Row(index, canvasWidth) - layer.top;
    if 0 <= x < layer.width && 0 <= y < layer.height && IsRead(x, y, toX, toY) then Sample(layer, x, y, index % 4)
        else 0
  }

  // The four bytes at `offset` are those of the canvas pixel (x, y), and no others are.
  lemma PixelBytes(canvasWidth: nat, x: nat, y: nat, index: nat)
    requires x < canvasWidth
    ensures var offset := (y * canvasWidth + x) * 4;
            && (offset <= index < offset + 4 <==> Column(index, canvasWidth) == x && Row(index, canvasWidth) == y)
            && (offset <= index < offset + 4 ==> index % 4 == index - offset)
  {
    var pixel := y * canvasWidth + x;
    DivMod(y, canvasWidth, x);
    assert index / 4 == pixel <==> pixel * 4 <= index < pixel * 4 + 4;
    var column, row := Column(index, canvasWidth), Row(index, canvasWidth);
    assert index / 4 == row * canvasWidth + column;
  }

  lemma DivMod(q: nat, d: nat, r: nat)
    requires r < d
    ensures (q * d + r) / d == q && (q * d + r) % d == r
  {
    var n := q * d + r;
    assert n == n / d * d + n % d;
    var quotient := n / d;
    assert quotient > q ==> quotient * d >= (q + 1) * d;
    assert quotient < q ==> quotient * d <= (q - 1) * d;
  }

  /** A pixel of the layer that lies on the canvas is shown where it lies, red, green and blue as they are
      and with its own alpha, or opaque if the layer has none; what the layer has no bytes for is zero. */
  lemma LayerIsShown(layer: Layer, canvasWidth: nat, x: nat, y: nat, channel: nat)
    requires layer.components in {3, 4} && x < layer.width && y < layer.height && channel < 4
    requires 0 <= layer.left + x < canvasWidth && 0 <= layer.top + y
    ensures var index := ((layer.top + y) * canvasWidth + (layer.left + x)) * 4 + channel;
            var offset := (y * layer.width + x) * layer.components + channel;
            CoveredByte(layer, canvasWidth, index)
            == if layer.components == 3 && channel == 3 then 255
               else if offset < |layer.source| then layer.source[offset] else 0
  {
    PixelBytes(canvasWidth, layer.left + x, layer.top + y,
               ((layer.top + y) * canvasWidth + (layer.left + x)) * 4 + channel);
  }

  /** Everything else on the canvas is transparent black. */
  lemma RestIsTransparent(layer: Layer, canvasWidth: nat, column: nat, row: nat, channel: nat)
    requires column < canvasWidth && channel < 4
    requires !(layer.left <= column < layer.left + layer.width && layer.top <= row < layer.top + layer.height)
    ensures CoveredByte(layer, canvasWidth, (row * canvasWidth + column) * 4 + channel) == 0
  {
    PixelBytes(canvasWidth, column, row, (row * canvasWidth + column) * 4 + channel);
  }

  lemma PixelFits(canvasWidth: nat, canvasHeight: nat, x: nat, y: nat)
    requires x < canvasWidth && y < canvasHeight
    ensures (y * canvasWidth + x) * 4 + 4 <= canvasWidth * canvasHeight * 4
  {
    assert (y + 1) * canvasWidth <= canvasHeight * canvasWidth;
  }

  // The bytes of a canvas after the pixels before (toX, toY) are placed.
  ghost predicate Placed(layer: Layer, canvasWidth: nat, bytes: seq<Byte>, toX: nat, toY: nat) {
    canvasWidth > 0 ==> forall i :: 0 <= i < |bytes| ==> bytes[i] == CanvasByte(layer, canvasWidth, i, toX, toY)
  }

  lemma SkippedPixel(layer: Layer, canvasWidth: nat, bytes: seq<Byte>, toX: nat, toY: nat)
    requires Placed(layer, canvasWidth, bytes, toX, toY)
    requires !(0 <= layer.left + toX < canvasWidth)
    ensures Placed(layer, canvasWidth, bytes, toX + 1, toY)
  {}

  // A row that ends, or that is skipped because it lies off the canvas.
  lemma RowDone(layer: Layer, canvasWidth: nat, canvasHeight: nat, bytes: seq<Byte>, toX: nat, toY: nat)
    requires Placed(layer, canvasWidth, bytes, toX, toY) && |bytes| == canvasWidth * canvasHeight * 4
    requires toX == layer.width || !(0 <= layer.top + toY < canvasHeight)
    ensures Placed(layer, canvasWidth, bytes, 0, toY + 1)
  {
    if canvasWidth > 0 {
      forall i | 0 <= i < |bytes|
        ensures bytes[i] == CanvasByte(layer, canvasWidth, i, 0, toY + 1)
      {
        RowInside(canvasWidth, canvasHeight, i);
      }
    }
  }

  lemma RowInside(canvasWidth: nat, canvasHeight: nat, index: nat)
    requires canvasWidth > 0 && index < canvasWidth * canvasHeight * 4
    ensures Row(index, canvasWidth) < canvasHeight
  {
    var row := Row(index, canvasWidth);
    assert index / 4 >= row * canvasWidth;
    assert row >= canvasHeight ==> row * canvasWidth >= canvasHeight * canvasWidth;
  }

  lemma PlacedPixel(layer: Layer, canvasWidth: nat, before: seq<Byte>, after: seq<Byte>, toX: nat, toY: nat)
    requires Placed(layer, canvasWidth, before, toX, toY) && |after| == |before|
    requires toX < layer.width && toY < layer.height && 0 <= layer.left + toX < canvasWidth && 0 <= layer.top + toY
    requires var offset := ((layer.top + toY) * canvasWidth + (layer.left + toX)) * 4;
             forall i :: 0 <= i < |before| ==>
               after[i] == if offset <= i < offset + 4 then Sample(layer, toX, toY, i - offset) else before[i]
    ensures Placed(layer, canvasWidth, after, toX + 1, toY)
  {
    forall i | 0 <= i < |after|
      ensures after[i] == CanvasByte(layer, canvasWidth, i, toX + 1, toY)
    {
      PixelBytes(canvasWidth, layer.left + toX, layer.top + toY, i);
    }
  }

  method PlacePixel(result: array<Byte>, layer: Layer, x: nat, y: nat, targetOffset: nat)
    requires targetOffset + 4 <= result.Length && layer.components in {3, 4}
    modifies result
    ensures forall i :: 0 <= i < result.Length ==>
              result[i] == if targetOffset <= i < targetOffset + 4 then Sample(layer, x, y, i - targetOffset)
                  else old(result[i])
  {
    var sourceOffset := (y * layer.width + x) * layer.components;
    result[targetOffset] := ByteAt(layer.source, sourceOffset);
    result[targetOffset + 1] := ByteAt(layer.source, sourceOffset + 1);
    result[targetOffset + 2] := ByteAt(layer.source, sourceOffset + 2);
    result[targetOffset + 3] := if layer.components == 4 then ByteAt(layer.source, sourceOffset + 3) else 255;
  }

  /** Every byte of the canvas is what the layer covers it with; what of the layer lies off the canvas is
      left out. */
  method ComposeFullCanvasRgba(layer: Layer, canvasWidth: nat, canvasHeight: nat) returns (result: Option<array<Byte>>)
    ensures result.Some? <==> layer.components in {3, 4}
    ensures result.Some? ==>
              && fresh(result.value)
              && result.value.Length == canvasWidth * canvasHeight * 4
              && (canvasWidth > 0 ==>
                    forall i :: 0 <= i < result.value.Length ==>
                      result.value[i] == CoveredByte(layer, canvasWidth, i))
  {
    if layer.components !in {3, 4} {
      return None;
    }
    var canvas := new Byte[canvasWidth * canvasHeight * 4](_ => 0);
    for sourceY := 0 to layer.height
      invariant Placed(layer, canvasWidth, canvas[..], 0, sourceY)
    {
      var targetY := layer.top + sourceY;
      if 0 <= targetY < canvasHeight {
        for sourceX := 0 to layer.width
          invariant Placed(layer, canvasWidth, canvas[..], sourceX, sourceY)
        {
          var targetX := layer.left + sourceX;
          if 0 <= targetX < canvasWidth {
            PixelFits(canvasWidth, canvasHeight, targetX, targetY);
            ghost var before := canvas[..];
            PlacePixel(canvas, layer, sourceX, sourceY, (targetY * canvasWidth + targetX) * 4);
            PlacedPixel(layer, canvasWidth, before, canvas[..], sourceX, sourceY);
          } else {
            SkippedPixel(layer, canvasWidth, canvas[..], sourceX, sourceY);
          }
        }
        RowDone(layer, canvasWidth, canvasHeight, canvas[..], layer.width, sourceY);
      } else {
        RowDone(layer, canvasWidth, canvasHeight, canvas[..], 0, sourceY);
      }
    }
    result := Some(canvas);
  }
}
