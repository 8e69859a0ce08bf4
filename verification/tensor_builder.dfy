/** The pixel tensor builder of the classifier app: the decoded RGBA image is
    turned into a dense [height, width, 3] RGB buffer by a fixed-stride copy
    that drops every fourth (alpha) byte. */
module TensorBuilder {

  /** One element of a Uint8Array. */
  type Byte = x: int | 0 <= x < 256

  /** What the JPEG decoder hands back: the dimensions and a flat, row-major
      buffer of interleaved red, green, blue and alpha bytes, four per pixel. */
  datatype DecodedImage = DecodedImage(width: nat, height: nat, data: seq<Byte>)

  /** The decoder's promise that the buffer holds every pixel it reports. */
  predicate WellSized(img: DecodedImage)
  {
    4 * PixelCount(img) <= |img.data|
  }

  /** Number of pixels the decoder reports. */
  function PixelCount(img: DecodedImage): nat
  {
    img.width * img.height
  }

  /** A dense tensor: its values in row-major order and its shape. */
  datatype Tensor = Tensor(values: seq<Byte>, shape: seq<nat>)

  /** Number of elements a tensor of the given shape holds. */
  function ElementCount(shape: seq<nat>): nat
  {
    if shape == [] then 1 else shape[0] * ElementCount(shape[1..])
  }

  /** Channel `c` (0 red, 1 green, 2 blue, 3 alpha) of pixel `p` in an RGBA buffer. */
  function Rgba(data: seq<Byte>, p: nat, c: nat): Byte
    requires c < 4 && 4 * p + c < |data|
  {
    data[4 * p + c]
  }

  /** Channel `c` (0 red, 1 green, 2 blue) of pixel `p` in an RGB buffer. */
  function Rgb(buffer: seq<Byte>, p: nat, c: nat): Byte
    requires c < 3 && 3 * p + c < |buffer|
  {
    buffer[3 * p + c]
  }

  /** The RGB bytes of the first `n` pixels of an RGBA buffer, pixel by pixel. */
  function RgbProjection(data: seq<Byte>, n: nat): (r: seq<Byte>)
    requires 4 * n <= |data|
    ensures |r| == 3 * n
  {
    if n == 0 then []
    else RgbProjection(data, n - 1) + data[4 * (n - 1) .. 4 * (n - 1) + 3]
  }

  /** One more pixel appends its red, green and blue bytes. */
  lemma ProjectionStep(data: seq<Byte>, k: nat)
    requires 4 * (k + 1) <= |data|
    ensures RgbProjection(data, k + 1)
            == RgbProjection(data, k) + [Rgba(data, k, 0), Rgba(data, k, 1), Rgba(data, k, 2)]
  {
    assert data[4 * k .. 4 * k + 3] == [Rgba(data, k, 0), Rgba(data, k, 1), Rgba(data, k, 2)];
  }

  /** `buffer` holds exactly the red, green and blue channels of the first `n`
      pixels of `data`, in the same order. */
  predicate IsRgbOf(buffer: seq<Byte>, data: seq<Byte>, n: nat)
    requires 4 * n <= |data|
  {
    |buffer| == 3 * n &&
    forall p, c | 0 <= p < n && 0 <= c < 3 :: Rgb(buffer, p, c) == Rgba(data, p, c)
  }

  /** The tensor that the app hands to the classifier for a decoded image. */
  function RgbTensor(img: DecodedImage): Tensor
    requires WellSized(img)
  {
    Tensor(RgbProjection(img.data, PixelCount(img)), [img.height, img.width, 3])
  }

  /** Every colour channel of every pixel lands at stride 3 in the projection. */
  lemma {:induction false} RgbProjectionAt(data: seq<Byte>, n: nat, p: nat, c: nat)
    requires 4 * n <= |data| && p < n && c < 3
    ensures Rgb(RgbProjection(data, n), p, c) == Rgba(data, p, c)
  {
    if p < n - 1 {
      RgbProjectionAt(data, n - 1, p, c);
    }
  }

  /** The projection is the one and only RGB buffer of the first `n` pixels. */
  lemma RgbProjectionCharacterised(buffer: seq<Byte>, data: seq<Byte>, n: nat)
    requires 4 * n <= |data|
    ensures IsRgbOf(buffer, data, n) <==> buffer == RgbProjection(data, n)
  {
    var r := RgbProjection(data, n);
    forall p, c | 0 <= p < n && 0 <= c < 3
      ensures Rgb(r, p, c) == Rgba(data, p, c)
    {
      RgbProjectionAt(data, n, p, c);
    }
    if IsRgbOf(buffer, data, n) {
      forall k | 0 <= k < |buffer|
        ensures buffer[k] == r[k]
      {
        var p, c := k / 3, k % 3;
        assert k == 3 * p + c;
        assert Rgb(buffer, p, c) == Rgba(data, p, c);
        assert Rgb(r, p, c) == Rgba(data, p, c);
      }
    }
  }

  /** The projection never reads an alpha byte: buffers that agree on every
      colour channel of the first `n` pixels project to the same RGB buffer. */
  lemma {:induction false} AlphaIgnored(data: seq<Byte>, other: seq<Byte>, n: nat)
    requires 4 * n <= |data| && 4 * n <= |other|
    requires forall p, c | 0 <= p < n && 0 <= c < 3 :: Rgba(data, p, c) == Rgba(other, p, c)
    ensures RgbProjection(data, n) == RgbProjection(other, n)
  {
    if n > 0 {
      AlphaIgnored(data, other, n - 1);
      var q := n - 1;
      assert Rgba(data, q, 0) == Rgba(other, q, 0);
      assert Rgba(data, q, 1) == Rgba(other, q, 1);
      assert Rgba(data, q, 2) == Rgba(other, q, 2);
    }
  }

  /** Overwriting the alpha byte of any pixel leaves the tensor unchanged. */
  lemma AlphaChangeInvisible(img: DecodedImage, p: nat, a: Byte)
    requires WellSized(img) && p < PixelCount(img)
    ensures RgbTensor(img.(data := img.data[4 * p + 3 := a])) == RgbTensor(img)
  {
    var other := img.data[4 * p + 3 := a];
    AlphaIgnored(other, img.data, PixelCount(img));
  }

  /** The shape reported with the tensor accounts for exactly its values, and an
      image with no rows or no columns yields no values at all. */
  lemma RgbTensorShape(img: DecodedImage)
    requires WellSized(img)
    ensures |RgbTensor(img).values| == ElementCount(RgbTensor(img).shape)
    ensures img.width == 0 || img.height == 0 ==> RgbTensor(img).values == []
  {
    var t := RgbTensor(img);
    assert ElementCount([3]) == 3;
    assert ElementCount([img.width, 3]) == img.width * 3;
    assert ElementCount(t.shape) == img.height * (img.width * 3);
  }

  /** The tensor's values are the RGB channels of every pixel of the image. */
  lemma RgbTensorIsRgb(img: DecodedImage)
    requires WellSized(img)
    ensures |RgbTensor(img).values| == img.width * img.height * 3
    ensures IsRgbOf(RgbTensor(img).values, img.data, PixelCount(img))
  {
    var n := PixelCount(img);
    RgbProjectionCharacterised(RgbProjection(img.data, n), img.data, n);
  }

  /** A two-pixel image, one row of two: the alpha bytes 255 are dropped. */
  lemma TwoPixelExample()
    ensures RgbTensor(DecodedImage(2, 1, [10, 20, 30, 255, 40, 50, 60, 255]))
            == Tensor([10, 20, 30, 40, 50, 60], [1, 2, 3])
  {
    var data: seq<Byte> := [10, 20, 30, 255, 40, 50, 60, 255];
    assert RgbProjection(data, 1) == [10, 20, 30];
  }

  /** imageToTensor: allocate a buffer of width * height * 3 bytes and fill it
      by walking it in strides of 3 while the decoded buffer is walked in
      strides of 4, copying red, green and blue and skipping alpha. */
  method ImageToTensor(img: DecodedImage) returns (t: Tensor)
    requires WellSized(img)
    ensures t.shape == [img.height, img.width, 3]
    ensures t.values == RgbProjection(img.data, PixelCount(img))
  {
    var n := PixelCount(img);
    var buffer := new Byte[n * 3];
    var offset := 0;
    var i := 0;
    ghost var pixels := 0;
    while i < buffer.Length
      invariant i == 3 * pixels && offset == 4 * pixels && pixels <= n
      invariant buffer[..i] == RgbProjection(img.data, pixels)
    {
      ghost var done := buffer[..i];
      buffer[i] := img.data[offset];
      buffer[i + 1] := img.data[offset + 1];
      buffer[i + 2] := img.data[offset + 2];
      assert buffer[..i + 3] == done + [buffer[i], buffer[i + 1], buffer[i + 2]];
      ProjectionStep(img.data, pixels);
      offset := offset + 4;
      i := i + 3;
      pixels := pixels + 1;
    }
    assert buffer[..] == buffer[..i];
    t := Tensor(buffer[..], [img.height, img.width, 3]);
  }
}
