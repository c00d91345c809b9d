/** Reading the MNIST files: the big-endian header integers of the IDX format and
    the `[label, pixels]` records built from an image file and a label file. */
module DataLoader {

  type Byte = b: int | 0 <= b < 256

  datatype Option<T> = None | Some(value: T)

  /** One training or test example: its digit label and its pixels scaled to [0,1].
      A label read past the end of the label file (JavaScript `undefined`) is -1. */
  datatype Sample = Sample(digit: int, pixels: seq<real>)

  /** 256 to the power `k`: one more than the largest number `k` bytes can hold. */
  function Pow256(k: nat): (p: nat)
    ensures p > 0
  {
    if k == 0 then 1 else 256 * Pow256(k - 1)
  }

  /** The unsigned number whose base-256 digits, most significant first, are
      `bs`; it fits in `|bs|` bytes. */
  function BigEndian(bs: seq<Byte>): (v: nat)
    ensures v < Pow256(|bs|)
  {
    if |bs| == 0 then 0
    else
      var n := |bs| - 1;
      BigEndian(bs[..n]) * 256 + bs[n] as int
  }

  /** The 32-bit header field at `start`, or None when the bytes ends before its
      fourth byte (the JavaScript arithmetic then yields NaN). */
  function ReadInt(bytes: seq<Byte>, start: nat): (r: Option<nat>)
    ensures r.Some? <==> start + 4 <= |bytes|
    ensures r.Some? ==> r.value < 4294967296
  {
    if start + 4 <= |bytes| then
      BigEndianFour(bytes[start..start + 4]);
      Some(BigEndian(bytes[start..start + 4]))
    else None
  }

  /** `byteArrayToInt`: accumulates four bytes from `start`, most significant first. */
  method ByteArrayToInt(bytes: seq<Byte>, start: nat) returns (value: Option<nat>)
    ensures value == ReadInt(bytes, start)
  {
    value := Some(0);
    var i := start;
    while i < start + 4
      invariant start <= i <= start + 4
      invariant i == start ==> value == Some(0)
      invariant i > start ==> value == (if i <= |bytes| then Some(BigEndian(bytes[start..i])) else None)
    {
      if i < |bytes| && value.Some? {
        assert bytes[start..i + 1][..i - start] == bytes[start..i];
        value := Some(value.value * 256 + bytes[i] as int);
      } else {
        value := None;
      }
      i := i + 1;
    }
  }

  /** Four bytes denote `((b0 * 256 + b1) * 256 + b2) * 256 + b3`, below 2^32. */
  lemma BigEndianFour(bs: seq<Byte>)
    requires |bs| == 4
    ensures BigEndian(bs) == ((bs[0] as int * 256 + bs[1] as int) * 256 + bs[2] as int) * 256 + bs[3] as int
    ensures BigEndian(bs) < 4294967296
  {
    var b0, b1, b2, b3 := bs[0] as int, bs[1] as int, bs[2] as int, bs[3] as int;
    assert bs[..3][..2] == bs[..2] && bs[..2][..1] == bs[..1] && bs[..1][..0] == [];
    assert BigEndian(bs[..1]) == b0;
    assert BigEndian(bs[..2]) == b0 * 256 + b1;
    assert BigEndian(bs[..3]) == (b0 * 256 + b1) * 256 + b2;
  }

  /** Splitting off the last base-256 digit. */
  lemma DigitSplit(q: int, r: int)
    requires 0 <= r < 256
    ensures (q * 256 + r) / 256 == q && (q * 256 + r) % 256 == r
  {
  }

  /** The four big-endian bytes of a 32-bit unsigned number. */
  function Encode32(n: nat): (bs: seq<Byte>)
    requires n < 4294967296
    ensures |bs| == 4
  {
    var q1 := n / 256;
    var q2 := q1 / 256;
    var q3 := q2 / 256;
    [q3, q2 % 256, q1 % 256, n % 256]
  }

  /** Reading back four encoded bytes gives the number. */
  lemma ReadEncoded(n: nat)
    requires n < 4294967296
    ensures BigEndian(Encode32(n)) == n
  {
    var bs := Encode32(n);
    BigEndianFour(bs);
    var q1 := n / 256;
    var q2 := q1 / 256;
    var q3 := q2 / 256;
    assert n == q1 * 256 + n % 256;
    assert q1 == q2 * 256 + q1 % 256;
    assert q2 == q3 * 256 + q2 % 256;
  }

  /** Encoding the number four bytes denote gives the bytes back. */
  lemma EncodeRead(bs: seq<Byte>)
    requires |bs| == 4
    ensures BigEndian(bs) < 4294967296 && Encode32(BigEndian(bs)) == bs
  {
    BigEndianFour(bs);
    var n := BigEndian(bs);
    var q2 := bs[0] as int * 256 + bs[1] as int;
    var q1 := q2 * 256 + bs[2] as int;
    DigitSplit(q1, bs[3]);
    DigitSplit(q2, bs[2]);
    DigitSplit(bs[0], bs[1]);
  }

  /** Two numbers below `n` have a product below `n * n`. */
  lemma ProductBelow(a: nat, b: nat, n: nat)
    requires a < n && b < n
    ensures a * b < n * n
  {
    assert a * b <= a * n;
    assert a * n < n * n;
  }

  /** The pixel count of one image, `height * width` read at offsets 8 and 12, or
      None when either field is missing (NaN in the source, so no pixel is read). */
  function ImagePixels(data: seq<Byte>): (p: Option<nat>)
    ensures p.Some? <==> |data| >= 16
    ensures p.Some? ==> p.value < 0x1_0000_0000 * 0x1_0000_0000
  {
    match (ReadInt(data, 8), ReadInt(data, 12))
    case (Some(h), Some(w)) => ProductBelow(w, h, 0x1_0000_0000); Some(w * h)
    case _ => None
  }

  /** The number of images the loop visits: the field at offset 4, or 0 when it is
      missing (a NaN bound stops the loop at once). */
  function ImageCount(data: seq<Byte>): (n: nat)
    ensures n < 0x1_0000_0000
    ensures |data| < 8 ==> n == 0
  {
    match ReadInt(data, 4)
    case Some(n) => n
    case None => 0
  }

  /** Where image i starts in a file of images of p pixels: after the 16 header
      bytes and i earlier images. */
  function Offset(i: nat, p: nat): (o: nat)
    ensures o >= 16
  {
    if i == 0 then 16 else Offset(i - 1, p) + p
  }

  /** Offset(i, p) is the `16 + i * p` the loader computes. */
  lemma {:induction false} OffsetIsProduct(i: nat, p: nat)
    ensures Offset(i, p) == 16 + i * p
  {
    if i > 0 {
      OffsetIsProduct(i - 1, p);
      assert (i - 1) * p + p == i * p;
    }
  }

  /** Later images start no earlier. */
  lemma {:induction false} OffsetMonotone(i: nat, j: nat, p: nat)
    requires i <= j
    ensures Offset(i, p) <= Offset(j, p)
    decreases j - i
  {
    if i < j {
      OffsetMonotone(i, j - 1, p);
    }
  }

  /** The image file holds every pixel its header announces: `16 + count * pixels` bytes. */
  predicate PixelsPresent(data: seq<Byte>)
  {
    ImagePixels(data).None? || Offset(ImageCount(data), ImagePixels(data).value) <= |data|
  }

  /** `labels[k]`, or -1 past the end of the label file. */
  function LabelAt(labels: seq<Byte>, k: nat): (l: int)
    ensures -1 <= l < 256
  {
    if k < |labels| then labels[k] else -1
  }

  /** A pixel byte divided by 255. */
  function Scale(b: Byte): (p: real)
    ensures 0.0 <= p <= 1.0
  {
    b as real / 255.0
  }

  /** `count` consecutive pixel bytes from `start`, each divided by 255. */
  function Pixels(data: seq<Byte>, start: nat, count: nat): (px: seq<real>)
    requires start + count <= |data|
    ensures |px| == count
    ensures forall k :: 0 <= k < count ==> px[k] == Scale(data[start + k])
  {
    seq(count, k requires 0 <= k < count => Scale(data[start + k]))
  }

  /** The scaled pixels of image `i`: the p bytes from `Offset(i, p)`. */
  function ImageAt(data: seq<Byte>, i: nat): (px: seq<real>)
    requires PixelsPresent(data) && i < ImageCount(data)
    ensures ImagePixels(data).None? ==> px == []
    ensures ImagePixels(data).Some? ==> |px| == ImagePixels(data).value
  {
    match ImagePixels(data)
    case None => []
    case Some(p) =>
      OffsetMonotone(i + 1, ImageCount(data), p);
      Pixels(data, Offset(i, p), p)
  }

  /** What `fetchData` returns for an image file and a label file. */
  function Records(data: seq<Byte>, labels: seq<Byte>): (r: seq<Sample>)
    requires PixelsPresent(data)
    ensures |r| == ImageCount(data)
  {
    seq(ImageCount(data), i requires 0 <= i < ImageCount(data) =>
      Sample(LabelAt(labels, i + 8), ImageAt(data, i)))
  }

  /** Image i of a file with p pixels per image is the run of p bytes at `Offset(i, p)`. */
  lemma ImageBounds(data: seq<Byte>, i: nat, p: nat)
    requires PixelsPresent(data) && i < ImageCount(data) && ImagePixels(data) == Some(p)
    ensures Offset(i, p) + p <= |data|
    ensures ImageAt(data, i) == Pixels(data, Offset(i, p), p)
  {
    OffsetMonotone(i + 1, ImageCount(data), p);
  }

  /** The records of the first i + 1 images extend those of the first i by record i. */
  lemma RecordsStep(data: seq<Byte>, labels: seq<Byte>, i: nat)
    requires PixelsPresent(data) && i < ImageCount(data)
    ensures Records(data, labels)[..i + 1] == Records(data, labels)[..i] + [Sample(LabelAt(labels, i + 8), ImageAt(data, i))]
  {
  }

  /** `fetchData` on the two downloaded files: one record per image, label i taken
      from offset 8 + i of the label file, pixel bytes divided by 255. */
  method FetchData(data: seq<Byte>, labels: seq<Byte>) returns (result: seq<Sample>)
    requires PixelsPresent(data)
    ensures result == Records(data, labels)
  {
    var numImages := ByteArrayToInt(data, 4);
    var height := ByteArrayToInt(data, 8);
    var width := ByteArrayToInt(data, 12);
    var imagePixels: Option<nat> := None;
    if height.Some? && width.Some? {
      imagePixels := Some(width.value * height.value);
    }
    assert imagePixels == ImagePixels(data);
    assert numImages.Some? ==> numImages.value == ImageCount(data);
    result := [];
    var i := 0;
    while numImages.Some? && i < numImages.value
      invariant i <= ImageCount(data)
      invariant numImages.None? ==> i == 0
      invariant result == Records(data, labels)[..i]
    {
      var pixels := [];
      if imagePixels.Some? {
        var p := imagePixels.value;
        ImageBounds(data, i, p);
        OffsetIsProduct(i, p);
        var startIndex := 16 + i * p;
        var endIndex := 16 + i * p + p;
        var j := startIndex;
        while j < endIndex
          invariant startIndex <= j <= endIndex
          invariant pixels == Pixels(data, startIndex, j - startIndex)
        {
          pixels := pixels + [Scale(data[j])];
          j := j + 1;
        }
      }
      RecordsStep(data, labels, i);
      result := result + [Sample(LabelAt(labels, i + 8), pixels)];
      i := i + 1;
    }
    assert Records(data, labels)[..i] == Records(data, labels);
  }

  /** Every pixel of every record lies in [0,1]. */
  lemma PixelsInUnitInterval(data: seq<Byte>, labels: seq<Byte>)
    requires PixelsPresent(data)
    ensures forall i, k :: 0 <= i < |Records(data, labels)| && 0 <= k < |Records(data, labels)[i].pixels| ==>
      0.0 <= Records(data, labels)[i].pixels[k] <= 1.0
  {
    var r := Records(data, labels);
    forall i, k | 0 <= i < |r| && 0 <= k < |r[i].pixels|
      ensures 0.0 <= r[i].pixels[k] <= 1.0
    {
      ImageBounds(data, i, ImagePixels(data).value);
    }
  }

  /** Record i carries byte `8 + i` of the label file, or -1 when that file is shorter. */
  lemma LabelsFromOffsetEight(data: seq<Byte>, labels: seq<Byte>, i: nat)
    requires PixelsPresent(data) && i < ImageCount(data)
    ensures i + 8 < |labels| ==> Records(data, labels)[i].digit == labels[i + 8]
    ensures i + 8 >= |labels| ==> Records(data, labels)[i].digit == -1
  {
  }

  /** Reading at offset 4 or later sees only `data[4..]`. */
  lemma ReadIntAfterMagic(data: seq<Byte>, data': seq<Byte>, start: nat)
    requires |data| >= 4 && |data'| >= 4 && data[4..] == data'[4..] && 4 <= start
    ensures ReadInt(data, start) == ReadInt(data', start)
  {
    if start + 4 <= |data| {
      SliceAfterMagic(data, data', start, start + 4);
    }
  }

  /** A slice at offset 4 or later is the same in both files. */
  lemma SliceAfterMagic(data: seq<Byte>, data': seq<Byte>, lo: nat, hi: nat)
    requires |data| >= 4 && |data'| >= 4 && data[4..] == data'[4..] && 4 <= lo <= hi <= |data|
    ensures data[lo..hi] == data'[lo..hi]
  {
    forall k | lo <= k < hi
      ensures data[k] == data'[k]
    {
      assert data[k] == data[4..][k - 4];
    }
  }

  /** Image i reads the same bytes from two files that differ only before offset 4. */
  lemma ImageAtAfterMagic(data: seq<Byte>, data': seq<Byte>, i: nat)
    requires |data| >= 4 && |data'| >= 4 && data[4..] == data'[4..]
    requires PixelsPresent(data) && PixelsPresent(data') && i < ImageCount(data)
    requires ImageCount(data) == ImageCount(data') && ImagePixels(data) == ImagePixels(data')
    ensures ImageAt(data, i) == ImageAt(data', i)
  {
    if ImagePixels(data).Some? {
      var p := ImagePixels(data).value;
      ImageBounds(data, i, p);
      ImageBounds(data', i, p);
      PixelsAfterMagic(data, data', Offset(i, p), p);
    }
  }

  /** A run of pixels at offset 4 or later reads the same from both files. */
  lemma PixelsAfterMagic(data: seq<Byte>, data': seq<Byte>, start: nat, count: nat)
    requires |data| >= 4 && |data'| >= 4 && data[4..] == data'[4..]
    requires 4 <= start && start + count <= |data|
    ensures Pixels(data, start, count) == Pixels(data', start, count)
  {
    forall k | 0 <= k < count
      ensures Pixels(data, start, count)[k] == Pixels(data', start, count)[k]
    {
      assert data[start + k] == data[4..][start + k - 4];
    }
  }

  /** The first four bytes of the image file (its magic number) are never read. */
  lemma MagicIgnored(data: seq<Byte>, data': seq<Byte>, labels: seq<Byte>)
    requires |data| >= 4 && |data'| >= 4 && data[4..] == data'[4..]
    requires PixelsPresent(data)
    ensures PixelsPresent(data') && Records(data, labels) == Records(data', labels)
  {
    ReadIntAfterMagic(data, data', 4);
    ReadIntAfterMagic(data, data', 8);
    ReadIntAfterMagic(data, data', 12);
    assert |data| == |data'|;
    assert ImageCount(data) == ImageCount(data') && ImagePixels(data) == ImagePixels(data');
    forall i | 0 <= i < ImageCount(data)
      ensures Records(data, labels)[i] == Records(data', labels)[i]
    {
      ImageAtAfterMagic(data, data', i);
    }
  }

  /** The pixel bytes of several images laid end to end. */
  function Flatten(images: seq<seq<Byte>>): seq<Byte>
  {
    if |images| == 0 then []
    else Flatten(images[..|images| - 1]) + images[|images| - 1]
  }

  /** Byte k of image i sits at `i * p + k` of the flattened images, when every image has p bytes. */
  lemma {:induction false} FlattenIndex(images: seq<seq<Byte>>, p: nat, i: nat, k: nat)
    requires forall m :: 0 <= m < |images| ==> |images[m]| == p
    requires i < |images| && k < p
    ensures |Flatten(images)| == |images| * p
    ensures i * p + k < |Flatten(images)| && Flatten(images)[i * p + k] == images[i][k]
  {
    var n := |images| - 1;
    FlattenLength(images[..n], p);
    if i < n {
      FlattenIndex(images[..n], p, i, k);
    } else {
      assert i * p + k == n * p + k;
    }
  }

  /** Images of p bytes each flatten to `|images| * p` bytes. */
  lemma {:induction false} FlattenLength(images: seq<seq<Byte>>, p: nat)
    requires forall m :: 0 <= m < |images| ==> |images[m]| == p
    ensures |Flatten(images)| == |images| * p
  {
    if |images| > 0 {
      FlattenLength(images[..|images| - 1], p);
    }
  }

  /** An IDX image file: magic number, image count, rows, columns, then the pixel bytes. */
  function ImageFile(magic: seq<Byte>, count: nat, rows: nat, cols: nat, body: seq<Byte>): (f: seq<Byte>)
    requires |magic| == 4 && count < 4294967296 && rows < 4294967296 && cols < 4294967296
    ensures |f| == 16 + |body|
  {
    magic + Encode32(count) + Encode32(rows) + Encode32(cols) + body
  }

  /** An IDX label file: magic number, label count, then one byte per label. */
  function LabelFile(magic: seq<Byte>, labels: seq<Byte>): (f: seq<Byte>)
    requires |magic| == 4 && |labels| < 4294967296
    ensures |f| == 8 + |labels|
  {
    magic + Encode32(|labels|) + labels
  }

  /** Every byte of an image, divided by 255. */
  function Scaled(image: seq<Byte>): (px: seq<real>)
    ensures |px| == |image|
  {
    seq(|image|, k requires 0 <= k < |image| => Scale(image[k]))
  }

  /** Where the header fields and the pixels of an image file sit. */
  lemma ImageFileLayout(magic: seq<Byte>, count: nat, rows: nat, cols: nat, body: seq<Byte>)
    requires |magic| == 4 && count < 4294967296 && rows < 4294967296 && cols < 4294967296
    ensures ImageFile(magic, count, rows, cols, body)[4..8] == Encode32(count)
    ensures ImageFile(magic, count, rows, cols, body)[8..12] == Encode32(rows)
    ensures ImageFile(magic, count, rows, cols, body)[12..16] == Encode32(cols)
    ensures ImageFile(magic, count, rows, cols, body)[16..] == body
  {
  }

  /** A file built by ImageFile announces its image count and pixel count. */
  lemma ImageFileHeader(magic: seq<Byte>, count: nat, rows: nat, cols: nat, body: seq<Byte>)
    requires |magic| == 4 && count < 4294967296 && rows < 4294967296 && cols < 4294967296
    ensures ImageCount(ImageFile(magic, count, rows, cols, body)) == count
    ensures ImagePixels(ImageFile(magic, count, rows, cols, body)) == Some(cols * rows)
  {
    ImageFileLayout(magic, count, rows, cols, body);
    ReadEncoded(count);
    ReadEncoded(rows);
    ReadEncoded(cols);
  }

  /** Loading a well-formed pair of IDX files gives back each image's label and its
      pixels divided by 255. */
  lemma LoadsWhatWasWritten(magic: seq<Byte>, labelMagic: seq<Byte>, rows: nat, cols: nat,
                            images: seq<seq<Byte>>, labels: seq<Byte>)
    requires |magic| == 4 && |labelMagic| == 4
    requires rows < 4294967296 && cols < 4294967296 && |images| < 4294967296
    requires |labels| == |images|
    requires forall i :: 0 <= i < |images| ==> |images[i]| == cols * rows
    ensures PixelsPresent(ImageFile(magic, |images|, rows, cols, Flatten(images)))
    ensures Records(ImageFile(magic, |images|, rows, cols, Flatten(images)), LabelFile(labelMagic, labels))
      == seq(|images|, i requires 0 <= i < |images| => Sample(labels[i], Scaled(images[i])))
  {
    var body := Flatten(images);
    var f := ImageFile(magic, |images|, rows, cols, body);
    var lf := LabelFile(labelMagic, labels);
    var p := cols * rows;
    ImageFileHeader(magic, |images|, rows, cols, body);
    ImageFileLayout(magic, |images|, rows, cols, body);
    FlattenLength(images, p);
    OffsetIsProduct(|images|, p);
    forall i | 0 <= i < |images|
      ensures Records(f, lf)[i] == Sample(labels[i], Scaled(images[i]))
    {
      assert lf[i + 8] == labels[i];
      ImageBounds(f, i, p);
      OffsetIsProduct(i, p);
      forall k | 0 <= k < p
        ensures ImageAt(f, i)[k] == Scaled(images[i])[k]
      {
        FlattenIndex(images, p, i, k);
        assert f[16 + i * p + k] == body[i * p + k];
      }
    }
  }
}
