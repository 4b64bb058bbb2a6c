/** What the preview callback hands to the application: the frame with its padding removed, either
    by copying it row by row or by sharing the camera's own memory. */
module PreviewCopy {
  import opened Arithmetic

  newtype Byte = x: int | 0 <= x < 256

  datatype Format = SemiPlanar | Yv12 | Other

  /** The image is w by h; its two planes stand one after the other with these strides and scanlines. */
  datatype Layout = Layout(w: nat, h: nat, yStride: nat, yScan: nat, uvStride: nat, uvScan: nat)

  /** Shared memory shows the first bytes of the camera's buffer. */
  datatype Preview = NoMemory | NoData | Shared(size: nat) | Copied(data: array<Byte>)

  function Rows(l: Layout): nat {
    l.h + l.h / 2
  }

  function PackedSize(l: Layout): nat {
    l.w * l.h + l.w * (l.h / 2)
  }

  function PaddedSize(l: Layout): nat {
    l.yStride * l.yScan + l.uvStride * l.uvScan
  }

  /** Where row r of the padded frame starts, counting the chroma rows after the luma rows. */
  function RowStart(l: Layout, r: nat): nat {
    if r < l.h then r * l.yStride else (r - l.h) * l.uvStride + l.yStride * l.yScan
  }

  /** Every row the loops read lies inside the frame. */
  ghost predicate Readable(l: Layout, size: nat) {
    forall r: nat :: r < Rows(l) ==> RowStart(l, r) + l.w <= size
  }

  /** Strides and scanlines cover the image. */
  predicate Covers(l: Layout) {
    l.w <= l.yStride && l.h <= l.yScan && l.w <= l.uvStride && l.h / 2 <= l.uvScan
  }

  lemma RowsSize(l: Layout)
    ensures PackedSize(l) == Rows(l) * l.w
  {
    assert l.w * l.h + l.w * (l.h / 2) == (l.h + l.h / 2) * l.w;
  }

  lemma PackedRow(l: Layout, k: nat)
    requires k < PackedSize(l)
    ensures l.w > 0 && k / l.w < Rows(l) && k == (k / l.w) * l.w + k % l.w
  {
    RowsSize(l);
    Grow(Rows(l), l.w, if k / l.w < Rows(l) then Rows(l) else k / l.w, l.w);
  }

  /** Byte k of the packed image is byte k % w of row k / w. */
  function SourceIndex(l: Layout, k: nat): nat
    requires k < PackedSize(l)
  {
    PackedRow(l, k);
    RowStart(l, k / l.w) + k % l.w
  }

  lemma SourceReadable(l: Layout, k: nat, size: nat)
    requires k < PackedSize(l) && Readable(l, size)
    ensures SourceIndex(l, k) < size
  {
    PackedRow(l, k);
    assert RowStart(l, k / l.w) + l.w <= size;
  }

  ghost function Packed(src: seq<Byte>, l: Layout): (p: seq<Byte>)
    requires Readable(l, |src|)
    ensures |p| == PackedSize(l)
  {
    seq(PackedSize(l), k requires 0 <= k < PackedSize(l) => SourceReadable(l, k, |src|); src[SourceIndex(l, k)])
  }

  // ---------------------------------------------------------------- what packing means

  lemma RowByte(l: Layout, r: nat, j: nat)
    requires r < Rows(l) && j < l.w
    ensures r * l.w + j < PackedSize(l)
    ensures SourceIndex(l, r * l.w + j) == RowStart(l, r) + j
  {
    RowsSize(l);
    MulStep(r, Rows(l), l.w);
    DivUnique(r * l.w + j, l.w, r, j);
  }

  /** The packed image holds byte (i, j) of the luma plane at i * w + j. */
  lemma LumaByte(src: seq<Byte>, l: Layout, i: nat, j: nat)
    requires Readable(l, |src|) && i < l.h && j < l.w
    ensures i * l.w + j < l.w * l.h && i * l.yStride + j < |src|
    ensures i * l.w + j < PackedSize(l) && Packed(src, l)[i * l.w + j] == src[i * l.yStride + j]
  {
    RowByte(l, i, j);
    MulStep(i, l.h, l.w);
    assert RowStart(l, i) + l.w <= |src|;
  }

  /** And byte (i, j) of the chroma plane i rows further, after the luma rows. */
  lemma ChromaByte(src: seq<Byte>, l: Layout, i: nat, j: nat)
    requires Readable(l, |src|) && i < l.h / 2 && j < l.w
    ensures l.w * l.h + i * l.w + j < PackedSize(l) && l.yStride * l.yScan + i * l.uvStride + j < |src|
    ensures Packed(src, l)[l.w * l.h + i * l.w + j] == src[l.yStride * l.yScan + i * l.uvStride + j]
  {
    RowByte(l, l.h + i, j);
    assert (l.h + i) * l.w == l.w * l.h + i * l.w;
    assert RowStart(l, l.h + i) + l.w <= |src|;
  }

  /** The row copies tile the packed image: byte k is written by copy k / w and by no other. */
  lemma WrittenOnce(l: Layout, k: nat, r: nat)
    requires k < PackedSize(l) && r < Rows(l)
    ensures l.w > 0 && k / l.w < Rows(l)
    ensures r * l.w <= k < r * l.w + l.w <==> r == k / l.w
  {
    PackedRow(l, k);
    if r * l.w <= k < r * l.w + l.w {
      DivUnique(k, l.w, r, k - r * l.w);
    }
  }

  lemma LumaCovered(l: Layout, r: nat)
    requires Covers(l) && r < l.h
    ensures RowStart(l, r) + l.w <= l.yStride * l.yScan
  {
    MulStep(r, l.yScan, l.yStride);
  }

  lemma ChromaCovered(l: Layout, r: nat)
    requires Covers(l) && l.h <= r < Rows(l)
    ensures RowStart(l, r) + l.w <= l.yStride * l.yScan + l.uvStride * l.uvScan
  {
    MulStep(r - l.h, l.uvScan, l.uvStride);
  }

  /** When strides and scanlines cover the image, all rows read lie inside the two planes. */
  lemma CoveredIsReadable(l: Layout, size: nat)
    requires Covers(l) && PaddedSize(l) <= size
    ensures Readable(l, size)
  {
    forall r: nat | r < Rows(l) ensures RowStart(l, r) + l.w <= PaddedSize(l) {
      if r < l.h {
        LumaCovered(l, r);
        assert l.uvStride * l.uvScan >= 0;
      } else {
        ChromaCovered(l, r);
      }
    }
  }

  // ---------------------------------------------------------------- sharing instead of copying

  /** The two computed sizes are equal exactly when neither plane has padding. */
  lemma SameSizeIffUnpadded(l: Layout)
    requires Covers(l) && l.w > 0 && l.h >= 2
    ensures PackedSize(l) == PaddedSize(l)
       <==> l.yStride == l.w && l.yScan == l.h && l.uvStride == l.w && l.uvScan == l.h / 2
  {
    Grow(l.w, l.h, l.yStride, l.yScan);
    Grow(l.w, l.h / 2, l.uvStride, l.uvScan);
  }

  lemma UnpaddedIndex(l: Layout, k: nat)
    requires k < PackedSize(l) && l.yStride == l.w && l.yScan == l.h && (l.h >= 2 ==> l.uvStride == l.w)
    ensures SourceIndex(l, k) == k
  {
    PackedRow(l, k);
    var r := k / l.w;
    if r >= l.h {
      assert (r - l.h) * l.w + l.w * l.h == r * l.w;
    }
  }

  lemma SameSizeIsUnpadded(l: Layout)
    requires Covers(l) && PackedSize(l) == PaddedSize(l) && l.w > 0 && l.h > 0
    ensures l.yStride == l.w && l.yScan == l.h && (l.h >= 2 ==> l.uvStride == l.w)
  {
    Grow(l.w, l.h, l.yStride, l.yScan);
    Grow(l.w, l.h / 2, l.uvStride, l.uvScan);
  }

  /** So sharing the camera's memory shows what the copy would have. */
  lemma SharedIsPacked(src: seq<Byte>, l: Layout)
    requires Covers(l) && PaddedSize(l) <= |src| && PackedSize(l) == PaddedSize(l)
    ensures Readable(l, |src|) && Packed(src, l) == src[..PaddedSize(l)]
  {
    CoveredIsReadable(l, |src|);
    forall k: nat | k < PackedSize(l) ensures SourceIndex(l, k) == k {
      PackedRow(l, k);
      SameSizeIsUnpadded(l);
      UnpaddedIndex(l, k);
    }
  }

  // ---------------------------------------------------------------- the callback

  method Memcpy(dst: array<Byte>, dstOffset: nat, src: array<Byte>, srcOffset: nat, n: nat)
    requires dst != src && dstOffset + n <= dst.Length && srcOffset + n <= src.Length
    modifies dst
    ensures dst[..dstOffset] == old(dst[..dstOffset]) && dst[dstOffset + n..] == old(dst[dstOffset + n..])
    ensures dst[dstOffset..dstOffset + n] == src[srcOffset..srcOffset + n]
  {
    forall k | 0 <= k < n {
      dst[dstOffset + k] := src[srcOffset + k];
    }
  }

  lemma RowFits(l: Layout, r: nat)
    requires r < Rows(l)
    ensures r * l.w + l.w == (r + 1) * l.w <= PackedSize(l)
    ensures l.h <= r ==> r * l.w == (r - l.h) * l.w + l.w * l.h
  {
    RowsSize(l);
    MulStep(r, Rows(l), l.w);
  }

  lemma SameBytes(p: seq<Byte>, at: nat, s: seq<Byte>, from: nat, w: nat)
    requires at + w <= |p| && from + w <= |s|
    requires forall k :: at <= k < at + w ==> p[k] == s[k - at + from]
    ensures p[at..at + w] == s[from..from + w]
  {
    var x, y := p[at..at + w], s[from..from + w];
    forall j | 0 <= j < w ensures x[j] == y[j] {
      assert p[at + j] == s[from + j];
    }
  }

  lemma PackedByteIs(src: seq<Byte>, l: Layout, r: nat, at: nat, k: nat)
    requires Readable(l, |src|) && r < Rows(l) && at == r * l.w && at <= k < at + l.w <= PackedSize(l)
    ensures 0 <= k - at + RowStart(l, r) < |src| && Packed(src, l)[k] == src[k - at + RowStart(l, r)]
  {
    RowByte(l, r, k - at);
    SourceReadable(l, k, |src|);
  }

  /** Row r of the packed image is the row of the frame the loops copy there. */
  lemma PackedRowIs(src: seq<Byte>, l: Layout, r: nat, at: nat, from: nat)
    requires Readable(l, |src|) && r < Rows(l) && at == r * l.w && from == RowStart(l, r)
    ensures at + l.w <= |Packed(src, l)| && from + l.w <= |src|
    ensures Packed(src, l)[at..at + l.w] == src[from..from + l.w]
  {
    RowFits(l, r);
    var p, w := Packed(src, l), l.w;
    forall k | at <= k < at + w ensures k - at + from < |src| && p[k] == src[k - at + from] {
      PackedByteIs(src, l, r, at, k);
    }
    SameBytes(p, at, src, from, w);
  }

  lemma OneMoreRow(now: seq<Byte>, was: seq<Byte>, p: seq<Byte>, at: nat, w: nat)
    requires |now| == |was| == |p| && at + w <= |p|
    requires now[..at] == was[..at] == p[..at] && now[at..at + w] == p[at..at + w]
    ensures now[..at + w] == p[..at + w]
  {
    assert now[..at + w] == now[..at] + now[at..at + w];
    assert p[..at + w] == p[..at] + p[at..at + w];
  }

  lemma RowCopied(src: seq<Byte>, l: Layout, r: nat, was: seq<Byte>, now: seq<Byte>, at: nat, from: nat)
    requires Readable(l, |src|) && r < Rows(l) && at == r * l.w && from == RowStart(l, r)
    requires |was| == |now| == PackedSize(l) && at + l.w <= |now| && from + l.w <= |src|
    requires was[..at] == Packed(src, l)[..at] && now[..at] == was[..at]
    requires now[at..at + l.w] == src[from..from + l.w]
    ensures at + l.w == (r + 1) * l.w && now[..at + l.w] == Packed(src, l)[..at + l.w]
  {
    RowFits(l, r);
    PackedRowIs(src, l, r, at, from);
    OneMoreRow(now, was, Packed(src, l), at, l.w);
  }

  lemma RowBounds(l: Layout, r: nat, at: nat, from: nat, size: nat)
    requires Readable(l, size) && r < Rows(l) && at == r * l.w && from == RowStart(l, r)
    ensures at + l.w <= PackedSize(l) && from + l.w <= size
  {
    RowFits(l, r);
  }

  /** The first `rows` rows of the packed image are in place, and end at `at`. */
  ghost predicate Done(now: seq<Byte>, src: seq<Byte>, l: Layout, rows: nat, at: nat)
    requires Readable(l, |src|)
  {
    at == rows * l.w && at <= |now| == PackedSize(l) && now[..at] == Packed(src, l)[..at]
  }

  method CopyRow(dst: array<Byte>, src: array<Byte>, l: Layout, dstOffset: nat, srcOffset: nat, ghost r: nat)
    requires dst != src && Readable(l, src.Length) && r < Rows(l)
    requires Done(dst[..], src[..], l, r, dstOffset) && srcOffset == RowStart(l, r)
    modifies dst
    ensures Done(dst[..], src[..], l, r + 1, dstOffset + l.w)
  {
    ghost var was := dst[..];
    RowBounds(l, r, dstOffset, srcOffset, src.Length);
    Memcpy(dst, dstOffset, src, srcOffset, l.w);
    RowCopied(src[..], l, r, was, dst[..], dstOffset, srcOffset);
  }

  lemma LumaOffset(l: Layout, i: nat)
    requires i < l.h
    ensures RowStart(l, i) == i * l.yStride && i * l.w + l.w == (i + 1) * l.w
  {}

  lemma ChromaOffset(l: Layout, i: nat)
    ensures (l.h + i) * l.w == i * l.w + l.w * l.h && (l.h + i) * l.w + l.w == (l.h + (i + 1)) * l.w
    ensures RowStart(l, l.h + i) == i * l.uvStride + l.yStride * l.yScan
  {}

  /** The first loop, over the luma rows. */
  method CopyLuma(dst: array<Byte>, src: array<Byte>, l: Layout)
    requires dst != src && dst.Length == PackedSize(l) && Readable(l, src.Length)
    modifies dst
    ensures Done(dst[..], src[..], l, l.h, l.h * l.w)
  {
    for i := 0 to l.h
      invariant Done(dst[..], src[..], l, i, i * l.w)
    {
      LumaOffset(l, i);
      CopyRow(dst, src, l, i * l.w, i * l.yStride, i);
    }
  }

  /** The second, over the chroma rows. */
  method CopyChroma(dst: array<Byte>, src: array<Byte>, l: Layout)
    requires dst != src && Readable(l, src.Length) && Done(dst[..], src[..], l, l.h, l.h * l.w)
    modifies dst
    ensures Done(dst[..], src[..], l, Rows(l), Rows(l) * l.w)
  {
    var srcBaseOffset, dstBaseOffset := l.yStride * l.yScan, l.w * l.h;
    for i := 0 to l.h / 2
      invariant Done(dst[..], src[..], l, l.h + i, (l.h + i) * l.w)
    {
      ChromaOffset(l, i);
      CopyRow(dst, src, l, i * l.w + dstBaseOffset, i * l.uvStride + srcBaseOffset, l.h + i);
    }
  }

  method CopyPlanes(dst: array<Byte>, src: array<Byte>, l: Layout)
    requires dst != src && dst.Length == PackedSize(l) && Readable(l, src.Length)
    modifies dst
    ensures dst[..] == Packed(src[..], l)
  {
    CopyLuma(dst, src, l);
    CopyChroma(dst, src, l);
    RowsSize(l);
    assert dst[..] == dst[..PackedSize(l)];
  }

  /** What the application reads through a preview buffer. */
  ghost function Seen(p: Preview, src: seq<Byte>): seq<Byte>
    requires p.Copied? || (p.Shared? && p.size <= |src|)
    reads if p.Copied? then {p.data} else {}
  {
    if p.Copied? then p.data[..] else src[..p.size]
  }

  /** `yv12Size` is the size of the three planes of a YV12 frame; `granted` is whether the
      application's allocator gives memory. */
  method PreviewData(format: Format, l: Layout, yv12Size: nat, src: array<Byte>, granted: bool) returns (p: Preview)
    requires format == SemiPlanar ==> Covers(l) && PaddedSize(l) <= src.Length
    requires format == Yv12 ==> yv12Size <= src.Length
    ensures p == NoMemory <==> !granted
    ensures format == SemiPlanar && (p.Copied? || p.Shared?)
            ==> Readable(l, src.Length) && (p.Shared? ==> p.size <= src.Length)
                && Seen(p, src[..]) == Packed(src[..], l)
    ensures format == SemiPlanar && granted ==> (p.Copied? <==> PackedSize(l) != PaddedSize(l))
    ensures format == Yv12 && granted ==> p == if yv12Size > 0 then Shared(yv12Size) else NoData
    ensures format == Other && granted ==> p.Copied? && p.data.Length == PackedSize(l)
    ensures p.Copied? ==> fresh(p.data)
    ensures p == NoData ==> if format == Yv12 then yv12Size == 0 else PackedSize(l) == 0
  {
    var previewBufSize, fromCallback := PackedSize(l), 0;
    if format == SemiPlanar {
      fromCallback := PaddedSize(l);
    } else if format == Yv12 {
      previewBufSize, fromCallback := yv12Size, yv12Size;
    }
    if !granted {
      return NoMemory;
    }
    if format != Other && previewBufSize == fromCallback {
      if format == SemiPlanar {
        CoveredIsReadable(l, src.Length);
        SharedIsPacked(src[..], l);
      }
      return if previewBufSize != 0 then Shared(previewBufSize) else NoData;
    }
    var data := new Byte[previewBufSize];
    if format == SemiPlanar {
      CoveredIsReadable(l, src.Length);
      CopyPlanes(data, src, l);
    }
    return Copied(data);
  }
}
