/** Preview frames for the application: the copy from the padded planes of the camera into a packed
    image, and the shortcut that maps the camera's own buffer instead. */
module PreviewCopy {

  type byte = bv8

  datatype Format = NV21 | NV12 | YV12 | NV12Venus | NV21Venus | NV21Adreno | OtherFormat

  datatype Plane = Plane(stride: nat, scanline: nat)

  /** Image size and the planes the camera lays it out in: luma, chroma, and a third for YV12. */
  datatype Layout = Layout(width: nat, height: nat, y: Plane, uv: Plane, v: Plane)

  function PlaneSize(p: Plane): nat { p.stride * p.scanline }

  function PackedSize(l: Layout): nat { l.width * l.height + l.width * (l.height / 2) }

  function PaddedSize(l: Layout): nat { PlaneSize(l.y) + PlaneSize(l.uv) }

  /** Every row and every line of the image has its place in the planes. */
  predicate Holds(l: Layout) {
    l.y.stride >= l.width && l.y.scanline >= l.height &&
    l.uv.stride >= l.width && l.uv.scanline >= l.height / 2
  }

  /** Offset of column c of row r. */
  function At(base: nat, stride: nat, r: nat, c: nat): nat { base + r * stride + c }

  /** `rows` rows of `width` bytes stand in dst, from dBase on, as they stand in src, from sBase on. */
  ghost predicate SamePlane(dst: seq<byte>, dBase: nat, dStride: nat,
                            src: seq<byte>, sBase: nat, sStride: nat, rows: nat, width: nat)
  {
    forall r: nat, c: nat :: r < rows && c < width ==>
      && At(dBase, dStride, r, c) < |dst|
      && At(sBase, sStride, r, c) < |src|
      && dst[At(dBase, dStride, r, c)] == src[At(sBase, sStride, r, c)]
  }

  /** `packed` is the image in the padded buffer `padded`, rows close together, chroma after luma. */
  ghost predicate IsPackedImage(packed: seq<byte>, padded: seq<byte>, l: Layout) {
    && |packed| == PackedSize(l)
    && SamePlane(packed, 0, l.width, padded, 0, l.y.stride, l.height, l.width)
    && SamePlane(packed, l.width * l.height, l.width, padded, PlaneSize(l.y), l.uv.stride, l.height / 2, l.width)
  }

  // ---------- index arithmetic ----------

  lemma RowInside(stride: nat, r: nat, rows: nat)
    requires r < rows
    ensures r * stride + stride <= rows * stride
  {
    assert (r + 1) * stride <= rows * stride;
  }

  /** Every offset of a packed plane is the place of exactly one pixel. */
  lemma OffsetIsPixel(width: nat, rows: nat, k: nat)
    requires k < width * rows
    ensures width > 0 && k / width < rows && k % width < width
    ensures At(0, width, k / width, k % width) == k
    ensures forall r: nat, c: nat {:trigger At(0, width, r, c)} ::
              c < width && At(0, width, r, c) == k ==> r == k / width && c == k % width
  {
    var r, c := k / width, k % width;
    assert k == r * width + c;
    if r >= rows {
      RowInside(width, rows, r + 1);
      assert false;
    }
    forall r': nat, c': nat | c' < width && At(0, width, r', c') == k
      ensures r' == r && c' == c
    {
      if r' < r {
        RowInside(width, r', r);
      } else if r < r' {
        RowInside(width, r, r');
      }
    }
  }

  lemma PlaneIsDetermined(p: seq<byte>, q: seq<byte>, base: nat, padded: seq<byte>, sBase: nat, sStride: nat,
                          rows: nat, width: nat, k: nat)
    requires SamePlane(p, base, width, padded, sBase, sStride, rows, width)
    requires SamePlane(q, base, width, padded, sBase, sStride, rows, width)
    requires base <= k < base + width * rows
    ensures k < |p| && k < |q| && p[k] == q[k]
  {
    OffsetIsPixel(width, rows, k - base);
    var r, c := (k - base) / width, (k - base) % width;
    assert At(base, width, r, c) == k;
  }

  /** The packed image is completely determined by the padded buffer: every byte of it is written,
      and with a pixel of the image. */
  lemma PackedImageIsUnique(p: seq<byte>, q: seq<byte>, padded: seq<byte>, l: Layout)
    requires IsPackedImage(p, padded, l) && IsPackedImage(q, padded, l)
    ensures p == q
  {
    hide SamePlane;
    forall k: nat | k < |p|
      ensures p[k] == q[k]
    {
      if k < l.width * l.height {
        PlaneIsDetermined(p, q, 0, padded, 0, l.y.stride, l.height, l.width, k);
      } else {
        PlaneIsDetermined(p, q, l.width * l.height, padded, PlaneSize(l.y), l.uv.stride, l.height / 2, l.width, k);
      }
    }
  }

  /** One plane is at least as large as its part of the image, and equal only without padding. */
  lemma PlaneAtLeast(p: Plane, width: nat, rows: nat)
    requires p.stride >= width && p.scanline >= rows
    ensures PlaneSize(p) >= width * rows
    ensures PlaneSize(p) == width * rows && width > 0 ==> p.scanline == rows && (rows > 0 ==> p.stride == width)
  {
    var w, s := p.stride - width, p.scanline - rows;
    assert PlaneSize(p) == width * rows + width * s + w * p.scanline by {
      assert p.stride * p.scanline == width * p.scanline + w * p.scanline;
      assert width * p.scanline == width * rows + width * s;
    }
    if width > 0 {
      assert width * s >= s;
    }
    if p.scanline > 0 {
      assert w * p.scanline >= w;
    }
  }

  /** The sizes the shortcut compares agree exactly when no plane is padded. */
  lemma EqualSizesIff(l: Layout)
    requires Holds(l) && l.width > 0 && l.height > 0
    ensures PackedSize(l) == PaddedSize(l) <==>
            && l.y == Plane(l.width, l.height)
            && l.uv.scanline == l.height / 2
            && (l.height > 1 ==> l.uv.stride == l.width)
  {
    PlaneAtLeast(l.y, l.width, l.height);
    PlaneAtLeast(l.uv, l.width, l.height / 2);
    if l.y == Plane(l.width, l.height) && l.uv.scanline == l.height / 2 {
      if l.height == 1 {
        assert PlaneSize(l.uv) == 0 == l.width * (l.height / 2);
      } else if l.uv.stride == l.width {
        assert PlaneSize(l.uv) == l.width * (l.height / 2);
      }
    }
  }

  /** The shortcut refines the copy: when it is taken, the bytes at the head of the camera's buffer
      are already the packed image. */
  lemma ShortcutIsPacked(padded: seq<byte>, l: Layout)
    requires Holds(l) && PackedSize(l) == PaddedSize(l) <= |padded|
    ensures IsPackedImage(padded[..PackedSize(l)], padded, l)
  {
    if l.width > 0 && l.height > 0 {
      EqualSizesIff(l);
      var p := padded[..PackedSize(l)];
      forall r: nat, c: nat | r < l.height && c < l.width
        ensures At(0, l.width, r, c) < |p|
      {
        RowInside(l.width, r, l.height);
      }
      forall r: nat, c: nat | r < l.height / 2 && c < l.width
        ensures At(l.width * l.height, l.width, r, c) < |p|
        ensures At(PlaneSize(l.y), l.uv.stride, r, c) == At(l.width * l.height, l.width, r, c)
      {
        RowInside(l.width, r, l.height / 2);
      }
    }
  }

  // ---------- the copy ----------

  method MemCpy(dst: array<byte>, dOff: nat, src: array<byte>, sOff: nat, n: nat)
    requires dst != src && dOff + n <= dst.Length && sOff + n <= src.Length
    modifies dst
    ensures dst[dOff..dOff + n] == src[sOff..sOff + n]
    ensures dst[..dOff] == old(dst[..dOff]) && dst[dOff + n..] == old(dst[dOff + n..])
  {
    var i := 0;
    while i < n
      invariant 0 <= i <= n
      invariant forall k :: dOff <= k < dOff + i ==> dst[k] == src[sOff + (k - dOff)]
      invariant forall k :: 0 <= k < dst.Length && !(dOff <= k < dOff + i) ==> dst[k] == old(dst[k])
    {
      dst[dOff + i] := src[sOff + i];
      i := i + 1;
    }
  }

  /** Copying one more row after r rows have been copied. */
  lemma OneMoreRow(was: seq<byte>, now: seq<byte>, dBase: nat, dStride: nat,
                   src: seq<byte>, sBase: nat, sStride: nat, r: nat, width: nat)
    requires SamePlane(was, dBase, dStride, src, sBase, sStride, r, width) && width <= dStride
    requires |was| == |now| && At(dBase, dStride, r, 0) + width <= |now| && At(sBase, sStride, r, 0) + width <= |src|
    requires var d, s := At(dBase, dStride, r, 0), At(sBase, sStride, r, 0);
             now[d..d + width] == src[s..s + width] && now[..d] == was[..d]
    ensures SamePlane(now, dBase, dStride, src, sBase, sStride, r + 1, width)
  {
    forall i: nat, c: nat | i < r + 1 && c < width
      ensures At(dBase, dStride, i, c) < |now| && At(sBase, sStride, i, c) < |src|
      ensures now[At(dBase, dStride, i, c)] == src[At(sBase, sStride, i, c)]
    {
      var d, s := At(dBase, dStride, r, 0), At(sBase, sStride, r, 0);
      if i < r {
        RowInside(dStride, i, r);
        assert now[..d][At(dBase, dStride, i, c)] == was[..d][At(dBase, dStride, i, c)];
      } else {
        assert At(dBase, dStride, i, c) == d + c && At(sBase, sStride, i, c) == s + c;
        assert now[d..d + width][c] == src[s..s + width][c];
      }
    }
  }

  /** The row loop; sendPreviewCallback runs it once for each of its two planes. */
  method CopyRows(dst: array<byte>, dBase: nat, dStride: nat, src: array<byte>, sBase: nat, sStride: nat, rows: nat)
    requires dst != src && dStride <= sStride
    requires dBase + rows * dStride <= dst.Length && sBase + rows * sStride <= src.Length
    modifies dst
    ensures SamePlane(dst[..], dBase, dStride, src[..], sBase, sStride, rows, dStride)
    ensures dst[..dBase] == old(dst[..dBase])
  {
    var i := 0;
    while i < rows
      invariant 0 <= i <= rows
      invariant SamePlane(dst[..], dBase, dStride, src[..], sBase, sStride, i, dStride)
      invariant dst[..dBase] == old(dst[..dBase])
    {
      RowInside(dStride, i, rows);
      RowInside(sStride, i, rows);
      var srcOffset, dstOffset := sBase + i * sStride, dBase + i * dStride;
      ghost var was := dst[..];
      MemCpy(dst, dstOffset, src, srcOffset, dStride);
      OneMoreRow(was, dst[..], dBase, dStride, src[..], sBase, sStride, i, dStride);
      assert dst[..dBase] == dst[..dstOffset][..dBase] == was[..dBase];
      i := i + 1;
    }
  }

  lemma HeadKeepsPlane(was: seq<byte>, now: seq<byte>, src: seq<byte>, sStride: nat, rows: nat, width: nat)
    requires SamePlane(was, 0, width, src, 0, sStride, rows, width)
    requires width * rows <= |now| && width * rows <= |was| && now[..width * rows] == was[..width * rows]
    ensures SamePlane(now, 0, width, src, 0, sStride, rows, width)
  {
    forall r: nat, c: nat | r < rows && c < width
      ensures At(0, width, r, c) < |now| && now[At(0, width, r, c)] == was[At(0, width, r, c)]
    {
      RowInside(width, r, rows);
      assert now[..width * rows][At(0, width, r, c)] == was[..width * rows][At(0, width, r, c)];
    }
  }

  lemma PlanesFit(l: Layout)
    requires Holds(l)
    ensures 0 + l.height * l.width <= PackedSize(l)
    ensures l.width * l.height + l.height / 2 * l.width == PackedSize(l)
    ensures 0 + l.height * l.y.stride <= PaddedSize(l)
    ensures PlaneSize(l.y) + l.height / 2 * l.uv.stride <= PaddedSize(l)
  {
    PlaneAtLeast(l.y, l.y.stride, l.height);
    PlaneAtLeast(l.uv, l.uv.stride, l.height / 2);
  }

  /** Both row loops: they stay inside both buffers and leave the packed image. */
  method PackImage(dst: array<byte>, src: array<byte>, l: Layout)
    requires Holds(l) && dst != src && dst.Length == PackedSize(l) && src.Length >= PaddedSize(l)
    modifies dst
    ensures IsPackedImage(dst[..], src[..], l)
  {
    hide SamePlane;
    PlanesFit(l);
    CopyRows(dst, 0, l.width, src, 0, l.y.stride, l.height);
    ghost var luma := dst[..];
    CopyRows(dst, l.width * l.height, l.width, src, PlaneSize(l.y), l.uv.stride, l.height / 2);
    HeadKeepsPlane(luma, dst[..], src[..], l.y.stride, l.height, l.width);
  }

  // ---------- sendPreviewCallback ----------

  /** camera_memory_t as the framework hands it out. */
  class CameraMemory {
    const data: array<byte>
    const size: nat
    var released: nat

    constructor (data: array<byte>, size: nat)
      ensures this.data == data && this.size == size && released == 0
    {
      this.data, this.size, released := data, size, 0;
    }
  }

  datatype Status = NoError | NoMemory | NotifyFailed

  /** What goes to the notifier: the frame, and the memory its release callback will give back. */
  datatype Argument = NothingSent | Sent(data: CameraMemory?, userData: CameraMemory)

  predicate Supported(fmt: Format) { !fmt.OtherFormat? }

  function BufferSize(fmt: Format, l: Layout): nat {
    if fmt.YV12? then PlaneSize(l.y) + PlaneSize(l.uv) + PlaneSize(l.v) else PackedSize(l)
  }

  function SizeFromCallback(fmt: Format, l: Layout): nat {
    if fmt.OtherFormat? then 0
    else if fmt.YV12? then BufferSize(fmt, l)
    else PaddedSize(l)
  }

  /** `granted` tells whether mGetMemory succeeds, `accepted` whether notifyCallback takes the
      notification.  The application sees the packed image whichever way it is made; the memory
      asked for goes out with the notification, or is given back once. */
  method SendPreviewCallback(fmt: Format, l: Layout, frame: array<byte>, granted: bool, accepted: bool)
    returns (rc: Status, arg: Argument, memory: CameraMemory?)
    requires Supported(fmt) ==> frame.Length >= SizeFromCallback(fmt, l)
    requires Supported(fmt) && !fmt.YV12? ==> Holds(l)
    ensures rc == if !granted then NoMemory else if accepted then NoError else NotifyFailed
    ensures rc.NoError? <==> arg.Sent?
    ensures memory == null <==> rc.NoMemory?
    ensures memory != null ==> fresh(memory) && memory.size == BufferSize(fmt, l)
    ensures memory != null ==>
              memory.size ==
              if fmt == YV12 then l.y.stride * l.y.scanline + l.uv.stride * l.uv.scanline + l.v.stride * l.v.scanline
              else l.width * l.height + l.width * (l.height / 2)
    ensures memory != null ==> memory.released == if accepted then 0 else 1
    ensures arg.Sent? ==> arg.userData == memory
    ensures arg.Sent? && Supported(fmt) ==>
              (arg.data == null <==> BufferSize(fmt, l) == 0 == SizeFromCallback(fmt, l))
    ensures arg.Sent? && !Supported(fmt) ==> arg.data == memory && fresh(memory.data)
    ensures memory != null && fmt in {NV21, NV12, NV12Venus, NV21Venus, NV21Adreno} ==>
              if l.width * l.height + l.width * (l.height / 2) == l.y.stride * l.y.scanline + l.uv.stride * l.uv.scanline
              then memory.data == frame
              else fresh(memory.data)
    ensures memory != null && fmt == YV12 ==> memory.data == frame
    ensures memory != null && fmt == OtherFormat ==> fresh(memory.data)
    ensures arg.Sent? && arg.data != null ==> arg.data.size == BufferSize(fmt, l) <= arg.data.data.Length
    ensures arg.Sent? && arg.data != null && fmt.YV12? ==> arg.data.data == frame
    ensures arg.Sent? && arg.data != null && Supported(fmt) && !fmt.YV12? ==>
              IsPackedImage(arg.data.data[..arg.data.size], frame[..], l)
  {
    var previewBufSize, previewBufSizeFromCallback := BufferSize(fmt, l), SizeFromCallback(fmt, l);
    var previewMem: CameraMemory?, data: CameraMemory?, dataToApp: CameraMemory? := null, null, null;
    arg := NothingSent;
    if !granted {
      return NoMemory, NothingSent, null;
    }
    if Supported(fmt) {
      if previewBufSize == previewBufSizeFromCallback {
        previewMem := new CameraMemory(frame, previewBufSize);
        data := previewMem;
      } else {
        data := new CameraMemory(frame, frame.Length);
        var packed := new byte[previewBufSize];
        dataToApp := new CameraMemory(packed, previewBufSize);
        PackImage(dataToApp.data, data.data, l);
        assert packed[..previewBufSize] == packed[..];
      }
    } else {
      var blank := new byte[previewBufSize];
      dataToApp := new CameraMemory(blank, previewBufSize);
    }
    var shown := if previewBufSize != 0 && previewBufSizeFromCallback != 0 && previewBufSize == previewBufSizeFromCallback
                 then data else dataToApp;
    memory := if previewMem != null then previewMem else dataToApp;
    if previewMem != null && !fmt.YV12? {
      ShortcutIsPacked(frame[..], l);
      assert frame[..][..previewBufSize] == frame[..previewBufSize];
    }
    if accepted {
      rc, arg := NoError, Sent(shown, memory);
    } else {
      rc := NotifyFailed;
      memory.released := memory.released + 1;
    }
  }
}
