/**
 The unscaled copy from the session's framebuffer to the window's drawing buffer in the Wayland client
 (client/Wayland/wlfreerdp.c). Rows are a stride apart, pixels are four bytes wide.
*/
module Blit {
  import opened Common

  /** The columns left..right and rows top..bottom, both ends 16 bits wide. */
  datatype Area = Area(left: nat, top: nat, right: nat, bottom: nat)

  function Min(a: nat, b: nat): nat { if a < b then a else b }

  /** The part of an area inside a surface. */
  function Clip(area: Area, width: nat, height: nat): Area {
    area.(right := Min(area.right, width), bottom := Min(area.bottom, height))
  }

  predicate Holds(buffer: Bytes, stride: nat, width: nat, height: nat) {
    4 * width <= stride && stride * height <= |buffer|
  }

  function Offset(stride: nat, x: nat, y: nat): nat { y * stride + 4 * x }

  /** Byte k lies in an area of rows. */
  predicate Covered(area: Area, stride: nat, k: nat) {
    stride > 0 && area.top <= k / stride < area.bottom && 4 * area.left <= k % stride < 4 * area.right
  }

  /** The byte of another buffer in the same row and column as byte k. */
  function Across(stride: nat, otherStride: nat, k: nat): nat
    requires stride > 0
  {
    k / stride * otherStride + k % stride
  }

  /** Every covered byte of dst replaced by the byte of src in the same row and column. */
  ghost predicate IsBlit(src: Bytes, srcStride: nat, before: Bytes, after: Bytes, dstStride: nat, area: Area) {
    && |after| == |before|
    && forall k :: 0 <= k < |after| ==>
      if Covered(area, dstStride, k)
      then Across(dstStride, srcStride, k) < |src| && after[k] == src[Across(dstStride, srcStride, k)]
      else after[k] == before[k]
  }

  lemma Divided(n: nat, stride: nat)
    requires stride > 0
    ensures n == n / stride * stride + n % stride && n % stride < stride
  {}

  lemma RowsApart(stride: nat, y: nat, z: nat)
    ensures y < z ==> y * stride + stride <= z * stride
  {
    if y < z { assert (y + 1) * stride <= z * stride; }
  }

  /** Row and column determine an offset and each other. */
  lemma Unique(stride: nat, y1: nat, o1: nat, y2: nat, o2: nat)
    requires o1 < stride && o2 < stride && y1 * stride + o1 == y2 * stride + o2
    ensures y1 == y2 && o1 == o2
  {
    RowsApart(stride, y1, y2);
    RowsApart(stride, y2, y1);
  }

  lemma Position(stride: nat, y: nat, o: nat)
    requires o < stride
    ensures (y * stride + o) / stride == y && (y * stride + o) % stride == o
  {
    var n := y * stride + o;
    Divided(n, stride);
    Unique(stride, y, o, n / stride, n % stride);
  }

  /** The four bytes of a pixel. */
  function Pixel(buffer: Bytes, stride: nat, x: nat, y: nat): Bytes
    requires Offset(stride, x, y) + 4 <= |buffer|
  {
    buffer[Offset(stride, x, y)..Offset(stride, x, y) + 4]
  }

  lemma PixelFits(buffer: Bytes, stride: nat, width: nat, height: nat, x: nat, y: nat)
    requires Holds(buffer, stride, width, height) && x < width && y < height
    ensures Offset(stride, x, y) + 4 <= |buffer|
  {
    assert (y + 1) * stride <= height * stride;
    assert (y + 1) * stride == y * stride + stride;
  }

  /** In pixels: the clipped area shows the source, every other pixel is as before. */
  lemma PixelsExact(src: Bytes, srcStride: nat, srcWidth: nat, srcHeight: nat, before: Bytes, after: Bytes,
                    dstStride: nat, dstWidth: nat, dstHeight: nat, area: Area, x: nat, y: nat)
    requires Holds(src, srcStride, srcWidth, srcHeight) && Holds(before, dstStride, dstWidth, dstHeight)
    requires area.right <= srcWidth && area.bottom <= srcHeight && x < dstWidth && y < dstHeight
    requires IsBlit(src, srcStride, before, after, dstStride, Clip(area, dstWidth, dstHeight))
    ensures Offset(dstStride, x, y) + 4 <= |after|
    ensures var inside := area.left <= x < area.right && area.top <= y < area.bottom;
      && (inside ==> Offset(srcStride, x, y) + 4 <= |src|)
      && (inside ==> Pixel(after, dstStride, x, y) == Pixel(src, srcStride, x, y))
      && (!inside ==> Pixel(after, dstStride, x, y) == Pixel(before, dstStride, x, y))
  {
    PixelFits(before, dstStride, dstWidth, dstHeight, x, y);
    var inside := area.left <= x < area.right && area.top <= y < area.bottom;
    if inside { PixelFits(src, srcStride, srcWidth, srcHeight, x, y); }
    forall b | 0 <= b < 4
      ensures Pixel(after, dstStride, x, y)[b]
           == if inside then Pixel(src, srcStride, x, y)[b] else Pixel(before, dstStride, x, y)[b]
    {
      ByteExact(src, srcStride, before, after, dstStride, Clip(area, dstWidth, dstHeight), y, 4 * x + b);
      hide IsBlit, Holds;
    }
  }

  /** Bytes beside or below the pixels of the buffer are as before. */
  lemma PaddingKept(src: Bytes, srcStride: nat, before: Bytes, after: Bytes, dstStride: nat, dstWidth: nat, dstHeight: nat,
                    area: Area, y: nat, o: nat)
    requires IsBlit(src, srcStride, before, after, dstStride, Clip(area, dstWidth, dstHeight))
    requires o < dstStride && y * dstStride + o < |after| && (y >= dstHeight || o >= 4 * dstWidth)
    ensures after[y * dstStride + o] == before[y * dstStride + o]
  {
    ByteExact(src, srcStride, before, after, dstStride, Clip(area, dstWidth, dstHeight), y, o);
    hide IsBlit;
  }

  lemma ByteExact(src: Bytes, srcStride: nat, before: Bytes, after: Bytes, stride: nat, area: Area, y: nat, o: nat)
    requires IsBlit(src, srcStride, before, after, stride, area) && o < stride && y * stride + o < |after|
    ensures if area.top <= y < area.bottom && 4 * area.left <= o < 4 * area.right
      then y * srcStride + o < |src| && after[y * stride + o] == src[y * srcStride + o]
      else after[y * stride + o] == before[y * stride + o]
  {
    Position(stride, y, o);
    assert Covered(area, stride, y * stride + o) || !Covered(area, stride, y * stride + o);
  }

  lemma RowPart(stride: nat, y: nat, o: nat, row: nat, from: nat, to: nat)
    requires o < stride && from <= to <= stride
    ensures row * stride + from <= y * stride + o < row * stride + to <==> y == row && from <= o < to
  {
    RowsApart(stride, y, row);
    RowsApart(stride, row, y);
  }

  predicate InRow(stride: nat, row: nat, area: Area, k: nat) {
    row * stride + 4 * area.left <= k < row * stride + 4 * area.right
  }

  /** One more row of an area. */
  lemma RowCovered(area: Area, stride: nat, row: nat, k: nat)
    requires area.top <= row && stride > 0 && area.right * 4 <= stride && area.left <= area.right
    ensures Covered(area.(bottom := row + 1), stride, k) <==>
      Covered(area.(bottom := row), stride, k) || InRow(stride, row, area, k)
  {
    Divided(k, stride);
    RowPart(stride, k / stride, k % stride, row, 4 * area.left, 4 * area.right);
  }

  // ---- the copy and the repaint

  lemma AcrossRow(stride: nat, otherStride: nat, row: nat, area: Area, k: nat)
    requires InRow(stride, row, area, k) && 4 * area.right <= stride && stride > 0
    ensures Across(stride, otherStride, k) == row * otherStride + (k - row * stride)
  {
    Position(stride, row, k - row * stride);
  }

  /** What is copied when the first rows of an area are done, and one row more. */
  lemma RowCopied(src: Bytes, srcStride: nat, before: Bytes, mid: Bytes, after: Bytes, dstStride: nat, area: Area,
                  row: nat)
    requires area.top <= row && area.left <= area.right && 4 * area.right <= dstStride && 4 * area.right <= srcStride
    requires |mid| == |after| && row * srcStride + 4 * area.right <= |src|
    requires IsBlit(src, srcStride, before, mid, dstStride, area.(bottom := row))
    requires forall k :: 0 <= k < |after| ==>
      after[k] == if InRow(dstStride, row, area, k) then src[row * srcStride + (k - row * dstStride)] else mid[k]
    ensures IsBlit(src, srcStride, before, after, dstStride, area.(bottom := row + 1))
  {
    hide Covered, Across, InRow;
    forall k | 0 <= k < |after|
      ensures if Covered(area.(bottom := row + 1), dstStride, k)
              then dstStride > 0 && Across(dstStride, srcStride, k) < |src|
                   && after[k] == src[Across(dstStride, srcStride, k)]
              else after[k] == before[k]
    {
      CoveredStride(area.(bottom := row + 1), dstStride, k);
      CoveredStride(area.(bottom := row), dstStride, k);
      if dstStride > 0 {
        RowCovered(area, dstStride, row, k);
        if InRow(dstStride, row, area, k) {
          AcrossRow(dstStride, srcStride, row, area, k);
          InRowBound(dstStride, row, area, k);
        }
      } else {
        NoRow(dstStride, row, area, k);
      }
    }
  }

  lemma CoveredStride(area: Area, stride: nat, k: nat)
    ensures Covered(area, stride, k) ==> stride > 0
  {}

  lemma InRowBound(stride: nat, row: nat, area: Area, k: nat)
    requires InRow(stride, row, area, k)
    ensures row * stride <= k && k - row * stride < 4 * area.right
  {}

  lemma NoRow(stride: nat, row: nat, area: Area, k: nat)
    requires area.left <= area.right && 4 * area.right <= stride && stride == 0
    ensures !InRow(stride, row, area, k)
  {}

  lemma RowOffset(stride: nat, x: nat, y: nat, i: nat)
    ensures i * stride + Offset(stride, x, y) == Offset(stride, x, y + i)
  {}

  lemma RowFits(buffer: Bytes, stride: nat, width: nat, height: nat, row: nat)
    requires Holds(buffer, stride, width, height) && row < height
    ensures row * stride + 4 * width <= |buffer|
  {
    RowsApart(stride, row, height);
  }

  lemma NoRows(src: Bytes, srcStride: nat, dst: Bytes, dstStride: nat, area: Area)
    ensures IsBlit(src, srcStride, dst, dst, dstStride, area.(bottom := area.top))
  {}

  /** memcpy. */
  method CopyBytes(src: array<byte>, from: nat, dst: array<byte>, to: nat, count: nat)
    requires src != dst && from + count <= src.Length && to + count <= dst.Length
    modifies dst
    ensures forall k :: 0 <= k < dst.Length ==>
      dst[k] == if to <= k < to + count then src[from + (k - to)] else old(dst[k])
  {
    for j := 0 to count
      invariant forall k :: 0 <= k < dst.Length ==>
        dst[k] == if to <= k < to + j then src[from + (k - to)] else old(dst[k])
    {
      dst[to + j] := src[from + j];
    }
  }

  /** The unscaled branch of wlf_copy_image. */
  method CopyImage(src: array<byte>, srcStride: nat, dst: array<byte>, dstStride: nat, dstWidth: nat, dstHeight: nat,
                   area: Area, ghost srcWidth: nat, ghost srcHeight: nat)
    requires src != dst
    requires Holds(src[..], srcStride, srcWidth, srcHeight) && Holds(dst[..], dstStride, dstWidth, dstHeight)
    requires area.left <= area.right <= srcWidth && area.top <= area.bottom <= srcHeight
    requires area.left <= dstWidth && area.top <= dstHeight
    modifies dst
    ensures IsBlit(src[..], srcStride, old(dst[..]), dst[..], dstStride, Clip(area, dstWidth, dstHeight))
  {
    hide IsBlit;
    var baseSrc, baseDst := Offset(srcStride, area.left, area.top), Offset(dstStride, area.left, area.top);
    var width := Min(area.right - area.left, dstWidth - area.left);
    var height := Min(area.bottom - area.top, dstHeight - area.top);
    ghost var clip := Clip(area, dstWidth, dstHeight);
    NoRows(src[..], srcStride, dst[..], dstStride, clip);
    for i := 0 to height
      invariant IsBlit(src[..], srcStride, old(dst[..]), dst[..], dstStride, clip.(bottom := area.top + i))
    {
      ghost var mid := dst[..];
      var srcOffset, dstOffset := i * srcStride + baseSrc, i * dstStride + baseDst;
      RowOffset(srcStride, area.left, area.top, i);
      RowOffset(dstStride, area.left, area.top, i);
      RowFits(src[..], srcStride, srcWidth, srcHeight, area.top + i);
      RowFits(dst[..], dstStride, dstWidth, dstHeight, area.top + i);
      CopyBytes(src, srcOffset, dst, dstOffset, 4 * width);
      RowCopied(src[..], srcStride, old(dst[..]), mid, dst[..], dstStride, clip, area.top + i);
    }
    assert clip.(bottom := area.top + height) == clip;
  }

  /** The window's drawing buffer, with what was marked for repaint and how often it was submitted. */
  class Window {
    const buffer: array<byte>
    const stride: nat
    const width: nat
    const height: nat
    ghost var damage: seq<Area>
    ghost var submitted: nat

    predicate Valid()
      reads buffer
    {
      Holds(buffer[..], stride, width, height)
    }

    constructor (buffer: array<byte>, stride: nat, width: nat, height: nat)
      ensures this.buffer == buffer && this.stride == stride && this.width == width && this.height == height
      ensures damage == [] && submitted == 0
    {
      this.buffer, this.stride, this.width, this.height := buffer, stride, width, height;
      damage, submitted := [], 0;
    }

    /**
     wl_update_buffer without scaling, for a session framebuffer. Coordinates and their sums fit 16 bits, and the
     area lies in the session. "drawable" says whether the window has a drawing buffer and its geometry, "session"
     whether there is a framebuffer; "damageOk" and "submitOk" are the results of the compositor calls.
    */
    method UpdateBuffer(source: array<byte>, srcStride: nat, ghost srcWidth: nat, ghost srcHeight: nat,
                        x: int, y: int, w: int, h: int, drawable: bool, session: bool, damageOk: bool, submitOk: bool)
      returns (ok: bool)
      requires Valid() && source != buffer && (session ==> Holds(source[..], srcStride, srcWidth, srcHeight))
      requires x >= 0 && y >= 0 && w >= 0 && h >= 0 && session ==> x + w <= srcWidth && y + h <= srcHeight
      modifies this, buffer
      ensures Valid()
      ensures x < 0 || y < 0 || w < 0 || h < 0 || !drawable || !session ==> !ok
      ensures x < 0 || y < 0 || w < 0 || h < 0 || !drawable || !session || x > width || y > height ==>
        buffer[..] == old(buffer[..]) && damage == old(damage) && submitted == old(submitted)
      ensures x >= 0 && y >= 0 && w >= 0 && h >= 0 && drawable && session && (x > width || y > height) ==> ok
      ensures 0 <= x <= width && 0 <= y <= height && w >= 0 && h >= 0 && drawable && session ==>
        && IsBlit(source[..], srcStride, old(buffer[..]), buffer[..], stride, Clip(Area(x, y, x + w, y + h), width, height))
        && damage == old(damage) + (if damageOk then [Area(x, y, x + w, y + h)] else [])
        && submitted == old(submitted) + (if damageOk && submitOk then 1 else 0)
        && ok == (damageOk && submitOk)
    {
      if x < 0 || y < 0 || w < 0 || h < 0 {
        return false;
      }
      if !drawable {
        return false;
      }
      if !session {
        return false;
      }
      if x > width || y > height {
        return true;
      }
      CopyImage(source, srcStride, buffer, stride, width, height, Area(x, y, x + w, y + h), srcWidth, srcHeight);
      if !damageOk {
        return false;
      }
      damage := damage + [Area(x, y, x + w, y + h)];
      if !submitOk {
        return false;
      }
      submitted := submitted + 1;
      return true;
    }
  }
}
