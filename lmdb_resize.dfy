/**
 * `resize_lmdb(src_db, dest_db, width, height, length)`: copy a store entry by
 * entry in cursor order into a new store, resizing every image to
 * (height, width) and keeping its key and label, up to an item limit.
 */
module LmdbResize {
  import opened Layout
  import opened Records

  /** What the destination store ends up holding. */
  datatype ResizeOutcome =
    /** The write transaction was committed with these entries, in put order. */
    | Committed(dest: Store)
    /**
     * `img_array` was read before anything assigned it: the first entry's
     * channel count is neither 1 nor 3.  The exception leaves the write
     * transaction uncommitted, so the new store stays empty.
     */
    | UnboundImageArray
    /**
     * `length < 0`: the reservation `100000000*length` is negative, so opening
     * the destination environment raises before any entry is read.
     */
    | NegativeMapSize

  /**
   * Lines 104-116 for a grayscale or RGB datum: to channel-last layout, gray
   * squeezed to (h,w), resized by the image library, gray unsqueezed, back to
   * channel-major layout.
   */
  function Resized(d: Datum, width: nat, height: nat, rs: Resampler): (r: Array3)
    requires d.Valid() && d.Supported() && Sized(rs)
    ensures r.Valid() && r.Shape() == (d.Channels(), height, width)
  {
    var hwc := Transpose120(d.pixels);
    if d.Channels() == ChannelsGray then
      Transpose201(Unsqueeze(rs.gray(Squeeze(hwc), width, height)))
    else
      Transpose201(rs.color(hwc, width, height))
  }

  /**
   * The value `img_array` holds after line 116 for datum `d`, given the value
   * `prev` it held after the previous entry (None: not yet assigned).  With
   * no branch for other channel counts, such a datum reuses `prev` and
   * transposes it once more; None means line 116 raised.
   */
  function ResizeStep(prev: Option<Array3>, d: Datum, width: nat, height: nat, rs: Resampler): (r: Option<Array3>)
    requires d.Valid() && Sized(rs) && (prev.Some? ==> prev.value.Valid())
    ensures r.Some? ==> r.value.Valid()
    ensures r.None? <==> prev.None? && !d.Supported()
  {
    if d.Supported() then Some(Resized(d, width, height, rs))
    else if prev.None? then None
    else Some(Transpose201(prev.value))
  }

  /** The value of `img_array` after the loop has processed the first `n` entries. */
  function ImageAfter(src: Store, n: nat, width: nat, height: nat, rs: Resampler): (r: Option<Array3>)
    requires ValidStore(src) && Sized(rs) && n <= |src|
    ensures r.Some? ==> r.value.Valid()
    ensures 1 <= n && src[0].datum.Supported() ==> r.Some?
    decreases n
  {
    if n == 0 then None
    else ResizeStep(ImageAfter(src, n - 1, width, height, rs), src[n - 1].datum, width, height, rs)
  }

  /** The entries the loop has put after processing the first `n` entries without raising. */
  function Written(src: Store, n: nat, width: nat, height: nat, rs: Resampler): (w: Store)
    requires ValidStore(src) && Sized(rs) && n <= |src|
    requires n >= 1 ==> src[0].datum.Supported()
    ensures |w| == n
    ensures forall j :: 0 <= j < n ==>
      && w[j].key == src[j].key
      && w[j].datum.classId == src[j].datum.classId
      && ImageAfter(src, j + 1, width, height, rs) == Some(w[j].datum.pixels)
    decreases n
  {
    if n == 0 then []
    else
      Written(src, n - 1, width, height, rs)
        + [Record(src[n - 1].key, Datum(ImageAfter(src, n, width, height, rs).value, src[n - 1].datum.classId))]
  }

  /**
   * Lines 99-116 for one entry: decode, branch on the channel count, resize,
   * and transpose `img_array` back to channel-major layout.  `imgArray` is
   * the variable's value on entry; None on exit means line 116 raised.
   */
  method ResizeEntry(imgArray: Option<Array3>, d: Datum, width: nat, height: nat, rs: Resampler)
    returns (next: Option<Array3>)
    requires d.Valid() && Sized(rs) && (imgArray.Some? ==> imgArray.value.Valid())
    ensures next == ResizeStep(imgArray, d, width, height, rs)
  {
    var x := d.pixels;
    next := imgArray;
    if x.d0 == ChannelsGray {
      var plane := Squeeze(Transpose120(x));
      var resized := rs.gray(plane, width, height);
      next := Some(Unsqueeze(resized));
    } else if x.d0 == ChannelsRgb {
      next := Some(rs.color(Transpose120(x), width, height));
    }
    if next.Some? {
      next := Some(Transpose201(next.value));
    }
  }

  /**
   * `resize_lmdb` as written.  Every entry put keeps its source key and label;
   * its pixels are `img_array` after line 116.
   */
  method ResizeLmdb(src: Store, width: nat, height: nat, length: int, rs: Resampler) returns (outcome: ResizeOutcome)
    requires ValidStore(src) && Sized(rs)
    ensures outcome.NegativeMapSize? <==> length < 0
    ensures outcome.UnboundImageArray? <==> length >= 0 && src != [] && !src[0].datum.Supported()
    ensures outcome.Committed? ==>
      && |outcome.dest| == Min(|src|, Limit(length))
      && outcome.dest == Written(src, |outcome.dest|, width, height, rs)
      && ValidStore(outcome.dest)
  {
    if length < 0 {
      outcome := NegativeMapSize;
      return;
    }
    var staged: Store := [];
    var count := 0;
    var imgArray: Option<Array3> := None;
    var i := 0;
    while i < |src|
      invariant i == count <= |src|
      invariant count < Limit(length)
      invariant i >= 1 ==> src[0].datum.Supported()
      invariant imgArray == ImageAfter(src, i, width, height, rs)
      invariant staged == Written(src, i, width, height, rs)
    {
      var y := src[i].datum.classId;
      imgArray := ResizeEntry(imgArray, src[i].datum, width, height, rs);
      if imgArray.None? {
        outcome := UnboundImageArray;
        return;
      }
      staged := staged + [Record(src[i].key, Datum(imgArray.value, y))];
      count := count + 1;
      i := i + 1;
      if count >= length {
        break;
      }
    }
    outcome := Committed(staged);
  }

  /**
   * `resize_lmdb` with the missing branch added as `lmdb_to_images` has it:
   * stop at the first entry whose channel count is neither 1 nor 3, and
   * commit what was put before it.
   */
  method ResizeLmdbChecked(src: Store, width: nat, height: nat, length: int, rs: Resampler) returns (dest: Store)
    requires ValidStore(src) && Sized(rs)
    ensures |dest| == Min(LeadingSupported(src), Limit(length))
    ensures ValidStore(dest)
    ensures forall i :: 0 <= i < |dest| ==>
      && src[i].datum.Supported()
      && dest[i] == Record(src[i].key, Datum(Resized(src[i].datum, width, height, rs), src[i].datum.classId))
  {
    dest := [];
    var count := 0;
    var i := 0;
    while i < |src|
      invariant i == count == |dest| <= LeadingSupported(src)
      invariant count < Limit(length)
      invariant forall j :: 0 <= j < i ==>
        dest[j] == Record(src[j].key, Datum(Resized(src[j].datum, width, height, rs), src[j].datum.classId))
    {
      var d := src[i].datum;
      if !d.Supported() {
        break;
      }
      dest := dest + [Record(src[i].key, Datum(Resized(d, width, height, rs), d.classId))];
      count := count + 1;
      i := i + 1;
      if count >= length {
        break;
      }
    }
  }

  // ---------------------------------------------------------------------

  /** A grayscale or RGB entry is written as its own resized image, whatever came before it. */
  lemma ResizedWhenSupported(src: Store, i: nat, width: nat, height: nat, rs: Resampler)
    requires ValidStore(src) && Sized(rs) && i < |src| && src[i].datum.Supported()
    ensures ImageAfter(src, i + 1, width, height, rs) == Some(Resized(src[i].datum, width, height, rs))
    ensures Resized(src[i].datum, width, height, rs).Shape() == (src[i].datum.Channels(), height, width)
  {
  }

  /** On a store of grayscale and RGB entries the checked copy writes what `resize_lmdb` writes. */
  lemma CheckedAgreesWhenSupported(src: Store, width: nat, height: nat, rs: Resampler)
    requires ValidStore(src) && Sized(rs)
    requires forall i :: 0 <= i < |src| ==> src[i].datum.Supported()
    ensures LeadingSupported(src) == |src|
    ensures forall i :: 0 <= i < |src| ==>
      ImageAfter(src, i + 1, width, height, rs) == Some(Resized(src[i].datum, width, height, rs))
  {
  }

  /**
   * An unsupported entry after the first is written under its own key and
   * label with the previous entry's (channels, height, width) pixels
   * transposed to (width, channels, height).
   */
  lemma ResizeReusesPreviousArray(src: Store, i: nat, width: nat, height: nat, rs: Resampler)
    requires ValidStore(src) && Sized(rs) && 1 <= i < |src|
    requires src[0].datum.Supported() && !src[i].datum.Supported()
    ensures ImageAfter(src, i, width, height, rs).Some?
    ensures ImageAfter(src, i + 1, width, height, rs)
         == Some(Transpose201(ImageAfter(src, i, width, height, rs).value))
  {
  }

  /**
   * A gray entry followed by a 2-channel entry, resized to width 5 and
   * height 1: the second entry is written as a 5-channel image made of the
   * first entry's pixels.
   */
  lemma ResizeMisfilesTwoChannelEntry(p: int, q: int, rs: Resampler)
    requires Sized(rs)
    ensures var gray := Record("00000000", Datum(Array3(1, 1, 1, [[[p]]]), 0));
            var two := Record("00000001", Datum(Array3(2, 1, 1, [[[q]], [[q]]]), 1));
            var src := [gray, two];
            && ValidStore(src)
            && ImageAfter(src, 2, 5, 1, rs) == Some(Transpose201(Resized(gray.datum, 5, 1, rs)))
            && ImageAfter(src, 2, 5, 1, rs).value.Shape() == (5, 1, 1)
            && ImageAfter(src, 2, 5, 1, rs).value.Shape() != two.datum.pixels.Shape()
  {
    var gray := Record("00000000", Datum(Array3(1, 1, 1, [[[p]]]), 0));
    var two := Record("00000001", Datum(Array3(2, 1, 1, [[[q]], [[q]]]), 1));
    var src := [gray, two];
    assert ValidStore(src);
    ResizedWhenSupported(src, 0, 5, 1, rs);
    ResizeReusesPreviousArray(src, 1, 5, 1, rs);
  }

  /**
   * Asked for the size an image already has, a resampler that returns its
   * input makes the copy reproduce every entry's pixels exactly.
   */
  lemma ResizeToOwnSizeIsIdentity(d: Datum, rs: Resampler)
    requires d.Valid() && d.Supported() && Sized(rs) && KeepsOwnSize(rs)
    ensures Resized(d, d.pixels.d2, d.pixels.d1, rs) == d.pixels
  {
    var x := d.pixels;
    var hwc := Transpose120(x);
    ChannelLastRoundTrip(x);
    if d.Channels() == ChannelsGray {
      var plane := Squeeze(hwc);
      assert rs.gray(plane, plane.d1, plane.d0) == plane;
      SqueezeRoundTrip(hwc, plane);
    } else {
      assert rs.color(hwc, hwc.d1, hwc.d0) == hwc;
    }
  }
}
