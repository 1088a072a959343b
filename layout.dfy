/**
 * Pixel arrays as numpy holds them in lmdbutil.py, and the axis permutations
 * and reshapes the module applies to them.  Records keep their pixels
 * channel-major, (channels, height, width); image files and the image library
 * work on (height, width) or (height, width, channels).
 */
module Layout {

  /** A rank-2 array of shape (d0, d1); `cells[i][j]` is element `[i, j]`. */
  datatype Array2 = Array2(d0: nat, d1: nat, cells: seq<seq<int>>)
  {
    predicate Valid() {
      |cells| == d0 && forall i :: 0 <= i < d0 ==> |cells[i]| == d1
    }
  }

  /** A rank-3 array of shape (d0, d1, d2); `cells[i][j][k]` is element `[i, j, k]`. */
  datatype Array3 = Array3(d0: nat, d1: nat, d2: nat, cells: seq<seq<seq<int>>>)
  {
    predicate Valid() {
      && |cells| == d0
      && (forall i :: 0 <= i < d0 ==> |cells[i]| == d1)
      && (forall i, j :: 0 <= i < d0 && 0 <= j < d1 ==> |cells[i][j]| == d2)
    }

    function Shape(): (nat, nat, nat) {
      (d0, d1, d2)
    }
  }

  /** `x.transpose((1,2,0))`: (c,h,w) -> (h,w,c); element [i,j,k] moves to [j,k,i]. */
  function Transpose120(x: Array3): (t: Array3)
    requires x.Valid()
    ensures t.Valid() && t.Shape() == (x.d1, x.d2, x.d0)
    ensures forall i, j, k :: 0 <= i < x.d0 && 0 <= j < x.d1 && 0 <= k < x.d2 ==>
      t.cells[j][k][i] == x.cells[i][j][k]
  {
    Array3(x.d1, x.d2, x.d0,
      seq(x.d1, j requires 0 <= j < x.d1 =>
        seq(x.d2, k requires 0 <= k < x.d2 =>
          seq(x.d0, i requires 0 <= i < x.d0 => x.cells[i][j][k]))))
  }

  /** `x.transpose((2,0,1))`: (h,w,c) -> (c,h,w); element [i,j,k] moves to [k,i,j]. */
  function Transpose201(x: Array3): (t: Array3)
    requires x.Valid()
    ensures t.Valid() && t.Shape() == (x.d2, x.d0, x.d1)
    ensures forall i, j, k :: 0 <= i < x.d0 && 0 <= j < x.d1 && 0 <= k < x.d2 ==>
      t.cells[k][i][j] == x.cells[i][j][k]
  {
    Array3(x.d2, x.d0, x.d1,
      seq(x.d2, k requires 0 <= k < x.d2 =>
        seq(x.d0, i requires 0 <= i < x.d0 =>
          seq(x.d1, j requires 0 <= j < x.d1 => x.cells[i][j][k]))))
  }

  /** `a.reshape(h, w)` of an (h,w,1) array: drops the singleton channel axis. */
  function Squeeze(x: Array3): (s: Array2)
    requires x.Valid() && x.d2 == 1
    ensures s.Valid() && s.d0 == x.d0 && s.d1 == x.d1
    ensures forall i, j :: 0 <= i < x.d0 && 0 <= j < x.d1 ==> s.cells[i][j] == x.cells[i][j][0]
  {
    Array2(x.d0, x.d1,
      seq(x.d0, i requires 0 <= i < x.d0 =>
        seq(x.d1, j requires 0 <= j < x.d1 => x.cells[i][j][0])))
  }

  /** `a.reshape(h, w, 1)` of an (h,w) array: adds a trailing singleton channel axis. */
  function Unsqueeze(a: Array2): (x: Array3)
    requires a.Valid()
    ensures x.Valid() && x.Shape() == (a.d0, a.d1, 1)
    ensures forall i, j :: 0 <= i < a.d0 && 0 <= j < a.d1 ==> x.cells[i][j] == [a.cells[i][j]]
  {
    Array3(a.d0, a.d1, 1,
      seq(a.d0, i requires 0 <= i < a.d0 =>
        seq(a.d1, j requires 0 <= j < a.d1 => [a.cells[i][j]])))
  }

  /** `a.reshape(1, h, w)` of an (h,w) array: adds a leading singleton channel axis. */
  function AddChannelAxis(a: Array2): (x: Array3)
    requires a.Valid()
    ensures x.Valid() && x.Shape() == (1, a.d0, a.d1)
    ensures x.cells[0] == a.cells
  {
    Array3(1, a.d0, a.d1, [a.cells])
  }

  /** `x[0]` of a (1,h,w) array: its only channel plane, shape (h,w). */
  function Plane0(x: Array3): (p: Array2)
    requires x.Valid() && x.d0 >= 1
    ensures p.Valid() && p.d0 == x.d1 && p.d1 == x.d2
    ensures p.cells == x.cells[0]
  {
    Array2(x.d1, x.d2, x.cells[0])
  }

  /**
   * The image library's `resize((width, height))` after `Image.fromarray` and
   * before `np.asarray`, for a grayscale (h,w) array and for a colour
   * (h,w,c) array.  The resampling itself is not modelled.
   */
  datatype Resampler = Resampler(gray: (Array2, nat, nat) -> Array2, color: (Array3, nat, nat) -> Array3)

  /** The only promise kept about the resampler: the output has shape (height, width[, c]). */
  ghost predicate Sized(rs: Resampler) {
    && (forall a: Array2, width: nat, height: nat {:trigger rs.gray(a, width, height)} :: a.Valid() ==>
          rs.gray(a, width, height).Valid() &&
          rs.gray(a, width, height).d0 == height && rs.gray(a, width, height).d1 == width)
    && (forall a: Array3, width: nat, height: nat {:trigger rs.color(a, width, height)} :: a.Valid() ==>
          rs.color(a, width, height).Valid() &&
          rs.color(a, width, height).Shape() == (height, width, a.d2))
  }

  /** A resampler that returns its input when asked for the size it already has. */
  ghost predicate KeepsOwnSize(rs: Resampler) {
    && (forall a: Array2 {:trigger rs.gray(a, a.d1, a.d0)} :: a.Valid() ==> rs.gray(a, a.d1, a.d0) == a)
    && (forall a: Array3 {:trigger rs.color(a, a.d1, a.d0)} :: a.Valid() ==> rs.color(a, a.d1, a.d0) == a)
  }

  // ---------------------------------------------------------------------
  // Round-trip laws of the layout conversions

  /** (c,h,w) -> (h,w,c) -> (c,h,w) gives back the array element for element. */
  lemma {:induction false} ChannelLastRoundTrip(x: Array3)
    requires x.Valid()
    ensures Transpose201(Transpose120(x)) == x
  {
    var r := Transpose201(Transpose120(x));
    forall i | 0 <= i < x.d0
      ensures r.cells[i] == x.cells[i]
    {
      forall j | 0 <= j < x.d1
        ensures r.cells[i][j] == x.cells[i][j]
      {
      }
    }
  }

  /** (h,w,c) -> (c,h,w) -> (h,w,c) gives back the array element for element. */
  lemma {:induction false} ChannelFirstRoundTrip(y: Array3)
    requires y.Valid()
    ensures Transpose120(Transpose201(y)) == y
  {
    var r := Transpose120(Transpose201(y));
    forall i | 0 <= i < y.d0
      ensures r.cells[i] == y.cells[i]
    {
      forall j | 0 <= j < y.d1
        ensures r.cells[i][j] == y.cells[i][j]
      {
      }
    }
  }

  /** Dropping and re-adding the singleton channel axis are inverse. */
  lemma {:induction false} SqueezeRoundTrip(x: Array3, a: Array2)
    requires x.Valid() && x.d2 == 1 && a.Valid()
    ensures Unsqueeze(Squeeze(x)) == x
    ensures Squeeze(Unsqueeze(a)) == a
  {
    var u := Unsqueeze(Squeeze(x));
    forall i | 0 <= i < x.d0
      ensures u.cells[i] == x.cells[i]
    {
      forall j | 0 <= j < x.d1
        ensures u.cells[i][j] == x.cells[i][j]
      {
      }
    }
    var s := Squeeze(Unsqueeze(a));
    forall i | 0 <= i < a.d0
      ensures s.cells[i] == a.cells[i]
    {
    }
  }

  /** The grayscale path (1,h,w) -> (h,w,1) -> (h,w) -> (h,w,1) -> (1,h,w) keeps every value. */
  lemma {:induction false} GrayRoundTrip(x: Array3)
    requires x.Valid() && x.d0 == 1
    ensures Transpose201(Unsqueeze(Squeeze(Transpose120(x)))) == x
  {
    var t := Transpose120(x);
    SqueezeRoundTrip(t, Squeeze(t));
    ChannelLastRoundTrip(x);
  }

  /** Re-adding the channel axis and transposing back (h,w) -> (h,w,1) -> (1,h,w) is `reshape(1,h,w)`. */
  lemma {:induction false} GrayChannelFirst(a: Array2)
    requires a.Valid()
    ensures Transpose201(Unsqueeze(a)).Shape() == (1, a.d0, a.d1)
    ensures Transpose201(Unsqueeze(a)) == AddChannelAxis(a)
  {
    var r := Transpose201(Unsqueeze(a));
    forall i | 0 <= i < a.d0
      ensures r.cells[0][i] == a.cells[i]
    {
    }
    assert r.cells[0] == a.cells;
    assert r.cells == [a.cells];
  }

  /** For a (1,h,w) array, the squeeze of its channel-last form is its single plane `x[0]`. */
  lemma {:induction false} GrayPlaneIsSqueeze(x: Array3)
    requires x.Valid() && x.d0 == 1
    ensures Squeeze(Transpose120(x)) == Plane0(x)
  {
    var s := Squeeze(Transpose120(x));
    forall i | 0 <= i < x.d1
      ensures s.cells[i] == x.cells[0][i]
    {
    }
  }
}
