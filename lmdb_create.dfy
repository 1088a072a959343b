/**
 * `create_lmdb_from_array` and `create_lmdb_from_filelist`: build a new store
 * from a list of channel-major arrays and a list of labels, giving item `idx`
 * the key `'{:08}'.format(idx)`; the file-list variant first turns decoded
 * image files into channel-major arrays and drops the ones it cannot use.
 */
module LmdbCreate {
  import opened Layout
  import opened Keys
  import opened Records

  datatype BuildError =
    /** `imgs[0]` (the size reservation's operand) on an empty list raises. */
    | EmptyImageList
    /** `labels[idx]` raises: there are fewer labels than images. */
    | LabelIndexOutOfRange(index: nat)

  /** What the new store ends up holding; after an error nothing is committed. */
  datatype BuildOutcome = Committed(store: Store) | Failed(error: BuildError)

  /** The outcome of `create_lmdb_from_array(dest_db, imgs, labels)`. */
  function ArrayStore(imgs: seq<Array3>, labels: seq<int>): BuildOutcome {
    if |imgs| == 0 then Failed(EmptyImageList)
    else if |labels| < |imgs| then Failed(LabelIndexOutOfRange(|labels|))
    else Committed(seq(|imgs|, idx requires 0 <= idx < |imgs| =>
                     Record(FormatIndex(idx), Datum(imgs[idx], labels[idx]))))
  }

  /**
   * `create_lmdb_from_array`: the outcome, and the final `count` (the number
   * of entries put before the commit or the error).
   */
  method CreateLmdbFromArray(imgs: seq<Array3>, labels: seq<int>) returns (outcome: BuildOutcome, count: nat)
    ensures outcome == ArrayStore(imgs, labels)
    ensures outcome.Committed? ==> count == |imgs| == |outcome.store|
    ensures outcome.Failed? && outcome.error.LabelIndexOutOfRange? ==> count == outcome.error.index
  {
    count := 0;
    if |imgs| == 0 {
      outcome := Failed(EmptyImageList);
      return;
    }
    var staged: Store := [];
    for idx := 0 to |imgs|
      invariant count == idx == |staged|
      invariant idx <= |labels|
      invariant forall j :: 0 <= j < idx ==> staged[j] == Record(FormatIndex(j), Datum(imgs[j], labels[j]))
    {
      var strId := FormatIndex(idx);
      if idx >= |labels| {
        outcome := Failed(LabelIndexOutOfRange(idx));
        return;
      }
      var clsId := labels[idx];
      staged := staged + [Record(strId, Datum(imgs[idx], clsId))];
      count := count + 1;
    }
    outcome := Committed(staged);
  }

  /**
   * A committed store of at most 10^8 items: item `idx` has an eight-digit
   * key that decodes to `idx` and the label `labels[idx]`, and keys strictly
   * increase in the store's byte order, so its cursor yields the list order.
   */
  lemma ArrayStoreKeys(imgs: seq<Array3>, labels: seq<int>)
    requires |imgs| <= 100000000
    requires ArrayStore(imgs, labels).Committed?
    ensures var s := ArrayStore(imgs, labels).store;
      && |s| == |imgs|
      && (forall idx :: 0 <= idx < |s| ==>
            |s[idx].key| == 8 && DecimalValue(s[idx].key) == idx &&
            s[idx].datum == Datum(imgs[idx], labels[idx]))
      && (forall i, j :: 0 <= i < j < |s| ==> LexLess(s[i].key, s[j].key))
  {
    var s := ArrayStore(imgs, labels).store;
    forall idx | 0 <= idx < |s|
      ensures |s[idx].key| == 8 && DecimalValue(s[idx].key) == idx
    {
      KeyLength(idx);
      FormatIndexValue(idx);
    }
    forall i, j | 0 <= i < j < |s|
      ensures LexLess(s[i].key, s[j].key)
    {
      KeysIncreasing(i, j);
    }
  }

  // ---------------------------------------------------------------------
  // create_lmdb_from_filelist

  /** `np.asarray(Image.open(name))`: a (h,w) array, or an (h,w,c) array. */
  datatype Decoded = Rank2(plane: Array2) | Rank3(image: Array3)
  {
    predicate Valid() {
      match this
      case Rank2(p) => p.Valid()
      case Rank3(a) => a.Valid()
    }
  }

  /** Python's `&` on non-negative integers, bit by bit. */
  function BitAnd(a: nat, b: nat): (r: nat)
    ensures r <= a && r <= b
  {
    if a == 0 || b == 0 then 0
    else 2 * BitAnd(a / 2, b / 2) + (if a % 2 == 1 && b % 2 == 1 then 1 else 0)
  }

  /**
   * Line 170 for a rank-3 image: `len(img.shape) == 3 & img.shape[2] == CH_RGB`
   * parses as `len(img.shape) == (3 & img.shape[2]) == CH_RGB`.
   */
  predicate PassesLine170(a: Array3): (r: bool)
    ensures r ==> a.d2 >= ChannelsRgb
  {
    var masked := BitAnd(3, a.d2);
    3 == masked && masked == ChannelsRgb
  }

  /** Lines 167-173 for one decoded image: the (c,h,w) array kept, or None when it is skipped. */
  function Admit(img: Decoded): (r: Option<Array3>)
    requires img.Valid()
    ensures r.Some? ==> r.value.Valid()
  {
    match img
    case Rank2(p) => Some(AddChannelAxis(p))
    case Rank3(a) => if PassesLine170(a) then Some(Transpose201(a)) else None
  }

  /** The arrays the loop of lines 166-174 collects, in input order. */
  function Survivors(images: seq<Decoded>): (kept: seq<Array3>)
    requires forall i :: 0 <= i < |images| ==> images[i].Valid()
    ensures |kept| <= |images|
  {
    if images == [] then []
    else
      var last := images[|images| - 1];
      Survivors(images[..|images| - 1]) + (if Admit(last).Some? then [Admit(last).value] else [])
  }

  /**
   * `create_lmdb_from_filelist(db_name, images, labels)`, with the image
   * files already decoded: the arrays collected and the outcome of handing
   * them, with the unfiltered labels, to `create_lmdb_from_array`.
   */
  method CreateLmdbFromFilelist(images: seq<Decoded>, labels: seq<int>) returns (kept: seq<Array3>, outcome: BuildOutcome)
    requires forall i :: 0 <= i < |images| ==> images[i].Valid()
    ensures kept == Survivors(images)
    ensures outcome == ArrayStore(kept, labels)
  {
    kept := [];
    for idx := 0 to |images|
      invariant kept == Survivors(images[..idx])
    {
      assert images[..idx + 1][..idx] == images[..idx];
      var img := images[idx];
      match img {
        case Rank2(p) =>
          kept := kept + [AddChannelAxis(p)];
        case Rank3(a) =>
          if PassesLine170(a) {
            kept := kept + [Transpose201(a)];
          }
      }
    }
    assert images[..|images|] == images;
    var count;
    outcome, count := CreateLmdbFromArray(kept, labels);
  }

  // ---------------------------------------------------------------------

  /** Python's `3 & c` is `c % 4`. */
  lemma BitAndThree(c: nat)
    ensures BitAnd(3, c) == c % 4
  {
    if c > 0 {
      assert BitAnd(3, c) == 2 * BitAnd(1, c / 2) + c % 2;
      if c / 2 > 0 {
        assert BitAnd(1, c / 2) == 2 * BitAnd(0, c / 4) + (c / 2) % 2;
      }
    }
  }

  /** A rank-3 image passes line 170 exactly when its channel count is 3 modulo 4. */
  lemma Line170Admits(a: Array3)
    ensures PassesLine170(a) <==> a.d2 % 4 == 3
  {
    BitAndThree(a.d2);
  }

  /**
   * How each decoded image is handled: (h,w) becomes (1,h,w); (h,w,c) is kept,
   * as (c,h,w), exactly when `c % 4 == 3`; all else is dropped.
   */
  lemma AdmitShapes(img: Decoded)
    requires img.Valid()
    ensures img.Rank2? ==>
      Admit(img) == Some(AddChannelAxis(img.plane)) &&
      Admit(img).value.Shape() == (1, img.plane.d0, img.plane.d1)
    ensures img.Rank3? ==> (Admit(img).Some? <==> img.image.d2 % 4 == 3)
    ensures img.Rank3? && Admit(img).Some? ==>
      Admit(img).value.Shape() == (img.image.d2, img.image.d0, img.image.d1) &&
      Transpose120(Admit(img).value) == img.image
  {
    if img.Rank3? {
      Line170Admits(img.image);
      ChannelFirstRoundTrip(img.image);
    }
  }

  /** The filter keeps input order: the survivors of a concatenation are the concatenated survivors. */
  lemma {:induction false} SurvivorsConcat(a: seq<Decoded>, b: seq<Decoded>)
    requires forall i :: 0 <= i < |a| ==> a[i].Valid()
    requires forall i :: 0 <= i < |b| ==> b[i].Valid()
    ensures forall i :: 0 <= i < |a + b| ==> (a + b)[i].Valid()
    ensures Survivors(a + b) == Survivors(a) + Survivors(b)
  {
    if b == [] {
      assert a + b == a;
    } else {
      var b' := b[..|b| - 1];
      assert (a + b)[..|a + b| - 1] == a + b';
      assert (a + b)[|a + b| - 1] == b[|b| - 1];
      SurvivorsConcat(a, b');
    }
  }

  /** A single image survives as its admitted array, or not at all. */
  lemma SurvivorsSingle(img: Decoded)
    requires img.Valid()
    ensures Survivors([img]) == if Admit(img).Some? then [Admit(img).value] else []
  {
    assert [img][..0] == [];
  }

  /**
   * The labels are not filtered with the images: with an RGBA image dropped
   * in front of a grayscale one, the grayscale image is stored under the
   * dropped image's label.
   */
  lemma FilelistLabelMisaligned(rgba: Array3, gray: Array2)
    requires rgba.Valid() && rgba.d2 == 4 && gray.Valid()
    ensures Survivors([Rank3(rgba), Rank2(gray)]) == [AddChannelAxis(gray)]
    ensures ArrayStore(Survivors([Rank3(rgba), Rank2(gray)]), [7, 9])
         == Committed([Record(FormatIndex(0), Datum(AddChannelAxis(gray), 7))])
  {
    BitAndThree(4);
    SurvivorsConcat([Rank3(rgba)], [Rank2(gray)]);
    assert [Rank3(rgba)] + [Rank2(gray)] == [Rank3(rgba), Rank2(gray)];
    SurvivorsSingle(Rank3(rgba));
    SurvivorsSingle(Rank2(gray));
  }

  /** The condition line 170 evidently means: a rank-3 image with exactly three channels. */
  predicate IsRgb(a: Array3) {
    a.d2 == ChannelsRgb
  }

  /**
   * Line 170 agrees with `IsRgb` for every channel count the image library
   * produces (at most 4) and on up to 6; a 7-channel array is let through.
   */
  lemma Line170VersusIntent(a: Array3)
    ensures a.d2 <= 6 ==> (PassesLine170(a) <==> IsRgb(a))
    ensures a.d2 == 7 ==> PassesLine170(a) && !IsRgb(a)
  {
    Line170Admits(a);
  }

  /** One decoded image under the intended filter. */
  function AdmitIntended(img: Decoded): (r: Option<Array3>)
    requires img.Valid()
    ensures r.Some? ==> r.value.Valid() && r.value.d0 in {ChannelsGray, ChannelsRgb}
  {
    match img
    case Rank2(p) => Some(AddChannelAxis(p))
    case Rank3(a) => if IsRgb(a) then Some(Transpose201(a)) else None
  }

  /**
   * `create_lmdb_from_filelist` as its docstring intends it: the intended
   * filter, and every kept image paired with its own label.  `origin[j]` is
   * the input position the j-th kept image came from.
   */
  method CreateLmdbFromFilelistAligned(images: seq<Decoded>, labels: seq<int>)
    returns (origin: seq<nat>, outcome: BuildOutcome)
    requires forall i :: 0 <= i < |images| ==> images[i].Valid()
    ensures forall j, k :: 0 <= j < k < |origin| ==> origin[j] < origin[k]
    ensures forall j :: 0 <= j < |origin| ==> origin[j] < |images| && AdmitIntended(images[origin[j]]).Some?
    ensures outcome.Committed? <==>
      && (exists i :: 0 <= i < |images| && AdmitIntended(images[i]).Some?)
      && (forall i :: 0 <= i < |images| && AdmitIntended(images[i]).Some? ==> i < |labels|)
    ensures outcome.Committed? ==>
      && (forall i :: 0 <= i < |images| && AdmitIntended(images[i]).Some? ==> i in origin)
      && |outcome.store| == |origin|
      && forall j :: 0 <= j < |origin| ==>
           origin[j] < |labels| &&
           outcome.store[j] == Record(FormatIndex(j),
                                      Datum(AdmitIntended(images[origin[j]]).value, labels[origin[j]]))
  {
    var kept: seq<Array3> := [];
    var keptLabels: seq<int> := [];
    origin := [];
    for idx := 0 to |images|
      invariant |kept| == |keptLabels| == |origin|
      invariant forall j, k :: 0 <= j < k < |origin| ==> origin[j] < origin[k]
      invariant forall j :: 0 <= j < |origin| ==>
        && origin[j] < idx && origin[j] < |labels|
        && AdmitIntended(images[origin[j]]) == Some(kept[j])
        && keptLabels[j] == labels[origin[j]]
      invariant forall i :: 0 <= i < idx && AdmitIntended(images[i]).Some? ==> i in origin
      invariant origin != [] <==> exists i :: 0 <= i < idx && AdmitIntended(images[i]).Some?
    {
      var admitted := AdmitIntended(images[idx]);
      if admitted.Some? {
        if idx >= |labels| {
          outcome := Failed(LabelIndexOutOfRange(idx));
          return;
        }
        kept := kept + [admitted.value];
        keptLabels := keptLabels + [labels[idx]];
        origin := origin + [idx];
      }
    }
    var count;
    outcome, count := CreateLmdbFromArray(kept, keptLabels);
  }
}
