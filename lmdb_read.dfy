/**
 * `read_lmdb` and `lmdb_to_images`: walk a store in cursor order, count its
 * entries, and write grayscale and RGB datums out as image files
 * `<dest>/<label>/<key>.jpg`, up to an item limit.
 */
module LmdbRead {
  import opened Layout
  import opened Keys
  import opened Records

  /**
   * `read_lmdb`: the final `count` and `shape` of the walk over the cursor.
   * The key and the label the loop also decodes are not used.
   */
  method ReadLmdb(db: Store) returns (count: nat, shape: Option<(nat, nat, nat)>)
    ensures count == |db|
    ensures shape == if db == [] then None else Some(db[0].datum.pixels.Shape())
  {
    count := 0;
    shape := None;
    for i := 0 to |db|
      invariant count == i
      invariant shape == if i == 0 then None else Some(db[0].datum.pixels.Shape())
    {
      var x := db[i].datum.pixels;
      if count == 0 {
        shape := Some(x.Shape());
      }
      count := count + 1;
    }
  }

  /** What `Image.fromarray` is given: a (h,w) plane for gray, an (h,w,3) array for RGB. */
  datatype Picture = GrayPicture(plane: Array2) | RgbPicture(image: Array3)

  /** The file `<dest>/<label>/<key>.jpg` and the picture saved in it. */
  datatype ImageFile = ImageFile(classId: int, key: Key, picture: Picture)

  /** The picture one datum is exported as, or None when its channel count is unsupported. */
  function Export(d: Datum): (p: Option<Picture>)
    requires d.Valid()
    ensures p.Some? <==> d.Supported()
    ensures p.Some? && p.value.GrayPicture? <==> d.Channels() == ChannelsGray
  {
    if d.Channels() == ChannelsGray then Some(GrayPicture(Plane0(d.pixels)))
    else if d.Channels() == ChannelsRgb then Some(RgbPicture(Transpose120(d.pixels)))
    else None
  }

  /**
   * The number of entries whose label directory `lmdb_to_images` creates:
   * every entry it looks at, including the unsupported one it stops at.
   */
  function Visited(db: Store, count: nat, length: int): nat {
    if count < |db| && count < Limit(length) then count + 1 else count
  }

  /**
   * `lmdb_to_images(db, dest, length)`: the files written, the label
   * directories created under `dest`, and the final `count`.
   */
  method LmdbToImages(db: Store, length: int) returns (files: seq<ImageFile>, labelDirs: set<int>, count: nat)
    requires ValidStore(db)
    ensures count == |files| == Min(LeadingSupported(db), Limit(length))
    ensures count <= Limit(length)
    ensures forall i :: 0 <= i < count ==>
      && files[i].key == db[i].key
      && files[i].classId == db[i].datum.classId
      && Export(db[i].datum) == Some(files[i].picture)
    ensures labelDirs == set i | 0 <= i < Visited(db, count, length) :: db[i].datum.classId
  {
    files := [];
    labelDirs := {};
    count := 0;
    var i := 0;
    while i < |db|
      invariant i == count == |files| <= LeadingSupported(db)
      invariant count < Limit(length)
      invariant forall j :: 0 <= j < count ==>
        && files[j].key == db[j].key
        && files[j].classId == db[j].datum.classId
        && Export(db[j].datum) == Some(files[j].picture)
      invariant labelDirs == set j | 0 <= j < i :: db[j].datum.classId
    {
      var x := db[i].datum.pixels;
      var y := db[i].datum.classId;
      labelDirs := labelDirs + {y};
      var picture;
      if x.d0 == ChannelsGray {
        picture := GrayPicture(Plane0(x));
      } else if x.d0 == ChannelsRgb {
        picture := RgbPicture(Transpose120(x));
      } else {
        // invalid channel: stop without counting this entry
        assert labelDirs == set j | 0 <= j < i + 1 :: db[j].datum.classId;
        break;
      }
      files := files + [ImageFile(y, db[i].key, picture)];
      count := count + 1;
      i := i + 1;
      if count >= length {
        break;
      }
    }
  }
}
