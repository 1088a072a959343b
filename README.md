# lmdbutil: a verified model of the LMDB dataset utilities

`my_cnn_sample/lmdbutil.py` prepares image datasets for Caffe. It stores labelled
images as Caffe `Datum` records in an LMDB key-value store, and it can export them as
JPEG files, make resized copies of a store, and build a store from arrays or image
files. This project models the sequential core underneath those library calls:

- the cursor loops of `read_lmdb`, `lmdb_to_images` and `resize_lmdb`, with their
  channel-count branches and their `count >= length` cut-off;
- the layout conversions between channel-major `(c,h,w)` records and channel-last
  `(h,w[,c])` images;
- the key and label assignment of `create_lmdb_from_array`;
- the filtering and reshaping of `create_lmdb_from_filelist`.

Modules (one file each):

- `Layout` (`layout.dfy`): rank-2 and rank-3 arrays as explicit shapes with nested
  sequences of cells. Also the transposes `(1,2,0)` and `(2,0,1)`, and the reshapes
  `(h,w,1)<->(h,w)` and `(h,w)->(1,h,w)`, with their round-trip laws. It also holds the
  image library's resize, modelled as a `Resampler`: two function values about which
  only the output shape `(height, width[, c])` is known (`Sized`).
- `Keys` (`keys.dfy`): `'{:08}'.format(idx)` written out through decimal digits and
  zero padding, plus the byte-wise key order the store's cursor follows.
- `Records` (`records.dfy`): a decoded datum (pixels, label), records, stores as
  sequences in cursor order (keys strictly increasing in byte order), the supported channel counts 1 and 3, and the item limit
  `max(length, 1)` that a "count, then test `count >= length`" loop obeys.
- `LmdbRead` (`lmdb_read.dfy`): `read_lmdb` and `lmdb_to_images`. The output
  directory becomes the sequence of files written plus the set of label directories
  created.
- `LmdbResize` (`lmdb_resize.dfy`): `resize_lmdb`. The destination store becomes the
  sequence of entries put, together with whether the transaction was committed.
- `LmdbCreate` (`lmdb_create.dfy`): `create_lmdb_from_array` and
  `create_lmdb_from_filelist`.

Behaviour the model follows from the code:

- `resize_lmdb` has no branch for a channel count other than 1 or 3, so it never
  stops cleanly on one.
  - If the first entry has such a count, line 116 reads `img_array` before it is
    bound. The exception leaves the write transaction uncommitted
    (`UnboundImageArray`).
  - On any later entry it reuses the previous entry's already-transposed array and
    transposes it again by `(2,0,1)`. It then writes that array under the current key
    and label (`ResizeStep`, `ResizeReusesPreviousArray`).
- `lmdb_to_images` creates an entry's label directory before checking the channel
  count. The directory of the entry it stops at is therefore created, though no file
  is written there.
- `create_lmdb_from_array` fails in two cases, and neither commits anything:
  - an empty image list: `imgs[0]` at line 142 raises;
  - fewer labels than images: `labels[idx]` raises.
- Line 170 parses as `len(img.shape) == (3 & img.shape[2]) == 3`, so a rank-3 image
  is kept exactly when its channel count is 3 modulo 4.
- `create_lmdb_from_filelist` passes the unfiltered label list on, so labels
  misalign after the first skipped image.
- Keys are eight characters and increase with the index only below 10^8. From 10^8
  on they grow to nine digits, and the key of 10^8 sorts before the keys of some
  earlier indices, such as 10^8 - 1.
- `resize_lmdb` reserves `100000000*length` bytes at line 91. For a negative `length`
  this size is negative, and opening the destination environment at line 92 fails
  before any entry is read (`NegativeMapSize`).

Three functions serve as specifications and carry no contract of their own:

- `LmdbCreate.ArrayStore`: the outcome of `create_lmdb_from_array`;
- `LmdbRead.Visited`: the number of entries whose label directory is created;
- `Records.Min`.

## Model

| member | source | states |
|---|---|---|
| `Layout.Transpose120` | my_cnn_sample/lmdbutil.py:112 | `transpose((1,2,0))` gives shape `(h,w,c)` from `(c,h,w)`, and element `[i,j,k]` lands at `[j,k,i]` |
| `Layout.Transpose201` | my_cnn_sample/lmdbutil.py:116 | `transpose((2,0,1))` gives shape `(c,h,w)` from `(h,w,c)`, and element `[i,j,k]` lands at `[k,i,j]` |
| `Layout.Squeeze` | my_cnn_sample/lmdbutil.py:106 | reshaping `(h,w,1)` to `(h,w)` keeps element `[i,j,0]` at `[i,j]` |
| `Layout.Unsqueeze` | my_cnn_sample/lmdbutil.py:110 | reshaping `(h,w)` to `(h,w,1)` gives shape `(h,w,1)` with `[i,j]` at `[i,j,0]` |
| `Layout.AddChannelAxis` | my_cnn_sample/lmdbutil.py:169 | reshaping `(h,w)` to `(1,h,w)` makes the plane the single channel |
| `Layout.Plane0` | my_cnn_sample/lmdbutil.py:65 | `x[0]` of a `(1,h,w)` array is its `(h,w)` plane |
| `Layout.ChannelLastRoundTrip` | my_cnn_sample/lmdbutil.py:112-116 | transposing by `(1,2,0)` then `(2,0,1)` returns the original array exactly |
| `Layout.ChannelFirstRoundTrip` | my_cnn_sample/lmdbutil.py:171 | transposing by `(2,0,1)` then `(1,2,0)` returns the original array exactly |
| `Layout.SqueezeRoundTrip` | my_cnn_sample/lmdbutil.py:106-110 | dropping and re-adding the singleton channel axis are mutually inverse |
| `Layout.GrayRoundTrip` | my_cnn_sample/lmdbutil.py:104-116 | the gray path `(1,h,w)->(h,w,1)->(h,w)->(h,w,1)->(1,h,w)` keeps every value |
| `Layout.GrayChannelFirst` | my_cnn_sample/lmdbutil.py:169 | reshaping `(h,w)` to `(h,w,1)` and transposing by `(2,0,1)` gives shape `(1,h,w)`; it equals `reshape(1,h,w)` |
| `Layout.GrayPlaneIsSqueeze` | my_cnn_sample/lmdbutil.py:65 | the exported gray plane `x[0]` equals the squeezed channel-last array that `resize_lmdb` resizes |
| `Keys.FormatIndex` | my_cnn_sample/lmdbutil.py:147 | `'{:08}'.format(idx)` is all digits and at least eight characters long |
| `Keys.FormatIndexValue` | my_cnn_sample/lmdbutil.py:147 | every key decodes back to its index |
| `Keys.KeysDistinct` | my_cnn_sample/lmdbutil.py:147 | distinct indices get distinct keys |
| `Keys.KeyLength` | my_cnn_sample/lmdbutil.py:147 | below 10^8 every key has exactly 8 characters |
| `Keys.KeysIncreasing` | my_cnn_sample/lmdbutil.py:147 | below 10^8, keys strictly increase in byte order with the index |
| `Keys.KeyOrderBreaksAtNineDigits` | my_cnn_sample/lmdbutil.py:147 | the key of 10^8 sorts before the key of 10^8 - 1, so the bound is tight |
| `Records.StoreKeysIncreasing` | my_cnn_sample/lmdbutil.py:25-28 | in a store the cursor walks, every key sorts before every later key, so no key occurs twice |
| `Records.LeadingSupported` | my_cnn_sample/lmdbutil.py:64-72 | the first entry whose channel count is neither 1 nor 3; all entries before it are supported |
| `Records.Limit` | my_cnn_sample/lmdbutil.py:74-76 | counting before testing `count >= length` caps the loop at `max(length, 1)` |
| `LmdbRead.ReadLmdb` | my_cnn_sample/lmdbutil.py:17-37 | `count` is the number of cursor entries; `shape` is the first entry's shape, or None for an empty store |
| `LmdbRead.Export` | my_cnn_sample/lmdbutil.py:64-72 | an entry can be exported iff its channel count is 1 or 3; it is exported as a gray plane `x[0]` iff its channel count is 1, otherwise as the `(h,w,3)` transpose |
| `LmdbRead.LmdbToImages` | my_cnn_sample/lmdbutil.py:39-78 | files are written for the first `min(first unsupported, max(length,1))` entries, in order, under their key and label. `count` equals the number of files. Label directories are created for each visited entry, including the one it stops at. When every entry is gray or RGB, `min(N, max(length,1))` files are written |
| `LmdbResize.Resized` | my_cnn_sample/lmdbutil.py:104-116 | a gray or RGB datum is rewritten with shape `(channels, height, width)` |
| `LmdbResize.ResizeStep` | my_cnn_sample/lmdbutil.py:104-116 | `img_array` after line 116 is unbound exactly when it was unbound before and the channel count is unsupported |
| `LmdbResize.ImageAfter` | my_cnn_sample/lmdbutil.py:98-116 | once the first entry is gray or RGB, `img_array` is bound after every later entry |
| `LmdbResize.Written` | my_cnn_sample/lmdbutil.py:98-125 | the n entries put keep the source keys and labels in cursor order; their pixels are `img_array` after line 116 |
| `LmdbResize.ResizeEntry` | my_cnn_sample/lmdbutil.py:99-116 | one loop iteration's branches compute `ResizeStep` |
| `LmdbResize.ResizeLmdb` | my_cnn_sample/lmdbutil.py:80-129 | fails before reading anything iff `length < 0` (negative reservation). Otherwise it crashes uncommitted iff the first entry is unsupported, and else commits `min(N, max(length,1))` entries with the source keys and labels in cursor order, so at least one entry whenever N >= 1 |
| `LmdbResize.ResizeLmdbChecked` | my_cnn_sample/lmdbutil.py:98-125 | corrected copy: stops before the first unsupported entry. Every entry it writes has its source key and label and shape `(channels, height, width)`, and the keys stay in cursor order |
| `LmdbResize.ResizedWhenSupported` | my_cnn_sample/lmdbutil.py:101-118 | a gray or RGB entry is written as its own resized image of shape `(channels, height, width)`, whatever came before it |
| `LmdbResize.CheckedAgreesWhenSupported` | my_cnn_sample/lmdbutil.py:98-125 | on a store of gray and RGB entries, the corrected and the as-written copies write the same entries |
| `LmdbResize.ResizeReusesPreviousArray` | my_cnn_sample/lmdbutil.py:104-118 | a later unsupported entry is written with the previous entry's array transposed by `(2,0,1)` |
| `LmdbResize.ResizeMisfilesTwoChannelEntry` | my_cnn_sample/lmdbutil.py:104-118 | a gray entry then a 2-channel entry, resized to 5x1: the second is stored as a `(5,1,1)` image made from the first's pixels |
| `LmdbResize.ResizeToOwnSizeIsIdentity` | my_cnn_sample/lmdbutil.py:104-116 | with a resampler that returns its input at the input's own size, the copy reproduces the pixels exactly |
| `LmdbCreate.CreateLmdbFromArray` | my_cnn_sample/lmdbutil.py:132-155 | fails uncommitted on an empty image list or on too few labels. Otherwise it commits item `idx` under key `'{:08}'.format(idx)` with `labels[idx]`; the final count is `len(imgs)` |
| `LmdbCreate.ArrayStoreKeys` | my_cnn_sample/lmdbutil.py:146-152 | up to 10^8 items, keys are 8 characters, decode to their index and increase strictly, so cursor order is list order; labels are `labels[idx]` |
| `LmdbCreate.BitAndThree` | my_cnn_sample/lmdbutil.py:170 | Python's `3 & c` equals `c % 4` |
| `LmdbCreate.BitAnd` | my_cnn_sample/lmdbutil.py:170 | Python's `&` on non-negative integers, bit by bit; the result is at most either operand |
| `LmdbCreate.PassesLine170` | my_cnn_sample/lmdbutil.py:170 | `len(shape) == (3 & shape[2]) == 3` for a rank-3 image; an image that passes has at least 3 channels |
| `LmdbCreate.Line170Admits` | my_cnn_sample/lmdbutil.py:170 | a rank-3 image passes line 170 as parsed iff its channel count is 3 modulo 4 |
| `LmdbCreate.Admit` | my_cnn_sample/lmdbutil.py:167-173 | every image kept is a well-formed channel-major array |
| `LmdbCreate.AdmitShapes` | my_cnn_sample/lmdbutil.py:166-174 | `(h,w)` becomes `(1,h,w)`; `(h,w,c)` is kept as `(c,h,w)` iff `3 & c == 3`, and transposes back to itself; everything else is dropped |
| `LmdbCreate.Survivors` | my_cnn_sample/lmdbutil.py:165-174 | the filter never yields more arrays than images |
| `LmdbCreate.SurvivorsConcat` | my_cnn_sample/lmdbutil.py:166-174 | filtering preserves input order: the survivors of `a + b` are those of `a` followed by those of `b` |
| `LmdbCreate.SurvivorsSingle` | my_cnn_sample/lmdbutil.py:166-174 | a single image survives as its admitted array, or not at all |
| `LmdbCreate.CreateLmdbFromFilelist` | my_cnn_sample/lmdbutil.py:157-176 | collects the survivors in input order and builds the store from them with the unfiltered labels |
| `LmdbCreate.FilelistLabelMisaligned` | my_cnn_sample/lmdbutil.py:173-175 | an RGBA image labelled 7 is dropped; the gray image after it, labelled 9, is stored with label 7 |
| `LmdbCreate.Line170VersusIntent` | my_cnn_sample/lmdbutil.py:170 | the parsed test agrees with `shape[2] == 3` for up to 6 channels but lets a 7-channel array through |
| `LmdbCreate.AdmitIntended` | my_cnn_sample/lmdbutil.py:168-171 | under the intended filter every kept array has 1 or 3 channels |
| `LmdbCreate.CreateLmdbFromFilelistAligned` | my_cnn_sample/lmdbutil.py:157-176 | corrected version: keeps exactly the gray and RGB images, in input order. It commits iff at least one image is kept and every kept image has a label; stored item j is then the j-th kept image with its own label |

## Findings

| source | as written | input that shows it | evidently intended | confidence | as-written member | corrected member |
|---|---|---|---|---|---|---|
| my_cnn_sample/lmdbutil.py:104-118 | no branch for channel counts other than 1 and 3: a later such entry is stored as the previous entry's array, transposed again, under its own key and label | a gray `(1,1,1)` entry followed by a `(2,1,1)` entry, width 5, height 1: the second is stored as a `(5,1,1)` image of the first's pixels | stop at the unsupported entry, as `lmdb_to_images` does | high; not executed | `LmdbResize.ResizeMisfilesTwoChannelEntry` | `LmdbResize.ResizeLmdbChecked` |
| my_cnn_sample/lmdbutil.py:173-175 | a skipped image's label stays in the list passed to `create_lmdb_from_array` | images `[RGBA (1,1,4), gray]`, labels `[7, 9]`: the gray image is stored with label 7 | each kept image keeps its own label, as the docstring's "index must be synchronized" asks | high; not executed | `LmdbCreate.FilelistLabelMisaligned` | `LmdbCreate.CreateLmdbFromFilelistAligned` |
| my_cnn_sample/lmdbutil.py:170 | `&` binds tighter than `==`, so the test is `3 & shape[2] == 3` | a rank-3 array with 7 channels is kept | `len(img.shape) == 3 and img.shape[2] == 3` | low (the image library decodes at most 4 bands); not executed | `LmdbCreate.Line170VersusIntent` | `LmdbCreate.CreateLmdbFromFilelistAligned` |

## Left out

- LMDB machinery: opening and closing environments, transactions, and the `map_size`
  reservations (lines 90-93, 127-129, 142-144, 153-154). This is a foreign storage
  engine. A store is a sequence in cursor order, so a full store is not modelled.
  A negative reservation in `resize_lmdb` is modelled as an outcome. Line 142
  sizes the reservation by `len(imgs[0])`, the first image's channel count;
  only the error that line raises on an empty list is modelled.
- Caffe's `Datum` codec (`ParseFromString`, `SerializeToString`, `datum_to_array`,
  `array_to_datum`). It is an external protobuf codec. A record holds the decoded
  `(channels, height, width)` array and label, so the codec is taken to round-trip.
- The image library: `Image.fromarray`, the resampling in `resize`, `Image.open`,
  JPEG `save` and the `np.uint8` casts. These are library numerics and file formats.
  The resize keeps only its output-shape contract, pixel values are unbounded
  integers, and decoded image files are given as arrays.
- Negative `width` or `height`: the image library rejects them, but the model takes
  both as natural numbers.
- The filesystem and console: `os.mkdir` of the destination directory,
  `os.path.isdir`, the paths built with `str(key)`, and all `print` output (the
  `before`/`after` shapes of `resize_lmdb` only feed a print). File paths become the
  pair (label, key).
- `key.encode('ascii')` at line 118. It is a Python 2/3 bytes issue in the binding, so
  keys pass through unchanged.
- `create_lmdb_from_dir` and `_test_multi_channel_lmdb`. They are directory walks
  over the filesystem.
- The `__main__` block (lines 228-266). It is a script.
- `LmdbResize.ResizeLmdbChecked`: takes a negative `length` as the limit 1, as the
  loop does, instead of failing at the reservation; the correction concerns only the
  missing channel branch, and `LmdbResize.ResizeLmdb` models the failure.
- `LmdbCreate.Admit`: its own contract only says a kept array is well-formed. The
  shapes and the filter condition are stated by `LmdbCreate.AdmitShapes`.
