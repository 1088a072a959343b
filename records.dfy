/**
 * The records an LMDB store of Caffe datums holds.  The serialised datum is
 * modelled by what decoding gives back (the channel-major pixel array and the
 * label): the codec is treated as an encode/decode pair that round-trips.
 */
module Records {
  import opened Layout
  import opened Keys

  /** Channel count of an RGB datum (`CH_RGB`). */
  const ChannelsRgb: nat := 3
  /** Channel count of a grayscale datum (`CH_GRAY`). */
  const ChannelsGray: nat := 1

  datatype Option<T> = None | Some(value: T)

  /** A decoded datum: `datum_to_array(datum)` of shape (channels, height, width), and `datum.label`. */
  datatype Datum = Datum(pixels: Array3, classId: int)
  {
    predicate Valid() {
      pixels.Valid()
    }

    /** `datum.channels`, the leading axis of the decoded array. */
    function Channels(): nat {
      pixels.d0
    }

    /** The channel counts the module's branches handle: grayscale or RGB. */
    predicate Supported() {
      Channels() == ChannelsGray || Channels() == ChannelsRgb
    }
  }

  /** One cursor entry: a key and its datum. */
  datatype Record = Record(key: Key, datum: Datum)

  /** A store, as its entries in cursor order. */
  type Store = seq<Record>

  /**
   * Every datum decodes to a well-formed array, and the cursor yields keys in
   * strictly increasing byte order.
   */
  predicate ValidStore(s: Store) {
    && (forall i :: 0 <= i < |s| ==> s[i].datum.Valid())
    && (forall i :: 1 <= i < |s| ==> LexLess(s[i - 1].key, s[i].key))
  }

  /** In a valid store every key sorts before every later key, so no key occurs twice. */
  lemma {:induction false} StoreKeysIncreasing(s: Store)
    requires ValidStore(s)
    ensures forall i, j :: 0 <= i < j < |s| ==> LexLess(s[i].key, s[j].key) && s[i].key != s[j].key
  {
    forall i, j | 0 <= i < j < |s|
      ensures LexLess(s[i].key, s[j].key) && s[i].key != s[j].key
    {
      var k := i + 1;
      while k < j
        invariant i < k <= j
        invariant LexLess(s[i].key, s[k].key)
      {
        LexLessTransitive(s[i].key, s[k].key, s[k + 1].key);
        k := k + 1;
      }
      LexLessIrreflexive(s[i].key);
    }
  }

  /** The number of leading entries whose channel count is supported. */
  function LeadingSupported(s: Store): (n: nat)
    ensures n <= |s|
    ensures forall i :: 0 <= i < n ==> s[i].datum.Supported()
    ensures n < |s| ==> !s[n].datum.Supported()
  {
    if s == [] || !s[0].datum.Supported() then 0 else 1 + LeadingSupported(s[1..])
  }

  /** The item limit a loop that checks `count >= length` after counting a record obeys: `max(length, 1)`. */
  function Limit(length: int): (l: nat)
    ensures l >= 1 && (length >= 1 ==> l == length)
  {
    if length < 1 then 1 else length
  }

  function Min(a: nat, b: nat): nat {
    if a <= b then a else b
  }
}
