/**
 * The index specification `ensureIndex` hands to the driver: an ordered key document with one
 * ascending (value 1) entry per key name, plus the unique and sparse options.
 */
module IndexKeys {

  /** One entry of an ordered BSON document: a field name and its value. */
  datatype KeyElem = KeyElem(key: string, value: int)

  /** The index to create: its ordered key document and its options. */
  datatype IndexModel = IndexModel(keys: seq<KeyElem>, unique: bool, sparse: bool)

  /** Sort direction MongoDB reads from the value 1 in a key document. */
  const Ascending: int := 1

  /** The key document for `key`: each name, in the given order, indexed ascending. */
  ghost function AscendingKeys(key: seq<string>): (d: seq<KeyElem>)
    ensures |d| == |key|
    ensures forall i :: 0 <= i < |key| ==> d[i] == KeyElem(key[i], Ascending)
  {
    if key == [] then [] else AscendingKeys(key[..|key| - 1]) + [KeyElem(key[|key| - 1], Ascending)]
  }

  /** The field names of a key document, in order. */
  function KeyNames(d: seq<KeyElem>): (names: seq<string>)
    ensures |names| == |d|
  {
    if d == [] then [] else KeyNames(d[..|d| - 1]) + [d[|d| - 1].key]
  }

  /** Reading the names back out of the key document gives the keys that were asked for. */
  lemma {:induction false} KeyNamesOfAscending(key: seq<string>)
    ensures KeyNames(AscendingKeys(key)) == key
    decreases |key|
  {
    if key != [] {
      var init := key[..|key| - 1];
      KeyNamesOfAscending(init);
      assert AscendingKeys(key)[..|key| - 1] == AscendingKeys(init);
    }
  }

  /** Two key lists give the same key document exactly when they are the same list. */
  lemma AscendingKeysInjective(k1: seq<string>, k2: seq<string>)
    ensures AscendingKeys(k1) == AscendingKeys(k2) <==> k1 == k2
  {
    if AscendingKeys(k1) == AscendingKeys(k2) {
      KeyNamesOfAscending(k1);
      KeyNamesOfAscending(k2);
    }
  }

  /** Fills a key document of length `|key|` slot by slot, as `ensureIndex` builds `keysDoc`. */
  method KeysDoc(key: seq<string>) returns (doc: seq<KeyElem>)
    ensures doc == AscendingKeys(key)
    ensures KeyNames(doc) == key
  {
    var buf := new KeyElem[|key|](_ => KeyElem("", 0));
    for i := 0 to |key|
      invariant forall m :: 0 <= m < i ==> buf[m] == KeyElem(key[m], Ascending)
    {
      buf[i] := KeyElem(key[i], Ascending);
    }
    doc := buf[..];
    KeyNamesOfAscending(key);
  }
}
