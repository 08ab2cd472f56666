/**
 * The upload package's `omit`: a copy of an object without the given keys.
 * An object is the list of its own entries in `Object.entries` order.
 */
module UploadUtils {
  /** `keys`: one key or an array of keys. */
  datatype Keys = One(key: string) | Many(keys: seq<string>)

  /** `new Set(Array.isArray(keys) ? keys : [keys])`. */
  function KeySet(keys: Keys): (r: set<string>)
    ensures keys.One? ==> r == {keys.key}
    ensures keys.Many? ==> forall k :: k in r <==> k in keys.keys
  {
    match keys
    case One(k) => {k}
    case Many(ks) => set k | k in ks
  }

  /** The entries whose key is not in `omitted`, in order. */
  function Without<V(!new)>(entries: seq<(string, V)>, omitted: set<string>): (r: seq<(string, V)>)
    ensures |r| <= |entries|
    ensures forall e :: e in r <==> e in entries && e.0 !in omitted
  {
    if entries == [] then []
    else
      assert forall e :: e in entries <==> e == entries[0] || e in entries[1..];
      (if entries[0].0 in omitted then [] else [entries[0]]) + Without(entries[1..], omitted)
  }

  /** `omit(obj, keys)`. */
  function Omit<V(!new)>(obj: seq<(string, V)>, keys: Keys): seq<(string, V)> {
    Without(obj, KeySet(keys))
  }

  /** No omitted key is left, and every other entry is kept with its value. */
  lemma OmitMeaning<V(!new)>(obj: seq<(string, V)>, keys: Keys)
    ensures forall e :: e in Omit(obj, keys) ==> e.0 !in KeySet(keys)
    ensures forall e :: e in obj && e.0 !in KeySet(keys) ==> e in Omit(obj, keys)
    ensures forall e :: e in Omit(obj, keys) ==> e in obj
  {
  }

  /** A single key and the one-element array of it omit the same. */
  lemma OmitSingleKey<V(!new)>(obj: seq<(string, V)>, key: string)
    ensures Omit(obj, One(key)) == Omit(obj, Many([key]))
  {
    assert KeySet(One(key)) == KeySet(Many([key]));
  }

  /** Filtering keeps the entries' order: dropping nothing leaves the object as it was. */
  lemma {:induction false} WithoutNothing<V(!new)>(entries: seq<(string, V)>, omitted: set<string>)
    requires forall e :: e in entries ==> e.0 !in omitted
    ensures Without(entries, omitted) == entries
  {
    if entries != [] {
      assert entries[0] in entries;
      assert forall e :: e in entries[1..] ==> e in entries;
      WithoutNothing(entries[1..], omitted);
    }
  }

  /** Omitting the same keys twice is omitting them once. */
  lemma OmitIdempotent<V(!new)>(obj: seq<(string, V)>, keys: Keys)
    ensures Omit(Omit(obj, keys), keys) == Omit(obj, keys)
  {
    WithoutNothing(Omit(obj, keys), KeySet(keys));
  }
}
