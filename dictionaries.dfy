/** The `Dictionary` extension (Utils.swift lines 320-326). */
module Dictionaries {

  /** `dictionary(insertingValue:forKey:)`: copy the dictionary into a local
      variable, set one key, return the copy. The original is untouched
      because Swift dictionaries are values. */
  method Inserting<K, V>(d: map<K, V>, value: V, key: K) returns (r: map<K, V>)
    ensures r.Keys == d.Keys + {key}
    ensures key in r && r[key] == value
    ensures forall k :: k in d && k != key ==> k in r && r[k] == d[k]
  {
    var dictionary := d;
    dictionary := dictionary[key := value];
    return dictionary;
  }
}
