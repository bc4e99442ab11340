/** The already-scanned YAML document tree the configuration parser consumes
    (the shape of `saphyr::YamlOwned` after loading), and key lookup in a
    mapping node. Scanning text into this tree is not part of the model. */
module Yaml {
  import opened Common

  /** One YAML node. A mapping keeps its entries in document order.
      Floating-point scalars are carried as their IEEE-754 bit pattern. The
      scanner's mappings are hash maps and never hold two equal keys; the
      tree does not enforce this, and what relies on it says so with
      `DistinctKeys`. */
  datatype Yaml =
    | Mapping(entries: seq<(Yaml, Yaml)>)
    | Sequence(items: seq<Yaml>)
    | Str(s: string)
    | Integer(i: int)
    | Boolean(b: bool)
    | Float(bits: bv64)
    | Null

  /** The node is a `YamlOwned::Value`, i.e. a scalar of any kind. */
  predicate IsScalar(y: Yaml) {
    y.Str? || y.Integer? || y.Boolean? || y.Float? || y.Null?
  }

  /** The outcome of scanning configuration text: a scanner error, or the
      list of documents in the stream. */
  datatype ScanError = ScanError(message: string)
  datatype Scanned = ScanFailed(error: ScanError) | Documents(docs: seq<Yaml>)

  /** No two entries of a mapping have equal keys. */
  predicate DistinctKeys(entries: seq<(Yaml, Yaml)>) {
    forall i, j :: 0 <= i < j < |entries| ==> entries[i].0 != entries[j].0
  }

  /** `Mapping::get` with a string key: the value stored under `Str(key)`. */
  function Get(entries: seq<(Yaml, Yaml)>, key: string): (r: Option<Yaml>)
    ensures r.None? <==> forall i :: 0 <= i < |entries| ==> entries[i].0 != Str(key)
    ensures r.Some? ==> exists i :: 0 <= i < |entries| && entries[i] == (Str(key), r.value)
  {
    if |entries| == 0 then None
    else if entries[0].0 == Str(key) then Some(entries[0].1)
    else
      var rest := Get(entries[1..], key);
      assert forall i :: 1 <= i < |entries| ==> entries[i] == entries[1..][i - 1];
      rest
  }

  /** With distinct keys, the first match is the only one: the lookup
      agrees with every entry stored under the key. */
  lemma {:induction false} GetUnique(entries: seq<(Yaml, Yaml)>, key: string)
    requires DistinctKeys(entries)
    ensures Get(entries, key).Some? ==>
      forall i :: 0 <= i < |entries| && entries[i].0 == Str(key) ==> entries[i].1 == Get(entries, key).value
  {
    if |entries| > 0 && entries[0].0 != Str(key) {
      assert DistinctKeys(entries[1..]);
      GetUnique(entries[1..], key);
      assert forall i :: 1 <= i < |entries| ==> entries[i] == entries[1..][i - 1];
    }
  }
}
