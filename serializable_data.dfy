/**
 * One telemetry field, `key=value`: the `SerializableData` record that both
 * the radio payload and the relay query string are made of.
 */
module Serializable {
  import opened ArduinoString

  /**
   * The record. Both fields are fixed at construction; `getKey` and `getVal`
   * are the destructors `key` and `val`. The defaults are those of the
   * source's constructor, so `SerializableData()` has an empty key and value.
   */
  datatype SerializableData = SerializableData(key: string := "", val: string := "")

  /** The characters the codec uses as delimiters; it has no escaping. */
  const KeyValueSeparator: char := '='
  const RecordSeparator: char := '&'

  /** `toString()`: the key, `=`, then the value. */
  function ToString(d: SerializableData): string
  {
    d.key + [KeyValueSeparator] + d.val
  }

  /**
   * `fromString(serialized)`: split at the first `=`. When there is none,
   * `indexOf` answers -1, so the key is `substring(0, -1)` and the value
   * `substring(0)`: both are the whole text.
   */
  function FromString(serialized: string): (r: SerializableData)
    ensures KeyValueSeparator in serialized ==>
      var p := IndexOf(serialized, KeyValueSeparator, 0);
      0 <= p && KeyValueSeparator !in r.key &&
      serialized == r.key + [KeyValueSeparator] + r.val
    ensures KeyValueSeparator !in serialized ==> r.key == serialized && r.val == serialized
  {
    var eq := IndexOf(serialized, KeyValueSeparator, 0);
    IndexOfFirst(serialized, KeyValueSeparator, 0);
    assert eq >= 0 ==> serialized == serialized[..eq] + [KeyValueSeparator] + serialized[eq + 1..];
    SerializableData(Substring(serialized, 0, eq), SubstringFrom(serialized, eq + 1))
  }

  /** A record the wire format can carry unambiguously. */
  predicate WellFormed(d: SerializableData)
  {
    KeyValueSeparator !in d.key && RecordSeparator !in d.key && RecordSeparator !in d.val
  }

  /**
   * `fromString` undoes `toString` exactly when the key holds no `=`: a key
   * with one is cut at it, whatever the value.
   */
  lemma FromStringOfToString(d: SerializableData)
    ensures FromString(ToString(d)) == d <==> KeyValueSeparator !in d.key
  {
    var s := ToString(d);
    var r := FromString(s);
    assert s[|d.key|] == KeyValueSeparator;
    if KeyValueSeparator !in d.key {
      SplitAtFirst(r.key, r.val, d.key, d.val);
    }
  }

  /** Text splits in only one way around a `=` that no `=` precedes. */
  lemma SplitAtFirst(a: string, b: string, c: string, e: string)
    requires a + [KeyValueSeparator] + b == c + [KeyValueSeparator] + e
    requires KeyValueSeparator !in a && KeyValueSeparator !in c
    ensures a == c && b == e
  {
    var s := a + [KeyValueSeparator] + b;
    assert s[..|a|] == a && s[..|c|] == c;
    IndexOfAfter(s, KeyValueSeparator, 0, a);
    IndexOfAfter(s, KeyValueSeparator, 0, c);
    assert a == s[..|a|] == c;
    assert b == s[|a| + 1..] == e;
  }

  /** `fromString("=")` gives the record with empty key and empty value. */
  lemma FromStringOfSeparatorAlone()
    ensures FromString([KeyValueSeparator]) == SerializableData()
  {
    assert IndexOf([KeyValueSeparator], KeyValueSeparator, 0) == 0;
  }
}
