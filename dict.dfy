/** Python dictionaries as the binding maps use them: a finite map that also
    remembers the order in which keys were first inserted. Every key in
    the graph is a string (an operand or carrier identifier). Assigning to a key
    that is already present replaces its value and keeps its position. */
module PyDict {

  datatype Dict<V> = Dict(keys: seq<string>, entries: map<string, V>)

  ghost predicate Distinct(s: seq<string>) {
    forall i, j | 0 <= i < j < |s| :: s[i] != s[j]
  }

  /** The key order lists every key exactly once. */
  ghost predicate Valid<V>(d: Dict<V>) {
    Distinct(d.keys) && forall k :: k in d.entries <==> k in d.keys
  }

  /** `{}` */
  function Empty<V>(): (d: Dict<V>)
    ensures Valid(d) && d.keys == [] && d.entries == map[]
  {
    Dict([], map[])
  }

  /** `d[k] = v` */
  function Put<V>(d: Dict<V>, k: string, v: V): (r: Dict<V>)
    requires Valid(d)
    ensures Valid(r)
    ensures k in r.entries && r.entries[k] == v
    ensures forall j :: j != k ==> (j in r.entries <==> j in d.entries)
    ensures forall j | j != k && j in d.entries :: r.entries[j] == d.entries[j]
    ensures d.keys <= r.keys && |r.keys| == |d.keys| + (if k in d.entries then 0 else 1)
  {
    Dict(if k in d.entries then d.keys else d.keys + [k], d.entries[k := v])
  }

  /** `list(d.values())`: the values in key order. */
  function Values<V>(d: Dict<V>): (vs: seq<V>)
    requires Valid(d)
    ensures |vs| == |d.keys|
    ensures forall i | 0 <= i < |vs| :: vs[i] == d.entries[d.keys[i]]
  {
    seq(|d.keys|, i requires 0 <= i < |d.keys| => d.entries[d.keys[i]])
  }

  /** The first occurrence of every element of `s`, in order: the key order of
      a dictionary into which the keys of `s` were inserted one by one. */
  function Dedup(s: seq<string>): (r: seq<string>)
    ensures Distinct(r)
    ensures forall x :: x in r <==> x in s
    ensures |r| <= |s|
  {
    if s == [] then []
    else
      var prefix := Dedup(s[..|s| - 1]);
      if s[|s| - 1] in prefix then prefix else prefix + [s[|s| - 1]]
  }

  /** Inserting key after key leaves the keys in first-insertion order. */
  lemma {:induction false} PutKeepsFirstInsertionOrder<V>(d: Dict<V>, s: seq<string>, k: string, v: V)
    requires Valid(d) && d.keys == Dedup(s)
    ensures Put(d, k, v).keys == Dedup(s + [k])
  {
    assert (s + [k])[..|s + [k]| - 1] == s;
    assert k in d.entries <==> k in Dedup(s);
  }
}
