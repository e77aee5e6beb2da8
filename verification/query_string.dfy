/** The query strings the hooks build with `URLSearchParams`: a run of
    `if (value) params.append(key, value)`, one per field in a fixed order.
    A field is the key with its rendered value, `None` when the value is
    falsy; the model keeps the ordered key/value pairs and leaves
    percent-encoding by `toString()` out. */
module QueryString {
  import opened Wrappers
  import opened Text
  import Seqs

  type Pair = (string, string)
  type Field = (string, Option<string>)

  /** A number field: 0 and a missing number are falsy. */
  function NumValue(n: Option<int>): (r: Option<string>)
    ensures r.None? <==> n.None? || n.value == 0
    ensures r.Some? ==> r.value == IntToString(n.value)
  {
    if n.None? || n.value == 0 then None else Some(IntToString(n.value))
  }

  /** A text field: the empty string and a missing one are falsy. */
  function TextValue(s: Option<string>): (r: Option<string>)
    ensures r.None? <==> s.None? || s.value == ""
    ensures r.Some? ==> r == s
  {
    if s.None? || s.value == "" then None else s
  }

  /** The appends, in order: present fields only. */
  function Build(fields: seq<Field>): (r: seq<Pair>)
    ensures |r| <= |fields|
  {
    if fields == [] then []
    else
      var head := if fields[0].1.Some? then [(fields[0].0, fields[0].1.value)] else [];
      head + Build(fields[1..])
  }

  /** The names of a list of named values: the pairs appended, or the
      fields offered. */
  function Keys<V>(pairs: seq<(string, V)>): (r: seq<string>)
    ensures |r| == |pairs|
    ensures forall i :: 0 <= i < |r| ==> r[i] == pairs[i].0
  {
    if pairs == [] then [] else [pairs[0].0] + Keys(pairs[1..])
  }

  predicate DistinctKeys(fields: seq<Field>) {
    forall i, j :: 0 <= i < j < |fields| ==> fields[i].0 != fields[j].0
  }

  /** The value of the first field named `key`, `None` when there is none
      or it is falsy. */
  function FieldValue(fields: seq<Field>, key: string): Option<string> {
    if fields == [] then None
    else if fields[0].0 == key then fields[0].1
    else FieldValue(fields[1..], key)
  }

  /** The value sent for `key`, if any. */
  function Lookup(pairs: seq<Pair>, key: string): (r: Option<string>)
    ensures r.None? <==> key !in Keys(pairs)
  {
    if pairs == [] then None
    else if pairs[0].0 == key then Some(pairs[0].1)
    else Lookup(pairs[1..], key)
  }

  /** The keys sent keep the order of the fields, each at most once. */
  lemma {:induction false} BuildKeepsOrder(fields: seq<Field>)
    ensures Seqs.IsSubsequence(Keys(Build(fields)), Keys(fields))
  {
    if fields != [] {
      BuildKeepsOrder(fields[1..]);
      var rest := Build(fields[1..]);
      if fields[0].1.Some? {
        var p := (fields[0].0, fields[0].1.value);
        assert Build(fields) == [p] + rest;
        assert Keys([p] + rest) == [p.0] + Keys(rest) by {
          assert ([p] + rest)[1..] == rest;
        }
        assert Keys(fields)[1..] == Keys(fields[1..]);
      } else {
        assert Build(fields) == rest;
        Seqs.SubsequenceOfTail(Keys(rest), Keys(fields));
      }
    }
  }

  lemma {:induction false} SubsequenceMembers<T>(a: seq<T>, b: seq<T>, x: T)
    requires Seqs.IsSubsequence(a, b) && x in a
    ensures x in b
    decreases |b|
  {
    if a[0] == b[0] {
      if x != a[0] {
        SubsequenceMembers(a[1..], b[1..], x);
      }
    } else {
      SubsequenceMembers(a, b[1..], x);
    }
  }

  /** With distinct keys, what is sent for each key is that field's
      rendered value: nothing when it is falsy. */
  lemma {:induction false} BuildLookup(fields: seq<Field>, key: string)
    requires DistinctKeys(fields)
    ensures Lookup(Build(fields), key) == FieldValue(fields, key)
  {
    if fields != [] {
      var rest := Build(fields[1..]);
      BuildLookup(fields[1..], key);
      if fields[0].1.Some? {
        var p := (fields[0].0, fields[0].1.value);
        assert Build(fields) == [p] + rest;
        assert ([p] + rest)[1..] == rest;
      } else {
        assert Build(fields) == rest;
        if fields[0].0 == key && key in Keys(rest) {
          BuildKeepsOrder(fields[1..]);
          SubsequenceMembers(Keys(rest), Keys(fields[1..]), key);
        }
      }
    }
  }

  /** The value sent for the `i`th field's key is that field's value. */
  lemma BuildSends(fields: seq<Field>, i: int)
    requires DistinctKeys(fields) && 0 <= i < |fields|
    ensures Lookup(Build(fields), fields[i].0) == fields[i].1
  {
    BuildLookup(fields, fields[i].0);
    FieldValueAt(fields, i);
  }

  lemma {:induction false} FieldValueAt(fields: seq<Field>, i: int)
    requires DistinctKeys(fields) && 0 <= i < |fields|
    ensures FieldValue(fields, fields[i].0) == fields[i].1
  {
    if i > 0 {
      FieldValueAt(fields[1..], i - 1);
    }
  }

  /** `enabled: !!id` of the single-record queries: a missing id or 0
      fetches nothing. */
  predicate FetchEnabled(id: Option<int>) {
    id.Some? && id.value != 0
  }
}
