/**
 * Insertion-ordered string-keyed maps: a JavaScript plain object, or a Python dict.
 * Entries are kept in insertion order; assigning to an existing key keeps its position.
 */
module OrderedMap {
  import opened Wrappers
  import Seqs

  type Entries<V> = seq<(string, V)>

  /** The keys in insertion order (`Object.keys`, `dict.keys()`). */
  function Keys<V>(m: Entries<V>): (r: seq<string>)
    ensures |r| == |m|
    ensures forall i :: 0 <= i < |m| ==> r[i] == m[i].0
  {
    if |m| == 0 then [] else [m[0].0] + Keys(m[1..])
  }

  /** No key occurs twice, as for every object or dict. */
  predicate DistinctKeys<V>(m: Entries<V>) {
    forall i, j :: 0 <= i < j < |m| ==> m[i].0 != m[j].0
  }

  /** The value stored under `k`, if any. */
  function Lookup<V>(m: Entries<V>, k: string): (r: Option<V>)
    ensures r.Some? <==> k in Keys(m)
  {
    if |m| == 0 then None
    else if m[0].0 == k then Some(m[0].1)
    else Lookup(m[1..], k)
  }

  /** `m[k] = v`: overwrites an existing key in place, otherwise appends it. */
  function Put<V>(m: Entries<V>, k: string, v: V): (r: Entries<V>)
    ensures Keys(r) == if k in Keys(m) then Keys(m) else Keys(m) + [k]
  {
    if |m| == 0 then [(k, v)]
    else if m[0].0 == k then [(k, v)] + m[1..]
    else [m[0]] + Put(m[1..], k, v)
  }

  /** After `m[k] = v`, `k` holds `v` and every other key is unaffected. */
  lemma {:induction false} PutLookup<V>(m: Entries<V>, k: string, v: V, k': string)
    ensures Lookup(Put(m, k, v), k') == if k' == k then Some(v) else Lookup(m, k')
    decreases |m|
  {
    if |m| > 0 && m[0].0 != k {
      var r := Put(m, k, v);
      assert r[1..] == Put(m[1..], k, v);
      PutLookup(m[1..], k, v, k');
    }
  }

  /** A new key is appended after the existing ones. */
  lemma PutNewKey<V>(m: Entries<V>, k: string, v: V)
    requires k !in Keys(m)
    ensures Keys(Put(m, k, v)) == Keys(m) + [k]
  {
  }

  /** Assigning a key the map lacks appends exactly one entry. */
  lemma {:induction false} PutAbsent<V>(m: Entries<V>, k: string, v: V)
    requires k !in Keys(m)
    ensures Put(m, k, v) == m + [(k, v)]
    decreases |m|
  {
    if |m| > 0 {
      assert Keys(m)[0] == m[0].0;
      assert Keys(m[1..]) == Keys(m)[1..];
      PutAbsent(m[1..], k, v);
      assert [m[0]] + (m[1..] + [(k, v)]) == m + [(k, v)];
    }
  }

  /** With distinct keys, each key finds the value stored beside it. */
  lemma {:induction false} LookupDistinct<V>(m: Entries<V>, i: nat)
    requires DistinctKeys(m) && i < |m|
    ensures Lookup(m, m[i].0) == Some(m[i].1)
    decreases i
  {
    if i > 0 {
      assert m[0].0 != m[i].0;
      assert m[1..][i - 1] == m[i];
      assert DistinctKeys(m[1..]) by {
        forall a, b | 0 <= a < b < |m| - 1 ensures m[1..][a].0 != m[1..][b].0 {
          assert m[1..][a] == m[a + 1] && m[1..][b] == m[b + 1];
        }
      }
      LookupDistinct(m[1..], i - 1);
    }
  }

  lemma PutDistinct<V>(m: Entries<V>, k: string, v: V)
    requires DistinctKeys(m)
    ensures DistinctKeys(Put(m, k, v))
  {
    var r := Put(m, k, v);
    forall i, j | 0 <= i < j < |r| ensures r[i].0 != r[j].0 {
      assert Keys(r)[i] == r[i].0 && Keys(r)[j] == r[j].0;
      if k !in Keys(m) && j == |m| {
        assert Keys(m)[i] == m[i].0;
      } else {
        assert Keys(m)[i] == m[i].0 && Keys(m)[j] == m[j].0;
      }
    }
  }

  /** `Object.assign(target, source)`: copies every source entry into the target, in source order. */
  function Assign<V>(target: Entries<V>, source: Entries<V>): Entries<V>
    decreases |source|
  {
    if |source| == 0 then target
    else Assign(Put(target, source[0].0, source[0].1), source[1..])
  }

  /** After assignment a key carries the source value if the source has it, else the target value. */
  lemma {:induction false} AssignLookup<V>(target: Entries<V>, source: Entries<V>, k: string)
    requires DistinctKeys(source)
    ensures Lookup(Assign(target, source), k)
         == if k in Keys(source) then Lookup(source, k) else Lookup(target, k)
    decreases |source|
  {
    if |source| > 0 {
      var rest := source[1..];
      assert DistinctKeys(rest);
      AssignLookup(Put(target, source[0].0, source[0].1), rest, k);
      PutLookup(target, source[0].0, source[0].1, k);
      if k in Keys(rest) {
        var i :| 0 <= i < |rest| && Keys(rest)[i] == k;
        assert source[i + 1].0 == k;
        assert source[0].0 != k;
      }
    }
  }

  /**
   * After assignment the target's keys keep their positions, and the source keys the target
   * lacked follow them in source order.
   */
  lemma {:induction false} AssignKeys<V>(target: Entries<V>, source: Entries<V>)
    requires DistinctKeys(source)
    ensures Keys(Assign(target, source)) == Keys(target) + NewKeys(Keys(target), Keys(source))
    decreases |source|
  {
    if |source| > 0 {
      var k0 := source[0].0;
      var rest := source[1..];
      var t' := Put(target, k0, source[0].1);
      assert DistinctKeys(rest);
      AssignKeys(t', rest);
      assert Keys(source) == [k0] + Keys(rest);
      assert k0 !in Keys(rest) by {
        forall i | 0 <= i < |rest| ensures Keys(rest)[i] != k0 {
          assert source[i + 1].0 == Keys(rest)[i];
        }
      }
      NewKeysStep(Keys(target), k0, Keys(rest));
    }
  }

  /** The keys of `ks` not already among `existing`, in the order of `ks`. */
  function NewKeys(existing: seq<string>, ks: seq<string>): seq<string> {
    Seqs.Filter(ks, k => k !in existing)
  }

  lemma NewKeysStep(existing: seq<string>, k0: string, rest: seq<string>)
    requires k0 !in rest
    ensures (if k0 in existing then existing else existing + [k0])
              + NewKeys(if k0 in existing then existing else existing + [k0], rest)
         == existing + NewKeys(existing, [k0] + rest)
  {
    var p := k => k !in existing;
    Seqs.FilterAppend([k0], rest, p);
    assert NewKeys(existing, [k0] + rest) == Seqs.Filter([k0], p) + NewKeys(existing, rest);
    if k0 !in existing {
      assert Seqs.Filter([k0], p) == [k0];
      NewKeysExtend(existing, k0, rest);
    } else {
      assert Seqs.Filter([k0], p) == [];
    }
  }

  lemma NewKeysExtend(existing: seq<string>, k0: string, rest: seq<string>)
    requires k0 !in rest
    ensures NewKeys(existing + [k0], rest) == NewKeys(existing, rest)
  {
    var p := k => k !in existing + [k0];
    var q := k => k !in existing;
    forall i | 0 <= i < |rest| ensures p(rest[i]) == q(rest[i]) {
      assert rest[i] != k0;
    }
    Seqs.FilterCongruent(rest, p, q);
  }

  lemma {:induction false} AssignDistinct<V>(target: Entries<V>, source: Entries<V>)
    requires DistinctKeys(target)
    ensures DistinctKeys(Assign(target, source))
    decreases |source|
  {
    if |source| > 0 {
      PutDistinct(target, source[0].0, source[0].1);
      AssignDistinct(Put(target, source[0].0, source[0].1), source[1..]);
    }
  }

  /** Replaces every value by `f` of it, keeping keys and order. */
  function MapValues<V, W>(m: Entries<V>, f: V -> W): (r: Entries<W>)
    ensures |r| == |m|
    ensures forall i :: 0 <= i < |m| ==> r[i] == (m[i].0, f(m[i].1))
  {
    Seqs.Map(m, (e: (string, V)) => (e.0, f(e.1)))
  }

  /** Mapping values keeps the key sequence and maps each looked-up value. */
  lemma {:induction false} MapValuesLookup<V, W>(m: Entries<V>, f: V -> W, k: string)
    ensures Keys(MapValues(m, f)) == Keys(m)
    ensures Lookup(MapValues(m, f), k) == if k in Keys(m) then Some(f(Lookup(m, k).value)) else None
    decreases |m|
  {
    if |m| > 0 {
      assert MapValues(m, f)[1..] == MapValues(m[1..], f);
      MapValuesLookup(m[1..], f, k);
    }
  }
}
