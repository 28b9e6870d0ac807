/**
 * JSON-like values as the modelled Python code handles them. A Python dict
 * keeps its keys in insertion order, so a dict is an association list whose
 * keys are kept distinct by the only update operation, `Put`.
 */
module JsonValues {
  import opened Wrappers

  datatype Json =
    | Null
    | Str(s: string)
    | Dict(entries: seq<(string, Json)>)
    | List(items: seq<Json>)

  /** Python's `list(d.keys())`. */
  function Keys<V>(es: seq<(string, V)>): (ks: seq<string>)
    ensures |ks| == |es| && forall i :: 0 <= i < |es| ==> ks[i] == es[i].0
  {
    seq(|es|, i requires 0 <= i < |es| => es[i].0)
  }

  /** Python's `list(d.values())`. */
  function Values<V>(es: seq<(string, V)>): (vs: seq<V>)
    ensures |vs| == |es| && forall i :: 0 <= i < |es| ==> vs[i] == es[i].1
  {
    seq(|es|, i requires 0 <= i < |es| => es[i].1)
  }

  /** Python's `d.get(k)`. */
  function Get<V>(es: seq<(string, V)>, k: string): Option<V>
  {
    if |es| == 0 then None
    else if es[0].0 == k then Some(es[0].1)
    else Get(es[1..], k)
  }

  /** Python's `d[k] = v`: a key already present keeps its place, a new key goes last. */
  function Put<V>(es: seq<(string, V)>, k: string, v: V): seq<(string, V)>
  {
    if |es| == 0 then [(k, v)]
    else if es[0].0 == k then [(k, v)] + es[1..]
    else [es[0]] + Put(es[1..], k, v)
  }

  /** The keys of a Python dict are distinct. */
  predicate DistinctKeys<V>(es: seq<(string, V)>)
  {
    forall i, j :: 0 <= i < j < |es| ==> es[i].0 != es[j].0
  }

  /** After `d[k] = v`, `d.get(k)` is `v`. */
  lemma {:induction false} GetPutSame<V>(es: seq<(string, V)>, k: string, v: V)
    ensures Get(Put(es, k, v), k) == Some(v)
  {
    if |es| > 0 && es[0].0 != k {
      GetPutSame(es[1..], k, v);
    }
  }

  /** `d[k] = v` leaves every other key's value alone. */
  lemma {:induction false} GetPutOther<V>(es: seq<(string, V)>, k: string, v: V, k': string)
    requires k' != k
    ensures Get(Put(es, k, v), k') == Get(es, k')
  {
    if |es| > 0 && es[0].0 != k {
      GetPutOther(es[1..], k, v, k');
    }
  }

  /** `d[k] = v` keeps the key order and appends a new key at the end. */
  lemma {:induction false} KeysPut<V>(es: seq<(string, V)>, k: string, v: V)
    ensures Keys(Put(es, k, v)) == if k in Keys(es) then Keys(es) else Keys(es) + [k]
  {
    var p := Put(es, k, v);
    if |es| == 0 {
      assert Keys(p) == [k];
    } else if es[0].0 == k {
      assert p == [(k, v)] + es[1..];
      assert Keys(es)[0] == k;
      assert Keys(p) == Keys(es);
    } else {
      KeysPut(es[1..], k, v);
      KeysCons(es[0], Put(es[1..], k, v));
      KeysCons(es[0], es[1..]);
      assert es == [es[0]] + es[1..];
      assert (k in Keys(es)) == (k in Keys(es[1..]));
    }
  }

  lemma KeysCons<V>(e: (string, V), es: seq<(string, V)>)
    ensures Keys([e] + es) == [e.0] + Keys(es)
  {
  }

  /** `d[k] = v` keeps the keys distinct. */
  lemma PutDistinct<V>(es: seq<(string, V)>, k: string, v: V)
    requires DistinctKeys(es)
    ensures DistinctKeys(Put(es, k, v))
  {
    KeysPut(es, k, v);
    var ks := Keys(Put(es, k, v));
    forall i, j | 0 <= i < j < |Put(es, k, v)|
      ensures Put(es, k, v)[i].0 != Put(es, k, v)[j].0
    {
      assert ks[i] == Put(es, k, v)[i].0 && ks[j] == Put(es, k, v)[j].0;
      if k !in Keys(es) && j == |es| {
        assert ks[i] == es[i].0 && ks[i] in Keys(es);
      }
    }
  }

  /** `d.get(k)` finds a stored pair. */
  lemma {:induction false} GetIn<V>(es: seq<(string, V)>, k: string)
    ensures Get(es, k).Some? ==> (k, Get(es, k).value) in es
  {
    if |es| > 0 && es[0].0 != k {
      GetIn(es[1..], k);
    }
  }

  /** Looking up a key in a dict with one more pair appended last. */
  lemma {:induction false} GetAppend<V>(es: seq<(string, V)>, k: string, v: V, key: string)
    ensures Get(es + [(k, v)], key) == if Get(es, key).Some? then Get(es, key) else if key == k then Some(v) else None
  {
    if |es| > 0 {
      assert (es + [(k, v)])[1..] == es[1..] + [(k, v)];
      GetAppend(es[1..], k, v, key);
    }
  }

  /** `d.get(k)` is None for a key no pair has. */
  lemma {:induction false} GetAbsent<V>(es: seq<(string, V)>, k: string)
    requires forall i :: 0 <= i < |es| ==> es[i].0 != k
    ensures Get(es, k).None?
  {
    if |es| > 0 {
      GetAbsent(es[1..], k);
    }
  }

  /** `d[k] = v` stores no pair but the old ones and the new one. */
  lemma {:induction false} PutEntries<V>(es: seq<(string, V)>, k: string, v: V)
    ensures forall e :: e in Put(es, k, v) ==> e in es || e == (k, v)
  {
    if |es| > 0 && es[0].0 != k {
      PutEntries(es[1..], k, v);
    }
  }

  /** Python truthiness: None and empty strings, dicts and lists are false. */
  predicate Truthy(j: Json)
  {
    match j
    case Null => false
    case Str(s) => |s| > 0
    case Dict(es) => |es| > 0
    case List(xs) => |xs| > 0
  }
}
