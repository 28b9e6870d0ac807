/**
 * The nested-dict building of `parse_to_json_form` in weko_search_ui/utils.py:
 * `set_nested_item` over auto-vivifying dicts, `convert_nested_item_to_list`,
 * the recursive `convert_data` and the loop that fills the form from the
 * flattened TSV pairs.
 */
module NestedItems {
  import opened Wrappers
  import opened Strings
  import opened JsonValues
  import opened ImportKeys

  /** The value reached by following `path` through nested dicts, when every step exists. */
  function Lookup(j: Json, path: seq<string>): Option<Json>
    decreases |path|
  {
    if |path| == 0 then Some(j)
    else if !j.Dict? then None
    else match Get(j.entries, path[0])
      case None => None
      case Some(c) => Lookup(c, path[1..])
  }

  /** Walking `q` from `d` meets a dict or nothing at all, never a value that cannot be subscripted by a key. */
  predicate Open(d: Json, q: seq<string>)
  {
    match Lookup(d, q)
    case Some(x) => x.Dict?
    case None => true
  }

  /** Two key paths that part ways at some position: neither is a prefix of the other. */
  predicate Diverge(p: seq<string>, q: seq<string>)
  {
    exists k :: 0 <= k < |p| && k < |q| && p[k] != q[k]
  }

  /** No list anywhere inside: what the TSV pairs build before conversion. */
  predicate ListFree(j: Json)
    decreases j
  {
    match j
    case List(_) => false
    case Dict(es) => forall i :: 0 <= i < |es| ==> ListFree(es[i].1)
    case _ => true
  }

  /**
   * `set_nested_item` on the auto-vivifying dict built by `defaultify`: every
   * missing dict on the way is created empty (and so goes last in its parent),
   * subscripting a value that is not a dict is a TypeError and an empty path
   * fails on `map_list[-1]`.
   */
  function SetNestedItem(d: Json, path: seq<string>, v: Json): Result<Json, PyError>
    decreases |path|
  {
    if |path| == 0 then Err(IndexError)
    else if !d.Dict? then Err(TypeError)
    else if |path| == 1 then Ok(Dict(Put(d.entries, path[0], v)))
    else
      var child := match Get(d.entries, path[0]) case Some(c) => c case None => Dict([]);
      match SetNestedItem(child, path[1..], v)
      case Err(e) => Err(e)
      case Ok(c') => Ok(Dict(Put(d.entries, path[0], c')))
  }

  /** One step of a walk from a dict. */
  lemma LookupStep(es: seq<(string, Json)>, p: seq<string>)
    requires |p| > 0
    ensures Lookup(Dict(es), p) == match Get(es, p[0]) case None => None case Some(c) => Lookup(c, p[1..])
  {
  }

  /** Nothing but the empty path is found in a fresh empty dict. */
  lemma LookupEmptyDict(q: seq<string>)
    ensures Lookup(Dict([]), q) == if |q| == 0 then Some(Dict([])) else None
  {
  }

  /** After `set_nested_item(d, p, v)` the value at `p` is `v`. */
  lemma {:induction false} SetNestedItemLands(d: Json, p: seq<string>, v: Json)
    requires SetNestedItem(d, p, v).Ok?
    ensures Lookup(SetNestedItem(d, p, v).value, p) == Some(v)
    decreases |p|
  {
    var es := d.entries;
    if |p| == 1 {
      GetPutSame(es, p[0], v);
      LookupStep(Put(es, p[0], v), p);
    } else {
      var child := match Get(es, p[0]) case Some(c) => c case None => Dict([]);
      SetNestedItemLands(child, p[1..], v);
      var c' := SetNestedItem(child, p[1..], v).value;
      GetPutSame(es, p[0], c');
      LookupStep(Put(es, p[0], c'), p);
    }
  }

  /** `set_nested_item(d, p, v)` changes no value at a path that parts ways with `p`. */
  lemma {:induction false} SetNestedItemOther(d: Json, p: seq<string>, v: Json, q: seq<string>)
    requires SetNestedItem(d, p, v).Ok?
    requires Diverge(p, q)
    ensures Lookup(SetNestedItem(d, p, v).value, q) == Lookup(d, q)
    decreases |p|
  {
    var es := d.entries;
    var k :| 0 <= k < |p| && k < |q| && p[k] != q[k];
    if p[0] != q[0] {
      var c' := SetNestedItem(d, p, v).value.entries;
      if |p| == 1 {
        GetPutOther(es, p[0], v, q[0]);
      } else {
        var child := match Get(es, p[0]) case Some(c) => c case None => Dict([]);
        GetPutOther(es, p[0], SetNestedItem(child, p[1..], v).value, q[0]);
      }
      LookupStep(c', q);
      LookupStep(es, q);
    } else {
      assert 1 <= k && |p| >= 2;
      var child := match Get(es, p[0]) case Some(c) => c case None => Dict([]);
      assert p[1..][k - 1] != q[1..][k - 1];
      SetNestedItemOther(child, p[1..], v, q[1..]);
      var c' := SetNestedItem(child, p[1..], v).value;
      GetPutSame(es, p[0], c');
      LookupStep(Put(es, p[0], c'), q);
      LookupStep(es, q);
      LookupEmptyDict(q[1..]);
    }
  }

  /**
   * `set_nested_item(d, p, v)` succeeds exactly when the path is not empty and
   * the walk along every proper prefix of it meets a dict or nothing.
   */
  lemma {:induction false} SetNestedItemOk(d: Json, p: seq<string>, v: Json)
    ensures SetNestedItem(d, p, v).Ok? <==> |p| > 0 && forall k :: 0 <= k < |p| ==> Open(d, p[..k])
    decreases |p|
  {
    if |p| > 0 {
      assert p[..0] == [];
      if d.Dict? && |p| > 1 {
        var es := d.entries;
        var child := match Get(es, p[0]) case Some(c) => c case None => Dict([]);
        SetNestedItemOk(child, p[1..], v);
        forall k | 1 <= k < |p|
          ensures Open(d, p[..k]) == Open(child, p[1..][..k - 1])
        {
          assert p[..k][1..] == p[1..][..k - 1];
          LookupStep(es, p[..k]);
          LookupEmptyDict(p[1..][..k - 1]);
        }
        if SetNestedItem(d, p, v).Ok? {
          forall k | 0 <= k < |p| ensures Open(d, p[..k]) {
            if k > 0 {
              assert Open(child, p[1..][..k - 1]);
            }
          }
        }
        if forall k :: 0 <= k < |p| ==> Open(d, p[..k]) {
          forall k' | 0 <= k' < |p[1..]| ensures Open(child, p[1..][..k']) {
            assert Open(d, p[..k' + 1]);
          }
        }
      }
    }
  }

  /** `set_nested_item` keeps the root a dict and brings in no list but one inside `v`. */
  lemma {:induction false} SetNestedItemListFree(d: Json, p: seq<string>, v: Json)
    requires SetNestedItem(d, p, v).Ok? && ListFree(d) && ListFree(v)
    ensures SetNestedItem(d, p, v).value.Dict? && ListFree(SetNestedItem(d, p, v).value)
    decreases |p|
  {
    var es := d.entries;
    var c' := if |p| == 1 then v else
      var child := match Get(es, p[0]) case Some(c) => c case None => Dict([]);
      SetNestedItem(child, p[1..], v).value;
    if |p| > 1 {
      var child := match Get(es, p[0]) case Some(c) => c case None => Dict([]);
      GetIn(es, p[0]);
      SetNestedItemListFree(child, p[1..], v);
    }
    PutEntries(es, p[0], c');
    var es' := Put(es, p[0], c');
    forall i | 0 <= i < |es'| ensures ListFree(es'[i].1) {
      assert es'[i] in es';
    }
  }

  /** A walk that finds a value passes through dicts only. */
  lemma {:induction false} LookupPrefixOpen(d: Json, p: seq<string>, k: nat)
    requires Lookup(d, p).Some? && k < |p|
    ensures Lookup(d, p[..k]).Some? && Lookup(d, p[..k]).value.Dict?
    decreases |p|
  {
    if k > 0 {
      var c := Get(d.entries, p[0]).value;
      LookupPrefixOpen(c, p[1..], k - 1);
      assert p[..k][1..] == p[1..][..k - 1];
      LookupStep(d.entries, p[..k]);
    }
  }

  /**
   * `convert_nested_item_to_list`: the dict at `path` is replaced by the list
   * of its values. Reading the value auto-creates a missing dict, which then
   * becomes an empty list; a value that is not a dict has no `values()`.
   */
  function ConvertNestedItemToList(d: Json, path: seq<string>): Result<Json, PyError>
  {
    if |path| == 0 then Err(IndexError)
    else match Lookup(d, path)
      case Some(Dict(es)) => SetNestedItem(d, path, List(Values(es)))
      case Some(_) => Err(AttributeError)
      case None => SetNestedItem(d, path, List([]))
  }

  /**
   * On a dict found at a non-empty path, `convert_nested_item_to_list`
   * succeeds, leaves the list of that dict's values there in key order, and
   * changes nothing at a path that parts ways with it.
   */
  lemma ConvertNestedItemToListSpec(d: Json, p: seq<string>, es: seq<(string, Json)>, q: seq<string>)
    requires |p| > 0 && Lookup(d, p) == Some(Dict(es))
    ensures ConvertNestedItemToList(d, p).Ok?
    ensures Lookup(ConvertNestedItemToList(d, p).value, p) == Some(List(Values(es)))
    ensures Diverge(p, q) ==> Lookup(ConvertNestedItemToList(d, p).value, q) == Lookup(d, q)
  {
    forall k | 0 <= k < |p| ensures Open(d, p[..k]) {
      LookupPrefixOpen(d, p, k);
    }
    SetNestedItemOk(d, p, List(Values(es)));
    SetNestedItemLands(d, p, List(Values(es)));
    if Diverge(p, q) {
      SetNestedItemOther(d, p, List(Values(es)), q);
    }
  }

  /**
   * `convert_data`: children first, every dict whose first key is numeric
   * becomes the list of its values. An empty dict fails on `list_pro[0]`,
   * and a numeric first key at the root fails on the empty path. Lists are
   * not entered.
   */
  function ConvertData(j: Json, atRoot: bool): Result<Json, PyError>
    decreases j
  {
    match j
    case Dict(es) =>
      var kids := seq(|es|, i requires 0 <= i < |es| => ConvertData(es[i].1, false));
      if exists i :: 0 <= i < |es| && kids[i].Err? then Err(IndexError)
      else if |es| == 0 then Err(IndexError)
      else
        var es' := seq(|es|, i requires 0 <= i < |es| => (es[i].0, kids[i].value));
        if !IsNumeric(es[0].0) then Ok(Dict(es'))
        else if atRoot then Err(IndexError)
        else Ok(List(Values(es')))
    case _ => Ok(j)
  }

  /** No dict inside is empty (lists are not entered, as `convert_data` does not enter them). */
  predicate NoEmptyDict(j: Json)
    decreases j
  {
    match j
    case Dict(es) => |es| > 0 && forall i :: 0 <= i < |es| ==> NoEmptyDict(es[i].1)
    case _ => true
  }

  /** Every dict inside is non-empty and keyed by a non-numeric first key, also inside lists. */
  predicate Converted(j: Json)
    decreases j
  {
    match j
    case Dict(es) => |es| > 0 && !IsNumeric(es[0].0) && forall i :: 0 <= i < |es| ==> Converted(es[i].1)
    case List(xs) => forall i :: 0 <= i < |xs| ==> Converted(xs[i])
    case _ => true
  }

  /** `convert_data` succeeds exactly when no dict inside is empty and the root's first key is not numeric. */
  lemma {:induction false} ConvertDataOk(j: Json, atRoot: bool)
    ensures ConvertData(j, atRoot).Ok? <==>
      NoEmptyDict(j) && !(atRoot && j.Dict? && |j.entries| > 0 && IsNumeric(j.entries[0].0))
    decreases j
  {
    if j.Dict? {
      var es := j.entries;
      var kids := seq(|es|, i requires 0 <= i < |es| => ConvertData(es[i].1, false));
      forall i | 0 <= i < |es| ensures kids[i].Ok? <==> NoEmptyDict(es[i].1) {
        ConvertDataOk(es[i].1, false);
      }
      assert (exists i :: 0 <= i < |es| && kids[i].Err?) <==> (exists i :: 0 <= i < |es| && !NoEmptyDict(es[i].1));
    }
  }

  /** On a list-free value, a successful `convert_data` leaves a converted value, a dict at the root. */
  lemma {:induction false} ConvertDataConverted(j: Json, atRoot: bool)
    requires ListFree(j) && ConvertData(j, atRoot).Ok?
    ensures Converted(ConvertData(j, atRoot).value)
    ensures atRoot && j.Dict? ==> ConvertData(j, atRoot).value.Dict?
    decreases j
  {
    if j.Dict? {
      var es := j.entries;
      var kids := seq(|es|, i requires 0 <= i < |es| => ConvertData(es[i].1, false));
      assert !exists i :: 0 <= i < |es| && kids[i].Err?;
      forall i | 0 <= i < |es| ensures kids[i].Ok? && Converted(kids[i].value) {
        assert kids[i].Ok? && ListFree(es[i].1);
        ConvertDataConverted(es[i].1, false);
      }
    }
  }

  /** A converted value is left as it is: converting twice is converting once. */
  lemma {:induction false} ConvertDataFixpoint(j: Json, atRoot: bool)
    requires Converted(j)
    ensures ConvertData(j, atRoot) == Ok(j)
    decreases j
  {
    if j.Dict? {
      var es := j.entries;
      var kids := seq(|es|, i requires 0 <= i < |es| => ConvertData(es[i].1, false));
      forall i | 0 <= i < |es| ensures kids[i] == Ok(es[i].1) {
        ConvertDataFixpoint(es[i].1, false);
      }
      var es' := seq(|es|, i requires 0 <= i < |es| => (es[i].0, kids[i].value));
      assert es' == es;
    }
  }

  /** The strings inside a value, in document order. */
  function Leaves(j: Json): seq<string>
    decreases j, 2
  {
    match j
    case Null => []
    case Str(s) => [s]
    case Dict(_) => EntryLeaves(j, 0)
    case List(_) => ItemLeaves(j, 0)
  }

  /** The strings inside the values of a dict, from its `i`-th entry on. */
  function EntryLeaves(j: Json, i: nat): seq<string>
    requires j.Dict? && i <= |j.entries|
    decreases j, 1, |j.entries| - i
  {
    if i == |j.entries| then [] else Leaves(j.entries[i].1) + EntryLeaves(j, i + 1)
  }

  /** The strings inside the items of a list, from its `i`-th item on. */
  function ItemLeaves(j: Json, i: nat): seq<string>
    requires j.List? && i <= |j.items|
    decreases j, 1, |j.items| - i
  {
    if i == |j.items| then [] else Leaves(j.items[i]) + ItemLeaves(j, i + 1)
  }

  lemma {:induction false} EntryLeavesAgree(a: Json, b: Json, i: nat)
    requires a.Dict? && b.Dict? && |a.entries| == |b.entries| && i <= |a.entries|
    requires forall n :: 0 <= n < |a.entries| ==> Leaves(a.entries[n].1) == Leaves(b.entries[n].1)
    ensures EntryLeaves(a, i) == EntryLeaves(b, i)
    decreases |a.entries| - i
  {
    if i < |a.entries| {
      EntryLeavesAgree(a, b, i + 1);
    }
  }

  lemma {:induction false} ItemEntryLeaves(a: Json, b: Json, i: nat)
    requires a.Dict? && b.List? && |a.entries| == |b.items| && i <= |a.entries|
    requires forall n :: 0 <= n < |a.entries| ==> b.items[n] == a.entries[n].1
    ensures ItemLeaves(b, i) == EntryLeaves(a, i)
    decreases |a.entries| - i
  {
    if i < |a.entries| {
      ItemEntryLeaves(a, b, i + 1);
    }
  }

  /** `convert_data` keeps every string of the form, in the same order. */
  lemma {:induction false} ConvertDataLeaves(j: Json, atRoot: bool)
    requires ConvertData(j, atRoot).Ok?
    ensures Leaves(ConvertData(j, atRoot).value) == Leaves(j)
    decreases j
  {
    if j.Dict? {
      var es := j.entries;
      var kids := seq(|es|, i requires 0 <= i < |es| => ConvertData(es[i].1, false));
      assert !exists i :: 0 <= i < |es| && kids[i].Err?;
      var es' := seq(|es|, i requires 0 <= i < |es| => (es[i].0, kids[i].value));
      forall n | 0 <= n < |es| ensures Leaves(es'[n].1) == Leaves(es[n].1) {
        assert kids[n].Ok?;
        ConvertDataLeaves(es[n].1, false);
      }
      EntryLeavesAgree(Dict(es'), j, 0);
      if IsNumeric(es[0].0) {
        ItemEntryLeaves(Dict(es'), List(Values(es')), 0);
      }
    }
  }

  /**
   * The dict `parse_to_json_form` holds after setting the value of every
   * pair of `data`, in order, at the key path of its key.
   */
  function FillForm(data: seq<(string, string)>): Result<Json, PyError>
    decreases |data|
  {
    if |data| == 0 then Ok(Dict([]))
    else match FillForm(data[..|data| - 1])
      case Err(e) => Err(e)
      case Ok(d) => SetNestedItem(d, KeyPath(data[|data| - 1].0), Str(data[|data| - 1].1))
  }

  /** What `parse_to_json_form` returns or raises for `data`. */
  function ParseForm(data: seq<(string, string)>): Result<Json, PyError>
  {
    match FillForm(data)
    case Err(e) => Err(e)
    case Ok(d) => ConvertData(d, true)
  }

  /** Once a pair fails to be set, the whole form fails with that error. */
  lemma {:induction false} FillFormErrSticky(data: seq<(string, string)>, n: nat)
    requires n <= |data| && FillForm(data[..n]).Err?
    ensures FillForm(data) == FillForm(data[..n])
    decreases |data| - n
  {
    if n < |data| {
      assert data[..n + 1][..n] == data[..n];
      FillFormErrSticky(data, n + 1);
    } else {
      assert data[..n] == data;
    }
  }

  /** The form built from TSV pairs is a dict holding no list. */
  lemma {:induction false} FillFormShape(data: seq<(string, string)>)
    requires FillForm(data).Ok?
    ensures FillForm(data).value.Dict? && ListFree(FillForm(data).value)
    decreases |data|
  {
    if |data| > 0 {
      FillFormShape(data[..|data| - 1]);
      var last := data[|data| - 1];
      SetNestedItemListFree(FillForm(data[..|data| - 1]).value, KeyPath(last.0), Str(last.1));
    }
  }

  /**
   * The value of a pair is found at its key path in the form, unless a later
   * pair's key path does not part ways with it (the same key, or one of the
   * two paths extending the other).
   */
  lemma {:induction false} FillFormLands(data: seq<(string, string)>, i: nat)
    requires FillForm(data).Ok? && i < |data|
    requires forall j :: i < j < |data| ==> Diverge(KeyPath(data[j].0), KeyPath(data[i].0))
    ensures Lookup(FillForm(data).value, KeyPath(data[i].0)) == Some(Str(data[i].1))
    decreases |data|
  {
    var n := |data| - 1;
    var prefix := data[..n];
    FillFormLast(data);
    var d0 := FillForm(prefix).value;
    if i == n {
      SetNestedItemLands(d0, KeyPath(data[n].0), Str(data[n].1));
    } else {
      assert prefix[i] == data[i];
      assert forall j :: i < j < |prefix| ==> prefix[j] == data[j];
      FillFormLands(prefix, i);
      assert Diverge(KeyPath(data[n].0), KeyPath(data[i].0));
      SetNestedItemOther(d0, KeyPath(data[n].0), Str(data[n].1), KeyPath(data[i].0));
    }
  }

  /** A form that builds was built from a prefix that builds, by setting the last pair. */
  lemma FillFormLast(data: seq<(string, string)>)
    requires FillForm(data).Ok? && |data| > 0
    ensures FillForm(data[..|data| - 1]).Ok?
    ensures FillForm(data) ==
      SetNestedItem(FillForm(data[..|data| - 1]).value, KeyPath(data[|data| - 1].0), Str(data[|data| - 1].1))
  {
  }

  /**
   * A form that `parse_to_json_form` returns is a dict with no empty dict and
   * no numeric-keyed dict left, holding every TSV value in the order the
   * pairs put them in the form; parsing it again would leave it unchanged.
   */
  lemma ParseFormShape(data: seq<(string, string)>)
    requires ParseForm(data).Ok?
    ensures ParseForm(data).value.Dict? && Converted(ParseForm(data).value)
    ensures Leaves(ParseForm(data).value) == Leaves(FillForm(data).value)
    ensures ConvertData(ParseForm(data).value, true) == ParseForm(data)
  {
    var d := FillForm(data).value;
    FillFormShape(data);
    ConvertDataConverted(d, true);
    ConvertDataLeaves(d, true);
    ConvertDataFixpoint(ParseForm(data).value, true);
  }

  /**
   * A dict converts in place: one whose first key is numeric (below the
   * root) becomes the list of its converted values, any other keeps its keys
   * in order and holds the converted values.
   */
  lemma ConvertDataDict(j: Json, atRoot: bool)
    requires j.Dict? && ConvertData(j, atRoot).Ok?
    ensures |j.entries| > 0
    ensures forall i :: 0 <= i < |j.entries| ==> ConvertData(j.entries[i].1, false).Ok?
    ensures IsNumeric(j.entries[0].0) ==>
      var r := ConvertData(j, atRoot).value;
      !atRoot && r.List? && |r.items| == |j.entries|
      && forall i :: 0 <= i < |j.entries| ==> r.items[i] == ConvertData(j.entries[i].1, false).value
    ensures !IsNumeric(j.entries[0].0) ==>
      var r := ConvertData(j, atRoot).value;
      r.Dict? && Keys(r.entries) == Keys(j.entries)
      && forall i :: 0 <= i < |j.entries| ==> r.entries[i].1 == ConvertData(j.entries[i].1, false).value
  {
    var es := j.entries;
    var kids := seq(|es|, i requires 0 <= i < |es| => ConvertData(es[i].1, false));
    assert !exists i :: 0 <= i < |es| && kids[i].Err?;
    forall i | 0 <= i < |es| ensures ConvertData(es[i].1, false).Ok? {
      assert kids[i] == ConvertData(es[i].1, false);
    }
  }

  /** The form of `a.b.0 = x` converts to `{"a": {"b": ["x"]}}`: only the numeric-keyed dict becomes a list. */
  lemma ConvertDataExample()
    ensures ConvertData(Dict([("a", Dict([("b", Dict([("0", Str("x"))]))]))]), true)
         == Ok(Dict([("a", Dict([("b", List([Str("x")]))]))]))
  {
    assert IsNumeric("0") && !IsDigit("a"[0]) && !IsDigit("b"[0]);
    var inner := Dict([("0", Str("x"))]);
    var mid := Dict([("b", inner)]);
    var top := Dict([("a", mid)]);
    ConvertDataOk(inner, false);
    ConvertDataDict(inner, false);
    assert ConvertData(inner, false).value == List([Str("x")]);
    ConvertDataOk(mid, false);
    ConvertDataDict(mid, false);
    assert Keys(ConvertData(mid, false).value.entries) == ["b"];
    assert ConvertData(mid, false).value == Dict([("b", List([Str("x")]))]);
    ConvertDataOk(top, true);
    ConvertDataDict(top, true);
    var r := ConvertData(top, true).value;
    assert Keys(r.entries) == ["a"];
    assert r.entries == [("a", ConvertData(mid, false).value)];
  }

  /** A key path that only passes dicts whose first key is not numeric: those stay dicts. */
  predicate PlainPath(j: Json, p: seq<string>)
    decreases |p|
  {
    |p| == 0
    || (j.Dict? && |j.entries| > 0 && !IsNumeric(j.entries[0].0)
        && Get(j.entries, p[0]).Some? && PlainPath(Get(j.entries, p[0]).value, p[1..]))
  }

  /** Two dicts with the same keys in the same order find a key at the same position. */
  lemma {:induction false} GetSameKeys<V, W>(es: seq<(string, V)>, fs: seq<(string, W)>, k: string) returns (i: nat)
    requires |es| == |fs| && forall n :: 0 <= n < |es| ==> es[n].0 == fs[n].0
    requires Get(es, k).Some?
    ensures i < |es| && Get(es, k) == Some(es[i].1) && Get(fs, k) == Some(fs[i].1)
  {
    if es[0].0 == k {
      i := 0;
    } else {
      var i' := GetSameKeys(es[1..], fs[1..], k);
      i := i' + 1;
    }
  }

  /**
   * Conversion keeps a value where it was: along a path through dicts with a
   * non-numeric first key, the converted tree holds the converted value.
   */
  lemma {:induction false} ConvertDataLookup(j: Json, atRoot: bool, p: seq<string>)
    requires ConvertData(j, atRoot).Ok? && PlainPath(j, p)
    ensures Lookup(j, p).Some? && ConvertData(Lookup(j, p).value, false).Ok?
    ensures Lookup(ConvertData(j, atRoot).value, p) == Some(ConvertData(Lookup(j, p).value, false).value)
    decreases |p|
  {
    if |p| == 0 {
      assert ConvertData(j, false) == ConvertData(j, atRoot);
    } else {
      var es := j.entries;
      ConvertDataDict(j, atRoot);
      var r := ConvertData(j, atRoot).value;
      var i := GetSameKeys(es, r.entries, p[0]);
      ConvertDataLookup(es[i].1, false, p[1..]);
      LookupStep(es, p);
      LookupStep(r.entries, p);
    }
  }

  /**
   * A TSV value no later pair overwrites is found at its key path in the
   * parsed form when that path only passes dicts with a non-numeric first key.
   */
  lemma ParseFormLands(data: seq<(string, string)>, i: nat)
    requires ParseForm(data).Ok? && i < |data|
    requires forall j :: i < j < |data| ==> Diverge(KeyPath(data[j].0), KeyPath(data[i].0))
    requires PlainPath(FillForm(data).value, KeyPath(data[i].0))
    ensures Lookup(ParseForm(data).value, KeyPath(data[i].0)) == Some(Str(data[i].1))
  {
    FillFormLands(data, i);
    ConvertDataLookup(FillForm(data).value, true, KeyPath(data[i].0));
  }

  /**
   * `parse_to_json_form`: the loop sets every pair at the key path of its
   * key, stopping at the first error, and the result is then converted.
   */
  method ParseToJsonForm(data: seq<(string, string)>) returns (r: Result<Json, PyError>)
    ensures r == ParseForm(data)
  {
    var result := Dict([]);
    for i := 0 to |data|
      invariant FillForm(data[..i]) == Ok(result)
    {
      var (key, value) := data[i];
      var step := SetNestedItem(result, KeyPath(key), Str(value));
      assert data[..i + 1][..i] == data[..i];
      if step.Err? {
        FillFormErrSticky(data, i + 1);
        return Err(step.error);
      }
      result := step.value;
    }
    assert data[..|data|] == data;
    r := ConvertData(result, true);
  }
}
