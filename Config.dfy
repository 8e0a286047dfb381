/**
 * The configuration document and the pure part of its updates: `override_value`
 * (a dotted path into nested objects) and the fold of `update_config_direct`.
 */
module Config {
  import opened Wrappers

  /** A JSON document as `json.load` returns it. */
  datatype Json =
    | JObject(fields: map<string, Json>)
    | JList(items: seq<Json>)
    | JStr(s: string)
    | JInt(i: int)
    | JBool(b: bool)
    | JNull

  /** The exceptions `override_value` can raise. */
  datatype ConfigError = KeyError(key: string) | TypeError

  /** Python `sep.join(parts)`. */
  function Join(parts: seq<string>, sep: char): string
    requires |parts| >= 1
  {
    if |parts| == 1 then parts[0] else parts[0] + [sep] + Join(parts[1..], sep)
  }

  /** The first occurrence of `sep` in `s`. */
  function FirstSep(s: string, sep: char): (i: nat)
    requires sep in s
    ensures i < |s| && s[i] == sep && sep !in s[..i]
  {
    if s[0] == sep then 0
    else
      var i := 1 + FirstSep(s[1..], sep);
      assert s[..i] == [s[0]] + s[1..][..i - 1];
      i
  }

  /** Python `s.split(sep)`: never empty, no part holds the separator, and joining gives `s` back. */
  function Split(s: string, sep: char): (parts: seq<string>)
    ensures |parts| >= 1
    ensures forall i :: 0 <= i < |parts| ==> sep !in parts[i]
    ensures Join(parts, sep) == s
    decreases |s|
  {
    if sep !in s then [s]
    else
      var i := FirstSep(s, sep);
      var rest := Split(s[i + 1..], sep);
      var parts := [s[..i]] + rest;
      assert parts[1..] == rest;
      assert s == s[..i] + [sep] + s[i + 1..];
      parts
  }

  /** Splitting a join of separator-free parts gives the parts back. */
  lemma {:induction false} SplitJoin(parts: seq<string>, sep: char)
    requires |parts| >= 1
    requires forall i :: 0 <= i < |parts| ==> sep !in parts[i]
    ensures Split(Join(parts, sep), sep) == parts
    decreases |parts|
  {
    if |parts| > 1 {
      var s := Join(parts, sep);
      var rest := Join(parts[1..], sep);
      assert s == parts[0] + [sep] + rest;
      assert s[|parts[0]|] == sep;
      assert s[..|parts[0]|] == parts[0];
      assert sep in s;
      var i := FirstSep(s, sep);
      assert forall k :: 0 <= k < |parts[0]| ==> s[k] == parts[0][k];
      assert forall k :: 0 <= k < i ==> s[..i][k] == s[k];
      assert i == |parts[0]|;
      assert s[i + 1..] == rest;
      SplitJoin(parts[1..], sep);
    }
  }

  /** `c[p0][p1]...`: the entry at a key path, if every step is an object holding the key. */
  function Lookup(j: Json, path: seq<string>): Option<Json>
    decreases |path|
  {
    if path == [] then Some(j)
    else if j.JObject? && path[0] in j.fields then Lookup(j.fields[path[0]], path[1..])
    else None
  }

  /** The key paths `p` and `q` part at some position both have. */
  predicate Diverge(p: seq<string>, q: seq<string>)
    decreases |p|
  {
    |p| > 0 && |q| > 0 && (p[0] != q[0] || Diverge(p[1..], q[1..]))
  }

  /** `p` is `q` or an ancestor of it. */
  predicate IsPrefix(p: seq<string>, q: seq<string>)
  {
    |p| <= |q| && q[..|p|] == p
  }

  /**
   * `override_value` on split path parts: walk every part but the last through
   * objects (KeyError on a missing key, TypeError on a non-object), then assign the
   * last key in the object reached.
   */
  function SetPath(j: Json, parts: seq<string>, v: Json): Result<Json, ConfigError>
    requires |parts| >= 1
    decreases |parts|
  {
    if !j.JObject? then Failure(TypeError)
    else if |parts| == 1 then Success(JObject(j.fields[parts[0] := v]))
    else if parts[0] !in j.fields then Failure(KeyError(parts[0]))
    else match SetPath(j.fields[parts[0]], parts[1..], v)
      case Success(c) => Success(JObject(j.fields[parts[0] := c]))
      case Failure(e) => Failure(e)
  }

  /** The assignment succeeds exactly when the parent path leads to an object. */
  lemma {:induction false} SetPathSucceeds(j: Json, parts: seq<string>, v: Json)
    requires |parts| >= 1
    ensures SetPath(j, parts, v).Success? <==>
      Lookup(j, parts[..|parts| - 1]).Some? && Lookup(j, parts[..|parts| - 1]).value.JObject?
    decreases |parts|
  {
    if j.JObject? && |parts| > 1 && parts[0] in j.fields {
      SetPathSucceeds(j.fields[parts[0]], parts[1..], v);
      assert parts[..|parts| - 1][1..] == parts[1..][..|parts| - 2];
    }
  }

  /** After the assignment the path holds the new value. */
  lemma {:induction false} SetPathWrites(j: Json, parts: seq<string>, v: Json)
    requires |parts| >= 1 && SetPath(j, parts, v).Success?
    ensures Lookup(SetPath(j, parts, v).value, parts) == Some(v)
    decreases |parts|
  {
    if |parts| > 1 {
      SetPathWrites(j.fields[parts[0]], parts[1..], v);
    }
  }

  /** Every entry off the assigned path is unchanged. */
  lemma {:induction false} SetPathFrame(j: Json, parts: seq<string>, v: Json, q: seq<string>)
    requires |parts| >= 1 && SetPath(j, parts, v).Success?
    requires Diverge(parts, q)
    ensures Lookup(SetPath(j, parts, v).value, q) == Lookup(j, q)
    decreases |parts|
  {
    if parts[0] == q[0] {
      SetPathFrame(j.fields[parts[0]], parts[1..], v, q[1..]);
    }
  }

  /** Every ancestor of the assigned path is still an object. */
  lemma {:induction false} SetPathKeepsAncestors(j: Json, parts: seq<string>, v: Json, q: seq<string>)
    requires |parts| >= 1 && SetPath(j, parts, v).Success?
    requires |q| < |parts| && IsPrefix(q, parts)
    ensures Lookup(SetPath(j, parts, v).value, q).Some?
    ensures Lookup(SetPath(j, parts, v).value, q).value.JObject?
    decreases |parts|
  {
    if |q| > 0 {
      SetPathKeepsAncestors(j.fields[parts[0]], parts[1..], v, q[1..]);
    }
  }

  /** A path the assignment does not lie on or under either diverges or is an ancestor. */
  lemma {:induction false} NotUnder(p: seq<string>, q: seq<string>)
    requires |p| >= 1 && !IsPrefix(p, q)
    ensures Diverge(p, q) || (|q| < |p| && IsPrefix(q, p))
    decreases |q|
  {
    if |q| > 0 {
      assert q[..1] == [q[0]];
    }
    if |q| > 0 && p[0] == q[0] && |p| > 1 {
      assert |p| <= |q| ==> q[..|p|] == [q[0]] + q[1..][..|p| - 1];
      NotUnder(p[1..], q[1..]);
      if !Diverge(p[1..], q[1..]) {
        assert p[..|q|] == [p[0]] + p[1..][..|q| - 1];
      }
    }
  }

  /** The whole of `override_value`, its path split on dots. */
  function OverrideValue(j: Json, path: string, v: Json): (r: Result<Json, ConfigError>)
    ensures r.Success? <==> ParentIsObject(j, Split(path, '.'))
    ensures r.Success? ==> Lookup(r.value, Split(path, '.')) == Some(v)
  {
    var parts := Split(path, '.');
    SetPathSucceeds(j, parts, v);
    if SetPath(j, parts, v).Success? then
      SetPathWrites(j, parts, v);
      SetPath(j, parts, v)
    else SetPath(j, parts, v)
  }

  /** A dictionary of config updates, in iteration order. */
  type Items = seq<(string, Json)>

  /** The loop of `update_config_direct`: each override in turn; the first exception ends it. */
  function ApplyItems(j: Json, items: Items): (r: Result<Json, ConfigError>)
    ensures items == [] ==> r == Success(j)
    ensures items != [] && !ParentIsObject(j, ItemPath(items, 0)) ==> r.Failure?
    ensures r.Success? && items != [] ==>
      Lookup(r.value, ItemPath(items, |items| - 1)) == Some(items[|items| - 1].1)
    decreases |items|
  {
    if items == [] then Success(j)
    else match OverrideValue(j, items[0].0, items[0].1)
      case Success(j') => ApplyItems(j', items[1..])
      case Failure(e) => Failure(e)
  }

  /** `update_config_direct` without the file read and write around it. */
  method UpdateConfigDirect(config: Json, items: Items) returns (r: Result<Json, ConfigError>)
    ensures r == ApplyItems(config, items)
  {
    var c := config;
    var i := 0;
    while i < |items|
      invariant 0 <= i <= |items|
      invariant ApplyItems(config, items) == ApplyItems(c, items[i..])
    {
      assert items[i..][1..] == items[i + 1..];
      var (path, val) := items[i];
      var o := OverrideValue(c, path, val);
      if o.Failure? {
        return Failure(o.error);
      }
      c := o.value;
      i := i + 1;
    }
    return Success(c);
  }

  /** The split path of item `i`. */
  function ItemPath(items: Items, i: nat): seq<string>
    requires i < |items|
  {
    Split(items[i].0, '.')
  }

  /** An entry no item's path reaches is left as it was. */
  lemma {:induction false} ApplyItemsFrame(j: Json, items: Items, q: seq<string>)
    requires ApplyItems(j, items).Success?
    requires forall i :: 0 <= i < |items| ==> Diverge(ItemPath(items, i), q)
    ensures Lookup(ApplyItems(j, items).value, q) == Lookup(j, q)
    decreases |items|
  {
    if items != [] {
      SetPathFrame(j, ItemPath(items, 0), items[0].1, q);
      var j' := OverrideValue(j, items[0].0, items[0].1).value;
      forall i | 0 <= i < |items| - 1
        ensures Diverge(ItemPath(items[1..], i), q)
      {
        assert ItemPath(items[1..], i) == ItemPath(items, i + 1);
      }
      ApplyItemsFrame(j', items[1..], q);
    }
  }

  /** An item whose path no later item touches holds its value in the result. */
  lemma {:induction false} ApplyItemsWrites(j: Json, items: Items, k: nat)
    requires ApplyItems(j, items).Success? && k < |items|
    requires forall i :: k < i < |items| ==> Diverge(ItemPath(items, i), ItemPath(items, k))
    ensures Lookup(ApplyItems(j, items).value, ItemPath(items, k)) == Some(items[k].1)
    decreases |items|
  {
    var o := OverrideValue(j, items[0].0, items[0].1);
    assert o.Success?;
    var j' := o.value;
    assert ApplyItems(j, items) == ApplyItems(j', items[1..]);
    ItemPathTail(items);
    if k == 0 {
      SetPathWrites(j, ItemPath(items, 0), items[0].1);
      ApplyItemsFrame(j', items[1..], ItemPath(items, 0));
    } else {
      ApplyItemsWrites(j', items[1..], k - 1);
    }
  }

  /** The paths of the items after the first are the later paths. */
  lemma ItemPathTail(items: Items)
    requires |items| > 0
    ensures forall i :: 0 <= i < |items| - 1 ==> ItemPath(items[1..], i) == ItemPath(items, i + 1)
  {
  }

  /** The object a path's last key is assigned in exists. */
  predicate ParentIsObject(j: Json, p: seq<string>)
    requires |p| >= 1
  {
    Lookup(j, p[..|p| - 1]).Some? && Lookup(j, p[..|p| - 1]).value.JObject?
  }

  /** Every item's parent is an object and the items' paths pairwise diverge. */
  predicate Assignable(j: Json, items: Items)
  {
    && (forall i :: 0 <= i < |items| ==> ParentIsObject(j, ItemPath(items, i)))
    && (forall i, k :: 0 <= i < k < |items| ==> Diverge(ItemPath(items, i), ItemPath(items, k)))
  }

  lemma {:induction false} DivergeSymmetric(p: seq<string>, q: seq<string>)
    requires Diverge(p, q)
    ensures Diverge(q, p)
    decreases |p|
  {
    if p[0] == q[0] {
      DivergeSymmetric(p[1..], q[1..]);
    }
  }

  /** A path that diverges from `q` is not an ancestor of `q`'s parent. */
  lemma {:induction false} DivergeNotAncestor(p: seq<string>, q: seq<string>)
    requires Diverge(p, q)
    ensures !IsPrefix(p, q[..|q| - 1])
    decreases |p|
  {
    if p[0] == q[0] && |p| <= |q| - 1 {
      DivergeNotAncestor(p[1..], q[1..]);
      assert q[1..][..|q[1..]| - 1] == q[..|q| - 1][1..];
    }
  }

  /** Assigning one path keeps an object at every other parent that is not under it. */
  lemma KeepsObject(j: Json, parts: seq<string>, v: Json, q: seq<string>)
    requires |parts| >= 1 && SetPath(j, parts, v).Success?
    requires Lookup(j, q).Some? && Lookup(j, q).value.JObject? && !IsPrefix(parts, q)
    ensures Lookup(SetPath(j, parts, v).value, q).Some?
    ensures Lookup(SetPath(j, parts, v).value, q).value.JObject?
  {
    NotUnder(parts, q);
    if Diverge(parts, q) {
      SetPathFrame(j, parts, v, q);
    } else {
      SetPathKeepsAncestors(j, parts, v, q);
    }
  }

  /** With every parent in place and no two paths touching, `update_config_direct` raises nothing. */
  lemma {:induction false} ApplyItemsSucceeds(j: Json, items: Items)
    requires Assignable(j, items)
    ensures ApplyItems(j, items).Success?
    decreases |items|
  {
    if items != [] {
      var p := ItemPath(items, 0);
      SetPathSucceeds(j, p, items[0].1);
      var j' := OverrideValue(j, items[0].0, items[0].1).value;
      forall i | 0 <= i < |items| - 1
        ensures ItemPath(items[1..], i) == ItemPath(items, i + 1)
      {
      }
      forall i | 0 <= i < |items| - 1
        ensures ParentIsObject(j', ItemPath(items[1..], i))
      {
        var q := ItemPath(items, i + 1);
        DivergeNotAncestor(p, q);
        KeepsObject(j, p, items[0].1, q[..|q| - 1]);
      }
      ApplyItemsSucceeds(j', items[1..]);
    }
  }

  /** When the items can all be assigned, every one of them holds its value afterwards. */
  lemma ApplyItemsAssigns(j: Json, items: Items, k: nat)
    requires Assignable(j, items) && k < |items|
    ensures ApplyItems(j, items).Success?
    ensures Lookup(ApplyItems(j, items).value, ItemPath(items, k)) == Some(items[k].1)
  {
    ApplyItemsSucceeds(j, items);
    forall i | k < i < |items|
      ensures Diverge(ItemPath(items, i), ItemPath(items, k))
    {
      DivergeSymmetric(ItemPath(items, k), ItemPath(items, i));
    }
    ApplyItemsWrites(j, items, k);
  }
}
