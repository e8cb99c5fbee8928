/** A Python `Dict[str, str]`: keys keep their insertion order, which the
    chunking step relies on: chunk preparation visits the remaining keys in
    insertion order (core/embeddings.py:66). */
module Dicts {
  import opened Common

  datatype Entry = Entry(key: string, value: string)

  /** Entries in insertion order. */
  type Dict = seq<Entry>

  /** No key occurs twice. */
  predicate Valid(d: Dict)
  {
    forall i, j :: 0 <= i < j < |d| ==> d[i].key != d[j].key
  }

  /** `list(d.keys())`. */
  function Keys(d: Dict): (ks: seq<string>)
    ensures |ks| == |d|
    ensures forall i :: 0 <= i < |d| ==> ks[i] == d[i].key
  {
    seq(|d|, i requires 0 <= i < |d| => d[i].key)
  }

  /** `k in d`. */
  predicate HasKey(d: Dict, k: string)
  {
    exists i | 0 <= i < |d| :: d[i].key == k
  }

  /** The position of key `k`, if any. */
  function IndexOf(d: Dict, k: string): (r: Option<nat>)
    ensures r.Some? ==> r.value < |d| && d[r.value].key == k
    ensures r.Some? ==> forall j :: 0 <= j < r.value ==> d[j].key != k
    ensures r.None? <==> !HasKey(d, k)
    decreases |d|
  {
    if d == [] then None
    else if d[0].key == k then Some(0)
    else
      match IndexOf(d[1..], k)
      case None =>
        assert forall j :: 1 <= j < |d| ==> d[j] == d[1..][j - 1];
        None
      case Some(i) => Some(i + 1)
  }

  /** `d.get(k)`. */
  function Get(d: Dict, k: string): (r: Option<string>)
    ensures r.None? <==> !HasKey(d, k)
  {
    match IndexOf(d, k)
    case None => None
    case Some(i) => Some(d[i].value)
  }

  /** `d.get(k, default)`. */
  function GetOr(d: Dict, k: string, default: string): string
  {
    match Get(d, k)
    case None => default
    case Some(v) => v
  }

  /** In a valid dict, the entry at position `i` is what its key looks up. */
  lemma GetAt(d: Dict, i: nat)
    requires Valid(d) && i < |d|
    ensures Get(d, d[i].key) == Some(d[i].value)
  {
    IndexOfAt(d, d[i].key, i);
  }

  /** The first position holding `k` is what `IndexOf` finds. */
  lemma IndexOfAt(d: Dict, k: string, i: nat)
    requires i < |d| && d[i].key == k
    requires forall j :: 0 <= j < i ==> d[j].key != k
    ensures IndexOf(d, k) == Some(i)
  {
    assert HasKey(d, k);
  }

  /** `d[k] = v`: an existing key keeps its place, a new one goes last. */
  function Set(d: Dict, k: string, v: string): (r: Dict)
    ensures Get(r, k) == Some(v)
    ensures Keys(r) == if HasKey(d, k) then Keys(d) else Keys(d) + [k]
    ensures Valid(d) ==> Valid(r)
  {
    match IndexOf(d, k)
    case Some(i) =>
      var r := d[i := Entry(k, v)];
      IndexOfAt(r, k, i);
      r
    case None =>
      var r := d + [Entry(k, v)];
      IndexOfAt(r, k, |d|);
      r
  }

  /** `{k: f(v) for k, v in d.items()}`: same keys, each value mapped. */
  function MapValues(d: Dict, f: string -> string): (r: Dict)
    ensures |r| == |d| && Keys(r) == Keys(d)
    ensures forall i :: 0 <= i < |d| ==> r[i] == Entry(d[i].key, f(d[i].value))
  {
    seq(|d|, i requires 0 <= i < |d| => Entry(d[i].key, f(d[i].value)))
  }

  /** Mapping entry `k` in place extends the mapped prefix by one. */
  lemma MapValuesStep(d: Dict, f: string -> string, k: nat)
    requires k < |d|
    ensures (MapValues(d, f)[..k] + d[k..])[k := Entry(d[k].key, f(d[k].value))] == MapValues(d, f)[..k + 1] + d[k + 1..]
  {
    var m := MapValues(d, f);
    var a := (m[..k] + d[k..])[k := Entry(d[k].key, f(d[k].value))];
    var b := m[..k + 1] + d[k + 1..];
    assert |a| == |b| == |d|;
    forall j | 0 <= j < |d| ensures a[j] == b[j] {
      if j < k {
        assert a[j] == m[j] == b[j];
      } else if k < j {
        assert a[j] == d[j] == b[j];
      }
    }
  }

  /** `for k in d: d[k] = f(d[k])`, one key at a time, in key order. */
  method MapEach(d: Dict, f: string -> string) returns (r: Dict)
    requires Valid(d)
    ensures r == MapValues(d, f)
  {
    r := d;
    var keys := Keys(d);
    var k := 0;
    while k < |keys|
      invariant 0 <= k <= |keys| == |d|
      invariant r == MapValues(d, f)[..k] + d[k..]
    {
      var key := keys[k];
      MapEachStep(d, f, r, k);
      r := Set(r, key, f(GetOr(r, key, "")));
      k := k + 1;
    }
  }

  /** One pass of `MapEach`: entry `k` is looked up and replaced, and the
      mapped prefix grows by one. */
  lemma MapEachStep(d: Dict, f: string -> string, r: Dict, k: nat)
    requires Valid(d) && k < |d|
    requires r == MapValues(d, f)[..k] + d[k..]
    ensures GetOr(r, d[k].key, "") == d[k].value
    ensures Set(r, d[k].key, f(d[k].value)) == MapValues(d, f)[..k + 1] + d[k + 1..]
  {
    var m := MapValues(d, f);
    forall j | 0 <= j < k
      ensures r[j].key != d[k].key
    {
      assert r[j] == m[j];
    }
    assert r[k] == d[k];
    SetFirst(r, d[k].key, f(d[k].value), k);
    MapValuesStep(d, f, k);
  }

  /** At the first position holding `k`, lookup finds its value and
      assignment replaces that entry. */
  lemma SetFirst(d: Dict, k: string, v: string, i: nat)
    requires i < |d| && d[i].key == k
    requires forall j :: 0 <= j < i ==> d[j].key != k
    ensures GetOr(d, k, "") == d[i].value
    ensures Set(d, k, v) == d[i := Entry(k, v)]
  {
    IndexOfAt(d, k, i);
  }

  /** Assigning to a key that is present replaces its entry in place. */
  lemma SetAt(d: Dict, k: string, v: string, i: nat)
    requires Valid(d) && i < |d| && d[i].key == k
    ensures Set(d, k, v) == d[i := Entry(k, v)]
  {
    IndexOfAt(d, k, i);
  }

  /** `d[k] = v` leaves every other key's value as it was. */
  lemma SetOther(d: Dict, k: string, v: string, k': string)
    requires k' != k
    ensures Get(Set(d, k, v), k') == Get(d, k')
  {
    match IndexOf(d, k)
    case Some(i) =>
      assert Set(d, k, v) == d[i := Entry(k, v)];
      ReplaceOther(d, i, Entry(k, v), k');
    case None =>
      assert Set(d, k, v) == d + [Entry(k, v)];
      AppendOther(d, Entry(k, v), k');
  }

  /** After `d[k] = v` the keys are the old ones and `k`, `k` looks up `v`,
      and every other key looks up what it did. */
  lemma SetSpec(d: Dict, k: string, v: string)
    requires Valid(d)
    ensures Valid(Set(d, k, v))
    ensures forall m :: HasKey(Set(d, k, v), m) <==> HasKey(d, m) || m == k
    ensures Get(Set(d, k, v), k) == Some(v)
    ensures forall m :: m != k ==> Get(Set(d, k, v), m) == Get(d, m)
  {
    forall m
      ensures m != k ==> Get(Set(d, k, v), m) == Get(d, m)
      ensures HasKey(Set(d, k, v), m) <==> HasKey(d, m) || m == k
    {
      if m != k {
        SetOther(d, k, v, m);
      }
    }
  }

  /** Replacing an entry of key `e.key` leaves the lookup of another key
      unchanged, when the old entry had that key too. */
  lemma ReplaceOther(d: Dict, i: nat, e: Entry, k': string)
    requires i < |d| && d[i].key == e.key && k' != e.key
    ensures Get(d[i := e], k') == Get(d, k')
  {
    var r := d[i := e];
    assert forall j :: 0 <= j < |d| ==> r[j].key == d[j].key;
    match IndexOf(d, k') {
      case None =>
        assert !HasKey(r, k');
      case Some(j) =>
        assert r[j] == d[j];
        IndexOfAt(r, k', j);
    }
  }

  /** Appending an entry leaves the lookup of another key unchanged. */
  lemma AppendOther(d: Dict, e: Entry, k': string)
    requires k' != e.key
    ensures Get(d + [e], k') == Get(d, k')
  {
    var r := d + [e];
    match IndexOf(d, k') {
      case None =>
        assert !HasKey(r, k');
      case Some(j) =>
        assert r[j] == d[j];
        IndexOfAt(r, k', j);
    }
  }

  /** Two valid dicts with the same keys in the same order and the same
      lookups are the same dict. */
  lemma Extensional(a: Dict, b: Dict)
    requires Valid(a) && Valid(b) && Keys(a) == Keys(b)
    requires forall k :: Get(a, k) == Get(b, k)
    ensures a == b
  {
    forall i | 0 <= i < |a| ensures a[i] == b[i] {
      GetAt(a, i);
      GetAt(b, i);
      assert a[i].key == b[i].key;
    }
  }

  /** `[n for n in names if n in d and d[n]]`: the names with a non-empty
      value, in the order given. */
  function Present(d: Dict, names: seq<string>): (r: seq<string>)
    ensures forall n :: n in r <==> n in names && GetOr(d, n, "") != ""
    ensures |r| <= |names|
    decreases |names|
  {
    if names == [] then []
    else
      var rest := Present(d, names[1..]);
      assert forall n :: n in names <==> n == names[0] || n in names[1..];
      if GetOr(d, names[0], "") != "" then [names[0]] + rest else rest
  }

  /** The names with a value keep their relative order. */
  lemma {:induction false} PresentSubseq(d: Dict, names: seq<string>)
    ensures IsSubseq(Present(d, names), names)
    decreases |names|
  {
    if names != [] {
      PresentSubseq(d, names[1..]);
      var rest := Present(d, names[1..]);
      if GetOr(d, names[0], "") != "" {
        assert ([names[0]] + rest)[1..] == rest;
      }
    }
  }

  /** `render(n, d[n])` for each name of `ns`. */
  function Rendered(d: Dict, ns: seq<string>, render: (string, string) -> string): (r: seq<string>)
    ensures |r| == |ns|
    ensures forall i :: 0 <= i < |ns| ==> r[i] == render(ns[i], GetOr(d, ns[i], ""))
  {
    seq(|ns|, i requires 0 <= i < |ns| => render(ns[i], GetOr(d, ns[i], "")))
  }

  /** The loop `for n in names: if n in d and d[n]: parts.append(render(n, d[n]))`. */
  method GatherParts(d: Dict, names: seq<string>, render: (string, string) -> string) returns (parts: seq<string>)
    ensures parts == Rendered(d, Present(d, names), render)
  {
    parts := [];
    var i := 0;
    while i < |names|
      invariant 0 <= i <= |names|
      invariant parts == Rendered(d, Present(d, names[..i]), render)
    {
      var n := names[i];
      PrefixSnoc(names, i);
      ghost var before := Present(d, names[..i]);
      PresentSnoc(d, names[..i], n);
      if GetOr(d, n, "") != "" {
        RenderedSnoc(d, before, n, render);
        parts := parts + [render(n, GetOr(d, n, ""))];
      }
      i := i + 1;
    }
    assert names[..i] == names;
  }

  lemma RenderedSnoc(d: Dict, ns: seq<string>, n: string, render: (string, string) -> string)
    ensures Rendered(d, ns + [n], render) == Rendered(d, ns, render) + [render(n, GetOr(d, n, ""))]
  {
    var a := Rendered(d, ns + [n], render);
    var b := Rendered(d, ns, render) + [render(n, GetOr(d, n, ""))];
    assert |a| == |b|;
    forall i | 0 <= i < |a| ensures a[i] == b[i] {
      if i < |ns| {
        assert (ns + [n])[i] == ns[i];
      }
    }
  }

  /** `Present` distributes over splitting the names. */
  lemma {:induction false} PresentAppend(d: Dict, a: seq<string>, b: seq<string>)
    ensures Present(d, a + b) == Present(d, a) + Present(d, b)
    decreases |a|
  {
    if a != [] {
      var head := if GetOr(d, a[0], "") != "" then [a[0]] else [];
      assert (a + b)[1..] == a[1..] + b;
      PresentCons(d, a + b);
      PresentCons(d, a);
      PresentAppend(d, a[1..], b);
      assert head + (Present(d, a[1..]) + Present(d, b)) == (head + Present(d, a[1..])) + Present(d, b);
    } else {
      assert a + b == b;
    }
  }

  /** The first name comes first, if it has a value. */
  lemma PresentCons(d: Dict, names: seq<string>)
    requires names != []
    ensures Present(d, names) ==
      (if GetOr(d, names[0], "") != "" then [names[0]] else []) + Present(d, names[1..])
  {
  }

  lemma PresentSnoc(d: Dict, a: seq<string>, n: string)
    ensures Present(d, a + [n]) == Present(d, a) + (if GetOr(d, n, "") != "" then [n] else [])
  {
    PresentAppend(d, a, [n]);
    assert [n][1..] == [];
  }
}
