/**
 * Key extraction for the expression editor: every dotted key path of a JSON value, without
 * duplicates, ordered by depth; and the context of the cursor in an expression.
 */
module JsonKeys {
  import opened Wrappers
  import opened JsonValues
  import opened Text

  /** `prefix ? prefix + '.' + key : key`. */
  function Join(prefix: string, key: string): string {
    if prefix == "" then key else prefix + "." + key
  }

  /** The key paths in the order `traverse` visits them, duplicates included: an array adds no
      segment and walks its elements with the same prefix; an object adds each own key's path and
      then walks its value under that path. */
  function Paths(j: Json, prefix: string): seq<string>
    decreases j, 1
  {
    match j
    case Arr(_) => ItemPaths(j, prefix, 0)
    case Obj(_) => EntryPaths(j, prefix, 0)
    case _ => []
  }

  function ItemPaths(j: Json, prefix: string, k: nat): seq<string>
    requires j.Arr?
    decreases j, 0, |j.items| - k
  {
    if k >= |j.items| then [] else Paths(j.items[k], prefix) + ItemPaths(j, prefix, k + 1)
  }

  function EntryPaths(j: Json, prefix: string, k: nat): seq<string>
    requires j.Obj?
    decreases j, 0, |j.entries| - k
  {
    if k >= |j.entries| then []
    else
      var key := Join(prefix, j.entries[k].0);
      [key] + Paths(j.entries[k].1, key) + EntryPaths(j, prefix, k + 1)
  }

  predicate NoDup(s: seq<string>) {
    forall a, b :: 0 <= a < b < |s| ==> s[a] != s[b]
  }

  /** `keys.add(x)` on an insertion-ordered set. */
  function Add(keys: seq<string>, x: string): seq<string> {
    if x in keys then keys else keys + [x]
  }

  /** The set after adding `xs` one after another. */
  function AddAll(keys: seq<string>, xs: seq<string>): seq<string>
    decreases |xs|
  {
    if xs == [] then keys else AddAll(Add(keys, xs[0]), xs[1..])
  }

  /** Adding keeps the old keys first, then each new key where it first appears: no duplicates are
      introduced and exactly the keys of both are present. */
  lemma {:induction false} AddAllContents(keys: seq<string>, xs: seq<string>)
    ensures keys <= AddAll(keys, xs)
    ensures NoDup(keys) ==> NoDup(AddAll(keys, xs))
    ensures forall s :: s in AddAll(keys, xs) <==> s in keys || s in xs
    decreases |xs|
  {
    if xs != [] {
      AddAllContents(Add(keys, xs[0]), xs[1..]);
      assert xs == [xs[0]] + xs[1..];
    }
  }

  lemma {:induction false} AddAllAppend(keys: seq<string>, a: seq<string>, b: seq<string>)
    ensures AddAll(keys, a + b) == AddAll(AddAll(keys, a), b)
    decreases |a|
  {
    if a == [] {
      assert a + b == b;
    } else {
      assert (a + b)[1..] == a[1..] + b;
      AddAllAppend(Add(keys, a[0]), a[1..], b);
    }
  }

  lemma AddAllCons(keys: seq<string>, x: string, rest: seq<string>)
    ensures AddAll(keys, [x] + rest) == AddAll(Add(keys, x), rest)
  {
    assert ([x] + rest)[1..] == rest;
  }

  lemma EntryPathsAt(j: Json, prefix: string, k: nat)
    requires j.Obj? && k < |j.entries|
    ensures var key := Join(prefix, j.entries[k].0);
      EntryPaths(j, prefix, k) == [key] + (Paths(j.entries[k].1, key) + EntryPaths(j, prefix, k + 1))
  {
    var key := Join(prefix, j.entries[k].0);
    AppendAssoc([key], Paths(j.entries[k].1, key), EntryPaths(j, prefix, k + 1));
  }

  /** `traverse(obj, prefix)` adding to the shared set `keys`. */
  method Traverse(obj: Json, prefix: string, keys: seq<string>) returns (out: seq<string>)
    ensures out == AddAll(keys, Paths(obj, prefix))
    decreases obj, 1
  {
    out := keys;
    if obj.Arr? {
      out := TraverseItems(obj, prefix, keys);
    } else if obj.Obj? {
      out := TraverseEntries(obj, prefix, keys);
    }
  }

  /** The `forEach` over an array: every element under the same prefix. */
  method TraverseItems(obj: Json, prefix: string, keys: seq<string>) returns (out: seq<string>)
    requires obj.Arr?
    ensures out == AddAll(keys, ItemPaths(obj, prefix, 0))
    decreases obj, 0
  {
    out := keys;
    var k := 0;
    while k < |obj.items|
      invariant 0 <= k <= |obj.items|
      invariant AddAll(out, ItemPaths(obj, prefix, k)) == AddAll(keys, ItemPaths(obj, prefix, 0))
    {
      AddAllAppend(out, Paths(obj.items[k], prefix), ItemPaths(obj, prefix, k + 1));
      out := Traverse(obj.items[k], prefix, out);
      k := k + 1;
    }
  }

  /** The `forEach` over the own keys of an object: each key's path, then its value under it. */
  method TraverseEntries(obj: Json, prefix: string, keys: seq<string>) returns (out: seq<string>)
    requires obj.Obj?
    ensures out == AddAll(keys, EntryPaths(obj, prefix, 0))
    decreases obj, 0
  {
    out := keys;
    var k := 0;
    while k < |obj.entries|
      invariant 0 <= k <= |obj.entries|
      invariant AddAll(out, EntryPaths(obj, prefix, k)) == AddAll(keys, EntryPaths(obj, prefix, 0))
    {
      var key := obj.entries[k].0;
      var fullKey := if prefix != "" then prefix + "." + key else key;
      assert fullKey == Join(prefix, key);
      EntryPathsAt(obj, prefix, k);
      ghost var before := out;
      ghost var rest := EntryPaths(obj, prefix, k + 1);
      AddAllCons(out, fullKey, Paths(obj.entries[k].1, fullKey) + rest);
      AddAllAppend(Add(out, fullKey), Paths(obj.entries[k].1, fullKey), rest);
      if fullKey !in out {
        out := out + [fullKey];
      }
      assert out == Add(before, fullKey);
      out := Traverse(obj.entries[k].1, fullKey, out);
      k := k + 1;
    }
  }

  /** `segs` is a chain of own keys leading down from `j`: an object step takes one key, an array
      step enters any element without taking a key. */
  predicate Reaches(j: Json, segs: seq<string>)
    decreases j
  {
    match j
    case Arr(items) => exists k :: 0 <= k < |items| && Reaches(items[k], segs)
    case Obj(entries) =>
      |segs| > 0 && exists k :: 0 <= k < |entries| && entries[k].0 == segs[0] && (|segs| == 1 || Reaches(entries[k].1, segs[1..]))
    case _ => false
  }

  /** The path text of a key chain below `prefix`. */
  function JoinAll(prefix: string, segs: seq<string>): string
    decreases |segs|
  {
    if segs == [] then prefix else JoinAll(Join(prefix, segs[0]), segs[1..])
  }

  lemma {:induction false} ItemPathsMember(j: Json, prefix: string, m: nat, p: string)
    requires j.Arr?
    ensures p in ItemPaths(j, prefix, m) <==> exists k :: m <= k < |j.items| && p in Paths(j.items[k], prefix)
    decreases |j.items| - m
  {
    if m < |j.items| {
      ItemPathsMember(j, prefix, m + 1, p);
    }
  }

  lemma {:induction false} EntryPathsMember(j: Json, prefix: string, m: nat, p: string)
    requires j.Obj?
    ensures p in EntryPaths(j, prefix, m) <==>
      exists k :: m <= k < |j.entries| && (p == Join(prefix, j.entries[k].0) || p in Paths(j.entries[k].1, Join(prefix, j.entries[k].0)))
    decreases |j.entries| - m
  {
    if m < |j.entries| {
      EntryPathsMember(j, prefix, m + 1, p);
    }
  }

  /** Every produced path is the text of a key chain. */
  lemma {:induction false} PathsSound(j: Json, prefix: string, p: string)
    requires p in Paths(j, prefix)
    ensures exists segs :: Reaches(j, segs) && p == JoinAll(prefix, segs)
    decreases j
  {
    match j
    case Arr(items) =>
      ItemPathsMember(j, prefix, 0, p);
      var k :| 0 <= k < |items| && p in Paths(items[k], prefix);
      PathsSound(items[k], prefix, p);
      var segs :| Reaches(items[k], segs) && p == JoinAll(prefix, segs);
      assert Reaches(j, segs);
    case Obj(entries) =>
      EntryPathsMember(j, prefix, 0, p);
      var k :| 0 <= k < |entries| && (p == Join(prefix, entries[k].0) || p in Paths(entries[k].1, Join(prefix, entries[k].0)));
      var key := entries[k].0;
      if p == Join(prefix, key) {
        assert Reaches(j, [key]) && p == JoinAll(prefix, [key]);
      } else {
        PathsSound(entries[k].1, Join(prefix, key), p);
        var segs :| Reaches(entries[k].1, segs) && p == JoinAll(Join(prefix, key), segs);
        assert ([key] + segs)[1..] == segs;
        assert Reaches(j, [key] + segs) && p == JoinAll(prefix, [key] + segs);
      }
  }

  /** The text of every key chain is produced. */
  lemma {:induction false} PathsComplete(j: Json, prefix: string, segs: seq<string>)
    requires Reaches(j, segs)
    ensures JoinAll(prefix, segs) in Paths(j, prefix)
    decreases j
  {
    var p := JoinAll(prefix, segs);
    match j
    case Arr(items) =>
      var k :| 0 <= k < |items| && Reaches(items[k], segs);
      PathsComplete(items[k], prefix, segs);
      ItemPathsMember(j, prefix, 0, p);
    case Obj(entries) =>
      var k :| 0 <= k < |entries| && entries[k].0 == segs[0] && (|segs| == 1 || Reaches(entries[k].1, segs[1..]));
      if |segs| != 1 {
        PathsComplete(entries[k].1, Join(prefix, segs[0]), segs[1..]);
      }
      EntryPathsMember(j, prefix, 0, p);
  }

  /** The traversal finds exactly the key chains: a path is produced if and only if it is the text of
      a chain of own keys leading down from the value. */
  lemma PathsReach(j: Json, prefix: string, p: string)
    ensures p in Paths(j, prefix) <==> exists segs :: Reaches(j, segs) && p == JoinAll(prefix, segs)
  {
    if p in Paths(j, prefix) {
      PathsSound(j, prefix, p);
    }
    if exists segs :: Reaches(j, segs) && p == JoinAll(prefix, segs) {
      var segs :| Reaches(j, segs) && p == JoinAll(prefix, segs);
      PathsComplete(j, prefix, segs);
    }
  }

  /** Every own key of a top-level object is among the paths, as it is. */
  lemma TopLevelKeys(entries: seq<(string, Json)>, k: nat)
    requires k < |entries|
    ensures entries[k].0 in Paths(Obj(entries), "")
  {
    var key := entries[k].0;
    assert Reaches(Obj(entries), [key]) && key == JoinAll("", [key]);
    PathsReach(Obj(entries), "", key);
  }

  /** A nested value's paths appear below its key's path. */
  lemma NestedKeys(entries: seq<(string, Json)>, k: nat, prefix: string, p: string)
    requires k < |entries| && p in Paths(entries[k].1, Join(prefix, entries[k].0))
    ensures p in Paths(Obj(entries), prefix)
  {
    EntryPathsMember(Obj(entries), prefix, 0, p);
  }

  /** An array adds no segment: its paths are those of its elements under the same prefix. */
  lemma ArrayAddsNoSegment(items: seq<Json>, prefix: string, p: string)
    ensures p in Paths(Arr(items), prefix) <==> exists k :: 0 <= k < |items| && p in Paths(items[k], prefix)
  {
    ItemPathsMember(Arr(items), prefix, 0, p);
  }

  /** `null` and primitives have no keys. */
  lemma PrimitiveNoPaths(j: Json, prefix: string)
    requires !IsObject(j)
    ensures Paths(j, prefix) == []
  {
  }

  function CountDots(s: string): nat {
    if s == [] then 0 else (if s[0] == '.' then 1 else 0) + CountDots(s[1..])
  }

  /** `s.split('.').length`. */
  function Depth(s: string): nat {
    CountDots(s) + 1
  }

  /** The comparator: by depth, then by the locale order `lc` (an abstract `localeCompare`). */
  function Compare(a: string, b: string, lc: (string, string) -> int): int {
    if Depth(a) != Depth(b) then Depth(a) - Depth(b) else lc(a, b)
  }

  predicate DepthSorted(s: seq<string>) {
    forall k :: 0 <= k < |s| - 1 ==> Depth(s[k]) <= Depth(s[k + 1])
  }

  /** Insert `x` before the first element it compares below, after all it does not. */
  function Insert(x: string, l: seq<string>, lc: (string, string) -> int): (r: seq<string>)
    ensures multiset(r) == multiset(l) + multiset{x}
    ensures |r| == |l| + 1 && (r[0] == x || (l != [] && r[0] == l[0]))
    ensures DepthSorted(l) ==> DepthSorted(r)
  {
    if l == [] then [x]
    else if Compare(x, l[0], lc) < 0 then [x] + l
    else
      assert l == [l[0]] + l[1..];
      var r := Insert(x, l[1..], lc);
      DepthSortedCons(l[0], r);
      [l[0]] + r
  }

  /** A key no deeper than the head of a depth-sorted list can go in front of it. */
  lemma DepthSortedCons(a: string, r: seq<string>)
    ensures DepthSorted(r) && (r != [] ==> Depth(a) <= Depth(r[0])) ==> DepthSorted([a] + r)
  {
    var s := [a] + r;
    if DepthSorted(r) && (r != [] ==> Depth(a) <= Depth(r[0])) {
      forall k | 0 <= k < |s| - 1 ensures Depth(s[k]) <= Depth(s[k + 1]) {
        if k > 0 { assert s[k] == r[k - 1] && s[k + 1] == r[k]; }
      }
    }
  }

  /** Inserting a new key keeps the keys distinct. */
  lemma {:induction false} InsertNoDup(x: string, l: seq<string>, lc: (string, string) -> int)
    requires NoDup(l) && x !in l
    ensures NoDup(Insert(x, l, lc))
  {
    if l != [] && Compare(x, l[0], lc) >= 0 {
      assert l == [l[0]] + l[1..];
      InsertNoDup(x, l[1..], lc);
      var rest := Insert(x, l[1..], lc);
      assert l[0] !in l[1..];
      assert l[0] !in multiset(rest);
    }
  }

  /** The stable sort of `Array.prototype.sort` with the depth comparator, as an insertion sort. */
  function SortKeys(l: seq<string>, lc: (string, string) -> int): (r: seq<string>)
    ensures multiset(r) == multiset(l)
    ensures DepthSorted(r)
    ensures NoDup(l) ==> NoDup(r)
  {
    if l == [] then []
    else
      var init := l[..|l| - 1];
      assert l == init + [l[|l| - 1]];
      var sorted := SortKeys(init, lc);
      assert NoDup(l) ==> NoDup(Insert(l[|l| - 1], sorted, lc)) by {
        if NoDup(l) {
          assert NoDup(init);
          assert l[|l| - 1] !in multiset(sorted);
          InsertNoDup(l[|l| - 1], sorted, lc);
        }
      }
      Insert(l[|l| - 1], sorted, lc)
  }

  /** The result of `extractKeys`. */
  function ExtractKeysSpec(data: Json, lc: (string, string) -> int): seq<string> {
    SortKeys(AddAll([], Paths(data, "")), lc)
  }

  /** The extracted keys are distinct, ordered by depth, and exactly the paths of the value. */
  lemma ExtractedKeys(data: Json, lc: (string, string) -> int)
    ensures var r := ExtractKeysSpec(data, lc);
      NoDup(r) && DepthSorted(r) && forall p :: p in r <==> p in Paths(data, "")
  {
    var keys := AddAll([], Paths(data, ""));
    AddAllContents([], Paths(data, ""));
    var r := SortKeys(keys, lc);
    forall p ensures p in r <==> p in Paths(data, "") {
      assert p in r <==> p in multiset(keys);
    }
  }

  /** `extractKeys`: traverse into a fresh set, then sort it. */
  method ExtractKeys(data: Json, lc: (string, string) -> int) returns (r: seq<string>)
    ensures r == ExtractKeysSpec(data, lc)
    ensures NoDup(r) && DepthSorted(r)
    ensures forall p :: p in r <==> p in Paths(data, "")
  {
    var keys := Traverse(data, "", []);
    r := SortKeys(keys, lc);
    ExtractedKeys(data, lc);
  }

  /** Depth order holds between any two positions, not only neighbours. */
  lemma {:induction false} DepthSortedPairs(s: seq<string>, a: nat, b: nat)
    requires DepthSorted(s) && a <= b < |s|
    ensures Depth(s[a]) <= Depth(s[b])
    decreases b - a
  {
    if a < b {
      DepthSortedPairs(s, a + 1, b);
    }
  }

  /** When `localeCompare` is sign-antisymmetric, the result is sorted for the whole comparator:
      same-depth neighbours are in locale order. */
  predicate ComparatorSorted(s: seq<string>, lc: (string, string) -> int) {
    forall k :: 0 <= k < |s| - 1 ==> Compare(s[k], s[k + 1], lc) <= 0
  }

  lemma {:induction false} InsertComparatorSorted(x: string, l: seq<string>, lc: (string, string) -> int)
    requires forall a, b :: lc(a, b) >= 0 ==> lc(b, a) <= 0
    requires ComparatorSorted(l, lc)
    ensures ComparatorSorted(Insert(x, l, lc), lc)
  {
    if l != [] && Compare(x, l[0], lc) >= 0 {
      InsertComparatorSorted(x, l[1..], lc);
      var rest := Insert(x, l[1..], lc);
      assert Compare(l[0], rest[0], lc) <= 0 by {
        if rest[0] == x {
          assert lc(x, l[0]) >= 0 ==> lc(l[0], x) <= 0;
        }
      }
    }
  }

  lemma {:induction false} SortComparatorSorted(l: seq<string>, lc: (string, string) -> int)
    requires forall a, b :: lc(a, b) >= 0 ==> lc(b, a) <= 0
    ensures ComparatorSorted(SortKeys(l, lc), lc)
  {
    if l != [] {
      SortComparatorSorted(l[..|l| - 1], lc);
      InsertComparatorSorted(l[|l| - 1], SortKeys(l[..|l| - 1], lc), lc);
    }
  }

  /** The characters that end a context. */
  const Separators: seq<char> := ['.', '[', ']', '(', ')', '{', '}', ',']

  predicate IsSeparator(c: char) {
    c in Separators
  }

  /** The end `substring(0, cursor)` uses: the cursor clamped to `0..|expr|`. */
  function Clamp(cursor: int, n: nat): (c: nat)
    ensures c <= n
  {
    if cursor < 0 then 0 else if cursor > n then n else cursor
  }

  /** The last position of a separator in `s`, or -1. */
  function LastSeparator(s: string): (r: int)
    ensures -1 <= r < |s|
    ensures r >= 0 ==> IsSeparator(s[r])
    ensures forall q :: r < q < |s| ==> !IsSeparator(s[q])
  {
    if s == [] then -1
    else if IsSeparator(s[|s| - 1]) then |s| - 1
    else LastSeparator(s[..|s| - 1])
  }

  /** The result of `getContextFromExpression`. */
  function Context(expr: string, cursor: int): string {
    var prefix := expr[..Clamp(cursor, |expr|)];
    var last := LastSeparator(prefix);
    if last >= 0 then prefix[..last + 1] else ""
  }

  /** Any index with a separator there and none after it is the last separator. */
  lemma LastSeparatorUnique(s: string, r: int)
    requires -1 <= r < |s|
    requires r >= 0 ==> IsSeparator(s[r])
    requires forall q :: r < q < |s| ==> !IsSeparator(s[q])
    ensures r == LastSeparator(s)
  {
  }

  /** `getContextFromExpression`: the largest `lastIndexOf` over the separators, then the prefix up
      to and including it. */
  method ContextFromExpression(expr: string, cursor: int) returns (ctx: string)
    ensures ctx == Context(expr, cursor)
  {
    var prefix := expr[..Clamp(cursor, |expr|)];
    var lastSeparatorIndex := -1;
    for m := 0 to |Separators|
      invariant -1 <= lastSeparatorIndex < |prefix|
      invariant lastSeparatorIndex >= 0 ==> prefix[lastSeparatorIndex] in Separators[..m]
      invariant forall q :: lastSeparatorIndex < q < |prefix| ==> prefix[q] !in Separators[..m]
    {
      var index := LastIndexOf(prefix, Separators[m]);
      assert Separators[..m + 1] == Separators[..m] + [Separators[m]];
      if index > lastSeparatorIndex {
        lastSeparatorIndex := index;
      }
    }
    assert Separators[..|Separators|] == Separators;
    LastSeparatorUnique(prefix, lastSeparatorIndex);
    ctx := if lastSeparatorIndex >= 0 then prefix[..lastSeparatorIndex + 1] else "";
  }

  /** The context is a prefix of the text before the cursor; it is empty exactly when that text holds
      no separator, and otherwise ends at its last separator. */
  lemma ContextShape(expr: string, cursor: int)
    ensures var prefix := expr[..Clamp(cursor, |expr|)]; var ctx := Context(expr, cursor);
      ctx <= prefix &&
      (ctx == "" <==> forall q :: 0 <= q < |prefix| ==> !IsSeparator(prefix[q])) &&
      (ctx != "" ==> IsSeparator(ctx[|ctx| - 1]) && forall q :: |ctx| <= q < |prefix| ==> !IsSeparator(prefix[q]))
  {
  }

  /** Characters at or after the cursor do not matter. */
  lemma ContextIgnoresRest(expr: string, tail: string, cursor: int)
    requires 0 <= cursor <= |expr|
    ensures Context(expr + tail, cursor) == Context(expr, cursor)
  {
    assert (expr + tail)[..cursor] == expr[..cursor];
  }
}
