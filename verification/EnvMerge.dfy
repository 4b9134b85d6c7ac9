/**
 Environment merging for generated jobs: `mergeEnv` over variable names and `mergeEnvFrom` over a
 concatenated source key.  Both are the same algorithm over a key function; `Overlay` says what it
 computes without the index map, its deletions and the sorting of its remains.
 */
module EnvMerge {
  import opened Types

  function EnvKey(e: EnvVar): Option<string> {
    Some(e.name)
  }

  /** Entries without a source have no key. */
  function EnvFromKey(e: EnvFromSource): Option<string> {
    if e.configMapRef.Some? then Some("cm" + e.configMapRef.value + e.prefix)
    else if e.secretRef.Some? then Some("sec" + e.secretRef.value + e.prefix)
    else None
  }

  // ---------------------------------------------------------------------- what is computed

  /** The index of the last entry of `s` with key `k`. */
  function LastWith<T>(s: seq<T>, key: T -> Option<string>, k: string): (r: Option<nat>)
    ensures r.Some? ==> r.value < |s| && key(s[r.value]) == Some(k)
    ensures r.Some? ==> forall j :: r.value < j < |s| ==> key(s[j]) != Some(k)
    ensures r.None? ==> forall j :: 0 <= j < |s| ==> key(s[j]) != Some(k)
  {
    if s == [] then None
    else if key(s[|s| - 1]) == Some(k) then Some(|s| - 1)
    else LastWith(s[..|s| - 1], key, k)
  }

  /** Last-wins lookup, as a container resolves its environment. */
  function Lookup<T>(s: seq<T>, key: T -> Option<string>, k: string): Option<T> {
    match LastWith(s, key, k)
    case Some(i) => Some(s[i])
    case None => None
  }

  predicate FirstOf<T>(s: seq<T>, key: T -> Option<string>, i: nat)
    requires i < |s|
  {
    forall j :: 0 <= j < i ==> key(s[j]) != key(s[i])
  }

  predicate HasKey<T>(s: seq<T>, key: T -> Option<string>, k: string) {
    exists i :: 0 <= i < |s| && key(s[i]) == Some(k)
  }

  /** The first entry of `a` with a key of `b` becomes the last such entry of `b`; everything else stays. */
  function ReplaceAt<T>(a: seq<T>, b: seq<T>, key: T -> Option<string>, i: nat): (r: T)
    requires i < |a|
    ensures key(r) == key(a[i])
  {
    match key(a[i])
    case Some(k) =>
      (match LastWith(b, key, k)
       case Some(j) => if FirstOf(a, key, i) then b[j] else a[i]
       case None => a[i])
    case None => a[i]
  }

  function Replaced<T>(a: seq<T>, b: seq<T>, key: T -> Option<string>): (r: seq<T>)
    ensures |r| == |a|
    ensures forall i :: 0 <= i < |a| ==> r[i] == ReplaceAt(a, b, key, i)
  {
    seq(|a|, i requires 0 <= i < |a| => ReplaceAt(a, b, key, i))
  }

  /** Entry `i` of `b` is appended: it has a key, is the last one with that key, and `a` lacks the key. */
  predicate Keep<T>(a: seq<T>, b: seq<T>, key: T -> Option<string>, i: nat)
    requires i < |b|
  {
    key(b[i]).Some? && LastWith(b, key, key(b[i]).value) == Some(i) && !HasKey(a, key, key(b[i]).value)
  }

  function KeptFrom<T>(a: seq<T>, b: seq<T>, key: T -> Option<string>, i: nat): (r: seq<nat>)
    requires i <= |b|
    ensures forall x :: x in r <==> i <= x < |b| && Keep(a, b, key, x)
    ensures Ascending(r)
    decreases |b| - i
  {
    if i == |b| then []
    else
      var rest := KeptFrom(a, b, key, i + 1);
      assert forall x :: x in [i] + rest <==> x == i || x in rest;
      assert forall j :: 0 <= j < |rest| ==> rest[j] in rest;
      if Keep(a, b, key, i) then [i] + rest else rest
  }

  function Pick<T>(b: seq<T>, indices: seq<nat>): (r: seq<T>)
    requires forall i :: 0 <= i < |indices| ==> indices[i] < |b|
    ensures |r| == |indices|
    ensures forall i :: 0 <= i < |r| ==> r[i] == b[indices[i]]
  {
    seq(|indices|, i requires 0 <= i < |indices| => b[indices[i]])
  }

  function Overlay<T>(a: seq<T>, b: seq<T>, key: T -> Option<string>): seq<T> {
    var kept := KeptFrom(a, b, key, 0);
    assert forall i :: 0 <= i < |kept| ==> kept[i] in kept;
    Replaced(a, b, key) + Pick(b, kept)
  }

  predicate Ascending(s: seq<nat>) {
    forall i, j :: 0 <= i < j < |s| ==> s[i] < s[j]
  }

  // ---------------------------------------------------------------------- sorting the remains

  function Insert(s: seq<nat>, x: nat): (r: seq<nat>)
    requires Ascending(s) && x !in s
    ensures Ascending(r)
    ensures forall y :: y in r <==> y == x || y in s
  {
    if s == [] then [x]
    else
      assert forall y :: y in s <==> y == s[0] || y in s[1..];
      if x < s[0] then
        assert forall y :: y in [x] + s <==> y == x || y in s;
        [x] + s
      else
        var r := Insert(s[1..], x);
        assert forall j :: 0 <= j < |r| ==> r[j] in r;
        assert forall y :: y in [s[0]] + r <==> y == s[0] || y in r;
        [s[0]] + r
  }

  /** `sort.Ints` on distinct indices. */
  method SortInts(s: seq<nat>) returns (r: seq<nat>)
    requires forall i, j :: 0 <= i < j < |s| ==> s[i] != s[j]
    ensures Ascending(r)
    ensures forall y :: y in r <==> y in s
  {
    r := [];
    for i := 0 to |s|
      invariant Ascending(r)
      invariant forall y :: y in r <==> y in s[..i]
    {
      assert s[..i + 1] == s[..i] + [s[i]];
      r := Insert(r, s[i]);
    }
    assert s[..|s|] == s;
  }

  lemma NonEmptyHasElement(s: seq<nat>)
    requires s != []
    ensures exists y :: y in s
  {
    assert s[0] in s;
  }

  /** An ascending sequence is determined by its elements, so the map's iteration order cannot matter. */
  lemma {:induction false} AscendingUnique(s: seq<nat>, t: seq<nat>)
    requires Ascending(s) && Ascending(t)
    requires forall y :: y in s <==> y in t
    ensures s == t
  {
    if s == [] {
      if t != [] {
        NonEmptyHasElement(t);
      }
    } else {
      assert s[0] in t;
      assert t[0] in s;
      assert s[0] == t[0];
      forall y ensures y in s[1..] <==> y in t[1..] {
        assert y in s[1..] <==> y in s && y != s[0];
        assert y in t[1..] <==> y in t && y != t[0];
      }
      AscendingUnique(s[1..], t[1..]);
      assert s == [s[0]] + s[1..] && t == [t[0]] + t[1..];
    }
  }

  // ---------------------------------------------------------------------- the algorithm

  /** `bm` holds, for each key among the first `n` entries of `b`, the last of their indices. */
  ghost predicate IndexMap<T(!new)>(b: seq<T>, key: T -> Option<string>, n: nat, bm: map<string, nat>)
    requires n <= |b|
  {
    && (forall k :: k in bm ==> LastWith(b[..n], key, k) == Some(bm[k]))
    && (forall k :: k !in bm ==> LastWith(b[..n], key, k) == None)
  }

  method BuildIndex<T(!new)>(b: seq<T>, key: T -> Option<string>) returns (bm: map<string, nat>)
    ensures forall k :: k in bm ==> LastWith(b, key, k) == Some(bm[k])
    ensures forall k :: k !in bm ==> LastWith(b, key, k) == None
  {
    bm := map[];
    for i := 0 to |b|
      invariant IndexMap(b, key, i, bm)
    {
      assert b[..i + 1][..i] == b[..i];
      if key(b[i]).Some? {
        bm := bm[key(b[i]).value := i];
      }
    }
    assert b[..|b|] == b;
  }

  /** The values of a map in the arbitrary order in which its keys are met. */
  method MapValues(bm: map<string, nat>) returns (r: seq<nat>)
    requires forall k, k' :: k in bm && k' in bm && bm[k] == bm[k'] ==> k == k'
    ensures forall x :: x in r <==> exists k :: k in bm && bm[k] == x
    ensures forall i, j :: 0 <= i < j < |r| ==> r[i] != r[j]
  {
    var left := bm.Keys;
    r := [];
    while left != {}
      invariant left <= bm.Keys
      invariant forall x :: x in r ==> exists k :: k in bm && k !in left && bm[k] == x
      invariant forall k :: k in bm && k !in left ==> bm[k] in r
      invariant forall i, j :: 0 <= i < j < |r| ==> r[i] != r[j]
      decreases |left|
    {
      var k :| k in left;
      assert bm[k] !in r;
      r := r + [bm[k]];
      left := left - {k};
    }
  }

  /** After the loop over the first `n` entries of `a`, the map holds the keys of `b` not met so far. */
  ghost predicate Unmet<T(!new)>(a: seq<T>, b: seq<T>, key: T -> Option<string>, n: nat, bm: map<string, nat>)
    requires n <= |a|
  {
    && (forall k :: k in bm <==> LastWith(b, key, k).Some? && !HasKey(a[..n], key, k))
    && (forall k :: k in bm ==> LastWith(b, key, k) == Some(bm[k]))
  }

  /** The remaining indices, collected in map order and then sorted, are the kept ones in ascending order. */
  method SortedRemains<T(!new)>(
    a: seq<T>, b: seq<T>, key: T -> Option<string>, bm: map<string, nat>)
    returns (r: seq<nat>)
    requires Unmet(a, b, key, |a|, bm)
    ensures r == KeptFrom(a, b, key, 0)
  {
    assert a[..|a|] == a;
    assert forall k, k' :: k in bm && k' in bm && bm[k] == bm[k'] ==> k == k' by {
      assert forall k :: k in bm ==> key(b[bm[k]]) == Some(k);
    }
    var remains := MapValues(bm);
    r := SortInts(remains);
    forall x ensures x in r <==> x in KeptFrom(a, b, key, 0) {
      RemainIsKept(a, b, key, bm, x);
    }
    AscendingUnique(r, KeptFrom(a, b, key, 0));
  }

  lemma RemainIsKept<T(!new)>(a: seq<T>, b: seq<T>, key: T -> Option<string>, bm: map<string, nat>, x: nat)
    requires forall k :: k in bm <==> LastWith(b, key, k).Some? && !HasKey(a, key, k)
    requires forall k :: k in bm ==> LastWith(b, key, k) == Some(bm[k])
    ensures (exists k :: k in bm && bm[k] == x) <==> x < |b| && Keep(a, b, key, x)
  {
    if x < |b| && Keep(a, b, key, x) {
      assert key(b[x]).value in bm;
    }
  }

  lemma UnmetStep<T(!new)>(a: seq<T>, b: seq<T>, key: T -> Option<string>, i: nat, bm: map<string, nat>)
    requires i < |a| && Unmet(a, b, key, i, bm)
    ensures var k := key(a[i]);
            if k.Some? && k.value in bm
            then && bm[k.value] < |b| && ReplaceAt(a, b, key, i) == b[bm[k.value]]
                 && Unmet(a, b, key, i + 1, bm - {k.value})
            else ReplaceAt(a, b, key, i) == a[i] && Unmet(a, b, key, i + 1, bm)
  {
    HasKeyGrows(a, key, i);
  }

  /** The merge loop over `a`, with the deletions from the index map. */
  method MergeOver<T(!new)>(a: seq<T>, b: seq<T>, key: T -> Option<string>, index: map<string, nat>)
    returns (result: seq<T>, bm: map<string, nat>)
    requires Unmet(a, b, key, 0, index)
    ensures result == Replaced(a, b, key) && Unmet(a, b, key, |a|, bm)
  {
    result, bm := [], index;
    for i := 0 to |a|
      invariant |result| == i && forall j :: 0 <= j < i ==> result[j] == ReplaceAt(a, b, key, j)
      invariant Unmet(a, b, key, i, bm)
    {
      UnmetStep(a, b, key, i, bm);
      var k := key(a[i]);
      if k.None? || k.value !in bm {
        result := result + [a[i]];
      } else {
        result := result + [b[bm[k.value]]];
        bm := bm - {k.value};
      }
    }
  }

  method MergeBy<T(!new)>(a: seq<T>, b: seq<T>, key: T -> Option<string>) returns (result: seq<T>)
    ensures result == Overlay(a, b, key)
  {
    var bm := BuildIndex(b, key);
    result, bm := MergeOver(a, b, key, bm);
    var remains := SortedRemains(a, b, key, bm);
    assert forall i :: 0 <= i < |remains| ==> remains[i] in remains;
    result := result + Pick(b, remains);
  }

  lemma HasKeyGrows<T>(a: seq<T>, key: T -> Option<string>, i: nat)
    requires i < |a|
    ensures forall k :: HasKey(a[..i + 1], key, k) <==> HasKey(a[..i], key, k) || key(a[i]) == Some(k)
    ensures key(a[i]).Some? ==> (HasKey(a[..i], key, key(a[i]).value) <==> !FirstOf(a, key, i))
  {
    forall k ensures HasKey(a[..i + 1], key, k) <==> HasKey(a[..i], key, k) || key(a[i]) == Some(k) {
      if HasKey(a[..i], key, k) {
        var j :| 0 <= j < i && key(a[..i][j]) == Some(k);
        assert key(a[..i + 1][j]) == Some(k);
      }
      if key(a[i]) == Some(k) {
        assert key(a[..i + 1][i]) == Some(k);
      }
    }
    if key(a[i]).Some? && !FirstOf(a, key, i) {
      var j :| 0 <= j < i && key(a[j]) == key(a[i]);
      assert key(a[..i][j]) == key(a[i]);
    }
  }

  method MergeEnv(a: seq<EnvVar>, b: seq<EnvVar>) returns (result: seq<EnvVar>)
    ensures result == Overlay(a, b, EnvKey)
  {
    result := MergeBy(a, b, EnvKey);
  }

  method MergeEnvFrom(a: seq<EnvFromSource>, b: seq<EnvFromSource>) returns (result: seq<EnvFromSource>)
    ensures result == Overlay(a, b, EnvFromKey)
  {
    result := MergeBy(a, b, EnvFromKey);
  }

  // ---------------------------------------------------------------------- what the merge means

  /** The key `k` occurs at two positions. */
  predicate Twice<T>(s: seq<T>, key: T -> Option<string>, k: string) {
    exists i, j :: 0 <= i < j < |s| && key(s[i]) == Some(k) && key(s[j]) == Some(k)
  }

  lemma {:induction false} LastWithSameKeys<T>(s: seq<T>, t: seq<T>, key: T -> Option<string>, k: string)
    requires |s| == |t| && forall i :: 0 <= i < |s| ==> key(s[i]) == key(t[i])
    ensures LastWith(s, key, k) == LastWith(t, key, k)
  {
    if s != [] {
      LastWithSameKeys(s[..|s| - 1], t[..|t| - 1], key, k);
    }
  }

  lemma {:induction false} LastWithConcat<T>(s: seq<T>, t: seq<T>, key: T -> Option<string>, k: string)
    ensures LastWith(s + t, key, k) ==
              match LastWith(t, key, k)
              case Some(i) => Some(|s| + i)
              case None => LastWith(s, key, k)
  {
    if t == [] {
      assert s + t == s;
    } else {
      assert (s + t)[..|s + t| - 1] == s + t[..|t| - 1];
      LastWithConcat(s, t[..|t| - 1], key, k);
    }
  }

  function Kept<T>(a: seq<T>, b: seq<T>, key: T -> Option<string>): (r: seq<T>)
    ensures |r| == |KeptFrom(a, b, key, 0)|
  {
    var kept := KeptFrom(a, b, key, 0);
    assert forall i :: 0 <= i < |kept| ==> kept[i] in kept;
    Pick(b, kept)
  }

  /** An appended entry carries a key of `b` that `a` lacks, and is what `b` resolves it to. */
  lemma KeptAt<T>(a: seq<T>, b: seq<T>, key: T -> Option<string>, i: nat)
    requires i < |Kept(a, b, key)|
    ensures var e := Kept(a, b, key)[i];
            key(e).Some? && !HasKey(a, key, key(e).value) && Lookup(b, key, key(e).value) == Some(e)
  {
    assert KeptFrom(a, b, key, 0)[i] in KeptFrom(a, b, key, 0);
  }

  lemma KeptLookup<T>(a: seq<T>, b: seq<T>, key: T -> Option<string>, k: string)
    ensures Lookup(Kept(a, b, key), key, k) == if HasKey(a, key, k) then None else Lookup(b, key, k)
  {
    var kept, last := KeptFrom(a, b, key, 0), LastWith(b, key, k);
    if !HasKey(a, key, k) && last.Some? {
      assert Keep(a, b, key, last.value);
      assert last.value in kept;
      var i :| 0 <= i < |kept| && kept[i] == last.value;
      assert key(Kept(a, b, key)[i]) == Some(k);
    }
    var r := LastWith(Kept(a, b, key), key, k);
    if r.Some? {
      KeptAt(a, b, key, r.value);
    }
  }

  /** Every lookup in the merged list, for any two lists. */
  lemma OverlayLookup<T>(a: seq<T>, b: seq<T>, key: T -> Option<string>, k: string)
    ensures Lookup(Overlay(a, b, key), key, k) ==
              if Lookup(b, key, k).Some? && !Twice(a, key, k) then Lookup(b, key, k) else Lookup(a, key, k)
  {
    var front, back := Replaced(a, b, key), Kept(a, b, key);
    assert Overlay(a, b, key) == front + back;
    LastWithConcat(front, back, key, k);
    KeptLookup(a, b, key, k);
    LastWithSameKeys(front, a, key, k);
    var last := LastWith(a, key, k);
    if last.Some? {
      assert HasKey(a, key, k);
      assert FirstOf(a, key, last.value) <==> !Twice(a, key, k);
      assert front[last.value] == ReplaceAt(a, b, key, last.value);
    }
  }

  /**
   The merge is map override exactly when no key of `b` that `a` holds twice resolves differently in
   `a`: under that condition, and only then, every key resolves to its value in `b`, else in `a`.
   */
  lemma OverlayIsOverride<T>(a: seq<T>, b: seq<T>, key: T -> Option<string>)
    ensures (forall k :: Lookup(Overlay(a, b, key), key, k)
                      == if Lookup(b, key, k).Some? then Lookup(b, key, k) else Lookup(a, key, k))
       <==> (forall k :: Twice(a, key, k) && Lookup(b, key, k).Some? ==> Lookup(a, key, k) == Lookup(b, key, k))
  {
    forall k ensures Lookup(Overlay(a, b, key), key, k) ==
              if Lookup(b, key, k).Some? && !Twice(a, key, k) then Lookup(b, key, k) else Lookup(a, key, k)
    {
      OverlayLookup(a, b, key, k);
    }
  }

  /** A repeated name defeats the override: the second entry of `a` survives behind the replaced first one. */
  lemma RepeatedNameDefeatsOverride()
    ensures var a, b := [EnvVar("X", "1"), EnvVar("X", "2")], [EnvVar("X", "3")];
            Lookup(Overlay(a, b, EnvKey), EnvKey, "X") == Some(EnvVar("X", "2"))
  {
    var a, b := [EnvVar("X", "1"), EnvVar("X", "2")], [EnvVar("X", "3")];
    assert EnvKey(a[0]) == Some("X") && EnvKey(a[1]) == Some("X");
    assert Twice(a, EnvKey, "X");
    OverlayLookup(a, b, EnvKey, "X");
  }

  predicate DistinctKeys<T>(s: seq<T>, key: T -> Option<string>) {
    forall i, j :: 0 <= i < j < |s| && key(s[i]).Some? ==> key(s[i]) != key(s[j])
  }

  /** With distinct keys in `a`, each key appears once in the merged list. */
  lemma OverlayDistinct<T>(a: seq<T>, b: seq<T>, key: T -> Option<string>)
    requires DistinctKeys(a, key)
    ensures DistinctKeys(Overlay(a, b, key), key)
  {
    var r, back := Overlay(a, b, key), Kept(a, b, key);
    var kept := KeptFrom(a, b, key, 0);
    forall i, j | 0 <= i < j < |r| && key(r[i]).Some? ensures key(r[i]) != key(r[j]) {
      if j >= |a| {
        assert r[j] == back[j - |a|];
        KeptAt(a, b, key, j - |a|);
        if i >= |a| {
          assert r[i] == back[i - |a|];
          KeptAt(a, b, key, i - |a|);
          assert kept[i - |a|] in kept && kept[j - |a|] in kept;
          assert kept[i - |a|] < kept[j - |a|];
        } else {
          assert key(r[i]) == key(a[i]);
        }
      } else {
        assert key(r[i]) == key(a[i]) && key(r[j]) == key(a[j]);
      }
    }
  }

  /** What is appended keeps the order of `b`. */
  lemma AppendedInOrder<T>(a: seq<T>, b: seq<T>, key: T -> Option<string>, i: nat, j: nat)
    requires |a| <= i < j < |Overlay(a, b, key)|
    ensures exists x, y :: 0 <= x < y < |b| && Overlay(a, b, key)[i] == b[x] && Overlay(a, b, key)[j] == b[y]
  {
    var kept := KeptFrom(a, b, key, 0);
    var x, y := kept[i - |a|], kept[j - |a|];
    assert x in kept && y in kept;
    assert Overlay(a, b, key)[i] == b[x] && Overlay(a, b, key)[j] == b[y];
  }

  /** The merged list keeps the positions of `a`: the entry at each of them has the key it had. */
  lemma OverlayKeepsPositions<T>(a: seq<T>, b: seq<T>, key: T -> Option<string>, i: nat)
    requires i < |a|
    ensures |a| <= |Overlay(a, b, key)|
    ensures key(Overlay(a, b, key)[i]) == key(a[i])
    ensures Overlay(a, b, key)[i] == a[i] || Some(Overlay(a, b, key)[i]) == Lookup(b, key, key(a[i]).value)
  {
  }

  lemma OverlayHasKeysOfB<T>(a: seq<T>, b: seq<T>, key: T -> Option<string>, k: string)
    requires Lookup(b, key, k).Some?
    ensures HasKey(Overlay(a, b, key), key, k)
  {
    OverlayLookup(a, b, key, k);
    assert LastWith(Overlay(a, b, key), key, k).Some?;
  }

  /** Merging the same list once more changes nothing, for any input. */
  lemma OverlayIdempotent<T>(a: seq<T>, b: seq<T>, key: T -> Option<string>)
    ensures Overlay(Overlay(a, b, key), b, key) == Overlay(a, b, key)
  {
    var r := Overlay(a, b, key);
    assert KeptFrom(r, b, key, 0) == [] by {
      var kept := KeptFrom(r, b, key, 0);
      if kept != [] {
        assert kept[0] in kept;
        OverlayHasKeysOfB(a, b, key, key(b[kept[0]]).value);
      }
    }
    forall i | 0 <= i < |r| ensures ReplaceAt(r, b, key, i) == r[i] {
      if i < |a| {
        assert r[i] == ReplaceAt(a, b, key, i);
        assert forall j :: 0 <= j <= i ==> key(r[j]) == key(a[j]);
        assert FirstOf(r, key, i) <==> FirstOf(a, key, i);
      } else {
        assert r[i] == Kept(a, b, key)[i - |a|];
        KeptAt(a, b, key, i - |a|);
      }
    }
    assert Replaced(r, b, key) == r;
  }

  /** Every keyed entry of `b` that no later one shares its key with is in the merged list. */
  lemma OverlayHasLast<T(!new)>(a: seq<T>, b: seq<T>, key: T -> Option<string>, i: nat)
    requires i < |b| && key(b[i]).Some? && forall j :: i < j < |b| ==> key(b[j]) != key(b[i])
    ensures b[i] in Overlay(a, b, key)
  {
    var k, r := key(b[i]).value, Overlay(a, b, key);
    assert LastWith(b, key, k) == Some(i);
    if HasKey(a, key, k) {
      var j := FirstWith(a, key, k);
      assert r[j] == ReplaceAt(a, b, key, j) == b[i];
    } else {
      var kept := KeptFrom(a, b, key, 0);
      assert Keep(a, b, key, i) && i in kept;
      var n :| 0 <= n < |kept| && kept[n] == i;
      assert r[|a| + n] == b[i];
    }
  }

  lemma {:induction false} FirstWith<T>(a: seq<T>, key: T -> Option<string>, k: string) returns (j: nat)
    requires HasKey(a, key, k)
    ensures j < |a| && key(a[j]) == Some(k) && FirstOf(a, key, j)
  {
    j :| 0 <= j < |a| && key(a[j]) == Some(k);
    if !FirstOf(a, key, j) {
      j := FirstWith(a[..j], key, k);
    }
  }

  // ---------------------------------------------------------------------- the concatenated source key

  /** Two sources with one key: the name and prefix run together, so one source can replace another. */
  lemma SourceKeysCollide()
    ensures var x, y := EnvFromSource("b", Some("a"), None), EnvFromSource("", Some("ab"), None);
            x != y && EnvFromKey(x) == EnvFromKey(y) && Overlay([x], [y], EnvFromKey) == [y]
  {
    var x, y := EnvFromSource("b", Some("a"), None), EnvFromSource("", Some("ab"), None);
    assert "cm" + "a" + "b" == "cm" + "ab" + "";
    var k := "cm" + "ab" + "";
    assert EnvFromKey(x) == Some(k) && EnvFromKey(y) == Some(k);
    assert EnvFromKey([x][0]) == Some(k);
    assert HasKey([x], EnvFromKey, k);
    assert KeptFrom([x], [y], EnvFromKey, 0) == [] by {
      assert KeptFrom([x], [y], EnvFromKey, 1) == [];
    }
    assert LastWith([y], EnvFromKey, k) == Some(0);
  }

  /** Keys collide exactly when the kinds agree and the concatenations of name and prefix do. */
  lemma SourceKeysEqualIff(x: EnvFromSource, y: EnvFromSource)
    requires EnvFromKey(x).Some? && EnvFromKey(y).Some?
    ensures EnvFromKey(x) == EnvFromKey(y) <==>
              && (x.configMapRef.Some? <==> y.configMapRef.Some?)
              && (if x.configMapRef.Some? then x.configMapRef.value else x.secretRef.value) + x.prefix ==
                 (if y.configMapRef.Some? then y.configMapRef.value else y.secretRef.value) + y.prefix
  {
    var nx := (if x.configMapRef.Some? then x.configMapRef.value else x.secretRef.value) + x.prefix;
    var ny := (if y.configMapRef.Some? then y.configMapRef.value else y.secretRef.value) + y.prefix;
    var hx, hy := if x.configMapRef.Some? then "cm" else "sec", if y.configMapRef.Some? then "cm" else "sec";
    assert EnvFromKey(x).value == hx + nx && EnvFromKey(y).value == hy + ny;
    assert (hx + nx)[|hx|..] == nx && (hy + ny)[|hy|..] == ny;
    assert (hx + nx)[0] == hx[0] && (hy + ny)[0] == hy[0];
  }

  // ---------------------------------------------------------------------- what the keys stand for

  /** Variables are merged by their whole names. */
  lemma EnvKeysEqualIff(x: EnvVar, y: EnvVar)
    ensures EnvKey(x) == EnvKey(y) <==> x.name == y.name
  {
  }

  /** The last variable of that name, which is the one a container sees. */
  function ValueOf(env: seq<EnvVar>, name: string): (r: Option<EnvVar>)
    ensures r.Some? ==> r.value in env && r.value.name == name
  {
    if env == [] then None
    else if env[|env| - 1].name == name then Some(env[|env| - 1])
    else ValueOf(env[..|env| - 1], name)
  }

  lemma {:induction false} LookupByName(env: seq<EnvVar>, name: string)
    ensures Lookup(env, EnvKey, name) == ValueOf(env, name)
  {
    if env != [] {
      LookupByName(env[..|env| - 1], name);
    }
  }

  /** Merging by name: each name has its value in `b`, else in `a`, but keeps that of `a` if `a` has the name twice. */
  lemma MergedValue(a: seq<EnvVar>, b: seq<EnvVar>, name: string)
    ensures ValueOf(Overlay(a, b, EnvKey), name) ==
              if ValueOf(b, name).Some? && !exists i, j :: 0 <= i < j < |a| && a[i].name == a[j].name == name
              then ValueOf(b, name) else ValueOf(a, name)
  {
    OverlayLookup(a, b, EnvKey, name);
    LookupByName(Overlay(a, b, EnvKey), name);
    LookupByName(a, name);
    LookupByName(b, name);
    assert forall i :: 0 <= i < |a| ==> (EnvKey(a[i]) == Some(name) <==> a[i].name == name);
  }

  predicate HasSource(x: EnvFromSource) {
    x.configMapRef.Some? || x.secretRef.Some?
  }

  /** Two config maps, or two secrets, whose names and prefixes run together alike. */
  predicate SameSource(x: EnvFromSource, y: EnvFromSource) {
    || (x.configMapRef.Some? && y.configMapRef.Some? &&
        x.configMapRef.value + x.prefix == y.configMapRef.value + y.prefix)
    || (x.configMapRef.None? && y.configMapRef.None? && x.secretRef.Some? && y.secretRef.Some? &&
        x.secretRef.value + x.prefix == y.secretRef.value + y.prefix)
  }

  /** Sources are merged by kind and run-together name; an entry without a source is never merged. */
  lemma SameSourceIff(x: EnvFromSource, y: EnvFromSource)
    ensures EnvFromKey(x).Some? <==> HasSource(x)
    ensures SameSource(x, y) <==> EnvFromKey(x).Some? && EnvFromKey(x) == EnvFromKey(y)
  {
    if HasSource(x) && HasSource(y) {
      SourceKeysEqualIff(x, y);
    }
  }

  predicate HasSame(b: seq<EnvFromSource>, x: EnvFromSource) {
    exists j :: 0 <= j < |b| && SameSource(b[j], x)
  }

  /** Entry `i` of `a` is the first of its source there. */
  predicate FirstSource(a: seq<EnvFromSource>, i: nat)
    requires i < |a|
  {
    HasSource(a[i]) && forall j :: 0 <= j < i ==> !SameSource(a[j], a[i])
  }

  /** Entry `j` of `b` is the last that is the same source as `x`. */
  predicate LastSource(b: seq<EnvFromSource>, j: nat, x: EnvFromSource) {
    j < |b| && SameSource(b[j], x) && forall k :: j < k < |b| ==> !SameSource(b[k], x)
  }

  /**
   What happens to the sources of `a`: each keeps its position; the first of its kind and run-together
   name gives way to the last such entry of `b`, if there is one, and all others stay as they are.
   */
  lemma MergedSourceAt(a: seq<EnvFromSource>, b: seq<EnvFromSource>, i: nat)
    requires i < |a|
    ensures var r := Overlay(a, b, EnvFromKey);
            && |a| <= |r|
            && (forall j: nat :: FirstSource(a, i) && LastSource(b, j, a[i]) ==> r[i] == b[j])
            && (!FirstSource(a, i) || !HasSame(b, a[i]) ==> r[i] == a[i])
  {
    forall x, y ensures SameSource(x, y) <==> EnvFromKey(x).Some? && EnvFromKey(x) == EnvFromKey(y) {
      SameSourceIff(x, y);
    }
    SameSourceIff(a[i], a[i]);
    forall j: nat | FirstSource(a, i) && LastSource(b, j, a[i])
      ensures LastWith(b, EnvFromKey, EnvFromKey(a[i]).value) == Some(j)
    {
      assert EnvFromKey(b[j]) == EnvFromKey(a[i]);
    }
    assert Overlay(a, b, EnvFromKey)[i] == ReplaceAt(a, b, EnvFromKey, i);
  }

  /**
   What happens to the sources of `b`: the last of each kind and run-together name is in the merged list,
   and whatever the list has beyond `a` is such an entry, which `a` lacks.
   */
  lemma MergedSources(a: seq<EnvFromSource>, b: seq<EnvFromSource>, i: nat)
    ensures i < |b| && LastSource(b, i, b[i]) ==> b[i] in Overlay(a, b, EnvFromKey)
    ensures |a| <= i < |Overlay(a, b, EnvFromKey)| ==>
              var x := Overlay(a, b, EnvFromKey)[i];
              && (exists j: nat :: LastSource(b, j, x) && b[j] == x)
              && forall j :: 0 <= j < |a| ==> !SameSource(a[j], x)
  {
    forall x, y ensures SameSource(x, y) <==> EnvFromKey(x).Some? && EnvFromKey(x) == EnvFromKey(y) {
      SameSourceIff(x, y);
    }
    if i < |b| && LastSource(b, i, b[i]) {
      OverlayHasLast(a, b, EnvFromKey, i);
    }
    if |a| <= i < |Overlay(a, b, EnvFromKey)| {
      var x := Overlay(a, b, EnvFromKey)[i];
      assert x == Kept(a, b, EnvFromKey)[i - |a|];
      KeptAt(a, b, EnvFromKey, i - |a|);
      var j := LastWith(b, EnvFromKey, EnvFromKey(x).value).value;
      assert LastSource(b, j, x) && b[j] == x;
    }
  }
}
