/**
  Managed-path keys and the sorted-neighbour topology check
  (src/util/PathUtil.cpp, src/ApplyPlan.cpp, src/Manifest.cpp, tools/gc_objects.py).

  A managed path becomes a key by mapping '/' to NUL, the least character, and
  folding ASCII upper case.  The code sorts the keys and looks only at
  neighbours; the results here say that this finds a collision or an
  ancestor/descendant pair exactly when some pair of keys, adjacent or not, has one.
*/
module Topology {
  import opened Strings

  // ---------- keys ----------

  function KeyChar(c: char): char {
    if c == '/' then '\0' else FoldChar(c)
  }

  /** managedPathLookupKey and portableSourceKey: the same character map. */
  function LookupKey(path: string): (key: string)
    ensures |key| == |path|
  {
    seq(|path|, i requires 0 <= i < |path| => KeyChar(path[i]))
  }

  /** `child` names something below `parent` in the key space. */
  predicate Below(parent: string, child: string) {
    |child| > |parent| && child[..|parent|] == parent && child[|parent|] == '\0'
  }

  // ---------- the order std::string and std::map use ----------

  predicate Less(a: string, b: string) {
    |b| > 0 && (|a| == 0 || a[0] < b[0] || (a[0] == b[0] && Less(a[1..], b[1..])))
  }

  predicate AtMost(a: string, b: string) { !Less(b, a) }

  predicate Sorted(keys: seq<string>) {
    forall i, j :: 0 <= i < j < |keys| ==> AtMost(keys[i], keys[j])
  }

  lemma {:induction false} LessIrreflexive(a: string)
    ensures !Less(a, a)
  {
    if |a| > 0 { LessIrreflexive(a[1..]); }
  }

  lemma {:induction false} LessTransitive(a: string, b: string, c: string)
    requires Less(a, b) && Less(b, c)
    ensures Less(a, c)
  {
    if |a| > 0 && a[0] == b[0] == c[0] { LessTransitive(a[1..], b[1..], c[1..]); }
  }

  lemma {:induction false} LessTotal(a: string, b: string)
    ensures Less(a, b) || a == b || Less(b, a)
  {
    if |a| > 0 && |b| > 0 && a[0] == b[0] {
      LessTotal(a[1..], b[1..]);
      if a[1..] == b[1..] { assert a == [a[0]] + a[1..] == b; }
    }
  }

  /** Trichotomy, transitivity and antisymmetry in the form the sort needs. */
  lemma AtMostTransitive(a: string, b: string, c: string)
    requires AtMost(a, b) && AtMost(b, c)
    ensures AtMost(a, c)
  {
    if Less(c, a) {
      LessTotal(a, b);
      if a != b { LessTransitive(c, a, b); }
    }
  }

  // ---------- anything between a key and a descendant is itself a descendant ----------

  lemma {:induction false} BetweenIsBelow(parent: string, middle: string, child: string)
    requires Below(parent, child)
    requires Less(parent, middle) && AtMost(middle, child)
    ensures Below(parent, middle)
  {
    if |parent| > 0 {
      assert child[0] == parent[0];
      LessTotal(middle, child);
      assert middle[0] == parent[0] by {
        if middle == child { assert middle[0] == child[..|parent|][0]; }
      }
      var c, m := child[1..], middle[1..];
      assert c[..|parent| - 1] == child[..|parent|][1..] == parent[1..];
      assert Less(c, m) ==> Less(child, middle);
      BetweenIsBelow(parent[1..], m, c);
      assert middle[..|parent|] == [middle[0]] + m[..|parent| - 1];
    } else {
      LessTotal(middle, child);
    }
  }

  lemma {:induction false} BelowIsLess(parent: string, child: string)
    requires Below(parent, child)
    ensures Less(parent, child)
  {
    if |parent| > 0 {
      assert child[1..][..|parent| - 1] == child[..|parent|][1..] == parent[1..];
      assert child[0] == child[..|parent|][0];
      BelowIsLess(parent[1..], child[1..]);
    }
  }

  // ---------- all-pairs meaning ----------

  ghost predicate HasConflict(keys: seq<string>) {
    exists p, c :: p in keys && c in keys && Below(p, c)
  }

  predicate Distinct(keys: seq<string>) {
    forall i, j :: 0 <= i < j < |keys| ==> keys[i] != keys[j]
  }

  /** No two keys collide and none is an ancestor of another. */
  ghost predicate Disjoint(keys: seq<string>) {
    Distinct(keys) && !HasConflict(keys)
  }

  predicate NeighbourCollision(keys: seq<string>, i: int)
    requires 0 < i < |keys|
  { keys[i - 1] == keys[i] }

  predicate NeighbourConflict(keys: seq<string>, i: int)
    requires 0 < i < |keys|
  { Below(keys[i - 1], keys[i]) }

  /** Fast check refines all-pairs check, one direction: a conflicting pair shows up between neighbours. */
  lemma ConflictShowsAtNeighbours(keys: seq<string>, p: string, c: string) returns (i: int)
    requires Sorted(keys) && p in keys && c in keys && Below(p, c)
    ensures 0 < i < |keys|
    ensures NeighbourCollision(keys, i) || NeighbourConflict(keys, i)
  {
    BelowIsLess(p, c);
    var a :| 0 <= a < |keys| && keys[a] == p;
    var b :| 0 <= b < |keys| && keys[b] == c;
    LessIrreflexive(p);
    i := a + 1;
    assert a < b;
    LessTotal(keys[a], keys[a + 1]);
    if keys[a] != keys[a + 1] {
      assert AtMost(keys[a], keys[a + 1]);
      LessIrreflexive(keys[b]);
      assert AtMost(keys[a + 1], keys[b]);
      BetweenIsBelow(p, keys[a + 1], c);
    }
  }

  lemma CollisionShowsAtNeighbours(keys: seq<string>, a: int, b: int) returns (i: int)
    requires Sorted(keys) && 0 <= a < b < |keys| && keys[a] == keys[b]
    ensures 0 < i < |keys| && NeighbourCollision(keys, i)
  {
    i := a + 1;
    LessIrreflexive(keys[b]);
    assert AtMost(keys[a], keys[a + 1]) && AtMost(keys[a + 1], keys[b]);
    LessTotal(keys[a], keys[a + 1]);
  }

  /** Both directions, for sorted keys. */
  lemma NeighboursDecide(keys: seq<string>)
    requires Sorted(keys)
    ensures Disjoint(keys) <==>
            forall i :: 0 < i < |keys| ==> !NeighbourCollision(keys, i) && !NeighbourConflict(keys, i)
  {
    if !Distinct(keys) {
      var a, b :| 0 <= a < b < |keys| && keys[a] == keys[b];
      var i := CollisionShowsAtNeighbours(keys, a, b);
    } else if HasConflict(keys) {
      var p, c :| p in keys && c in keys && Below(p, c);
      var i := ConflictShowsAtNeighbours(keys, p, c);
    } else {
      forall i | 0 < i < |keys| ensures !NeighbourCollision(keys, i) && !NeighbourConflict(keys, i) {
        assert keys[i - 1] in keys && keys[i] in keys;
      }
    }
  }

  // ---------- std::sort, as a function ----------

  function Insert(k: string, keys: seq<string>): (r: seq<string>)
    requires Sorted(keys)
    ensures Sorted(r) && multiset(r) == multiset(keys) + multiset{k}
  {
    if |keys| == 0 then [k]
    else if AtMost(k, keys[0]) then
      LessIrreflexive(k);
      assert forall j :: 0 <= j < |keys| ==> AtMost(k, keys[j]) by {
        forall j | 0 <= j < |keys| ensures AtMost(k, keys[j]) {
          if j > 0 { AtMostTransitive(k, keys[0], keys[j]); }
        }
      }
      [k] + keys
    else
      var rest := Insert(k, keys[1..]);
      assert keys == [keys[0]] + keys[1..];
      assert forall j :: 0 <= j < |rest| ==> AtMost(keys[0], rest[j]) by {
        forall j | 0 <= j < |rest| ensures AtMost(keys[0], rest[j]) {
          assert rest[j] in multiset(rest);
          if rest[j] != k {
            assert rest[j] in keys[1..];
          } else {
            LessTotal(k, keys[0]);
            if Less(keys[0], k) && Less(k, keys[0]) { LessTransitive(k, keys[0], k); LessIrreflexive(k); }
          }
        }
      }
      [keys[0]] + rest
  }

  function Sort(keys: seq<string>): (r: seq<string>)
    ensures Sorted(r) && multiset(r) == multiset(keys)
  {
    if |keys| == 0 then []
    else
      assert keys == [keys[0]] + keys[1..];
      Insert(keys[0], Sort(keys[1..]))
  }

  lemma {:induction false} DistinctIsCounting(keys: seq<string>)
    ensures Distinct(keys) <==> forall k :: k in keys ==> multiset(keys)[k] == 1
  {
    if |keys| > 0 {
      var rest := keys[1..];
      assert keys == [keys[0]] + rest;
      DistinctIsCounting(rest);
      if Distinct(keys) {
        assert Distinct(rest) by {
          forall i, j | 0 <= i < j < |rest| ensures rest[i] != rest[j] {
            assert rest[i] == keys[i + 1] && rest[j] == keys[j + 1];
          }
        }
        assert keys[0] !in rest;
      } else if keys[0] !in rest {
        var i, j :| 0 <= i < j < |keys| && keys[i] == keys[j];
        assert keys[j] == rest[j - 1];
        assert rest[i - 1] == rest[j - 1];
        assert !Distinct(rest);
        var k :| k in rest && multiset(rest)[k] != 1;
        assert multiset(keys)[k] != 1;
      } else {
        assert multiset(rest)[keys[0]] >= 1;
        assert multiset(keys)[keys[0]] >= 2;
      }
    }
  }

  lemma PermutationKeepsDisjoint(a: seq<string>, b: seq<string>)
    requires multiset(a) == multiset(b)
    ensures Disjoint(a) <==> Disjoint(b)
  {
    DistinctIsCounting(a);
    DistinctIsCounting(b);
    assert forall k :: k in a <==> k in multiset(a);
    assert forall k :: k in b <==> k in multiset(b);
  }

  // ---------- the loops ----------

  /** validateSourceTopology: `keys` is the iteration order of the std::map, strictly increasing. */
  method ValidateSourceTopology(keys: seq<string>) returns (ok: bool)
    requires Sorted(keys) && Distinct(keys)
    ensures ok <==> !HasConflict(keys)
  {
    NeighboursDecide(keys);
    if |keys| == 0 { return true; }
    var current := 1;
    while current < |keys|
      invariant 1 <= current <= |keys|
      invariant forall i :: 0 < i < current ==> !NeighbourConflict(keys, i)
    {
      if Below(keys[current - 1], keys[current]) {
        assert NeighbourConflict(keys, current);
        return false;
      }
      current := current + 1;
    }
    return true;
  }

  function Keys(paths: seq<string>): (keys: seq<string>)
    ensures |keys| == |paths|
    ensures forall i :: 0 <= i < |paths| ==> keys[i] == LookupKey(paths[i])
  {
    seq(|paths|, i requires 0 <= i < |paths| => LookupKey(paths[i]))
  }

  /** The collision part of validateManagedTargetPaths, on paths in any order. */
  method ValidateDisjointTargets(paths: seq<string>) returns (ok: bool)
    ensures ok <==> Disjoint(Keys(paths))
  {
    var keys := Sort(Keys(paths));
    PermutationKeepsDisjoint(keys, Keys(paths));
    NeighboursDecide(keys);
    var index := 1;
    while index < |keys|
      invariant 1 <= index
      invariant forall i :: 0 < i < index && i < |keys| ==> !NeighbourCollision(keys, i) && !NeighbourConflict(keys, i)
    {
      if keys[index - 1] == keys[index] || Below(keys[index - 1], keys[index]) {
        assert NeighbourCollision(keys, index) || NeighbourConflict(keys, index);
        return false;
      }
      index := index + 1;
    }
    return true;
  }

  // ---------- what the keys mean for paths ----------

  predicate NulFree(path: string) { forall i :: 0 <= i < |path| ==> path[i] != '\0' }

  /** Case-folded equality of two paths. */
  predicate SameFolded(a: string, b: string) {
    |a| == |b| && forall i :: 0 <= i < |a| ==> FoldChar(a[i]) == FoldChar(b[i])
  }

  /** `child` lies inside directory `parent`, ignoring ASCII case. */
  predicate InsideDirectory(parent: string, child: string) {
    |child| > |parent| && SameFolded(parent, child[..|parent|]) && child[|parent|] == '/'
  }

  /** On NUL-free paths (managed paths reject control characters) a key conflict is a directory conflict. */
  lemma KeysMeanPaths(p: string, c: string)
    requires NulFree(p) && NulFree(c)
    ensures LookupKey(p) == LookupKey(c) <==> SameFolded(p, c)
    ensures Below(LookupKey(p), LookupKey(c)) <==> InsideDirectory(p, c)
  {
    var kp, kc := LookupKey(p), LookupKey(c);
    assert forall i :: 0 <= i < |p| ==> kp[i] == KeyChar(p[i]);
    assert forall i :: 0 <= i < |c| ==> kc[i] == KeyChar(c[i]);
    if SameFolded(p, c) {
      assert forall i :: 0 <= i < |p| ==> FoldChar(p[i]) == FoldChar(c[i]) && kp[i] == kc[i];
      assert kp == kc;
    }
    if kp == kc {
      forall i | 0 <= i < |p| ensures FoldChar(p[i]) == FoldChar(c[i]) { assert kp[i] == kc[i]; }
    }
    if |c| > |p| {
      var head := c[..|p|];
      assert kc[..|p|] == LookupKey(head);
      if SameFolded(p, head) {
        assert forall i :: 0 <= i < |p| ==> FoldChar(p[i]) == FoldChar(head[i]) && kp[i] == kc[i];
        assert kp == kc[..|p|];
      }
      if kc[..|p|] == kp {
        forall i | 0 <= i < |p| ensures FoldChar(p[i]) == FoldChar(head[i]) { assert kp[i] == kc[..|p|][i]; }
      }
    }
  }
}
