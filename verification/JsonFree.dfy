/**
 json_value_free_ex of src/json.c: it frees a tree with no stack, by counting the lengths of the values down
 and following their parent pointers back up.
 */
module JsonFree {

  /** parent[i] is the parent of value i, or -1 for the root, which is value 0; kids[i] is what is in its slots. */
  datatype Forest = Forest(parent: seq<int>, kids: seq<seq<nat>>)

  ghost predicate Valid(f: Forest) {
    && |f.parent| == |f.kids| > 0 && f.parent[0] == -1
    && (forall i :: 0 <= i < |f.kids| ==> KidsOk(f, f.kids[i], i))
    && forall i :: 0 < i < |f.kids| ==> 0 <= f.parent[i] < i && i in f.kids[f.parent[i]]
  }

  /** The kids of i are different values, and have it as their parent. */
  predicate KidsOk(f: Forest, s: seq<nat>, i: nat) {
    && (forall k :: 0 <= k < |s| ==> i < s[k] < |f.parent| && f.parent[s[k]] == i)
    && forall j, k :: 0 <= j < k < |s| ==> s[j] != s[k]
  }

  /** The order in which the subtree of v is freed: its kids from the last to the first, and then v itself. */
  ghost function Post(f: Forest, v: nat): seq<nat>
    requires Valid(f) && v < |f.kids|
    decreases |f.kids| - v, |f.kids[v]| + 1
  {
    PostKids(f, v, |f.kids[v]|) + [v]
  }

  /** The order for the first n kids of v. */
  ghost function PostKids(f: Forest, v: nat, n: nat): seq<nat>
    requires Valid(f) && v < |f.kids| && n <= |f.kids[v]|
    decreases |f.kids| - v, n
  {
    if n == 0 then []
    else
      assert KidsOk(f, f.kids[v], v);
      Post(f, f.kids[v][n - 1]) + PostKids(f, v, n - 1)
  }

  // ---------- every value once ----------

  /** v is x or one of its ancestors. */
  ghost predicate Anc(f: Forest, x: int, v: nat)
    requires Valid(f) && -1 <= x < |f.kids|
    decreases x + 1
  {
    x >= 0 && (x == v || (x > 0 && Anc(f, f.parent[x], v)))
  }

  lemma {:induction false} AncBelow(f: Forest, x: int, v: nat)
    requires Valid(f) && -1 <= x < |f.kids| && Anc(f, x, v)
    ensures v <= x
    decreases x + 1
  {
    if x != v {
      AncBelow(f, f.parent[x], v);
    }
  }

  /** Two ancestors of one value are in line. */
  lemma {:induction false} AncLine(f: Forest, x: int, a: nat, b: nat)
    requires Valid(f) && -1 <= x < |f.kids| && Anc(f, x, a) && Anc(f, x, b) && a < b < |f.kids|
    ensures Anc(f, b, a)
    decreases x + 1
  {
    AncBelow(f, x, b);
    if x != b {
      AncLine(f, f.parent[x], a, b);
    }
  }

  /** So different kids of one value have no descendant in common. */
  lemma KidsApart(f: Forest, v: nat, j: nat, k: nat, x: nat)
    requires Valid(f) && v < |f.kids| && j < |f.kids[v]| && k < |f.kids[v]| && j != k && x < |f.kids|
    ensures KidsOk(f, f.kids[v], v)
    ensures !(Anc(f, x, f.kids[v][j]) && Anc(f, x, f.kids[v][k]))
  {
    assert KidsOk(f, f.kids[v], v);
    var a, b := f.kids[v][j], f.kids[v][k];
    if Anc(f, x, a) && Anc(f, x, b) {
      var lo, hi := if a < b then a else b, if a < b then b else a;
      AncLine(f, x, lo, hi);
      AncBelow(f, f.parent[hi], lo);
    }
  }

  /** x is in the subtree of one of the first n kids of v. */
  ghost predicate Under(f: Forest, v: nat, n: nat, x: nat)
    requires Valid(f) && v < |f.kids| && n <= |f.kids[v]| && x < |f.kids|
  {
    exists k :: 0 <= k < n && Anc(f, x, f.kids[v][k])
  }

  /** A proper descendant is in the subtree of a kid. */
  lemma {:induction false} DescendantUnder(f: Forest, v: nat, x: nat)
    requires Valid(f) && v < |f.kids| && x < |f.kids|
    ensures Anc(f, x, v) <==> x == v || Under(f, v, |f.kids[v]|, x)
    ensures Under(f, v, |f.kids[v]|, x) ==> x > v
  {
    assert KidsOk(f, f.kids[v], v);
    if Under(f, v, |f.kids[v]|, x) {
      var k :| 0 <= k < |f.kids[v]| && Anc(f, x, f.kids[v][k]);
      AncBelow(f, x, f.kids[v][k]);
      AncUp(f, x, f.kids[v][k]);
    }
    if Anc(f, x, v) && x != v {
      var c := KidToward(f, x, v);
    }
  }

  /** Whoever descends from a value descends from its parent. */
  lemma {:induction false} AncUp(f: Forest, x: int, c: nat)
    requires Valid(f) && -1 <= x < |f.kids| && 0 < c < |f.kids| && Anc(f, x, c)
    ensures f.parent[c] >= 0 && Anc(f, x, f.parent[c])
    decreases x + 1
  {
    if x != c {
      AncUp(f, f.parent[x], c);
    }
  }

  lemma {:induction false} KidToward(f: Forest, x: nat, v: nat) returns (k: nat)
    requires Valid(f) && x < |f.kids| && v < |f.kids| && Anc(f, x, v) && x != v
    ensures k < |f.kids[v]| && f.kids[v][k] < |f.kids| && Anc(f, x, f.kids[v][k])
    decreases x
  {
    if f.parent[x] == v {
      k :| 0 <= k < |f.kids[v]| && f.kids[v][k] == x;
    } else {
      k := KidToward(f, f.parent[x], v);
    }
  }

  /** How often x is among the first n elements. */
  ghost function Times(s: seq<nat>, n: nat, x: nat): nat
    requires n <= |s|
  {
    if n == 0 then 0 else Times(s, n - 1, x) + if s[n - 1] == x then 1 else 0
  }

  lemma {:induction false} TimesAgree(s: seq<nat>, t: seq<nat>, n: nat, x: nat)
    requires n <= |s| && n <= |t| && forall i :: 0 <= i < n ==> s[i] == t[i]
    ensures Times(s, n, x) == Times(t, n, x)
  {
    if n > 0 {
      TimesAgree(s, t, n - 1, x);
    }
  }

  lemma {:induction false} TimesConcat(a: seq<nat>, b: seq<nat>, m: nat, x: nat)
    requires m <= |b|
    ensures Times(a + b, |a| + m, x) == Times(a, |a|, x) + Times(b, m, x)
  {
    if m == 0 {
      TimesAgree(a, a + b, |a|, x);
    } else {
      TimesConcat(a, b, m - 1, x);
    }
  }

  lemma {:induction false} TimesIn(s: seq<nat>, n: nat, x: nat)
    requires n <= |s|
    ensures Times(s, n, x) > 0 <==> x in s[..n]
  {
    if n > 0 {
      TimesIn(s, n - 1, x);
      assert s[..n] == s[..n - 1] + [s[n - 1]];
    }
  }

  ghost function All(s: seq<nat>, x: nat): nat {
    Times(s, |s|, x)
  }

  lemma AllConcat(a: seq<nat>, b: seq<nat>, x: nat)
    ensures All(a + b, x) == All(a, x) + All(b, x)
  {
    TimesConcat(a, b, |b|, x);
  }

  lemma AllOne(v: nat, x: nat)
    ensures All([v], x) == if v == x then 1 else 0
  {
    assert Times([v], 0, x) == 0;
  }

  lemma UnderStep(f: Forest, v: nat, n: nat, x: nat)
    requires Valid(f) && v < |f.kids| && 0 < n <= |f.kids[v]| && x < |f.kids|
    ensures KidsOk(f, f.kids[v], v)
    ensures Under(f, v, n, x) <==> Anc(f, x, f.kids[v][n - 1]) || Under(f, v, n - 1, x)
    ensures !(Anc(f, x, f.kids[v][n - 1]) && Under(f, v, n - 1, x))
  {
    assert KidsOk(f, f.kids[v], v);
    if Under(f, v, n - 1, x) {
      var k :| 0 <= k < n - 1 && Anc(f, x, f.kids[v][k]);
      KidsApart(f, v, k, n - 1, x);
    }
  }

  /** A value is in the order of a subtree once if it belongs to it, and not at all otherwise. */
  lemma {:induction false} PostHasOnce(f: Forest, v: nat, x: nat)
    requires Valid(f) && v < |f.kids| && x < |f.kids|
    ensures All(Post(f, v), x) == if Anc(f, x, v) then 1 else 0
    decreases |f.kids| - v, |f.kids[v]| + 1
  {
    PostKidsHaveOnce(f, v, |f.kids[v]|, x);
    AllConcat(PostKids(f, v, |f.kids[v]|), [v], x);
    AllOne(v, x);
    DescendantUnder(f, v, x);
  }

  lemma {:induction false} PostKidsHaveOnce(f: Forest, v: nat, n: nat, x: nat)
    requires Valid(f) && v < |f.kids| && n <= |f.kids[v]| && x < |f.kids|
    ensures All(PostKids(f, v, n), x) == if Under(f, v, n, x) then 1 else 0
    decreases |f.kids| - v, n
  {
    if n > 0 {
      UnderStep(f, v, n, x);
      PostHasOnce(f, f.kids[v][n - 1], x);
      PostKidsHaveOnce(f, v, n - 1, x);
      AllConcat(Post(f, f.kids[v][n - 1]), PostKids(f, v, n - 1), x);
    }
  }

  lemma {:induction false} RootOfAll(f: Forest, x: nat)
    requires Valid(f) && x < |f.kids|
    ensures Anc(f, x, 0)
    decreases x
  {
    if x > 0 {
      RootOfAll(f, f.parent[x]);
    }
  }

  /** Every value is freed exactly once. */
  lemma FreedOnce(f: Forest, x: nat)
    requires Valid(f) && x < |f.kids|
    ensures All(Post(f, 0), x) == 1
  {
    PostHasOnce(f, 0, x);
    RootOfAll(f, x);
  }

  // ---------- kids before parents ----------

  ghost predicate Before(s: seq<nat>, a: nat, b: nat) {
    exists j, k :: 0 <= j < k < |s| && s[j] == a && s[k] == b
  }

  lemma BeforeConcat(l: seq<nat>, s: seq<nat>, r: seq<nat>, a: nat, b: nat)
    requires Before(s, a, b)
    ensures Before(l + s + r, a, b)
  {
    var j, k :| 0 <= j < k < |s| && s[j] == a && s[k] == b;
    var t := l + s + r;
    assert t[|l| + j] == a && t[|l| + k] == b;
  }

  lemma {:induction false} KidFirst(f: Forest, v: nat, p: nat, x: nat)
    requires Valid(f) && v < |f.kids| && p < |f.kids| && 0 < x < |f.kids| && f.parent[x] == p && Anc(f, p, v)
    ensures Before(Post(f, v), x, p)
    decreases |f.kids| - v, |f.kids[v]| + 1
  {
    var s, n := PostKids(f, v, |f.kids[v]|), |f.kids[v]|;
    if p == v {
      DescendantUnder(f, v, x);
      PostKidsHaveOnce(f, v, n, x);
      TimesIn(s, |s|, x);
      assert s[..|s|] == s;
      var j :| 0 <= j < |s| && s[j] == x;
      assert Post(f, v)[j] == x && Post(f, v)[|s|] == v;
    } else {
      DescendantUnder(f, v, p);
      KidFirstAmong(f, v, n, p, x);
      BeforeConcat([], s, [v], x, p);
      assert [] + s + [v] == Post(f, v);
    }
  }

  lemma {:induction false} KidFirstAmong(f: Forest, v: nat, n: nat, p: nat, x: nat)
    requires Valid(f) && v < |f.kids| && n <= |f.kids[v]| && p < |f.kids| && 0 < x < |f.kids| && f.parent[x] == p
    requires Under(f, v, n, p)
    ensures Before(PostKids(f, v, n), x, p)
    decreases |f.kids| - v, n
  {
    UnderStep(f, v, n, p);
    var c := f.kids[v][n - 1];
    var head, tail := Post(f, c), PostKids(f, v, n - 1);
    if Anc(f, p, c) {
      KidFirst(f, c, p, x);
      BeforeConcat([], head, tail, x, p);
      assert [] + head + tail == head + tail;
    } else {
      KidFirstAmong(f, v, n - 1, p, x);
      BeforeConcat(head, tail, [], x, p);
      assert head + tail + [] == head + tail;
    }
  }

  /** Every value is freed before its parent. */
  lemma FreedBeforeParent(f: Forest, x: nat)
    requires Valid(f) && 0 < x < |f.kids|
    ensures Before(Post(f, 0), x, f.parent[x])
  {
    RootOfAll(f, f.parent[x]);
    KidFirst(f, 0, f.parent[x], x);
  }

  // ---------- the loop ----------

  /** What is still to be freed once the loop is at v: the kids of v that its length still counts, v, and then the
      same from its parent up. */
  ghost function Rest(f: Forest, lens: seq<nat>, v: int): seq<nat>
    requires Valid(f) && |lens| == |f.kids| && -1 <= v < |f.kids|
    requires forall i :: 0 <= i < |lens| ==> lens[i] <= |f.kids[i]|
    decreases v + 1
  {
    if v < 0 then [] else PostKids(f, v, lens[v]) + [v] + Rest(f, lens, if v == 0 then -1 else f.parent[v])
  }

  lemma {:induction false} RestFrame(f: Forest, lens: seq<nat>, lens': seq<nat>, v: int)
    requires Valid(f) && |lens| == |lens'| == |f.kids| && -1 <= v < |f.kids|
    requires forall i :: 0 <= i < |lens| ==> lens[i] <= |f.kids[i]| && lens'[i] <= |f.kids[i]|
    requires forall i :: 0 <= i <= v ==> lens'[i] == lens[i]
    ensures Rest(f, lens, v) == Rest(f, lens', v)
    decreases v + 1
  {
    if v > 0 {
      RestFrame(f, lens, lens', f.parent[v]);
    }
  }

  /** Going down to the last kid that is counted leaves as much to be freed. */
  lemma RestDown(f: Forest, lens: seq<nat>, v: nat, n: nat)
    requires Valid(f) && |lens| == |f.kids| && v < |f.kids| && n > 0 && lens[v] == n
    requires forall i :: 0 <= i < |lens| ==> lens[i] <= |f.kids[i]|
    requires KidsOk(f, f.kids[v], v) && lens[f.kids[v][n - 1]] == |f.kids[f.kids[v][n - 1]]|
    ensures Rest(f, lens, v) == Rest(f, lens[v := n - 1], f.kids[v][n - 1])
  {
    var c, lens' := f.kids[v][n - 1], lens[v := n - 1];
    var up := if v == 0 then -1 else f.parent[v];
    RestFrame(f, lens, lens', up);
    RestAt(f, lens', c, v);
    Regroup(Post(f, c), PostKids(f, v, n - 1), v, Rest(f, lens, up));
  }

  lemma Regroup(a: seq<nat>, b: seq<nat>, v: nat, r: seq<nat>)
    ensures (a + b) + [v] + r == a + (b + [v] + r)
  {
  }

  lemma RestAt(f: Forest, lens: seq<nat>, c: nat, v: nat)
    requires Valid(f) && |lens| == |f.kids| && 0 < c < |f.kids| && f.parent[c] == v && lens[c] == |f.kids[c]|
    requires forall i :: 0 <= i < |lens| ==> lens[i] <= |f.kids[i]|
    ensures Rest(f, lens, c) == Post(f, c) + Rest(f, lens, v)
  {
  }

  /** A value that is still to be freed and is not above v has not been counted down. */
  ghost predicate Touched(f: Forest, lens: seq<nat>, freed: seq<nat>, v: int)
    requires Valid(f) && |lens| == |f.kids| && -1 <= v < |f.kids|
  {
    forall i :: 0 <= i < |lens| && lens[i] != |f.kids[i]| ==> i in freed || Anc(f, v, i)
  }

  lemma KidUntouched(f: Forest, lens: seq<nat>, freed: seq<nat>, v: nat, n: nat)
    requires Valid(f) && |lens| == |f.kids| && v < |f.kids| && n > 0 && lens[v] == n && Touched(f, lens, freed, v)
    requires forall i :: 0 <= i < |lens| ==> lens[i] <= |f.kids[i]|
    requires freed + Rest(f, lens, v) == Post(f, 0)
    ensures KidsOk(f, f.kids[v], v) && lens[f.kids[v][n - 1]] == |f.kids[f.kids[v][n - 1]]|
  {
    assert KidsOk(f, f.kids[v], v);
    var c := f.kids[v][n - 1];
    FreedOnce(f, c);
    var rest := Rest(f, lens, v);
    AllConcat(freed, rest, c);
    KidPending(f, lens, v, n);
    TimesIn(freed, |freed|, c);
    assert freed[..|freed|] == freed;
    if Anc(f, v, c) {
      AncBelow(f, v, c);
    }
  }

  lemma KidPending(f: Forest, lens: seq<nat>, v: nat, n: nat)
    requires Valid(f) && |lens| == |f.kids| && v < |f.kids| && n > 0 && lens[v] == n && KidsOk(f, f.kids[v], v)
    requires forall i :: 0 <= i < |lens| ==> lens[i] <= |f.kids[i]|
    ensures All(Rest(f, lens, v), f.kids[v][n - 1]) > 0
  {
    var c := f.kids[v][n - 1];
    var rest := Rest(f, lens, v);
    var k := |Post(f, c)| - 1;
    assert Post(f, c)[k] == c;
    assert rest[k] == c;
    TimesIn(rest, |rest|, c);
    assert rest[..|rest|] == rest;
  }

  ghost function Sum(lens: seq<nat>, n: nat): nat
    requires n <= |lens|
  {
    if n == 0 then 0 else Sum(lens, n - 1) + lens[n - 1]
  }

  lemma {:induction false} SumLess(lens: seq<nat>, v: nat, n: nat)
    requires v < |lens| && n <= |lens| && lens[v] > 0
    ensures Sum(lens[v := lens[v] - 1], n) == Sum(lens, n) - if v < n then 1 else 0
  {
    if n > 0 {
      SumLess(lens, v, n - 1);
    }
  }

  /** The state of the loop at v. */
  ghost predicate Freeing(f: Forest, lens: seq<nat>, freed: seq<nat>, v: int) {
    && Valid(f) && |lens| == |f.kids| && -1 <= v < |f.kids|
    && (forall i :: 0 <= i < |lens| ==> lens[i] <= |f.kids[i]|)
    && freed + Rest(f, lens, v) == Post(f, 0) && Touched(f, lens, freed, v)
  }

  lemma Down(f: Forest, lens: seq<nat>, freed: seq<nat>, v: nat)
    requires Freeing(f, lens, freed, v) && lens[v] > 0
    ensures KidsOk(f, f.kids[v], v) && Freeing(f, lens[v := lens[v] - 1], freed, f.kids[v][lens[v] - 1])
  {
    var n := lens[v];
    KidUntouched(f, lens, freed, v, n);
    RestDown(f, lens, v, n);
    var c := f.kids[v][n - 1];
    forall i | 0 <= i < |lens| && lens[v := n - 1][i] != |f.kids[i]|
      ensures i in freed || Anc(f, c, i)
    {
      assert i == v || i in freed || Anc(f, v, i);
      assert Anc(f, v, i) ==> Anc(f, c, i);
      assert Anc(f, v, v);
    }
  }

  lemma Up(f: Forest, lens: seq<nat>, freed: seq<nat>, v: nat)
    requires Freeing(f, lens, freed, v) && lens[v] == 0
    ensures Freeing(f, lens, freed + [v], f.parent[v])
  {
    assert v == 0 ==> f.parent[v] == -1;
    var r := Rest(f, lens, f.parent[v]);
    assert Rest(f, lens, v) == [] + [v] + r;
    assert freed + ([] + [v] + r) == (freed + [v]) + r;
    forall i | 0 <= i < |lens| && lens[i] != |f.kids[i]|
      ensures i in freed + [v] || Anc(f, f.parent[v], i)
    {
      assert i in freed || Anc(f, v, i);
    }
  }

  /** The loop of json_value_free_ex. lens holds the lengths, which it counts down; the result is the order of the
      calls of mem_free on values. */
  method FreeEx(f: Forest, lens: array<nat>) returns (freed: seq<nat>)
    requires Valid(f) && lens.Length == |f.kids| && forall i :: 0 <= i < |f.kids| ==> lens[i] == |f.kids[i]|
    modifies lens
    ensures freed == Post(f, 0)
  {
    freed := [];
    var v: int := 0;
    RestAll(f, lens[..]);
    while v >= 0
      invariant Freeing(f, lens[..], freed, v)
      decreases |Post(f, 0)| - |freed|, Sum(lens[..], lens.Length)
    {
      if lens[v] > 0 {
        Down(f, lens[..], freed, v);
        SumLess(lens[..], v, lens.Length);
        ghost var after := lens[..][v := lens[v] - 1];
        lens[v] := lens[v] - 1;
        assert lens[..] == after;
        v := f.kids[v][lens[v]];
      } else {
        Up(f, lens[..], freed, v);
        freed := freed + [v];
        v := f.parent[v];
      }
    }
    assert freed + [] == freed;
  }

  lemma RestAll(f: Forest, lens: seq<nat>)
    requires Valid(f) && |lens| == |f.kids| && forall i :: 0 <= i < |f.kids| ==> lens[i] == |f.kids[i]|
    ensures Freeing(f, lens, [], 0)
  {
    assert Rest(f, lens, -1) == [];
    assert Rest(f, lens, 0) == Post(f, 0) + [];
    assert [] + Rest(f, lens, 0) == Post(f, 0);
  }
}
