/**
 * `paths.sort(reverse=True, key=lambda x: x.count("/"))`: Python's sort is
 * stable also when reversed, so the result is the unique ordering that puts
 * deeper paths first and keeps paths of equal depth in their original order.
 * It is written here as an insertion sort on values.
 */
module DepthSort {

  /** `s.count("/")`. */
  function Slashes(s: string): nat {
    if s == "" then 0 else Slashes(s[..|s| - 1]) + (if s[|s| - 1] == '/' then 1 else 0)
  }

  lemma {:induction false} SlashesAppend(a: string, b: string)
    ensures Slashes(a + b) == Slashes(a) + Slashes(b)
  {
    if b != "" {
      SlashesAppend(a, b[..|b| - 1]);
      assert (a + b)[..|a + b| - 1] == a + b[..|b| - 1];
    } else {
      assert a + b == a;
    }
  }

  /** Non-increasing by slash count. */
  predicate DeepestFirst(s: seq<string>) {
    forall i, j :: 0 <= i < j < |s| ==> Slashes(s[i]) >= Slashes(s[j])
  }

  /** The paths of `s` with exactly `depth` slashes, in the order of `s`. */
  function AtDepth(s: seq<string>, depth: nat): seq<string> {
    if s == [] then [] else (if Slashes(s[0]) == depth then [s[0]] else []) + AtDepth(s[1..], depth)
  }

  /** Places `x` before the first path that is not deeper than it. */
  function Insert(x: string, s: seq<string>): seq<string> {
    if s == [] then [x]
    else if Slashes(s[0]) > Slashes(x) then [s[0]] + Insert(x, s[1..])
    else [x] + s
  }

  function SortByDepth(s: seq<string>): seq<string> {
    if s == [] then [] else Insert(s[0], SortByDepth(s[1..]))
  }

  lemma {:induction false} InsertMultiset(x: string, s: seq<string>)
    ensures multiset(Insert(x, s)) == multiset{x} + multiset(s)
  {
    if s != [] && Slashes(s[0]) > Slashes(x) {
      InsertMultiset(x, s[1..]);
      assert s == [s[0]] + s[1..];
    }
  }

  lemma {:induction false} InsertSorted(x: string, s: seq<string>)
    requires DeepestFirst(s)
    ensures DeepestFirst(Insert(x, s))
  {
    if s != [] && Slashes(s[0]) > Slashes(x) {
      InsertSorted(x, s[1..]);
      InsertMultiset(x, s[1..]);
      var r := Insert(x, s[1..]);
      forall j | 0 <= j < |r| ensures Slashes(s[0]) >= Slashes(r[j]) {
        assert r[j] in multiset(r);
        if r[j] != x {
          assert r[j] in s[1..];
        }
      }
    }
  }

  lemma {:induction false} AtDepthAppend(a: seq<string>, b: seq<string>, depth: nat)
    ensures AtDepth(a + b, depth) == AtDepth(a, depth) + AtDepth(b, depth)
  {
    if a != [] {
      AtDepthAppend(a[1..], b, depth);
      assert (a + b)[1..] == a[1..] + b;
    } else {
      assert a + b == b;
    }
  }

  lemma {:induction false} InsertAtDepth(x: string, s: seq<string>, depth: nat)
    ensures AtDepth(Insert(x, s), depth) == (if Slashes(x) == depth then [x] else []) + AtDepth(s, depth)
  {
    if s != [] && Slashes(s[0]) > Slashes(x) {
      InsertAtDepth(x, s[1..], depth);
      AtDepthAppend([s[0]], Insert(x, s[1..]), depth);
      AtDepthAppend([s[0]], s[1..], depth);
      assert [s[0]] + s[1..] == s;
    } else {
      AtDepthAppend([x], s, depth);
    }
  }

  lemma {:induction false} InsertKeepsLast(x: string, s: seq<string>)
    requires s != [] && Slashes(x) >= Slashes(s[|s| - 1])
    ensures Insert(x, s) != [] && Insert(x, s)[|Insert(x, s)| - 1] == s[|s| - 1]
  {
    if Slashes(s[0]) > Slashes(x) {
      InsertKeepsLast(x, s[1..]);
    }
  }

  lemma {:induction false} SortByDepthPermutes(s: seq<string>)
    ensures multiset(SortByDepth(s)) == multiset(s)
  {
    if s != [] {
      SortByDepthPermutes(s[1..]);
      InsertMultiset(s[0], SortByDepth(s[1..]));
      assert s == [s[0]] + s[1..];
    }
  }

  lemma {:induction false} SortByDepthSorted(s: seq<string>)
    ensures DeepestFirst(SortByDepth(s))
  {
    if s != [] {
      SortByDepthSorted(s[1..]);
      InsertSorted(s[0], SortByDepth(s[1..]));
    }
  }

  lemma {:induction false} SortByDepthStable(s: seq<string>, depth: nat)
    ensures AtDepth(SortByDepth(s), depth) == AtDepth(s, depth)
  {
    if s != [] {
      SortByDepthStable(s[1..], depth);
      InsertAtDepth(s[0], SortByDepth(s[1..]), depth);
    }
  }

  /**
   * The sort is a permutation, puts deeper paths first, and keeps the paths
   * of every depth in their original relative order.
   */
  lemma SortByDepthSpec(s: seq<string>)
    ensures multiset(SortByDepth(s)) == multiset(s)
    ensures |SortByDepth(s)| == |s|
    ensures DeepestFirst(SortByDepth(s))
    ensures forall depth: nat :: AtDepth(SortByDepth(s), depth) == AtDepth(s, depth)
  {
    SortByDepthPermutes(s);
    assert |SortByDepth(s)| == |multiset(SortByDepth(s))| == |multiset(s)| == |s|;
    SortByDepthSorted(s);
    forall depth: nat ensures AtDepth(SortByDepth(s), depth) == AtDepth(s, depth) {
      SortByDepthStable(s, depth);
    }
  }

  /**
   * When no path is shallower than the last one, the last path stays last:
   * it is the shallowest, and the sort is stable.
   */
  lemma {:induction false} SortKeepsShallowestLast(s: seq<string>)
    requires s != []
    requires forall i :: 0 <= i < |s| ==> Slashes(s[i]) >= Slashes(s[|s| - 1])
    ensures SortByDepth(s) != [] && SortByDepth(s)[|SortByDepth(s)| - 1] == s[|s| - 1]
  {
    if |s| > 1 {
      SortKeepsShallowestLast(s[1..]);
      InsertKeepsLast(s[0], SortByDepth(s[1..]));
    }
  }
}
