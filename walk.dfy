/**
 * `os.walk(top, topdown=False, followlinks=False)` over a directory tree
 * given as a value, and the list of work items the local enumerator builds
 * from it: every directory that the walk reports below the top-level source,
 * then the source itself.
 */
module Walk {
  import opened Paths
  import opened Sequences

  /**
   * An entry that `os.walk` reports among a directory's `dirs`: a real
   * directory with its contents, or a symbolic link to a directory, which is
   * listed but not descended into.  Files play no part and are omitted.
   */
  datatype Entry = Dir(name: string, contents: Tree) | Link(name: string)

  datatype Tree = Tree(entries: seq<Entry>)

  /** One `(root, dirs, files)` triple of the walk, without the files. */
  datatype WalkStep = WalkStep(root: string, dirs: seq<string>)

  function Names(es: seq<Entry>): (r: seq<string>)
    ensures |r| == |es|
    ensures forall i :: 0 <= i < |es| ==> r[i] == es[i].name
  {
    if es == [] then [] else Names(es[..|es| - 1]) + [es[|es| - 1].name]
  }

  /** Bottom-up walk: the walks of the sub-directories, in order, then `top`'s own triple. */
  function OsWalk(top: string, t: Tree): seq<WalkStep>
    decreases t, 1, 0
  {
    WalkBelow(top, t, 0) + [WalkStep(top, Names(t.entries))]
  }

  /** The walks of the entries of `t` from position i on (links are not entered). */
  function WalkBelow(top: string, t: Tree, i: nat): seq<WalkStep>
    requires i <= |t.entries|
    decreases t, 0, |t.entries| - i
  {
    if i == |t.entries| then []
    else
      (match t.entries[i]
       case Dir(n, c) => OsWalk(Join(top, n), c)
       case Link(_) => [])
      + WalkBelow(top, t, i + 1)
  }

  /** `[join(root, d) for d in dirs]`. */
  function Joined(root: string, dirs: seq<string>): (r: seq<string>)
    ensures |r| == |dirs|
    ensures forall i :: 0 <= i < |dirs| ==> r[i] == Join(root, dirs[i])
  {
    if dirs == [] then [] else Joined(root, dirs[..|dirs| - 1]) + [Join(root, dirs[|dirs| - 1])]
  }

  /** What the loop `for root, dirs, _ in walk: for d in dirs: append(join(root, d))` appends. */
  function DirPaths(steps: seq<WalkStep>): seq<string> {
    if steps == [] then []
    else DirPaths(steps[..|steps| - 1]) + Joined(steps[|steps| - 1].root, steps[|steps| - 1].dirs)
  }

  /** The segment one top-level source contributes: the directories below it, then itself. */
  function Expand(source: string, t: Tree): seq<string> {
    DirPaths(OsWalk(source, t)) + [source]
  }

  /** The inner loop `for d in dirs: append(join(root, d))`, onto the list built so far. */
  method AppendJoined(acc: seq<string>, root: string, dirs: seq<string>) returns (r: seq<string>)
    ensures r == acc + Joined(root, dirs)
  {
    r := acc;
    var m := 0;
    while m < |dirs|
      invariant 0 <= m <= |dirs|
      invariant r == acc + Joined(root, dirs[..m])
    {
      assert dirs[..m + 1][..m] == dirs[..m];
      AppendAssociative(acc, Joined(root, dirs[..m]), [Join(root, dirs[m])]);
      r := r + [Join(root, dirs[m])];
      m := m + 1;
    }
    assert dirs[..m] == dirs;
  }

  /**
   * The enumerating loops for one top-level source:
   * `for root, dirs, _ in os.walk(source, ...): for d in dirs: append(join(root, d))`,
   * then `append(source)`, onto the list built so far.
   */
  method AppendWalk(acc: seq<string>, source: string, t: Tree) returns (r: seq<string>)
    ensures r == acc + Expand(source, t)
  {
    var walk := OsWalk(source, t);
    r := acc;
    var j := 0;
    while j < |walk|
      invariant 0 <= j <= |walk|
      invariant r == acc + DirPaths(walk[..j])
    {
      var step := walk[j];
      r := AppendJoined(r, step.root, step.dirs);
      assert walk[..j + 1][..j] == walk[..j];
      AppendAssociative(acc, DirPaths(walk[..j]), Joined(step.root, step.dirs));
      j := j + 1;
    }
    assert walk[..j] == walk;
    r := r + [source];
  }

  lemma {:induction false} DirPathsAppend(a: seq<WalkStep>, b: seq<WalkStep>)
    ensures DirPaths(a + b) == DirPaths(a) + DirPaths(b)
  {
    if b != [] {
      var n := |b| - 1;
      DirPathsAppend(a, b[..n]);
      assert (a + b)[..|a + b| - 1] == a + b[..n] && (a + b)[|a + b| - 1] == b[n];
      AppendAssociative(DirPaths(a), DirPaths(b[..n]), Joined(b[n].root, b[n].dirs));
    } else {
      assert a + b == a;
    }
  }

  /** Everything below a tree. */
  function Below(root: string, t: Tree): seq<string>
    decreases t, 1, 0
  {
    DirPaths(OsWalk(root, t))
  }

  /** Everything below the entries of `t` from position i on. */
  function BelowFrom(root: string, t: Tree, i: nat): seq<string>
    requires i <= |t.entries|
    decreases t, 0, |t.entries| - i
  {
    DirPaths(WalkBelow(root, t, i))
  }

  /** Everything below one entry of a directory `root`. */
  function BelowEntry(root: string, e: Entry): seq<string> {
    match e
    case Dir(n, c) => Below(Join(root, n), c)
    case Link(_) => []
  }

  lemma BelowUnfold(root: string, t: Tree)
    ensures Below(root, t) == BelowFrom(root, t, 0) + Joined(root, Names(t.entries))
  {
    DirPathsAppend(WalkBelow(root, t, 0), [WalkStep(root, Names(t.entries))]);
    assert DirPaths([WalkStep(root, Names(t.entries))]) == Joined(root, Names(t.entries)) by {
      assert [WalkStep(root, Names(t.entries))][..0] == [];
    }
  }

  lemma BelowFromUnfold(root: string, t: Tree, i: nat)
    requires i < |t.entries|
    ensures BelowFrom(root, t, i) == BelowEntry(root, t.entries[i]) + BelowFrom(root, t, i + 1)
  {
    var head := match t.entries[i] case Dir(n, c) => OsWalk(Join(root, n), c) case Link(_) => [];
    DirPathsAppend(head, WalkBelow(root, t, i + 1));
  }

  /** Number of entries anywhere below a tree: every directory and directory link. */
  function Count(t: Tree): nat
    decreases t, 1
  {
    CountFrom(t, 0)
  }

  function CountFrom(t: Tree, i: nat): nat
    requires i <= |t.entries|
    decreases t, 0, |t.entries| - i
  {
    if i == |t.entries| then 0
    else
      1 + (match t.entries[i] case Dir(_, c) => Count(c) case Link(_) => 0)
      + CountFrom(t, i + 1)
  }

  /** Directory names are proper names and unique among siblings, at every level. */
  predicate WellFormed(t: Tree)
    decreases t, 1
  {
    WellFormedFrom(t, 0)
    && forall i, j :: 0 <= i < j < |t.entries| ==> t.entries[i].name != t.entries[j].name
  }

  predicate WellFormedFrom(t: Tree, i: nat)
    requires i <= |t.entries|
    decreases t, 0, |t.entries| - i
  {
    i == |t.entries|
    || (IsName(t.entries[i].name)
        && (match t.entries[i] case Dir(_, c) => WellFormed(c) case Link(_) => true)
        && WellFormedFrom(t, i + 1))
  }

  // ----- Properties of the enumeration -----

  /** `x` lies inside the entry named `n` of directory `root`. */
  predicate Inside(root: string, n: string, x: string) {
    AsDir(root) + n + "/" <= x
  }

  /** No path is followed, later in the list, by a path below it. */
  predicate NoAncestorBefore(s: seq<string>) {
    forall i, j :: 0 <= i < j < |s| ==> !IsAncestor(s[i], s[j])
  }

  lemma PrefixTrans(a: string, b: string, c: string)
    requires a <= b && b <= c
    ensures a <= c
  {
    assert c[..|b|][..|a|] == c[..|a|];
  }

  /** Two entry prefixes of the same path name the same entry. */
  lemma SameEntry(p: string, a: string, b: string, y: string)
    requires IsName(a) && IsName(b)
    requires p + a + "/" <= y && p + b + "/" <= y
    ensures a == b
  {
    var sa, sb := p + a + "/", p + b + "/";
    var m := if |a| < |b| then |a| else |b|;
    assert sa[|p| + m] == y[|p| + m] == sb[|p| + m];
    assert |a| == |b|;
    assert a == sa[|p|..|p| + |a|] == y[|p|..|p| + |a|] == sb[|p|..|p| + |b|] == b;
  }

  /** A path inside an entry is not a prefix of an entry path of the same directory. */
  lemma InsideNotEntry(p: string, a: string, b: string)
    requires IsName(b)
    ensures !(p + a + "/" <= p + b)
  {
    if |a| < |b| {
      assert (p + b)[|p| + |a|] == b[|a|];
    }
  }

  lemma NoAncestorBeforeAppend(a: seq<string>, b: seq<string>)
    requires NoAncestorBefore(a) && NoAncestorBefore(b)
    requires forall x, y :: x in a && y in b ==> !IsAncestor(x, y)
    ensures NoAncestorBefore(a + b)
  {
    forall i, j | 0 <= i < j < |a + b| ensures !IsAncestor((a + b)[i], (a + b)[j]) {
      if j < |a| {
        assert (a + b)[i] == a[i] && (a + b)[j] == a[j];
      } else if |a| <= i {
        assert (a + b)[i] == b[i - |a|] && (a + b)[j] == b[j - |a|];
      } else {
        assert (a + b)[i] in a && (a + b)[j] in b;
      }
    }
  }

  /** If `y` lies inside entry `b`, any path that has `y` below it and lies inside an entry lies inside `b`. */
  lemma AncestorInside(p: string, a: string, b: string, x: string, y: string)
    requires IsName(a) && IsName(b)
    requires p + a + "/" <= x && p + b + "/" <= y && IsAncestor(x, y)
    ensures a == b
  {
    PrefixTrans(p + a + "/", x, AsDir(x));
    PrefixTrans(p + a + "/", AsDir(x), y);
    SameEntry(p, a, b, y);
  }

  /** The walk reports one path per directory entry anywhere below the tree. */
  lemma {:induction false} BelowCount(root: string, t: Tree)
    ensures |Below(root, t)| == Count(t)
    decreases t, 1
  {
    BelowUnfold(root, t);
    BelowFromCount(root, t, 0);
  }

  lemma {:induction false} BelowFromCount(root: string, t: Tree, i: nat)
    requires i <= |t.entries|
    ensures |BelowFrom(root, t, i)| + (|t.entries| - i) == CountFrom(t, i)
    decreases t, 0, |t.entries| - i
  {
    if i < |t.entries| {
      var here, later := BelowEntry(root, t.entries[i]), BelowFrom(root, t, i + 1);
      BelowFromUnfold(root, t, i);
      BelowFromCount(root, t, i + 1);
      BelowEntryCount(root, t, i);
      assert |BelowFrom(root, t, i)| == |here| + |later|;
    }
  }

  /** What is reported below entry i is as long as the count the entry adds beyond itself. */
  lemma {:induction false} BelowEntryCount(root: string, t: Tree, i: nat)
    requires i < |t.entries|
    ensures |BelowEntry(root, t.entries[i])| + 1 + CountFrom(t, i + 1) == CountFrom(t, i)
    decreases t, 0, 0
  {
    match t.entries[i]
    case Dir(n, c) =>
      BelowCount(Join(root, n), c);
    case Link(_) =>
  }

  /** No path of `a` has a path of `b` below it. */
  predicate NoneAbove(a: seq<string>, b: seq<string>) {
    forall x, y :: x in a && y in b ==> !IsAncestor(x, y)
  }

  /** Every path of `s` lies inside one of the entries of `t` from position i on. */
  predicate InsideEntries(root: string, t: Tree, i: nat, s: seq<string>) {
    forall x :: x in s ==> exists k :: i <= k < |t.entries| && Inside(root, t.entries[k].name, x)
  }

  /** The entry paths of a directory: each is the directory's prefix followed by a name. */
  lemma EntryPaths(root: string, t: Tree)
    requires WellFormed(t)
    ensures forall l :: 0 <= l < |t.entries| ==>
      IsName(t.entries[l].name) && Joined(root, Names(t.entries))[l] == AsDir(root) + t.entries[l].name
  {
    forall l | 0 <= l < |t.entries|
      ensures IsName(t.entries[l].name) && Joined(root, Names(t.entries))[l] == AsDir(root) + t.entries[l].name
    {
      NameAt(t, 0, l);
      AsDirJoin(root, t.entries[l].name);
    }
  }

  /** Entry paths of one directory are never below one another. */
  lemma EntriesUnrelated(root: string, t: Tree)
    requires WellFormed(t)
    ensures NoAncestorBefore(Joined(root, Names(t.entries)))
  {
    var e := Joined(root, Names(t.entries));
    EntryPaths(root, t);
    forall l, m | 0 <= l < m < |e| ensures !IsAncestor(e[l], e[m]) {
      AsDirJoin(root, t.entries[l].name);
      InsideNotEntry(AsDir(root), t.entries[l].name, t.entries[m].name);
    }
  }

  /** Nothing inside an entry has an entry path of the same directory below it. */
  lemma InsideAboveNoEntry(root: string, t: Tree, a: seq<string>)
    requires WellFormed(t) && InsideEntries(root, t, 0, a)
    ensures NoneAbove(a, Joined(root, Names(t.entries)))
    ensures forall x :: x in a ==> AsDir(root) < x
  {
    var p := AsDir(root);
    var e := Joined(root, Names(t.entries));
    EntryPaths(root, t);
    forall x, y | x in a && y in e ensures !IsAncestor(x, y) {
      var k :| 0 <= k < |t.entries| && Inside(root, t.entries[k].name, x);
      var l :| 0 <= l < |e| && e[l] == y;
      if |AsDir(x)| < |y| {
        PrefixTrans(p + t.entries[k].name + "/", x, AsDir(x));
        InsideNotEntry(p, t.entries[k].name, t.entries[l].name);
      }
    }
    forall x | x in a ensures p < x {
      var k :| 0 <= k < |t.entries| && Inside(root, t.entries[k].name, x);
    }
  }

  /**
   * In a well-formed tree every reported path lies below `root`, and no
   * directory is reported before a directory below it (post-order).
   */
  lemma {:induction false} BelowOrder(root: string, t: Tree)
    requires WellFormed(t)
    ensures forall x :: x in Below(root, t) ==> AsDir(root) < x
    ensures NoAncestorBefore(Below(root, t))
    decreases t, 1, 0
  {
    var a := BelowFrom(root, t, 0);
    var e := Joined(root, Names(t.entries));
    BelowUnfold(root, t);
    BelowFromOrder(root, t, 0);
    InsideAboveNoEntry(root, t, a);
    EntriesUnrelated(root, t);
    EntryPaths(root, t);
    NoAncestorBeforeAppend(a, e);
    forall x | x in e ensures AsDir(root) < x {
      var l :| 0 <= l < |e| && e[l] == x;
    }
  }

  lemma {:induction false} NameAt(t: Tree, i: nat, k: nat)
    requires i <= k < |t.entries| && WellFormedFrom(t, i)
    ensures IsName(t.entries[k].name)
    decreases k - i
  {
    if i < k {
      NameAt(t, i + 1, k);
    }
  }

  /** What lies inside entry i is not above what lies inside a later entry. */
  lemma InsideDistinct(root: string, t: Tree, i: nat, c: seq<string>, rest: seq<string>)
    requires i < |t.entries| && WellFormed(t) && WellFormedFrom(t, i)
    requires forall x :: x in c ==> Inside(root, t.entries[i].name, x)
    requires InsideEntries(root, t, i + 1, rest)
    ensures NoneAbove(c, rest)
  {
    forall x, y | x in c && y in rest ensures !IsAncestor(x, y) {
      var k :| i + 1 <= k < |t.entries| && Inside(root, t.entries[k].name, y);
      NameAt(t, i, i);
      NameAt(t, i, k);
      if IsAncestor(x, y) {
        AncestorInside(AsDir(root), t.entries[i].name, t.entries[k].name, x, y);
      }
    }
  }

  /** What is reported below entry i lies inside it, in post-order. */
  lemma {:induction false} BelowEntryOrder(root: string, t: Tree, i: nat)
    requires i < |t.entries| && WellFormed(t) && WellFormedFrom(t, i)
    ensures forall x :: x in BelowEntry(root, t.entries[i]) ==> Inside(root, t.entries[i].name, x)
    ensures NoAncestorBefore(BelowEntry(root, t.entries[i]))
    decreases t, 0, 0
  {
    match t.entries[i]
    case Dir(n, sub) =>
      BelowOrder(Join(root, n), sub);
      NameAt(t, i, i);
      AsDirJoin(root, n);
    case Link(_) =>
  }

  lemma InsideEntriesAppend(root: string, t: Tree, i: nat, c: seq<string>, rest: seq<string>)
    requires i < |t.entries|
    requires forall x :: x in c ==> Inside(root, t.entries[i].name, x)
    requires InsideEntries(root, t, i + 1, rest)
    ensures InsideEntries(root, t, i, c + rest)
  {
    forall x | x in c + rest
      ensures exists k :: i <= k < |t.entries| && Inside(root, t.entries[k].name, x)
    {
      if x in c {
        assert Inside(root, t.entries[i].name, x);
      } else {
        assert x in rest;
      }
    }
  }

  lemma {:induction false} BelowFromOrder(root: string, t: Tree, i: nat)
    requires i <= |t.entries| && WellFormed(t) && WellFormedFrom(t, i)
    ensures InsideEntries(root, t, i, BelowFrom(root, t, i))
    ensures NoAncestorBefore(BelowFrom(root, t, i))
    decreases t, 0, |t.entries| - i
  {
    if i < |t.entries| {
      var c := BelowEntry(root, t.entries[i]);
      var rest := BelowFrom(root, t, i + 1);
      BelowFromUnfold(root, t, i);
      BelowFromOrder(root, t, i + 1);
      BelowEntryOrder(root, t, i);
      InsideDistinct(root, t, i, c, rest);
      NoAncestorBeforeAppend(c, rest);
      InsideEntriesAppend(root, t, i, c, rest);
    }
  }

  /** The segment of one source has one item per directory below it, plus the source. */
  lemma ExpandCount(source: string, t: Tree)
    ensures |Expand(source, t)| == Count(t) + 1
  {
    BelowCount(source, t);
  }

  /**
   * The source is the last item of its own segment, every earlier item lies
   * below it, and no directory comes before a directory below it.
   */
  lemma ExpandOrder(source: string, t: Tree)
    requires WellFormed(t)
    ensures var s := Expand(source, t);
      s[|s| - 1] == source
      && (forall i :: 0 <= i < |s| - 1 ==> IsAncestor(source, s[i]))
      && NoAncestorBefore(s)
  {
    var b := Below(source, t);
    BelowOrder(source, t);
    forall x, y | x in b && y in [source] ensures !IsAncestor(x, y) {
      assert |AsDir(x)| >= |x| > |AsDir(source)| >= |source|;
    }
    NoAncestorBeforeAppend(b, [source]);
    forall i | 0 <= i < |b| ensures IsAncestor(source, Expand(source, t)[i]) {
      assert Expand(source, t)[i] == b[i];
      assert b[i] in b;
    }
  }
}
