/**
 * Enumeration turns each top-level source into a segment of work items; the
 * job's item list is the segments concatenated in the order of the sources.
 */
module Segments {
  import opened Wrappers

  /** The segments one after another. */
  function Concat<T>(segs: seq<seq<T>>): seq<T> {
    if segs == [] then [] else Concat(segs[..|segs| - 1]) + segs[|segs| - 1]
  }

  /**
   * `for source in sources: items.extend(expand(source))`, where an
   * expansion may raise: the first failing source's error, or all segments.
   */
  function ExpandAll<E>(sources: seq<string>, expand: string --> Result<seq<string>, E>): Result<seq<string>, E>
    requires forall i :: 0 <= i < |sources| ==> expand.requires(sources[i])
  {
    if sources == [] then Success([])
    else
      match ExpandAll(sources[..|sources| - 1], expand)
      case Failure(e) => Failure(e)
      case Success(prefix) =>
        match expand(sources[|sources| - 1])
        case Failure(e) => Failure(e)
        case Success(seg) => Success(prefix + seg)
  }

  /** The expansions of the sources, when each of them succeeds. */
  function Expansions<E>(sources: seq<string>, expand: string --> Result<seq<string>, E>): (segs: seq<seq<string>>)
    requires forall i :: 0 <= i < |sources| ==> expand.requires(sources[i]) && expand(sources[i]).Success?
    ensures |segs| == |sources|
    ensures forall i :: 0 <= i < |sources| ==> segs[i] == expand(sources[i]).value
  {
    seq(|sources|, i requires 0 <= i < |sources| && expand.requires(sources[i]) && expand(sources[i]).Success? =>
      expand(sources[i]).value)
  }

  /**
   * Expansion succeeds exactly when every source expands; it then yields the
   * concatenation of the expansions in source order, and otherwise the error
   * of the first source that fails.
   */
  lemma {:induction false} ExpandAllSpec<E>(sources: seq<string>, expand: string --> Result<seq<string>, E>)
    requires forall i :: 0 <= i < |sources| ==> expand.requires(sources[i])
    ensures ExpandAll(sources, expand).Success? <==> forall i :: 0 <= i < |sources| ==> expand(sources[i]).Success?
    ensures ExpandAll(sources, expand).Success? ==> ExpandAll(sources, expand).value == Concat(Expansions(sources, expand))
    ensures ExpandAll(sources, expand).Failure? ==>
      exists i :: 0 <= i < |sources| && expand(sources[i]) == Failure(ExpandAll(sources, expand).error)
        && forall j :: 0 <= j < i ==> expand(sources[j]).Success?
  {
    if sources != [] {
      var n := |sources| - 1;
      var init := sources[..n];
      ExpandAllSpec(init, expand);
      if ExpandAll(init, expand).Success? && expand(sources[n]).Success? {
        assert Expansions(sources, expand)[..n] == Expansions(init, expand);
      }
      if ExpandAll(init, expand).Success? && expand(sources[n]).Failure? {
        assert forall j :: 0 <= j < n ==> expand(sources[j]).Success? by {
          forall j | 0 <= j < n ensures expand(sources[j]).Success? {
            assert init[j] == sources[j];
          }
        }
      }
      if ExpandAll(init, expand).Failure? {
        var i :| 0 <= i < n && expand(init[i]) == Failure(ExpandAll(init, expand).error)
          && forall j :: 0 <= j < i ==> expand(init[j]).Success?;
        assert sources[i] == init[i];
        assert forall j :: 0 <= j < i ==> expand(sources[j]).Success? by {
          forall j | 0 <= j < i ensures expand(sources[j]).Success? {
            assert init[j] == sources[j];
          }
        }
      }
    }
  }

  /** Once a prefix of the sources fails to expand, the whole expansion fails with that error. */
  lemma {:induction false} ExpandAllFailurePersists<E>(sources: seq<string>, expand: string --> Result<seq<string>, E>, j: nat)
    requires forall i :: 0 <= i < |sources| ==> expand.requires(sources[i])
    requires j <= |sources| && ExpandAll(sources[..j], expand).Failure?
    ensures ExpandAll(sources, expand) == ExpandAll(sources[..j], expand)
    decreases |sources| - j
  {
    if j < |sources| {
      var n := |sources| - 1;
      assert sources[..n][..j] == sources[..j];
      ExpandAllFailurePersists(sources[..n], expand, j);
    } else {
      assert sources[..j] == sources;
    }
  }

  /**
   * When the whole expansion succeeds, so does the expansion of the first j
   * sources and of source j, and source j's items follow the first j
   * sources' items in the result.
   */
  lemma {:induction false} ExpandAllSegment<E>(sources: seq<string>, expand: string --> Result<seq<string>, E>, j: nat)
    requires forall i :: 0 <= i < |sources| ==> expand.requires(sources[i])
    requires j < |sources| && ExpandAll(sources, expand).Success?
    ensures ExpandAll(sources[..j], expand).Success? && expand(sources[j]).Success?
    ensures var off, seg := |ExpandAll(sources[..j], expand).value|, expand(sources[j]).value;
      off + |seg| <= |ExpandAll(sources, expand).value| && ExpandAll(sources, expand).value[off..off + |seg|] == seg
    decreases |sources|
  {
    var n := |sources| - 1;
    var init := sources[..n];
    assert ExpandAll(init, expand).Success? && expand(sources[n]).Success?;
    if j < n {
      assert init[..j] == sources[..j] && init[j] == sources[j];
      ExpandAllSegment(init, expand, j);
    } else {
      assert init == sources[..j];
    }
  }
}
