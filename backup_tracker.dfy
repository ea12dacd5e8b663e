/**
 * The backup tracker of the current variant: local paths are copied to
 * `<remote>:<bucket>/<host>` followed by the same path, and the work items
 * of each top-level source are the directories below it, bottom-up, then the
 * source itself.
 */
module BackupTracker {
  import opened Wrappers
  import opened Paths
  import opened Walk
  import opened Segments
  import opened BaseTracker

  /** The directory tree `os.walk` finds under each path. */
  type FileSystem = string -> Tree

  /** `source_prefix`: local paths are used as they are. */
  function SourcePrefix(): string {
    ""
  }

  /** `dest_prefix`: the remote, then the bucket, then the host name. */
  function DestPrefix(remote: string, bucket: string, hostname: string): string {
    remote + ":" + bucket + "/" + hostname
  }

  /** A local path is copied from itself to the same path under `<remote>:<bucket>/<host>`. */
  lemma BackupCommand(remote: string, bucket: string, hostname: string, path: string, verbosity: nat)
    ensures var c := Command(SourcePrefix(), DestPrefix(remote, bucket, hostname), path, verbosity);
      c[2] == path && c[3] == remote + ":" + bucket + "/" + hostname + path
  {
  }

  /** The items of one top-level source; a local walk never raises. */
  function Local(fs: FileSystem): Expander {
    s => Result.Success(Expand(s, fs(s)))
  }

  /**
   * `populate_sources`: for each top-level source, every directory the
   * bottom-up walk reports, joined to its root, then the source.
   */
  method PopulateSources(tops: seq<string>, fs: FileSystem) returns (items: seq<string>)
    ensures ExpandAll(tops, Local(fs)) == Result.Success(items)
  {
    items := [];
    var i := 0;
    while i < |tops|
      invariant 0 <= i <= |tops|
      invariant ExpandAll(tops[..i], Local(fs)) == Result.Success(items)
    {
      assert tops[..i + 1][..i] == tops[..i];
      items := AppendWalk(items, tops[i], fs(tops[i]));
      i := i + 1;
    }
    assert tops[..i] == tops;
  }

  /** Sum over the top-level sources of the directories below each, plus one for the source. */
  function TotalItems(tops: seq<string>, fs: FileSystem): nat {
    if tops == [] then 0 else TotalItems(tops[..|tops| - 1], fs) + Count(fs(tops[|tops| - 1])) + 1
  }

  /** The enumeration has one item per directory below a top-level source and one per top-level source. */
  lemma {:induction false} PopulateCount(tops: seq<string>, fs: FileSystem)
    ensures ExpandAll(tops, Local(fs)).Success?
    ensures |ExpandAll(tops, Local(fs)).value| == TotalItems(tops, fs)
  {
    if tops != [] {
      var n := |tops| - 1;
      PopulateCount(tops[..n], fs);
      ExpandCount(tops[n], fs(tops[n]));
    }
  }

  /**
   * Top-level source j's segment follows the segments of the sources
   * before it and the source is the segment's last item; in a tree whose
   * entry names are proper names, as a file system's are, every other item of
   * the segment lies below the source and no directory comes after one of
   * its ancestors.
   */
  lemma PopulateLayout(tops: seq<string>, fs: FileSystem, j: nat)
    requires j < |tops|
    ensures ExpandAll(tops, Local(fs)).Success? && ExpandAll(tops[..j], Local(fs)).Success?
    ensures var items, off, seg := ExpandAll(tops, Local(fs)).value, |ExpandAll(tops[..j], Local(fs)).value|, Expand(tops[j], fs(tops[j]));
      && off + |seg| <= |items| && items[off..off + |seg|] == seg
      && seg[|seg| - 1] == tops[j]
      && (WellFormed(fs(tops[j])) ==>
            && (forall i :: 0 <= i < |seg| - 1 ==> IsAncestor(tops[j], seg[i]))
            && NoAncestorBefore(seg))
  {
    PopulateCount(tops, fs);
    ExpandAllSegment(tops, Local(fs), j);
    assert Local(fs)(tops[j]).value == Expand(tops[j], fs(tops[j]));
    if WellFormed(fs(tops[j])) {
      ExpandOrder(tops[j], fs(tops[j]));
    }
  }
}
