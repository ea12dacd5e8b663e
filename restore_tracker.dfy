/**
 * The restore tracker: paths on the remote are copied to the same local
 * path, and the work items of each top-level source are the directories the
 * recursive listing of the source reports, deepest first, then the source.
 */
module RestoreTracker {
  import opened Wrappers
  import opened Paths
  import opened Rclone
  import opened Segments
  import opened DepthSort
  import opened BaseTracker

  /** `source_prefix`: paths are read from the remote. */
  function SourcePrefix(remote: string): string {
    remote + ":"
  }

  /** `dest_prefix`: paths are written where they were backed up from. */
  function DestPrefix(): string {
    ""
  }

  /** A remote path is copied from `<remote>:<path>` to the local path itself. */
  lemma RestoreCommand(remote: string, path: string, verbosity: nat)
    ensures var c := Command(SourcePrefix(remote), DestPrefix(), path, verbosity);
      c[2] == remote + ":" + path && c[3] == path
  {
  }

  /**
   * The source with a trailing separator added when it has none.  The code
   * reads `source[-1]`, so an empty source raises before anything is listed.
   */
  function NormalizeSource(source: string): (r: string)
    requires source != ""
    ensures r == AsDir(source)
    ensures r[|r| - 1] == '/' && source <= r && |r| <= |source| + 1
  {
    if source[|source| - 1] == '/' then source else source + "/"
  }

  /** Normalising an already normalised source changes nothing. */
  lemma NormalizeIdempotent(source: string)
    requires source != ""
    ensures NormalizeSource(NormalizeSource(source)) == NormalizeSource(source)
  {
  }

  /** The recursive listing command for a normalised source. */
  function ListingCommand(remote: string, source: string): seq<string> {
    ["rclone", "lsjson", "--recursive", remote + ":" + source]
  }

  /** The source followed by the `Path` of every listed entry that is a directory, in listing order. */
  function DirEntryPaths(source: string, entries: seq<ListEntry>): seq<string> {
    if entries == [] then []
    else
      var n := |entries| - 1;
      DirEntryPaths(source, entries[..n]) + (if entries[n].isDir then [source + entries[n].path] else [])
  }

  /** Number of directory entries in a listing. */
  function DirCount(entries: seq<ListEntry>): nat {
    if entries == [] then 0 else DirCount(entries[..|entries| - 1]) + (if entries[|entries| - 1].isDir then 1 else 0)
  }

  /**
   * The kept paths are exactly the directory entries, each behind the
   * source: one per directory entry, none for any other entry.
   */
  lemma {:induction false} DirEntryPathsSpec(source: string, entries: seq<ListEntry>)
    ensures |DirEntryPaths(source, entries)| == DirCount(entries)
    ensures forall i :: 0 <= i < |entries| && entries[i].isDir ==> source + entries[i].path in DirEntryPaths(source, entries)
    ensures forall x :: x in DirEntryPaths(source, entries) ==>
      exists i :: 0 <= i < |entries| && entries[i].isDir && x == source + entries[i].path
  {
    if entries != [] {
      var n := |entries| - 1;
      var init := entries[..n];
      DirEntryPathsSpec(source, init);
      forall i | 0 <= i < n && entries[i].isDir
        ensures source + entries[i].path in DirEntryPaths(source, entries)
      {
        assert entries[i] == init[i];
      }
      forall x | x in DirEntryPaths(source, entries)
        ensures exists i :: 0 <= i < |entries| && entries[i].isDir && x == source + entries[i].path
      {
        if x in DirEntryPaths(source, init) {
          var i :| 0 <= i < n && init[i].isDir && x == source + init[i].path;
          assert entries[i] == init[i];
        }
      }
    }
  }

  /**
   * `get_subdirs_for_source`: list the normalised source recursively; a
   * failing listing raises its error; otherwise the directory paths, then
   * the source, sorted deepest first with ties kept in order.
   */
  function SubdirsFor(remote: string, source: string, lister: Lister): Result<seq<string>, ListingFailure>
    requires source != ""
  {
    var src := NormalizeSource(source);
    match lister(ListingCommand(remote, src))
    case Failure(e) => Result.Failure(e)
    case Success(entries) =>
      var found := DirEntryPaths(src, entries);
      var listed := if found != [] then found + [src] else [src];
      Result.Success(SortByDepth(listed))
  }

  /** What a successful listing leaves to sort: the kept directory paths, then the source. */
  function Listed(src: string, entries: seq<ListEntry>): seq<string> {
    DirEntryPaths(src, entries) + [src]
  }

  /** Every kept path has at least as many separators as the source it is built on. */
  lemma DeeperThanSource(src: string, entries: seq<ListEntry>)
    ensures var listed := Listed(src, entries);
      forall i :: 0 <= i < |listed| ==> src <= listed[i] && Slashes(listed[i]) >= Slashes(src)
  {
    var found := DirEntryPaths(src, entries);
    var listed := Listed(src, entries);
    DirEntryPathsSpec(src, entries);
    forall i | 0 <= i < |listed|
      ensures src <= listed[i] && Slashes(listed[i]) >= Slashes(src)
    {
      if i < |found| {
        assert listed[i] in found;
        var k :| 0 <= k < |entries| && entries[k].isDir && listed[i] == src + entries[k].path;
        SlashesAppend(src, entries[k].path);
      }
    }
  }

  /**
   * A failing listing is raised as it is; a successful one yields its kept
   * paths and the source, sorted by depth (the `if`/`else` around the
   * `append` gives that list in both branches).
   */
  lemma SubdirsOutcome(remote: string, source: string, lister: Lister)
    requires source != ""
    ensures var src := NormalizeSource(source);
      var listing := lister(ListingCommand(remote, src));
      && (listing.Failure? ==> SubdirsFor(remote, source, lister) == Result.Failure(listing.error))
      && (listing.Success? ==> SubdirsFor(remote, source, lister) == Result.Success(SortByDepth(Listed(src, listing.value))))
  {
    var src := NormalizeSource(source);
    var listing := lister(ListingCommand(remote, src));
    if listing.Success? {
      var found := DirEntryPaths(src, listing.value);
      assert (if found != [] then found + [src] else [src]) == Listed(src, listing.value);
    }
  }

  /**
   * The sorted list holds the kept directory paths and the source and
   * nothing else, one more item than the listing has directories; it is
   * sorted deepest first, stably.
   */
  lemma SortedListing(src: string, entries: seq<ListEntry>)
    ensures var r := SortByDepth(Listed(src, entries));
      && multiset(r) == multiset(DirEntryPaths(src, entries)) + multiset{src}
      && |r| == DirCount(entries) + 1
      && DeepestFirst(r)
      && forall depth: nat :: AtDepth(r, depth) == AtDepth(Listed(src, entries), depth)
  {
    SortByDepthSpec(Listed(src, entries));
    DirEntryPathsSpec(src, entries);
  }

  /** Every item of the sorted list starts with the source, and the source comes last. */
  lemma SortedListingEnds(src: string, entries: seq<ListEntry>)
    ensures var r := SortByDepth(Listed(src, entries));
      && r != []
      && (forall i :: 0 <= i < |r| ==> src <= r[i])
      && r[|r| - 1] == src
  {
    var listed := Listed(src, entries);
    var r := SortByDepth(listed);
    DeeperThanSource(src, entries);
    SortKeepsShallowestLast(listed);
    SortByDepthSpec(listed);
    forall i | 0 <= i < |r|
      ensures src <= r[i]
    {
      assert r[i] in multiset(listed);
      var k :| 0 <= k < |listed| && listed[k] == r[i];
    }
  }

  /**
   * `get_subdirs_for_source` statement by statement: the list is local to
   * the call, so its `append` and in-place `sort` are modelled on values.
   */
  method GetSubdirsForSource(remote: string, source: string, lister: Lister) returns (r: Result<seq<string>, ListingFailure>)
    requires source != ""
    ensures r == SubdirsFor(remote, source, lister)
  {
    var src := source;
    if src[|src| - 1] != '/' {
      src := src + "/";
    }
    var command := ListingCommand(remote, src);
    match lister(command) {
      case Failure(e) =>
        return Result.Failure(e);
      case Success(entries) =>
        var remoteSources := DirEntryPaths(src, entries);
        if remoteSources != [] {
          remoteSources := remoteSources + [src];
        } else {
          remoteSources := [src];
        }
        remoteSources := SortByDepth(remoteSources);
        return Result.Success(remoteSources);
    }
  }

  /** The items of one top-level source, or the listing error it raises. */
  function Remote(remote: string, lister: Lister): string --> Result<seq<string>, ListingFailure> {
    s requires s != "" => SubdirsFor(remote, s, lister)
  }

  /**
   * `populate_sources`: the items of the top-level sources, extended one
   * after another; the first listing error ends the enumeration.
   */
  method PopulateSources(remote: string, tops: seq<string>, lister: Lister) returns (r: Result<seq<string>, ListingFailure>)
    requires forall i :: 0 <= i < |tops| ==> tops[i] != ""
    ensures r == ExpandAll(tops, Remote(remote, lister))
  {
    var detailed: seq<string> := [];
    var i := 0;
    while i < |tops|
      invariant 0 <= i <= |tops|
      invariant ExpandAll(tops[..i], Remote(remote, lister)) == Result.Success(detailed)
    {
      assert tops[..i + 1][..i] == tops[..i];
      var items := GetSubdirsForSource(remote, tops[i], lister);
      assert Remote(remote, lister)(tops[i]) == items;
      match items {
        case Failure(e) =>
          ExpandAllFailurePersists(tops, Remote(remote, lister), i + 1);
          return Result.Failure(e);
        case Success(segment) =>
          detailed := detailed + segment;
      }
      i := i + 1;
    }
    assert tops[..i] == tops;
    return Result.Success(detailed);
  }

  /**
   * When every listing succeeds, top-level source j's items follow those of
   * the sources before it, and its normalised form is their last item.
   */
  lemma PopulateLayout(remote: string, tops: seq<string>, lister: Lister, j: nat)
    requires forall i :: 0 <= i < |tops| ==> tops[i] != ""
    requires j < |tops| && ExpandAll(tops, Remote(remote, lister)).Success?
    ensures ExpandAll(tops[..j], Remote(remote, lister)).Success? && SubdirsFor(remote, tops[j], lister).Success?
    ensures var items, off, seg := ExpandAll(tops, Remote(remote, lister)).value, |ExpandAll(tops[..j], Remote(remote, lister)).value|,
                                   SubdirsFor(remote, tops[j], lister).value;
      && off + |seg| <= |items| && items[off..off + |seg|] == seg
      && seg != [] && seg[|seg| - 1] == NormalizeSource(tops[j])
  {
    ExpandAllSegment(tops, Remote(remote, lister), j);
    assert Remote(remote, lister)(tops[j]) == SubdirsFor(remote, tops[j], lister);
    var src := NormalizeSource(tops[j]);
    SubdirsOutcome(remote, tops[j], lister);
    SortedListingEnds(src, lister(ListingCommand(remote, src)).value);
  }
}
