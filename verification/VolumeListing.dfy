/** Listing a volume's directory to a bounded depth (internal/backends/docker/volumes.go). Each directory on the way is
    opened as a root of its own, and its links are judged against that root. */
module VolumeListing {
  import opened Wrappers
  import opened Strings
  import opened Paths
  import opened Sorting
  import opened VolumeLinks
  import VolumePaths

  const MAX_DEPTH := 10

  datatype Kind = IsFile | IsLink | IsDirectory

  /** `target` is empty unless the entry is a link whose target may be shown. */
  datatype Stat = Stat(path: string, kind: Kind, target: string)

  datatype ListError = NotFound | PathNotADirectory | TooDeep | Escapes | Unresolvable

  datatype Listing = Listed(stats: seq<Stat>) | Failed(error: ListError)

  function KindOf(node: Node): Kind {
    match node
    case File => IsFile
    case Link(_) => IsLink
    case Directory(_) => IsDirectory
  }

  /** The error that stands for a path or a link that cannot be followed. */
  function ErrorOf(r: Resolution): (error: Option<ListError>)
    ensures error.None? <==> r.Found?
  {
    match r
    case Found(_) => None
    case Missing => Some(NotFound)
    case Absolute => Some(Escapes)
    case Climbs => Some(Escapes)
    case NotADirectory => Some(Unresolvable)
    case Loops => Some(Unresolvable)
  }

  /** What is wrong with an entry of the directory `parent`: only a link can fail, when it is followed. */
  function LinkError(parent: seq<Entry>, node: Node): Option<ListError> {
    if node.Link? then ErrorOf(FollowTarget(parent, node.target)) else None
  }

  // ---------------------------------------------------------------- what is listed

  /** The walk down from a directory, through real directories and past no hidden name, that ends at `node` in the
      directory `parent`. */
  ghost predicate Reaches(entries: seq<Entry>, walk: seq<string>, parent: seq<Entry>, node: Node)
    decreases |walk|, 2
  {
    walk != [] && exists i :: 0 <= i < |entries| && entries[i].name == walk[0] && ReachesVia(entries, i, walk, parent, node)
  }

  ghost predicate ReachesVia(entries: seq<Entry>, i: int, walk: seq<string>, parent: seq<Entry>, node: Node)
    decreases |walk|, 1
  {
    && 0 <= i < |entries|
    && walk != [] && walk[0] == entries[i].name && !VolumePaths.HiddenName(entries[i].name)
    && if |walk| == 1 then entries[i].node == node && parent == entries
       else entries[i].node.Directory? && Reaches(entries[i].node.entries, walk[1..], parent, node)
  }

  function StatAt(elements: seq<string>, node: Node): Stat {
    var path := Join(elements, '/');
    Stat("/" + path, KindOf(node),
         if node.Link? && VolumePaths.TargetWithinRoot(path, node.target) then node.target else "")
  }

  /** What is shown of a node at a path: a link's target only if its text stays in the volume. */
  predicate Describes(stat: Stat, elements: seq<string>, node: Node) {
    && stat.path == "/" + Join(elements, '/')
    && (stat.kind == IsFile <==> node.File?) && (stat.kind == IsLink <==> node.Link?)
    && (node.Link? && VolumePaths.TargetWithinRoot(Join(elements, '/'), node.target) ==> stat.target == node.target)
    && (!node.Link? || !VolumePaths.TargetWithinRoot(Join(elements, '/'), node.target) ==> stat.target == "")
  }

  lemma StatDescribes(stat: Stat, elements: seq<string>, node: Node)
    ensures Describes(stat, elements, node) <==> stat == StatAt(elements, node)
  {
  }

  ghost predicate IsListed(entries: seq<Entry>, rel: seq<string>, depth: nat, stat: Stat) {
    exists walk, parent, node ::
      |walk| <= depth && Reaches(entries, walk, parent, node) && Describes(stat, rel + walk, node)
  }

  // ---------------------------------------------------------------- how it is collected

  /** The first `n` entries of a directory. */
  function Collect(entries: seq<Entry>, n: nat, rel: seq<string>, depth: nat): Listing
    requires n <= |entries|
    decreases depth, n, 1
  {
    if n == 0 then Listed([])
    else
      var before := Collect(entries, n - 1, rel, depth);
      if before.Failed? then before else Appended(before.stats, CollectEntry(entries, n - 1, rel, depth))
  }

  function CollectEntry(entries: seq<Entry>, i: nat, rel: seq<string>, depth: nat): Listing
    requires i < |entries|
    decreases depth, i, 2
  {
    var entry := entries[i];
    if VolumePaths.HiddenName(entry.name) then Listed([])
    else if LinkError(entries, entry.node).Some? then Failed(LinkError(entries, entry.node).value)
    else
      var stat := StatAt(rel + [entry.name], entry.node);
      if entry.node.Directory? && depth > 1 then
        Appended([stat], CollectAll(entry.node.entries, rel + [entry.name], depth - 1))
      else Listed([stat])
  }

  function CollectAll(entries: seq<Entry>, rel: seq<string>, depth: nat): Listing
    decreases depth, |entries|, 2
  {
    Collect(entries, |entries|, rel, depth)
  }

  /** What adding a listing to the stats found so far gives. */
  function Appended(stats: seq<Stat>, listing: Listing): Listing {
    if listing.Failed? then listing else Listed(stats + listing.stats)
  }

  lemma JoinElement(rel: seq<string>, name: string)
    requires AllProper(rel) && Proper(name)
    ensures Join2(Join(rel, '/'), name) == Join(rel + [name], '/')
  {
    VolumePaths.JoinAllOfProper(rel + [name]);
    VolumePaths.JoinAllOfProper(rel);
    if rel != [] {
      JoinConcat(rel, [name], '/');
    } else {
      assert [] + [name] == [name];
    }
  }

  /** volumeEntryStat on an entry of the directory that is the root: a link is looked up again by its name, and followed. */
  method VolumeEntryStat(parent: seq<Entry>, i: nat, rel: string) returns (r: Result<Stat, ListError>)
    requires WellFormed(Directory(parent)) && i < |parent|
    ensures var node := parent[i].node;
            && (LinkError(parent, node).Some? ==> r == Failure(LinkError(parent, node).value))
            && (LinkError(parent, node).None? ==>
                  r == Success(Stat("/" + rel, KindOf(node),
                               if node.Link? && VolumePaths.TargetWithinRoot(rel, node.target) then node.target else "")))
  {
    var node := parent[i].node;
    var stat := Stat("/" + rel, KindOf(node), "");
    if node.Link? {
      var followed := Walk([Directory(parent)], [parent[i].name], MAX_LINKS);
      FollowTargetIsWalk(parent, i);
      if followed == Missing {
        return Failure(NotFound);
      }
      if followed == Absolute || followed == Climbs {
        return Failure(Escapes);
      }
      if !followed.Found? {
        return Failure(Unresolvable);
      }
      if VolumePaths.TargetWithinRoot(rel, node.target) {
        stat := stat.(target := node.target);
      }
    }
    return Success(stat);
  }

  /** collectVolumeDirEntries passes one list down and appends to it. */
  method CollectVolumeDirEntries(entries: seq<Entry>, rel: string, ghost elements: seq<string>, depth: nat,
      result: seq<Stat>) returns (listing: Listing)
    requires WellFormed(Directory(entries)) && AllProper(elements) && rel == Join(elements, '/')
    ensures listing == Appended(result, CollectAll(entries, elements, depth))
    decreases depth, |entries|, 1
  {
    var stats := result;
    var i := 0;
    while i < |entries|
      invariant 0 <= i <= |entries|
      invariant Listed(stats) == Appended(result, Collect(entries, i, elements, depth))
    {
      UpTo(entries, i, elements, depth);
      var one := CollectOne(entries, i, rel, elements, depth, stats);
      if one.Failed? {
        return one;
      }
      stats := one.stats;
      i := i + 1;
    }
    return Listed(stats);
  }

  /** The body of the loop in collectVolumeDirEntries. */
  method CollectOne(entries: seq<Entry>, i: nat, rel: string, ghost elements: seq<string>, depth: nat, result: seq<Stat>)
      returns (listing: Listing)
    requires WellFormed(Directory(entries)) && i < |entries|
    requires AllProper(elements) && rel == Join(elements, '/')
    ensures listing == Appended(result, CollectEntry(entries, i, elements, depth))
    decreases depth, i, 2
  {
    EntryIsWellFormed(entries, i);
    var entry := entries[i];
    if VolumePaths.HiddenName(entry.name) {
      return Listed(result + []);
    }
    var entryRel := Join2(rel, entry.name);
    JoinElement(elements, entry.name);
    var stat := VolumeEntryStat(entries, i, entryRel);
    if stat.Failure? {
      return Failed(stat.error);
    }
    if entry.node.Directory? && depth > 1 {
      ghost var below := CollectAll(entry.node.entries, elements + [entry.name], depth - 1);
      assert below.Listed? ==> result + [stat.value] + below.stats == result + ([stat.value] + below.stats);
      listing :=
        CollectVolumeDirEntries(entry.node.entries, entryRel, elements + [entry.name], depth - 1, result + [stat.value]);
    } else {
      listing := Listed(result + [stat.value]);
    }
  }

  lemma EntryIsWellFormed(entries: seq<Entry>, i: nat)
    requires WellFormed(Directory(entries)) && i < |entries|
    ensures WellFormed(entries[i].node) && Proper(entries[i].name)
  {
  }

  /** One more entry; a failure stays. */
  lemma UpTo(entries: seq<Entry>, i: nat, rel: seq<string>, depth: nat)
    requires i < |entries| && Collect(entries, i, rel, depth).Listed?
    ensures var last := CollectEntry(entries, i, rel, depth);
            && (last.Listed? ==>
                  Collect(entries, i + 1, rel, depth) == Listed(Collect(entries, i, rel, depth).stats + last.stats))
            && (last.Listed? ==> forall stats :: Appended(Appended(stats, Collect(entries, i, rel, depth)).stats, last) ==
                                                Appended(stats, Collect(entries, i + 1, rel, depth)))
            && (last.Failed? ==> CollectAll(entries, rel, depth) == last)
  {
    var last := CollectEntry(entries, i, rel, depth);
    if last.Failed? {
      FailureStays(entries, i + 1, rel, depth);
    } else {
      forall stats: seq<Stat>
        ensures Appended(Appended(stats, Collect(entries, i, rel, depth)).stats, last) ==
                Appended(stats, Collect(entries, i + 1, rel, depth))
      {
        assert stats + Collect(entries, i, rel, depth).stats + last.stats ==
               stats + (Collect(entries, i, rel, depth).stats + last.stats);
      }
    }
  }

  lemma {:induction false} FailureStays(entries: seq<Entry>, i: nat, rel: seq<string>, depth: nat)
    requires i <= |entries| && Collect(entries, i, rel, depth).Failed?
    ensures CollectAll(entries, rel, depth) == Collect(entries, i, rel, depth)
    decreases |entries| - i
  {
    if i < |entries| {
      FailureStays(entries, i + 1, rel, depth);
    }
  }

  predicate ByPath(a: Stat, b: Stat) {
    LexLeq(a.path, b.path)
  }

  /** `start` is what the path resolves to from the volume's root, links followed. */
  function ListDir(start: Resolution, elements: seq<string>, depth: int): Listing {
    if !start.Found? then Failed(ErrorOf(start).value)
    else if !start.node.Directory? then Failed(PathNotADirectory)
    else if depth > MAX_DEPTH then Failed(TooDeep)
    else
      var collected := CollectAll(start.node.entries, elements, if depth <= 0 then 1 else depth);
      if collected.Failed? then collected else Listed(Sort(collected.stats, ByPath))
  }

  method ListVolumeDir(volume: Node, rel: string, ghost elements: seq<string>, depth: int) returns (r: Listing)
    requires WellFormed(volume) && AllProper(elements) && rel == Join(elements, '/')
    ensures r == ListDir(Walk([volume], elements, MAX_LINKS), elements, depth)
  {
    VolumePaths.KeptKeeps(elements);
    SplitCleaned(elements);
    var start := Walk([volume], VolumePaths.Elements(rel), MAX_LINKS);
    if !start.Found? {
      return Failed(ErrorOf(start).value);
    }
    if !start.node.Directory? {
      return Failed(PathNotADirectory);
    }
    var bounded := depth;
    if bounded <= 0 {
      bounded := 1;
    }
    if bounded > MAX_DEPTH {
      return Failed(TooDeep);
    }
    assert Chain([volume]);
    WalkIsWellFormed([volume], elements, MAX_LINKS);
    var collected := CollectVolumeDirEntries(start.node.entries, rel, elements, bounded, []);
    if collected.Failed? {
      return collected;
    }
    ghost var stats := CollectAll(start.node.entries, elements, bounded).stats;
    assert [] + stats == stats;
    return Listed(Sort(collected.stats, ByPath));
  }

  lemma SplitCleaned(elements: seq<string>)
    requires AllProper(elements)
    ensures VolumePaths.Elements(Join(elements, '/')) == elements
  {
    VolumePaths.JoinAllOfProper(elements);
    if elements != [] {
      SplitJoin(elements, '/');
    }
  }

  /** A walk through a well-formed tree ends at a well-formed node. */
  lemma WalkIsWellFormed(dirs: seq<Node>, todo: seq<string>, links: nat)
    requires Chain(dirs) && WellFormed(dirs[0]) && Walk(dirs, todo, links).Found?
    ensures WellFormed(Walk(dirs, todo, links).node)
  {
    WalkStaysBelow(dirs, todo, links);
    BelowIsWellFormed(dirs[0], Walk(dirs, todo, links).node);
  }

  lemma {:induction false} BelowIsWellFormed(root: Node, node: Node)
    requires WellFormed(root) && Below(root, node)
    ensures WellFormed(node)
    decreases root
  {
    if node != root {
      var i :| 0 <= i < |root.entries| && Below(root.entries[i].node, node);
      BelowIsWellFormed(root.entries[i].node, node);
    }
  }

  // ---------------------------------------------------------------- what is collected is what is listed

  lemma {:induction false} Sound(entries: seq<Entry>, n: nat, rel: seq<string>, depth: nat, stat: Stat)
    returns (i: nat, walk: seq<string>, parent: seq<Entry>, node: Node)
    requires n <= |entries| && depth >= 1
    requires Collect(entries, n, rel, depth).Listed? && stat in Collect(entries, n, rel, depth).stats
    ensures i < n && ReachesVia(entries, i, walk, parent, node) && |walk| <= depth && stat == StatAt(rel + walk, node)
    decreases depth, n, 1
  {
    if stat in Collect(entries, n - 1, rel, depth).stats {
      i, walk, parent, node := Sound(entries, n - 1, rel, depth, stat);
    } else {
      i := n - 1;
      walk, parent, node := EntrySound(entries, n - 1, rel, depth, stat);
    }
  }

  /** What is collected for an entry: the entry itself, or what is below it. */
  lemma EntryGives(entries: seq<Entry>, i: nat, rel: seq<string>, depth: nat, stat: Stat)
    requires i < |entries| && CollectEntry(entries, i, rel, depth).Listed?
    requires stat in CollectEntry(entries, i, rel, depth).stats
    ensures !VolumePaths.HiddenName(entries[i].name)
    ensures var elements, node := rel + [entries[i].name], entries[i].node;
            || stat == StatAt(elements, node)
            || (node.Directory? && depth > 1 && CollectAll(node.entries, elements, depth - 1).Listed?
                && stat in CollectAll(node.entries, elements, depth - 1).stats)
  {
  }

  lemma {:induction false} EntrySound(entries: seq<Entry>, i: nat, rel: seq<string>, depth: nat, stat: Stat)
    returns (walk: seq<string>, parent: seq<Entry>, node: Node)
    requires i < |entries| && depth >= 1 && CollectEntry(entries, i, rel, depth).Listed?
    requires stat in CollectEntry(entries, i, rel, depth).stats
    ensures ReachesVia(entries, i, walk, parent, node) && |walk| <= depth && stat == StatAt(rel + walk, node)
    decreases depth, i, 2
  {
    EntryGives(entries, i, rel, depth, stat);
    var entry := entries[i];
    walk, parent, node := [entry.name], entries, entry.node;
    if stat != StatAt(rel + [entry.name], entry.node) {
      var below := entry.node.entries;
      var j, walk', parent', node' := Sound(below, |below|, rel + [entry.name], depth - 1, stat);
      walk, parent, node := [entry.name] + walk', parent', node';
      ReachedBelow(entries, i, j, walk', parent', node');
      assert rel + [entry.name] + walk' == rel + walk;
    }
  }

  /** What is reached below an entry that is a directory is reached through the entry. */
  lemma ReachedBelow(entries: seq<Entry>, i: nat, j: nat, walk: seq<string>, parent: seq<Entry>, node: Node)
    requires i < |entries| && entries[i].node.Directory? && !VolumePaths.HiddenName(entries[i].name)
    requires ReachesVia(entries[i].node.entries, j, walk, parent, node)
    ensures ReachesVia(entries, i, [entries[i].name] + walk, parent, node)
  {
    assert ([entries[i].name] + walk)[1..] == walk;
    assert Reaches(entries[i].node.entries, walk, parent, node);
  }

  lemma {:induction false} Complete(entries: seq<Entry>, n: nat, rel: seq<string>, depth: nat, i: nat, walk: seq<string>,
      parent: seq<Entry>, node: Node)
    requires i < n <= |entries| && ReachesVia(entries, i, walk, parent, node) && |walk| <= depth
    requires Collect(entries, n, rel, depth).Listed?
    ensures StatAt(rel + walk, node) in Collect(entries, n, rel, depth).stats
    ensures LinkError(parent, node).None?
    decreases depth, n, 1
  {
    if i < n - 1 {
      Complete(entries, n - 1, rel, depth, i, walk, parent, node);
    } else {
      EntryComplete(entries, i, rel, depth, walk, parent, node);
    }
  }

  lemma EntryIsListed(entries: seq<Entry>, i: nat, rel: seq<string>, depth: nat)
    requires i < |entries| && CollectEntry(entries, i, rel, depth).Listed? && depth > 1
    requires !VolumePaths.HiddenName(entries[i].name) && entries[i].node.Directory?
    ensures CollectAll(entries[i].node.entries, rel + [entries[i].name], depth - 1).Listed?
  {
  }

  /** A directory's part of a listing, if there is more depth, holds what is below it. */
  lemma EntryHolds(entries: seq<Entry>, i: nat, rel: seq<string>, depth: nat, x: Stat)
    requires i < |entries| && CollectEntry(entries, i, rel, depth).Listed? && depth > 1
    requires !VolumePaths.HiddenName(entries[i].name) && entries[i].node.Directory?
    requires CollectAll(entries[i].node.entries, rel + [entries[i].name], depth - 1).Listed?
    requires x in CollectAll(entries[i].node.entries, rel + [entries[i].name], depth - 1).stats
    ensures x in CollectEntry(entries, i, rel, depth).stats
  {
  }

  lemma OneDown(entries: seq<Entry>, i: nat, walk: seq<string>, parent: seq<Entry>, node: Node) returns (j: nat)
    requires i < |entries| && ReachesVia(entries, i, walk, parent, node) && |walk| > 1
    ensures entries[i].node.Directory? && j < |entries[i].node.entries|
    ensures ReachesVia(entries[i].node.entries, j, walk[1..], parent, node)
  {
    var below := entries[i].node.entries;
    j :| 0 <= j < |below| && below[j].name == walk[1] && ReachesVia(below, j, walk[1..], parent, node);
  }

  lemma {:induction false} EntryComplete(entries: seq<Entry>, i: nat, rel: seq<string>, depth: nat, walk: seq<string>,
      parent: seq<Entry>, node: Node)
    requires i < |entries| && ReachesVia(entries, i, walk, parent, node) && |walk| <= depth
    requires CollectEntry(entries, i, rel, depth).Listed?
    ensures StatAt(rel + walk, node) in CollectEntry(entries, i, rel, depth).stats
    ensures LinkError(parent, node).None?
    decreases depth, i, 2
  {
    if |walk| > 1 {
      var j := OneDown(entries, i, walk, parent, node);
      BelowComplete(entries, i, rel, depth, j, walk, parent, node);
    } else {
      assert walk == [entries[i].name];
    }
  }

  lemma {:induction false} BelowComplete(entries: seq<Entry>, i: nat, rel: seq<string>, depth: nat, j: nat, walk: seq<string>,
      parent: seq<Entry>, node: Node)
    requires i < |entries| && CollectEntry(entries, i, rel, depth).Listed? && 1 < |walk| <= depth
    requires walk[0] == entries[i].name && !VolumePaths.HiddenName(walk[0]) && entries[i].node.Directory?
    requires j < |entries[i].node.entries| && ReachesVia(entries[i].node.entries, j, walk[1..], parent, node)
    ensures StatAt(rel + walk, node) in CollectEntry(entries, i, rel, depth).stats
    ensures LinkError(parent, node).None?
    decreases depth, i, 1
  {
    var below, deeper := entries[i].node.entries, rel + [walk[0]];
    EntryIsListed(entries, i, rel, depth);
    Complete(below, |below|, deeper, depth - 1, j, walk[1..], parent, node);
    WalkOn(rel, walk);
    EntryHolds(entries, i, rel, depth, StatAt(deeper + walk[1..], node));
  }

  lemma WalkOn(rel: seq<string>, walk: seq<string>)
    requires walk != []
    ensures rel + [walk[0]] + walk[1..] == rel + walk
  {
  }

  /** A listing fails only for a link within reach that cannot be followed. */
  lemma {:induction false} FailsForLink(entries: seq<Entry>, n: nat, rel: seq<string>, depth: nat)
    returns (i: nat, walk: seq<string>, parent: seq<Entry>, node: Node)
    requires n <= |entries| && depth >= 1 && Collect(entries, n, rel, depth).Failed?
    ensures i < n && ReachesVia(entries, i, walk, parent, node) && |walk| <= depth
    ensures LinkError(parent, node) == Some(Collect(entries, n, rel, depth).error)
    decreases depth, n, 1
  {
    if Collect(entries, n - 1, rel, depth).Failed? {
      i, walk, parent, node := FailsForLink(entries, n - 1, rel, depth);
    } else {
      i := n - 1;
      walk, parent, node := EntryFailsForLink(entries, n - 1, rel, depth);
    }
  }

  lemma {:induction false} EntryFailsForLink(entries: seq<Entry>, i: nat, rel: seq<string>, depth: nat)
    returns (walk: seq<string>, parent: seq<Entry>, node: Node)
    requires i < |entries| && depth >= 1 && CollectEntry(entries, i, rel, depth).Failed?
    ensures ReachesVia(entries, i, walk, parent, node) && |walk| <= depth
    ensures LinkError(parent, node) == Some(CollectEntry(entries, i, rel, depth).error)
    decreases depth, i, 2
  {
    var entry := entries[i];
    walk, parent, node := [entry.name], entries, entry.node;
    if entry.node.Directory? {
      var below := entry.node.entries;
      var j, walk', parent', node' := FailsForLink(below, |below|, rel + [entry.name], depth - 1);
      walk, parent, node := [entry.name] + walk', parent', node';
      assert walk[1..] == walk';
    }
  }

  // ---------------------------------------------------------------- each path once

  lemma {:induction false} WalksAreProper(entries: seq<Entry>, i: nat, walk: seq<string>, parent: seq<Entry>, node: Node)
    requires WellFormed(Directory(entries)) && i < |entries| && ReachesVia(entries, i, walk, parent, node)
    ensures AllProper(walk)
    decreases |walk|
  {
    assert Proper(entries[i].name) && WellFormed(entries[i].node);
    if |walk| > 1 {
      var below := entries[i].node.entries;
      var j := OneDown(entries, i, walk, parent, node);
      WalksAreProper(below, j, walk[1..], parent, node);
    }
  }

  lemma PathsTellWalksApart(rel: seq<string>, v: seq<string>, w: seq<string>, a: Node, b: Node)
    requires AllProper(rel) && AllProper(v) && AllProper(w) && v != [] && w != []
    requires StatAt(rel + v, a).path == StatAt(rel + w, b).path
    ensures v == w
  {
    SplitJoin(rel + v, '/');
    SplitJoin(rel + w, '/');
    assert ("/" + Join(rel + v, '/'))[1..] == Join(rel + v, '/');
    assert ("/" + Join(rel + w, '/'))[1..] == Join(rel + w, '/');
    assert (rel + v)[|rel|..] == v && (rel + w)[|rel|..] == w;
  }

  predicate PathsDiffer(stats: seq<Stat>) {
    forall i, j :: 0 <= i < j < |stats| ==> stats[i].path != stats[j].path
  }

  lemma PathsDifferConcat(a: seq<Stat>, b: seq<Stat>)
    requires PathsDiffer(a) && PathsDiffer(b) && forall x, y :: x in a && y in b ==> x.path != y.path
    ensures PathsDiffer(a + b)
  {
    forall i, j | 0 <= i < j < |a + b| ensures (a + b)[i].path != (a + b)[j].path {
      assert i < |a| ==> a[i] in a;
      assert j >= |a| ==> b[j - |a|] in b;
    }
  }

  lemma {:induction false} EachPathOnce(entries: seq<Entry>, n: nat, rel: seq<string>, depth: nat)
    requires WellFormed(Directory(entries)) && AllProper(rel) && depth >= 1
    requires n <= |entries| && Collect(entries, n, rel, depth).Listed?
    ensures PathsDiffer(Collect(entries, n, rel, depth).stats)
    decreases depth, n, 1
  {
    if n > 0 {
      EachPathOnce(entries, n - 1, rel, depth);
      EachPathOnceBelow(entries, n - 1, rel, depth);
      var before, last := Collect(entries, n - 1, rel, depth).stats, CollectEntry(entries, n - 1, rel, depth).stats;
      forall x, y | x in before && y in last ensures x.path != y.path {
        ApartFromBefore(entries, n - 1, rel, depth, x, y);
      }
      PathsDifferConcat(before, last);
    }
  }

  lemma ApartFromBefore(entries: seq<Entry>, n: nat, rel: seq<string>, depth: nat, x: Stat, y: Stat)
    requires WellFormed(Directory(entries)) && AllProper(rel) && depth >= 1 && n < |entries|
    requires Collect(entries, n, rel, depth).Listed? && x in Collect(entries, n, rel, depth).stats
    requires CollectEntry(entries, n, rel, depth).Listed? && y in CollectEntry(entries, n, rel, depth).stats
    ensures x.path != y.path
  {
    var i, v, p, a := Sound(entries, n, rel, depth, x);
    var w, q, b := EntrySound(entries, n, rel, depth, y);
    WalksAreProper(entries, i, v, p, a);
    WalksAreProper(entries, n, w, q, b);
    assert entries[i].name != entries[n].name;
    if x.path == y.path {
      PathsTellWalksApart(rel, v, w, a, b);
    }
  }

  lemma {:induction false} EachPathOnceBelow(entries: seq<Entry>, i: nat, rel: seq<string>, depth: nat)
    requires WellFormed(Directory(entries)) && i < |entries| && AllProper(rel) && depth >= 1
    requires CollectEntry(entries, i, rel, depth).Listed?
    ensures PathsDiffer(CollectEntry(entries, i, rel, depth).stats)
    decreases depth, i, 2
  {
    var entry := entries[i];
    assert Proper(entry.name) && WellFormed(entry.node);
    if !VolumePaths.HiddenName(entry.name) && entry.node.Directory? && depth > 1 {
      var stat, more := StatAt(rel + [entry.name], entry.node), entry.node.entries;
      var below := CollectAll(more, rel + [entry.name], depth - 1).stats;
      EachPathOnce(more, |more|, rel + [entry.name], depth - 1);
      forall x, y | x in [stat] && y in below ensures x.path != y.path {
        ApartFromBelow(entry, rel, depth, y);
      }
      PathsDifferConcat([stat], below);
    }
  }

  lemma ApartFromBelow(entry: Entry, rel: seq<string>, depth: nat, y: Stat)
    requires Proper(entry.name) && entry.node.Directory? && WellFormed(entry.node) && AllProper(rel) && depth > 1
    requires CollectAll(entry.node.entries, rel + [entry.name], depth - 1).Listed?
    requires y in CollectAll(entry.node.entries, rel + [entry.name], depth - 1).stats
    ensures StatAt(rel + [entry.name], entry.node).path != y.path
  {
    var more := entry.node.entries;
    var i, w, q, b := Sound(more, |more|, rel + [entry.name], depth - 1, y);
    WalksAreProper(more, i, w, q, b);
    assert rel + [entry.name] + w == rel + ([entry.name] + w);
    if StatAt(rel + [entry.name], entry.node).path == y.path {
      PathsTellWalksApart(rel, [entry.name], [entry.name] + w, entry.node, b);
    }
  }

  // ---------------------------------------------------------------- main results

  lemma PathOrder()
    ensures TotalOrder(ByPath)
  {
    forall a: Stat, b: Stat ensures ByPath(a, b) || ByPath(b, a) {
      LexTotal(a.path, b.path);
    }
    forall a: Stat, b: Stat, c: Stat | ByPath(a, b) && ByPath(b, c) ensures ByPath(a, c) {
      LexTransitive(a.path, b.path, c.path);
    }
  }

  lemma SortedPathsDiffer(stats: seq<Stat>)
    requires PathsDiffer(stats)
    ensures PathsDiffer(Sort(stats, ByPath))
  {
    PathOrder();
    SortSorts(stats, ByPath);
    SameElementsStayDistinct(stats, Sort(stats, ByPath));
    var sorted := Sort(stats, ByPath);
    forall i, j | 0 <= i < j < |sorted| ensures sorted[i].path != sorted[j].path {
      assert sorted[i] in stats && sorted[j] in stats;
    }
  }

  function Bounded(depth: int): (d: nat)
    ensures d >= 1
  {
    if depth <= 0 then 1 else depth
  }

  /** A listing holds exactly the paths of one to `depth` elements below the directory that are reached through real
      directories and have no hidden element, each once, in order. */
  lemma ListingIsExact(entries: seq<Entry>, rel: seq<string>, depth: int)
    requires WellFormed(Directory(entries)) && AllProper(rel)
    requires ListDir(Found(Directory(entries)), rel, depth).Listed?
    ensures var stats := ListDir(Found(Directory(entries)), rel, depth).stats;
            && (forall stat :: stat in stats <==> IsListed(entries, rel, Bounded(depth), stat))
            && (forall i, j :: 0 <= i < j < |stats| ==> LexLeq(stats[i].path, stats[j].path) && stats[i].path != stats[j].path)
  {
    var d := Bounded(depth);
    var collected := CollectAll(entries, rel, d).stats;
    PathOrder();
    SortSorts(collected, ByPath);
    EachPathOnce(entries, |entries|, rel, d);
    SortedPathsDiffer(collected);
    forall stat ensures stat in collected <==> IsListed(entries, rel, d, stat) {
      CollectedIsListed(entries, rel, d, stat);
    }
    var stats := Sort(collected, ByPath);
    forall i, j | 0 <= i < j < |stats| ensures LexLeq(stats[i].path, stats[j].path) {
      assert ByPath(stats[i], stats[j]);
    }
  }

  lemma CollectedIsListed(entries: seq<Entry>, rel: seq<string>, depth: nat, stat: Stat)
    requires depth >= 1 && CollectAll(entries, rel, depth).Listed?
    ensures stat in CollectAll(entries, rel, depth).stats <==> IsListed(entries, rel, depth, stat)
  {
    if stat in CollectAll(entries, rel, depth).stats {
      var i, walk, parent, node := Sound(entries, |entries|, rel, depth, stat);
      assert Reaches(entries, walk, parent, node);
      StatDescribes(stat, rel + walk, node);
    }
    if IsListed(entries, rel, depth, stat) {
      var walk, parent, node :|
        |walk| <= depth && Reaches(entries, walk, parent, node) && Describes(stat, rel + walk, node);
      StatDescribes(stat, rel + walk, node);
      var i :| 0 <= i < |entries| && entries[i].name == walk[0] && ReachesVia(entries, i, walk, parent, node);
      Complete(entries, |entries|, rel, depth, i, walk, parent, node);
    }
  }

  /** A link within reach that, looked at from its own directory, is absolute, leads to nothing or through something that
      is no directory, climbs above that directory, or does not end. */
  ghost predicate HasBadLink(entries: seq<Entry>, depth: nat) {
    exists walk, parent, node ::
      |walk| <= depth && Reaches(entries, walk, parent, node) && node.Link? && !FollowTarget(parent, node.target).Found?
  }

  /** A listing of a directory fails exactly when the depth is over the limit or a link within reach cannot be followed
      inside its own directory. */
  lemma ListingFailsWhen(entries: seq<Entry>, rel: seq<string>, depth: int)
    requires WellFormed(Directory(entries)) && AllProper(rel)
    ensures ListDir(Found(Directory(entries)), rel, depth).Failed? <==>
              depth > MAX_DEPTH || HasBadLink(entries, Bounded(depth))
  {
    var d := Bounded(depth);
    if depth <= MAX_DEPTH {
      if CollectAll(entries, rel, d).Failed? {
        var i, walk, parent, node := FailsForLink(entries, |entries|, rel, d);
        assert Reaches(entries, walk, parent, node);
      } else {
        forall walk, parent, node | |walk| <= d && Reaches(entries, walk, parent, node)
          ensures LinkError(parent, node).None?
        {
          var i :| 0 <= i < |entries| && entries[i].name == walk[0] && ReachesVia(entries, i, walk, parent, node);
          Complete(entries, |entries|, rel, d, i, walk, parent, node);
        }
      }
    }
  }

  /** The error for a path or link that cannot be followed. */
  predicate Fault(r: Resolution, error: ListError) {
    || (r == Missing && error == NotFound)
    || ((r == Absolute || r == Climbs) && error == Escapes)
    || ((r == NotADirectory || r == Loops) && error == Unresolvable)
  }

  /** A link within reach gives this error. */
  ghost predicate LinkFault(entries: seq<Entry>, depth: nat, error: ListError) {
    exists walk, parent, node ::
      |walk| <= depth && Reaches(entries, walk, parent, node) && node.Link? && Fault(FollowTarget(parent, node.target), error)
  }

  /** What the listing of a path answers, for every volume, path and depth: the listing of a directory that the path leads to,
      if the depth is within the limit and each link within reach can be followed; and else the error of the path, the
      node, the depth or a link, in this order. */
  lemma ListingAnswers(volume: Node, elements: seq<string>, depth: int)
    requires WellFormed(volume) && AllProper(elements)
    ensures var start, d := Walk([volume], elements, 8), if depth <= 0 then 1 else depth;
            var answer := ListDir(start, elements, depth);
            && (!start.Found? ==> answer.Failed? && Fault(start, answer.error))
            && (start.Found? && !start.node.Directory? ==> answer == Failed(PathNotADirectory))
            && (start.Found? && start.node.Directory? && depth > 10 ==> answer == Failed(TooDeep))
            && (start.Found? && start.node.Directory? && depth <= 10 ==>
                  && (answer.Failed? ==> LinkFault(start.node.entries, d, answer.error))
                  && (answer.Listed? ==>
                        && (forall error :: !LinkFault(start.node.entries, d, error))
                        && (forall stat :: stat in answer.stats <==> IsListed(start.node.entries, elements, d, stat))))
  {
    var start := Walk([volume], elements, MAX_LINKS);
    if start.Found? && start.node.Directory? && depth <= 10 {
      assert Chain([volume]);
      WalkIsWellFormed([volume], elements, MAX_LINKS);
      DirectoryAnswers(start.node.entries, elements, depth);
    }
  }

  lemma DirectoryAnswers(entries: seq<Entry>, rel: seq<string>, depth: int)
    requires WellFormed(Directory(entries)) && AllProper(rel) && depth <= 10
    ensures var answer, d := ListDir(Found(Directory(entries)), rel, depth), if depth <= 0 then 1 else depth;
            && (answer.Failed? ==> LinkFault(entries, d, answer.error))
            && (answer.Listed? ==>
                  && (forall error :: !LinkFault(entries, d, error))
                  && (forall stat :: stat in answer.stats <==> IsListed(entries, rel, d, stat)))
  {
    var answer, d := ListDir(Found(Directory(entries)), rel, depth), if depth <= 0 then 1 else depth;
    if answer.Failed? {
      var i, walk, parent, node := FailsForLink(entries, |entries|, rel, d);
      assert Reaches(entries, walk, parent, node);
    } else {
      ListingFailsWhen(entries, rel, depth);
      ListingIsExact(entries, rel, depth);
      forall error ensures !LinkFault(entries, d, error) {
        if LinkFault(entries, d, error) {
          FaultIsBad(entries, d, error);
        }
      }
    }
  }

  lemma FaultIsBad(entries: seq<Entry>, depth: nat, error: ListError)
    requires LinkFault(entries, depth, error)
    ensures HasBadLink(entries, depth)
  {
    var walk, parent, node :|
      |walk| <= depth && Reaches(entries, walk, parent, node) && node.Link? && Fault(FollowTarget(parent, node.target), error);
  }

  // ---------------------------------------------------------------- listing is stricter than looking at one path

  /** A link that the volume's root lets through and the listing does not is one that climbs above its own directory;
      `above` are the directories from the volume's root down to that one's parent. */
  lemma OnlyClimbingIsRefused(above: seq<Node>, parent: seq<Entry>, target: string)
    requires target != "" && target[0] != '/'
    requires Walk(above + [Directory(parent)], TargetElements(target), MAX_LINKS - 1).Found?
    ensures FollowTarget(parent, target).Found? <==> FollowTarget(parent, target) != Climbs
    ensures FollowTarget(parent, target).Found? ==>
              FollowTarget(parent, target) == Walk(above + [Directory(parent)], TargetElements(target), MAX_LINKS - 1)
  {
    if FollowTarget(parent, target) != Climbs {
      WiderRootAgrees(above, [Directory(parent)], TargetElements(target), MAX_LINKS - 1);
    }
  }

  /** With a/link leading to ../f inside the volume, the link is followed from the volume's root and its target may be
      shown; but listing a fails, and so does listing the volume to depth 2. */
  lemma LinkInsideTheVolumeFailsTheListing()
    ensures var parent := [Entry("link", Link("../f"))];
            var volume := [Entry("a", Directory(parent)), Entry("f", File)];
            && Walk([Directory(volume)], ["a", "link"], MAX_LINKS) == Found(File)
            && VolumePaths.TargetWithinRoot("a/link", "../f")
            && ListDir(Found(Directory(parent)), ["a"], 1) == Failed(Escapes)
            && ListDir(Found(Directory(volume)), [], 2) == Failed(Escapes)
  {
    var parent := [Entry("link", Link("../f"))];
    var volume := [Entry("a", Directory(parent)), Entry("f", File)];
    FollowedFromTheVolume(parent, volume);
    ShownFromTheVolume();
    ParentFails(parent);
    VolumeFails(parent, volume);
  }

  lemma NamesAreShown()
    ensures !VolumePaths.HiddenName("link") && !VolumePaths.HiddenName("a")
  {
    assert |VolumePaths.METADATA_FILE| == 22;
  }

  lemma ParentFails(parent: seq<Entry>)
    requires parent == [Entry("link", Link("../f"))]
    ensures CollectAll(parent, ["a"], 1) == Failed(Escapes)
  {
    NamesAreShown();
    UpAndOver();
    assert FollowTarget(parent, "../f") == Climbs;
    assert CollectEntry(parent, 0, ["a"], 1) == Failed(Escapes);
    assert Collect(parent, 0, ["a"], 1) == Listed([]);
  }

  lemma VolumeFails(parent: seq<Entry>, volume: seq<Entry>)
    requires volume == [Entry("a", Directory(parent)), Entry("f", File)] && CollectAll(parent, ["a"], 1) == Failed(Escapes)
    ensures CollectAll(volume, [], 2) == Failed(Escapes)
  {
    NamesAreShown();
    assert [] + ["a"] == ["a"];
    assert LinkError(volume, volume[0].node).None?;
    assert CollectEntry(volume, 0, [], 2) == Failed(Escapes);
    assert Collect(volume, 0, [], 2) == Listed([]);
    FailureStays(volume, 1, [], 2);
  }

  lemma UpAndOver()
    ensures Split("../f", '/') == ["..", "f"] && TargetElements("../f") == ["..", "f"]
    ensures ["..", "f"][1..] == ["f"]
  {
    assert ".." + ['/'] + "f" == "../f";
    SplitAtFirst("..", "f", '/');
    SplitWhole("f", '/');
    assert VolumePaths.Kept(["f"]) == ["f"] + VolumePaths.Kept([]);
    assert VolumePaths.Kept(["..", "f"]) == [".."] + VolumePaths.Kept(["f"]);
  }

  lemma FollowedFromTheVolume(parent: seq<Entry>, volume: seq<Entry>)
    requires parent == [Entry("link", Link("../f"))]
    requires volume == [Entry("a", Directory(parent)), Entry("f", File)]
    ensures Walk([Directory(volume)], ["a", "link"], MAX_LINKS) == Found(File)
  {
    UpAndOver();
    var top, inner := Directory(volume), Directory(parent);
    assert IndexOf(volume, "a") == 0 && IndexOf(parent, "link") == 0;
    assert volume[1..] == [Entry("f", File)] && IndexOf(volume[1..], "f") == 0 && IndexOf(volume, "f") == 1;
    assert [top] + [inner] == [top, inner] && [top, inner][..1] == [top] && [top] + [File] == [top, File];
    assert ["a", "link"][1..] == ["link"] && ["link"][1..] == [] && ["f"][1..] == [];
    assert TargetElements("../f") + [] == ["..", "f"];
    assert Walk([top, File], [], MAX_LINKS - 1) == Found(File);
    assert Walk([top], ["f"], MAX_LINKS - 1) == Found(File);
    assert Walk([top, inner], ["..", "f"], MAX_LINKS - 1) == Found(File);
    assert Walk([top, inner], ["link"], MAX_LINKS) == Found(File);
  }

  lemma ShownFromTheVolume()
    ensures VolumePaths.TargetWithinRoot("a/link", "../f")
  {
    UpAndOver();
    var elements := ["a", "link"];
    assert elements[1..] == ["link"] && Join(["link"], '/') == "link";
    assert Join(elements, '/') == "a" + ['/'] + "link" == "a/link";
    assert Replace("../f", '\\', '/') == "../f";
    VolumePaths.ContainmentIsExact(elements, "../f");
    VolumePaths.StaysInsideStep(1, ["..", "f"]);
    VolumePaths.StaysInsideStep(0, ["f"]);
    assert ["f"][1..] == [] && VolumePaths.Level(1, [][..0]) == 1;
    assert VolumePaths.StaysInside(1, []);
  }
}
