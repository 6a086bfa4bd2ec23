/** Following symbolic links below a directory that is opened as a root, as Go's os.Root does: a link may lead anywhere
    below the root, but its target must not be absolute, and ".." must not climb above the root
    (used by internal/backends/docker/volumes.go). */
module VolumeLinks {
  import opened Strings
  import opened Paths
  import VolumePaths

  datatype Node = File | Link(target: string) | Directory(entries: seq<Entry>)
  datatype Entry = Entry(name: string, node: Node)

  datatype Resolution = Found(node: Node) | Missing | NotADirectory | Absolute | Climbs | Loops

  /** A root follows this many links and no more; it is the least limit that POSIX allows. */
  const MAX_LINKS: nat := 8

  /** The names in one directory differ and are proper path elements; a link has a target. */
  ghost predicate WellFormed(node: Node) {
    && (node.Link? ==> node.target != "")
    && (node.Directory? ==>
          && (forall i, j :: 0 <= i < j < |node.entries| ==> node.entries[i].name != node.entries[j].name)
          && (forall i :: 0 <= i < |node.entries| ==> Proper(node.entries[i].name) && WellFormed(node.entries[i].node)))
  }

  function IndexOf(entries: seq<Entry>, name: string): (i: nat)
    ensures i <= |entries|
    ensures i < |entries| ==> entries[i].name == name
    ensures forall j :: 0 <= j < i ==> entries[j].name != name
  {
    if entries == [] then 0
    else if entries[0].name == name then 0
    else 1 + IndexOf(entries[1..], name)
  }

  /** The elements of a target. A separator or a dot at its end asks for a directory; other dots are dropped. */
  function TargetElements(target: string): seq<string> {
    var parts := Split(target, '/');
    var last := parts[|parts| - 1];
    VolumePaths.Kept(parts) + if last == "" || last == "." then ["."] else []
  }

  /** Where a walk ends that starts at the last of `dirs`, the directories from the root down to it. Links on the way are
      followed, the last element included. */
  function Walk(dirs: seq<Node>, todo: seq<string>, links: nat): Resolution
    requires dirs != []
    decreases links, |todo|
  {
    var here := dirs[|dirs| - 1];
    if todo == [] then Found(here)
    else if !here.Directory? then NotADirectory
    else if todo[0] == "." then Walk(dirs, todo[1..], links)
    else if todo[0] == ".." then
      if |dirs| == 1 then Climbs else Walk(dirs[..|dirs| - 1], todo[1..], links)
    else
      var i := IndexOf(here.entries, todo[0]);
      if i == |here.entries| then Missing
      else
        var node := here.entries[i].node;
        if !node.Link? then Walk(dirs + [node], todo[1..], links)
        else if links == 0 then Loops
        else if node.target != "" && node.target[0] == '/' then Absolute
        else Walk(dirs, TargetElements(node.target) + todo[1..], links - 1)
  }

  /** A link in the directory `parent`, which is the root, is followed to its end. */
  function FollowTarget(parent: seq<Entry>, target: string): Resolution {
    if target != "" && target[0] == '/' then Absolute
    else Walk([Directory(parent)], TargetElements(target), MAX_LINKS - 1)
  }

  /** Resolving an entry's target is looking up the entry itself. */
  lemma FollowTargetIsWalk(parent: seq<Entry>, i: nat)
    requires WellFormed(Directory(parent)) && i < |parent| && parent[i].node.Link?
    ensures Walk([Directory(parent)], [parent[i].name], MAX_LINKS) == FollowTarget(parent, parent[i].node.target)
  {
    assert Proper(parent[i].name);
    assert IndexOf(parent, parent[i].name) == i;
    assert TargetElements(parent[i].node.target) + [parent[i].name][1..] == TargetElements(parent[i].node.target);
  }

  /** The elements of targets that are written with proper elements and "..": these, in their order, wherever a "." or an
      empty element stands; at the end either of those asks for a directory. */
  lemma TargetsAre(parts: seq<string>)
    requires parts != [] && forall i :: 0 <= i < |parts| ==> parts[i] == ".." || Proper(parts[i])
    ensures TargetElements(Join(parts, '/')) == parts
    ensures TargetElements("." + ['/'] + Join(parts, '/')) == parts
    ensures TargetElements(Join(parts, '/') + ['/'] + "") == parts + ["."]
    ensures TargetElements(Join(parts, '/') + ['/'] + ".") == parts + ["."]
  {
    var path := WrittenPath(parts);
    ElementsOf(path, parts);
    DotBefore(".", path, "." + ['/'] + path);
    EndsInDirectory(parts, path, "", path + ['/'] + "");
    EndsInDirectory(parts, path, ".", path + ['/'] + ".");
  }

  /** The path that is written with some elements, and what splitting it gives. */
  lemma WrittenPath(parts: seq<string>) returns (path: string)
    requires parts != [] && forall i :: 0 <= i < |parts| ==> parts[i] == ".." || Proper(parts[i])
    ensures path == Join(parts, '/') && Split(path, '/') == parts && VolumePaths.Kept(parts) == parts
    ensures parts[|parts| - 1] != "" && parts[|parts| - 1] != "."
  {
    path := Join(parts, '/');
    SplitJoin(parts, '/');
    KeptStays(parts);
  }

  lemma ElementsOf(target: string, split: seq<string>)
    requires Split(target, '/') == split
    ensures split != []
    ensures var last := split[|split| - 1];
            TargetElements(target) == VolumePaths.Kept(split) + if last == "" || last == "." then ["."] else []
  {
  }

  lemma SplitDot(dot: string, path: string, target: string)
    requires target == dot + ['/'] + path && dot == "."
    ensures Split(target, '/') == [dot] + Split(path, '/')
  {
    SplitWhole(dot, '/');
    SplitConcat(dot, path, '/');
  }

  lemma DotIsDropped(dot: string, parts: seq<string>)
    requires dot == "." && parts != []
    ensures VolumePaths.Kept([dot] + parts) == VolumePaths.Kept(parts)
    ensures ([dot] + parts)[|[dot] + parts| - 1] == parts[|parts| - 1]
  {
    assert ([dot] + parts)[1..] == parts;
  }

  lemma DotBefore(dot: string, path: string, target: string)
    requires dot == "." && target == dot + ['/'] + path
    ensures TargetElements(target) == TargetElements(path)
  {
    var parts := Split(path, '/');
    SplitDot(dot, path, target);
    DotIsDropped(dot, parts);
    ElementsOf(target, [dot] + parts);
    ElementsOf(path, parts);
  }

  lemma EndsInDirectory(parts: seq<string>, path: string, last: string, target: string)
    requires Split(path, '/') == parts && VolumePaths.Kept(parts) == parts && (last == "" || last == ".")
    requires target == path + ['/'] + last
    ensures TargetElements(target) == parts + ["."]
  {
    SplitConcat(path, last, '/');
    SplitWhole(last, '/');
    ElementsOf(target, parts + [last]);
    VolumePaths.KeptSnoc(parts, last);
  }

  lemma {:induction false} KeptStays(parts: seq<string>)
    requires forall i :: 0 <= i < |parts| ==> parts[i] == ".." || Proper(parts[i])
    ensures VolumePaths.Kept(parts) == parts
    decreases |parts|
  {
    if parts != [] {
      KeptStays(parts[1..]);
      assert parts == [parts[0]] + parts[1..];
    }
  }

  // ---------------------------------------------------------------- what is found lies below the root

  ghost predicate Below(root: Node, node: Node)
    decreases root
  {
    node == root || (root.Directory? && exists i :: 0 <= i < |root.entries| && Below(root.entries[i].node, node))
  }

  /** Each directory but the first is an entry of the one before it. */
  predicate Chain(dirs: seq<Node>) {
    dirs != [] && forall k :: 0 < k < |dirs| ==> IsChild(dirs, k)
  }

  predicate IsChild(dirs: seq<Node>, k: int)
    requires 0 < k < |dirs|
  {
    dirs[k - 1].Directory? && HasNode(dirs[k - 1].entries, dirs[k])
  }

  predicate HasNode(entries: seq<Entry>, node: Node) {
    exists i :: 0 <= i < |entries| && entries[i].node == node
  }

  lemma {:induction false} BelowExtends(root: Node, node: Node, child: Node)
    requires Below(root, node) && node.Directory? && HasNode(node.entries, child)
    ensures Below(root, child)
    decreases root
  {
    if node == root {
      var i :| 0 <= i < |root.entries| && root.entries[i].node == child;
      assert Below(root.entries[i].node, child);
    } else {
      var i :| 0 <= i < |root.entries| && Below(root.entries[i].node, node);
      BelowExtends(root.entries[i].node, node, child);
    }
  }

  lemma ChainPush(dirs: seq<Node>, node: Node)
    requires Chain(dirs) && dirs[|dirs| - 1].Directory? && HasNode(dirs[|dirs| - 1].entries, node)
    ensures Chain(dirs + [node])
  {
    var more := dirs + [node];
    forall k | 0 < k < |more| ensures IsChild(more, k) {
      assert k < |dirs| ==> IsChild(dirs, k);
    }
  }

  lemma ChainPop(dirs: seq<Node>)
    requires Chain(dirs) && |dirs| > 1
    ensures Chain(dirs[..|dirs| - 1])
  {
    var fewer := dirs[..|dirs| - 1];
    forall k | 0 < k < |fewer| ensures IsChild(fewer, k) {
      assert IsChild(dirs, k);
    }
  }

  lemma {:induction false} ChainIsBelow(dirs: seq<Node>)
    requires Chain(dirs)
    ensures Below(dirs[0], dirs[|dirs| - 1])
    decreases |dirs|
  {
    if |dirs| > 1 {
      var front := dirs[..|dirs| - 1];
      ChainPop(dirs);
      assert IsChild(dirs, |dirs| - 1);
      ChainIsBelow(front);
      BelowExtends(dirs[0], front[|front| - 1], dirs[|dirs| - 1]);
    }
  }

  /** The walk that is left after one element. */
  lemma WalkMoves(dirs: seq<Node>, todo: seq<string>, links: nat) returns (dirs': seq<Node>, todo': seq<string>, links': nat)
    requires Chain(dirs) && todo != [] && Walk(dirs, todo, links).Found?
    ensures Chain(dirs') && dirs'[0] == dirs[0] && Walk(dirs', todo', links') == Walk(dirs, todo, links)
    ensures links' < links || (links' == links && |todo'| < |todo|)
  {
    dirs', todo', links' := dirs, todo[1..], links;
    if todo[0] == ".." {
      ChainPop(dirs);
      dirs' := dirs[..|dirs| - 1];
    } else if todo[0] != "." {
      dirs', todo', links' := EnterMoves(dirs, todo, links);
    }
  }

  lemma EnterMoves(dirs: seq<Node>, todo: seq<string>, links: nat) returns (dirs': seq<Node>, todo': seq<string>, links': nat)
    requires Chain(dirs) && todo != [] && todo[0] != "." && todo[0] != ".." && Walk(dirs, todo, links).Found?
    ensures Chain(dirs') && dirs'[0] == dirs[0] && Walk(dirs', todo', links') == Walk(dirs, todo, links)
    ensures links' < links || (links' == links && |todo'| < |todo|)
  {
    dirs', todo', links' := WalkByName(dirs, todo, links);
    if dirs' != dirs {
      EnterKeepsChain(dirs, IndexOf(dirs[|dirs| - 1].entries, todo[0]));
    }
  }

  lemma WalkByName(dirs: seq<Node>, todo: seq<string>, links: nat) returns (dirs': seq<Node>, todo': seq<string>, links': nat)
    requires dirs != [] && todo != [] && todo[0] != "." && todo[0] != ".." && Walk(dirs, todo, links).Found?
    ensures var here := dirs[|dirs| - 1];
            && here.Directory? && IndexOf(here.entries, todo[0]) < |here.entries|
            && (dirs' == dirs || dirs' == dirs + [here.entries[IndexOf(here.entries, todo[0])].node])
    ensures Walk(dirs', todo', links') == Walk(dirs, todo, links)
    ensures links' < links || (links' == links && |todo'| < |todo|)
  {
    NameIsThere(dirs, todo, links);
    var here := dirs[|dirs| - 1];
    var node := here.entries[IndexOf(here.entries, todo[0])].node;
    if node.Link? {
      dirs', todo', links' := dirs, TargetElements(node.target) + todo[1..], links - 1;
    } else {
      dirs', todo', links' := dirs + [node], todo[1..], links;
    }
  }

  lemma NameIsThere(dirs: seq<Node>, todo: seq<string>, links: nat)
    requires dirs != [] && todo != [] && todo[0] != "." && todo[0] != ".." && Walk(dirs, todo, links).Found?
    ensures var here := dirs[|dirs| - 1];
            && here.Directory? && IndexOf(here.entries, todo[0]) < |here.entries|
            && var node := here.entries[IndexOf(here.entries, todo[0])].node;
               && (node.Link? ==> links > 0)
               && (node.Link? ==>
                     Walk(dirs, TargetElements(node.target) + todo[1..], links - 1) == Walk(dirs, todo, links))
               && (!node.Link? ==> Walk(dirs + [node], todo[1..], links) == Walk(dirs, todo, links))
  {
  }

  /** Whatever links are followed, the end of a walk lies below the root. */
  lemma {:induction false} WalkStaysBelow(dirs: seq<Node>, todo: seq<string>, links: nat)
    requires Chain(dirs) && Walk(dirs, todo, links).Found?
    ensures Below(dirs[0], Walk(dirs, todo, links).node)
    decreases links, |todo|
  {
    if todo == [] {
      ChainIsBelow(dirs);
    } else {
      var dirs', todo', links' := WalkMoves(dirs, todo, links);
      WalkStaysBelow(dirs', todo', links');
    }
  }

  lemma EnterKeepsChain(dirs: seq<Node>, i: nat)
    requires Chain(dirs) && dirs[|dirs| - 1].Directory? && i < |dirs[|dirs| - 1].entries|
    ensures var more := dirs + [dirs[|dirs| - 1].entries[i].node]; Chain(more) && more[0] == dirs[0]
  {
    assert HasNode(dirs[|dirs| - 1].entries, dirs[|dirs| - 1].entries[i].node);
    ChainPush(dirs, dirs[|dirs| - 1].entries[i].node);
  }

  // ---------------------------------------------------------------- where a path leads

  /** The nodes on a way down through real directories, from `root` to the last. */
  ghost predicate WayDown(dirs: seq<Node>, names: seq<string>) {
    && |dirs| == |names| + 1
    && forall k :: 0 <= k < |names| ==> dirs[k].Directory? && HasEntry(dirs[k].entries, names[k], dirs[k + 1])
  }

  predicate HasEntry(entries: seq<Entry>, name: string, node: Node) {
    exists i :: 0 <= i < |entries| && entries[i].name == name && entries[i].node == node
  }

  predicate HasName(entries: seq<Entry>, name: string) {
    exists i :: 0 <= i < |entries| && entries[i].name == name
  }

  lemma EntryIsAt(entries: seq<Entry>, name: string, node: Node)
    requires WellFormed(Directory(entries)) && HasEntry(entries, name, node)
    ensures IndexOf(entries, name) < |entries| && entries[IndexOf(entries, name)].node == node
    ensures WellFormed(node)
  {
    var i :| 0 <= i < |entries| && entries[i].name == name && entries[i].node == node;
    assert IndexOf(entries, name) == i;
  }

  lemma {:induction false} WayIsWellFormed(dirs: seq<Node>, names: seq<string>, k: nat)
    requires WayDown(dirs, names) && WellFormed(dirs[0]) && k <= |names|
    ensures WellFormed(dirs[k])
  {
    if k > 0 {
      WayIsWellFormed(dirs, names, k - 1);
      assert HasEntry(dirs[k - 1].entries, names[k - 1], dirs[k]);
      EntryIsAt(dirs[k - 1].entries, names[k - 1], dirs[k]);
    }
  }

  lemma OneDown(dirs: seq<Node>, todo: seq<string>, links: nat, node: Node)
    requires dirs != [] && todo != [] && Proper(todo[0]) && dirs[|dirs| - 1].Directory? && !node.Link?
    requires var entries := dirs[|dirs| - 1].entries;
             IndexOf(entries, todo[0]) < |entries| && entries[IndexOf(entries, todo[0])].node == node
    ensures Walk(dirs, todo, links) == Walk(dirs + [node], todo[1..], links)
  {
  }

  /** One name of a way down. */
  lemma StepDown(dirs: seq<Node>, names: seq<string>, rest: seq<string>, links: nat, k: nat)
    requires WayDown(dirs, names) && k < |names| && Proper(names[k]) && WellFormed(dirs[k]) && !dirs[k + 1].Link?
    ensures Walk(dirs[..k + 1], names[k..] + rest, links) == Walk(dirs[..k + 2], names[k + 1..] + rest, links)
  {
    var here, todo := dirs[..k + 1], names[k..] + rest;
    assert dirs[k].Directory? && HasEntry(dirs[k].entries, names[k], dirs[k + 1]);
    EntryIsAt(dirs[k].entries, names[k], dirs[k + 1]);
    assert here[|here| - 1] == dirs[k] && todo[0] == names[k];
    OneDown(here, todo, links, dirs[k + 1]);
    assert todo[1..] == names[k + 1..] + rest && here + [dirs[k + 1]] == dirs[..k + 2];
  }

  /** A walk follows a way down, and goes on from its end. */
  lemma {:induction false} WalkGoesDown(dirs: seq<Node>, names: seq<string>, rest: seq<string>, links: nat, k: nat)
    requires WayDown(dirs, names) && AllProper(names) && WellFormed(dirs[0]) && !dirs[|names|].Link? && k <= |names|
    ensures Walk(dirs[..k + 1], names[k..] + rest, links) == Walk(dirs, rest, links)
    decreases |names| - k
  {
    if k == |names| {
      assert names[k..] + rest == rest && dirs[..k + 1] == dirs;
    } else {
      WayIsWellFormed(dirs, names, k);
      assert k + 1 < |names| ==> dirs[k + 1].Directory?;
      StepDown(dirs, names, rest, links, k);
      WalkGoesDown(dirs, names, rest, links, k + 1);
    }
  }

  /** Where a path leads: to the node at the end of its way down; to nothing, if a directory on the way lacks the next name;
      and nowhere, if the way ends at a file before the path does. A link on the way is an error if it is absolute, or
      no more links may be followed; and else its target's elements take its place. */
  lemma PathsLead(dirs: seq<Node>, names: seq<string>, rest: seq<string>, links: nat)
    requires WayDown(dirs, names) && AllProper(names) && WellFormed(dirs[0]) && !dirs[|names|].Link?
    ensures rest == [] ==> Walk([dirs[0]], names + rest, links) == Found(dirs[|names|])
    ensures rest != [] && !dirs[|names|].Directory? ==> Walk([dirs[0]], names + rest, links) == NotADirectory
    ensures rest != [] && Proper(rest[0]) && dirs[|names|].Directory? && !HasName(dirs[|names|].entries, rest[0]) ==>
              Walk([dirs[0]], names + rest, links) == Missing
    ensures forall target :: rest != [] && Proper(rest[0]) && dirs[|names|].Directory?
                             && HasEntry(dirs[|names|].entries, rest[0], Link(target)) ==>
              Walk([dirs[0]], names + rest, links) ==
                if links == 0 then Loops else if target != "" && target[0] == '/' then Absolute
                else Walk(dirs, TargetElements(target) + rest[1..], links - 1)
  {
    WalkGoesDown(dirs, names, rest, links, 0);
    WayIsWellFormed(dirs, names, |names|);
    assert dirs[..1] == [dirs[0]] && names[0..] == names;
    var here := dirs[|names|];
    if rest != [] && Proper(rest[0]) && here.Directory? {
      if !HasName(here.entries, rest[0]) {
        assert IndexOf(here.entries, rest[0]) == |here.entries|;
      }
      forall target | HasEntry(here.entries, rest[0], Link(target))
        ensures Walk(dirs, rest, links) ==
                  if links == 0 then Loops else if target != "" && target[0] == '/' then Absolute
                  else Walk(dirs, TargetElements(target) + rest[1..], links - 1)
      {
        EntryIsAt(here.entries, rest[0], Link(target));
      }
    }
  }

  // ---------------------------------------------------------------- a wider root

  /** A wider root changes the end of a walk only where the narrower one is climbed out of. */
  lemma {:induction false} WiderRootAgrees(above: seq<Node>, dirs: seq<Node>, todo: seq<string>, links: nat)
    requires dirs != [] && Walk(dirs, todo, links) != Climbs
    ensures Walk(above + dirs, todo, links) == Walk(dirs, todo, links)
    decreases links, |todo|
  {
    var here := dirs[|dirs| - 1];
    assert (above + dirs)[|above + dirs| - 1] == here;
    if todo == [] || !here.Directory? {
    } else if todo[0] == "." {
      WiderRootAgrees(above, dirs, todo[1..], links);
    } else if todo[0] == ".." {
      assert (above + dirs)[..|above + dirs| - 1] == above + dirs[..|dirs| - 1];
      WiderRootAgrees(above, dirs[..|dirs| - 1], todo[1..], links);
    } else if IndexOf(here.entries, todo[0]) < |here.entries| {
      var node := here.entries[IndexOf(here.entries, todo[0])].node;
      if !node.Link? {
        assert above + dirs + [node] == above + (dirs + [node]);
        WiderRootAgrees(above, dirs + [node], todo[1..], links);
      } else if links > 0 && !(node.target != "" && node.target[0] == '/') {
        WiderRootAgrees(above, dirs, TargetElements(node.target) + todo[1..], links - 1);
      }
    }
  }

  // ---------------------------------------------------------------- walks that meet no link

  predicate PlainElements(todo: seq<string>) {
    forall i :: 0 <= i < |todo| ==> todo[i] != ""
  }

  /** A walk with no link to spend loops at the first link; if it meets none, links to spend change nothing. */
  lemma {:induction false} NoLinkMet(dirs: seq<Node>, todo: seq<string>, links: nat)
    requires dirs != [] && Walk(dirs, todo, 0) != Loops
    ensures Walk(dirs, todo, links) == Walk(dirs, todo, 0)
    decreases |todo|
  {
    var here := dirs[|dirs| - 1];
    if todo == [] || !here.Directory? {
    } else if todo[0] == "." {
      NoLinkMet(dirs, todo[1..], links);
    } else if todo[0] == ".." {
      if |dirs| > 1 {
        NoLinkMet(dirs[..|dirs| - 1], todo[1..], links);
      }
    } else if IndexOf(here.entries, todo[0]) < |here.entries| {
      NoLinkMet(dirs + [here.entries[IndexOf(here.entries, todo[0])].node], todo[1..], links);
    }
  }

  /** A walk that meets no link climbs out only if the test on the text says so, and is found only if the test says that
      it stays inside. */
  lemma {:induction false} TextTellsClimbing(dirs: seq<Node>, todo: seq<string>, links: nat)
    requires dirs != [] && PlainElements(todo) && Walk(dirs, todo, 0) != Loops
    ensures Walk(dirs, todo, links).Climbs? ==> !VolumePaths.StaysInside(|dirs| - 1, todo)
    ensures Walk(dirs, todo, links).Found? ==> VolumePaths.StaysInside(|dirs| - 1, todo)
    decreases |todo|
  {
    NoLinkMet(dirs, todo, links);
    if todo == [] {
      assert VolumePaths.Level(|dirs| - 1, todo[..0]) == |dirs| - 1;
    } else {
      VolumePaths.StaysInsideStep(|dirs| - 1, todo);
      var here := dirs[|dirs| - 1];
      if here.Directory? {
        TextTellsNext(dirs, todo);
      }
    }
  }

  lemma {:induction false} TextTellsNext(dirs: seq<Node>, todo: seq<string>)
    requires dirs != [] && todo != [] && PlainElements(todo) && Walk(dirs, todo, 0) != Loops && dirs[|dirs| - 1].Directory?
    ensures var next := VolumePaths.StaysInside(|dirs| - 1 + VolumePaths.Move(todo[0]), todo[1..]);
            && (Walk(dirs, todo, 0).Climbs? ==> !next)
            && (Walk(dirs, todo, 0).Found? ==> next)
    decreases |todo|, 0
  {
    var here := dirs[|dirs| - 1];
    if todo[0] == "." {
      TextTellsClimbing(dirs, todo[1..], 0);
    } else if todo[0] == ".." {
      if |dirs| == 1 {
        assert VolumePaths.Level(-1, todo[1..][..0]) == -1;
      } else {
        TextTellsClimbing(dirs[..|dirs| - 1], todo[1..], 0);
      }
    } else if IndexOf(here.entries, todo[0]) < |here.entries| {
      TextTellsClimbing(dirs + [here.entries[IndexOf(here.entries, todo[0])].node], todo[1..], 0);
    }
  }

  /** A link to itself is never followed to an end. */
  lemma {:induction false} SelfLinkLoops(entries: seq<Entry>, name: string, rest: seq<string>, links: nat)
    requires Proper(name) && IndexOf(entries, name) < |entries| && entries[IndexOf(entries, name)].node == Link(name)
    ensures Walk([Directory(entries)], [name] + rest, links) == Loops
    decreases links
  {
    if links > 0 {
      SplitWhole(name, '/');
      assert VolumePaths.Kept([name]) == [name] + VolumePaths.Kept([]);
      assert TargetElements(name) == [name];
      assert ([name] + rest)[1..] == rest;
      assert name[0] in name;
      SelfLinkLoops(entries, name, rest, links - 1);
    }
  }
}
