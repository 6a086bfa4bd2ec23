/** Go's path package, which cleans slash-separated paths without looking at a file system. */
module Paths {
  import opened Strings

  /** Whether a path element is neither empty, "." nor "..", and holds no slash. */
  predicate Proper(part: string) {
    part != "" && part != "." && part != ".." && '/' !in part
  }

  /** The elements left when "." and empty elements are dropped and each ".." takes back the element before it. Above the
      root a rooted path stays where it is and any other keeps the "..". */
  function Resolve(parts: seq<string>, base: seq<string>, rooted: bool): seq<string>
    decreases |parts|
  {
    if parts == [] then base
    else Resolve(parts[1..], Follow(base, parts[0], rooted), rooted)
  }

  function Follow(base: seq<string>, part: string, rooted: bool): seq<string> {
    if part == "" || part == "." then base
    else if part != ".." then base + [part]
    else if base != [] && base[|base| - 1] != ".." then base[..|base| - 1]
    else if rooted then base
    else base + [".."]
  }

  /** path.Clean */
  function Clean(p: string): string {
    if p == "" then "."
    else if p[0] == '/' then "/" + Join(Resolve(Split(p, '/'), [], true), '/')
    else Shown(Resolve(Split(p, '/'), [], false))
  }

  function Shown(parts: seq<string>): string {
    if parts == [] then "." else Join(parts, '/')
  }

  /** path.Join on two elements: empty ones are ignored. */
  function Join2(a: string, b: string): string {
    if a == "" && b == "" then ""
    else if a == "" then Clean(b)
    else if b == "" then Clean(a)
    else Clean(a + "/" + b)
  }

  /** path.Join on non-empty elements. */
  function JoinAll(parts: seq<string>): string {
    if parts == [] then "" else Clean(Join(parts, '/'))
  }

  function UpToLastSlash(p: string): string {
    if p == "" || p[|p| - 1] == '/' then p else UpToLastSlash(p[..|p| - 1])
  }

  /** path.Dir */
  function Dir(p: string): string {
    Clean(UpToLastSlash(p))
  }

  // ---------------------------------------------------------------- elements

  predicate AllProper(parts: seq<string>) {
    forall i :: 0 <= i < |parts| ==> Proper(parts[i])
  }

  /** What an unrooted path resolves to: some "..", then proper elements. */
  predicate Resolved(parts: seq<string>) {
    && (forall i :: 0 <= i < |parts| ==> parts[i] == ".." || Proper(parts[i]))
    && (forall i :: 0 < i < |parts| && parts[i] == ".." ==> parts[i - 1] == "..")
  }

  lemma {:induction false} ResolveProper(parts: seq<string>, base: seq<string>, rooted: bool)
    requires AllProper(parts)
    ensures Resolve(parts, base, rooted) == base + parts
    decreases |parts|
  {
    if parts != [] {
      ResolveProper(parts[1..], base + [parts[0]], rooted);
      assert base + parts == base + [parts[0]] + parts[1..];
    }
  }

  lemma {:induction false} ResolveConcat(front: seq<string>, back: seq<string>, base: seq<string>, rooted: bool)
    ensures Resolve(front + back, base, rooted) == Resolve(back, Resolve(front, base, rooted), rooted)
    decreases |front|
  {
    if front == [] {
      assert front + back == back;
    } else {
      assert (front + back)[1..] == front[1..] + back;
      ResolveConcat(front[1..], back, Follow(base, front[0], rooted), rooted);
    }
  }

  lemma {:induction false} ResolveResolves(parts: seq<string>, base: seq<string>)
    requires Resolved(base) && forall i :: 0 <= i < |parts| ==> '/' !in parts[i]
    ensures Resolved(Resolve(parts, base, false))
    decreases |parts|
  {
    if parts != [] {
      ResolveResolves(parts[1..], Follow(base, parts[0], false));
    }
  }

  /** A resolved path resolves to itself. */
  lemma {:induction false} ResolveAgain(parts: seq<string>, done: nat)
    requires Resolved(parts) && done <= |parts|
    ensures Resolve(parts[done..], parts[..done], false) == parts
    decreases |parts| - done
  {
    if done < |parts| {
      var rest := parts[done..];
      assert rest[1..] == parts[done + 1..];
      assert parts[..done] + [parts[done]] == parts[..done + 1];
      assert parts[done] == ".." && done > 0 ==> parts[..done][done - 1] == "..";
      ResolveAgain(parts, done + 1);
    }
  }

  lemma JoinStarts(parts: seq<string>)
    requires parts != []
    ensures parts[0] <= Join(parts, '/')
    ensures parts[0] != "" ==> Join(parts, '/') != "" && Join(parts, '/')[0] == parts[0][0]
  {
  }

  /** Cleaning a shown path of resolved elements changes nothing. */
  lemma CleanShown(parts: seq<string>)
    requires Resolved(parts)
    ensures Clean(Shown(parts)) == Shown(parts)
    ensures Resolve(Split(Shown(parts), '/'), [], false) == parts
  {
    if parts == [] {
      SplitWhole(".", '/');
      assert Resolve(["."], [], false) == Resolve([], [], false);
    } else {
      SplitJoin(parts, '/');
      JoinStarts(parts);
      ResolveAgain(parts, 0);
      assert parts[0..] == parts && parts[..0] == [];
    }
  }

  /** An unrooted path shows its resolved elements, and cleaning it again changes nothing. */
  lemma CleanIsIdempotent(p: string)
    requires p == "" || p[0] != '/'
    ensures Resolved(Resolve(Split(p, '/'), [], false))
    ensures Clean(p) == Shown(Resolve(Split(p, '/'), [], false))
    ensures Clean(Clean(p)) == Clean(p)
  {
    ResolveResolves(Split(p, '/'), []);
    CleanShown(Resolve(Split(p, '/'), [], false));
  }

  lemma {:induction false} UpToLastSlashOf(dir: string, name: string)
    requires '/' !in name
    ensures UpToLastSlash(name) == ""
    ensures UpToLastSlash(dir + "/" + name) == dir + "/"
    decreases |name|
  {
    if name == "" {
      assert dir + "/" + name == dir + "/";
    } else {
      var shorter := name[..|name| - 1];
      assert name[|name| - 1] in name;
      assert (dir + "/" + name)[..|dir + "/" + name| - 1] == dir + "/" + shorter;
      UpToLastSlashOf(dir, shorter);
    }
  }

  lemma CleanWithSlash(parts: seq<string>)
    requires parts != [] && AllProper(parts)
    ensures Clean(Join(parts, '/') + "/") == Join(parts, '/')
  {
    var dir := Join(parts, '/');
    assert dir + ['/'] + "" == dir + "/";
    SplitConcat(dir, "", '/');
    SplitJoin(parts, '/');
    JoinStarts(parts);
    assert parts[0][0] in parts[0];
    ResolveConcat(parts, [""], [], false);
    ResolveProper(parts, [], false);
    assert [] + parts == parts;
    assert Resolve([""], parts, false) == Resolve([], parts, false);
  }

  /** The directory of a path of proper elements is that of all of them but the last. */
  lemma DirOfProper(parts: seq<string>)
    requires parts != [] && AllProper(parts)
    ensures Dir(Join(parts, '/')) == Shown(parts[..|parts| - 1])
  {
    var front, last := parts[..|parts| - 1], parts[|parts| - 1];
    assert parts == front + [last];
    UpToLastSlashOf(Join(front, '/'), last);
    if front != [] {
      JoinConcat(front, [last], '/');
      assert Join(parts, '/') == Join(front, '/') + "/" + last;
      CleanWithSlash(front);
    }
  }

  // ---------------------------------------------------------------- rooted paths

  lemma {:induction false} ResolveRootedIsProper(parts: seq<string>, base: seq<string>)
    requires AllProper(base) && forall i :: 0 <= i < |parts| ==> '/' !in parts[i]
    ensures AllProper(Resolve(parts, base, true))
    decreases |parts|
  {
    if parts != [] {
      ResolveRootedIsProper(parts[1..], Follow(base, parts[0], true));
    }
  }

  /** The elements of a resolved path are the path's own, or "..". */
  lemma {:induction false} ResolveAddsNothing(parts: seq<string>, base: seq<string>, rooted: bool)
    ensures forall i :: 0 <= i < |Resolve(parts, base, rooted)| ==>
              var part := Resolve(parts, base, rooted)[i]; part in base || part in parts || part == ".."
    decreases |parts|
  {
    if parts != [] {
      ResolveAddsNothing(parts[1..], Follow(base, parts[0], rooted), rooted);
    }
  }

  /** Cleaning brings in no character but the dot and the slash. */
  lemma CleanAddsNothing(p: string, c: char)
    requires c !in p && c != '.' && c != '/'
    ensures c !in Clean(p)
  {
    var parts := Split(p, '/');
    JoinSplit(p, '/');
    JoinHas(parts, '/', c);
    forall rooted: bool ensures c !in Join(Resolve(parts, [], rooted), '/') {
      ResolveAddsNothing(parts, [], rooted);
      JoinHas(Resolve(parts, [], rooted), '/', c);
    }
  }

  lemma {:induction false} UpToLastSlashIsPrefix(p: string)
    ensures UpToLastSlash(p) <= p
  {
    if p != "" && p[|p| - 1] != '/' {
      UpToLastSlashIsPrefix(p[..|p| - 1]);
    }
  }

  lemma DirAddsNothing(p: string, c: char)
    requires c !in p && c != '.' && c != '/'
    ensures c !in Dir(p)
  {
    UpToLastSlashIsPrefix(p);
    CleanAddsNothing(UpToLastSlash(p), c);
  }

  // ---------------------------------------------------------------- walks

  /** One element of a walk down from the root: "" and "." stay, ".." goes up unless already at the root. */
  predicate Goes(here: seq<string>, part: string, there: seq<string>) {
    if part == "" || part == "." then there == here
    else if part == ".." then there == if here == [] then [] else here[..|here| - 1]
    else there == here + [part]
  }

  predicate IsTrail(trail: seq<seq<string>>, parts: seq<string>) {
    |trail| == |parts| + 1 && forall i :: 0 <= i < |parts| ==> Goes(trail[i], parts[i], trail[i + 1])
  }

  /** Walking these elements from the root leads there. */
  ghost predicate IsWalk(parts: seq<string>, there: seq<string>) {
    exists trail :: IsTrail(trail, parts) && trail[0] == [] && trail[|parts|] == there
  }

  /** A walk leads to one place. */
  lemma WalkIsOne(parts: seq<string>, a: seq<string>, b: seq<string>)
    requires IsWalk(parts, a) && IsWalk(parts, b)
    ensures a == b
  {
    var s :| IsTrail(s, parts) && s[0] == [] && s[|parts|] == a;
    var t :| IsTrail(t, parts) && t[0] == [] && t[|parts|] == b;
    TrailsMeet(parts, s, t, |parts|);
  }

  lemma {:induction false} TrailsMeet(parts: seq<string>, s: seq<seq<string>>, t: seq<seq<string>>, n: nat)
    requires IsTrail(s, parts) && IsTrail(t, parts) && s[0] == t[0] && n <= |parts|
    ensures s[n] == t[n]
  {
    if n > 0 {
      TrailsMeet(parts, s, t, n - 1);
      assert Goes(s[n - 1], parts[n - 1], s[n]) && Goes(t[n - 1], parts[n - 1], t[n]);
    }
  }

  lemma {:induction false} ResolveTrail(parts: seq<string>, base: seq<string>) returns (trail: seq<seq<string>>)
    requires AllProper(base) && forall i :: 0 <= i < |parts| ==> '/' !in parts[i]
    ensures IsTrail(trail, parts) && trail[0] == base && trail[|parts|] == Resolve(parts, base, true)
    decreases |parts|
  {
    if parts == [] {
      trail := [base];
    } else {
      var next := Follow(base, parts[0], true);
      var rest := ResolveTrail(parts[1..], next);
      trail := [base] + rest;
      assert Goes(base, parts[0], next);
      forall i | 0 <= i < |parts| ensures Goes(trail[i], parts[i], trail[i + 1]) {
        if i > 0 {
          assert Goes(rest[i - 1], parts[1..][i - 1], rest[i]);
        }
      }
    }
  }

  /** Cleaning a rooted path resolves it to where its walk leads. */
  lemma ResolveWalks(parts: seq<string>)
    requires forall i :: 0 <= i < |parts| ==> '/' !in parts[i]
    ensures IsWalk(parts, Resolve(parts, [], true)) && AllProper(Resolve(parts, [], true))
  {
    var trail := ResolveTrail(parts, []);
    ResolveRootedIsProper(parts, []);
  }

  lemma CleanOfProper(parts: seq<string>)
    requires AllProper(parts)
    ensures Clean("/" + Join(parts, '/')) == "/" + Join(parts, '/')
    ensures Clean("/" + Join(parts, '/') + "/") == "/" + Join(parts, '/')
  {
    var path := Join(parts, '/');
    assert [] + ['/'] + path == "/" + path && path + ['/'] + "" == path + "/";
    assert "/" + path + "/" == [] + ['/'] + (path + "/");
    SplitConcat([], path, '/');
    SplitConcat([], path + "/", '/');
    SplitConcat(path, "", '/');
    assert Split([], '/') == [""];
    SplitOfProper(parts);
    ResolveAround(Split(path, '/'));
  }

  lemma SplitOfProper(parts: seq<string>)
    requires AllProper(parts)
    ensures Resolve(Split(Join(parts, '/'), '/'), [], true) == parts
  {
    if parts == [] {
      assert Split([], '/') == [""];
      assert Resolve([""], [], true) == Resolve([], [], true);
    } else {
      SplitJoin(parts, '/');
      ResolveProper(parts, [], true);
      assert [] + parts == parts;
    }
  }

  /** Empty elements before and after change nothing. */
  lemma ResolveAround(parts: seq<string>)
    ensures Resolve([""] + parts, [], true) == Resolve(parts, [], true)
    ensures Resolve([""] + (parts + [""]), [], true) == Resolve(parts, [], true)
  {
    assert ([""] + parts)[1..] == parts && ([""] + (parts + [""]))[1..] == parts + [""];
    ResolveConcat(parts, [""], [], true);
    assert Resolve([""], Resolve(parts, [], true), true) == Resolve([], Resolve(parts, [], true), true);
  }

  /** The directory of an absolute path of proper elements is that of all of them but the last; the root is its own. */
  lemma DirOfRooted(parts: seq<string>)
    requires AllProper(parts)
    ensures Dir("/" + Join(parts, '/')) == "/" + Join(if parts == [] then [] else parts[..|parts| - 1], '/')
  {
    if parts == [] {
      assert "/" + "" == "/";
      CleanOfProper([]);
      assert "/" + Join([], '/') == "/";
    } else {
      var front, last := parts[..|parts| - 1], parts[|parts| - 1];
      assert parts == front + [last];
      CleanOfProper(front);
      if front == [] {
        UpToLastSlashOf("", last);
        assert "" + "/" + last == "/" + Join(parts, '/') && "" + "/" == "/" + Join(front, '/');
      } else {
        JoinConcat(front, [last], '/');
        UpToLastSlashOf("/" + Join(front, '/'), last);
        assert "/" + Join(parts, '/') == "/" + Join(front, '/') + "/" + last;
      }
    }
  }
}
