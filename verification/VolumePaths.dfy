/** Paths inside a Docker volume: what a client's path is cleaned to, which are reserved, and which targets of symbolic
    links stay inside the volume (internal/backends/docker/volumes.go, on a Unix file system). */
module VolumePaths {
  import opened Strings
  import opened Paths

  datatype PathError = PathRequired | ContainsNul | ContainsDotDot | Reserved

  datatype Cleaned = Rel(path: string) | Refused(error: PathError)

  const METADATA_FILE := ".e2b-local-volume.json"

  /** The elements of a raw path; a backslash separates them as a slash does. */
  function RawParts(raw: string): seq<string> {
    Split(Replace(raw, '\\', '/'), '/')
  }

  function Kept(parts: seq<string>): (kept: seq<string>)
    decreases |parts|
  {
    if parts == [] then []
    else (if parts[0] == "" || parts[0] == "." then [] else [parts[0]]) + Kept(parts[1..])
  }

  function CleanPath(raw: string, allowRoot: bool): Cleaned {
    if raw == "" then (if allowRoot then Rel("") else Refused(PathRequired))
    else if '\0' in raw then Refused(ContainsNul)
    else if ".." in RawParts(raw) then Refused(ContainsDotDot)
    else if Kept(RawParts(raw)) == [] && !allowRoot then Refused(PathRequired)
    else Rel(Join(Kept(RawParts(raw)), '/'))
  }

  lemma {:induction false} KeptSnoc(parts: seq<string>, part: string)
    ensures Kept(parts + [part]) == Kept(parts) + if part == "" || part == "." then [] else [part]
    decreases |parts|
  {
    if parts != [] {
      assert (parts + [part])[1..] == parts[1..] + [part];
      KeptSnoc(parts[1..], part);
    } else {
      assert Kept([part]) == (if part == "" || part == "." then [] else [part]) + Kept([]);
    }
  }

  lemma {:induction false} KeptIsProper(parts: seq<string>)
    requires ".." !in parts && forall i :: 0 <= i < |parts| ==> '/' !in parts[i]
    ensures AllProper(Kept(parts))
    decreases |parts|
  {
    if parts != [] {
      KeptIsProper(parts[1..]);
    }
  }

  lemma {:induction false} KeptKeeps(parts: seq<string>)
    requires AllProper(parts)
    ensures Kept(parts) == parts
    decreases |parts|
  {
    if parts != [] {
      KeptKeeps(parts[1..]);
      assert parts == [parts[0]] + parts[1..];
    }
  }

  /** pathpkg.Join adds nothing to elements that are proper. */
  lemma JoinAllOfProper(parts: seq<string>)
    requires AllProper(parts)
    ensures JoinAll(parts) == Join(parts, '/')
    ensures JoinAll(parts) == "" <==> parts == []
    ensures JoinAll(parts) != "."
  {
    if parts != [] {
      CleanShown(parts);
      JoinStarts(parts);
      SplitJoin(parts, '/');
      SplitWhole(".", '/');
    }
  }

  method CleanVolumeContentPath(raw: string, allowRoot: bool) returns (r: Cleaned)
    ensures r == CleanPath(raw, allowRoot)
  {
    if raw == "" {
      if allowRoot {
        return Rel("");
      }
      return Refused(PathRequired);
    }
    if '\0' in raw {
      return Refused(ContainsNul);
    }
    var parts := Split(Replace(raw, '\\', '/'), '/');
    var cleaned: seq<string> := [];
    var i := 0;
    while i < |parts|
      invariant 0 <= i <= |parts|
      invariant cleaned == Kept(parts[..i])
      invariant ".." !in parts[..i]
    {
      var part := parts[i];
      assert parts[..i + 1] == parts[..i] + [part];
      KeptSnoc(parts[..i], part);
      if part == ".." {
        return Refused(ContainsDotDot);
      }
      if part != "" && part != "." {
        cleaned := cleaned + [part];
      }
      i := i + 1;
    }
    assert parts[..i] == parts;
    KeptIsProper(parts);
    JoinAllOfProper(cleaned);
    var rel := JoinAll(cleaned);
    if rel == "." {
      rel := "";
    }
    if rel == "" && !allowRoot {
      return Refused(PathRequired);
    }
    return Rel(rel);
  }

  /** The elements of a cleaned path. */
  function Elements(rel: string): seq<string> {
    if rel == "" then [] else Split(rel, '/')
  }

  /** A path that is accepted is the walk the client wrote, without its empty and "." elements; nothing in it goes up,
      or is empty, or holds a NUL or a separator. */
  lemma CleanedPathIsTheWalk(raw: string, allowRoot: bool)
    requires CleanPath(raw, allowRoot).Rel?
    ensures var rel := CleanPath(raw, allowRoot).path;
            && Elements(rel) == Kept(RawParts(raw))
            && AllProper(Elements(rel))
            && '\0' !in rel && '\\' !in rel
            && rel == Join(Elements(rel), '/')
            && (rel == "" ==> allowRoot)
            && IsWalk(RawParts(raw), Elements(rel))
  {
    var parts := RawParts(raw);
    var kept := Kept(parts);
    if raw == "" {
      assert Kept([""]) == Kept([]);
    }
    KeptIsProper(parts);
    JoinAllOfProper(kept);
    if kept != [] {
      SplitJoin(kept, '/');
    }
    KeptWithout(parts, raw);
    JoinHas(kept, '/', '\0');
    JoinHas(kept, '/', '\\');
    KeptResolves(parts, []);
    ResolveWalks(parts);
  }

  lemma {:induction false} KeptFrom(parts: seq<string>, i: nat)
    requires i < |Kept(parts)|
    ensures Kept(parts)[i] in parts
    decreases |parts|
  {
    var first := if parts[0] == "" || parts[0] == "." then 0 else 1;
    if i >= first {
      KeptFrom(parts[1..], i - first);
    }
  }

  lemma KeptWithout(parts: seq<string>, raw: string)
    requires parts == RawParts(raw) && '\0' !in raw
    ensures forall i :: 0 <= i < |Kept(parts)| ==> '\0' !in Kept(parts)[i] && '\\' !in Kept(parts)[i]
  {
    var slashed := Replace(raw, '\\', '/');
    JoinSplit(slashed, '/');
    JoinHas(parts, '/', '\0');
    JoinHas(parts, '/', '\\');
    forall i | 0 <= i < |Kept(parts)| ensures '\0' !in Kept(parts)[i] && '\\' !in Kept(parts)[i] {
      KeptFrom(parts, i);
    }
  }

  lemma {:induction false} KeptResolves(parts: seq<string>, base: seq<string>)
    requires ".." !in parts
    ensures Resolve(parts, base, true) == base + Kept(parts)
    decreases |parts|
  {
    if parts != [] {
      KeptResolves(parts[1..], Follow(base, parts[0], true));
    }
  }

  /** Cleaning a cleaned path gives it back. */
  lemma CleaningIsIdempotent(raw: string, allowRoot: bool)
    requires CleanPath(raw, allowRoot).Rel?
    ensures CleanPath(CleanPath(raw, allowRoot).path, allowRoot) == CleanPath(raw, allowRoot)
  {
    var rel := CleanPath(raw, allowRoot).path;
    CleanedPathIsTheWalk(raw, allowRoot);
    if rel != "" {
      assert Replace(rel, '\\', '/') == rel;
      KeptKeeps(Elements(rel));
    }
  }

  /** Exactly which paths are refused, and why. */
  lemma RefusalsAre(raw: string, allowRoot: bool)
    ensures CleanPath(raw, allowRoot) == Refused(ContainsNul) <==> '\0' in raw
    ensures CleanPath(raw, allowRoot) == Refused(ContainsDotDot) <==> '\0' !in raw && ".." in RawParts(raw)
    ensures CleanPath(raw, allowRoot) == Refused(PathRequired) <==>
              '\0' !in raw && IsWalk(RawParts(raw), []) && ".." !in RawParts(raw) && !allowRoot
  {
    if raw == "" {
      assert RawParts(raw) == [""];
    }
    if ".." !in RawParts(raw) {
      KeptResolves(RawParts(raw), []);
      ResolveWalks(RawParts(raw));
      if IsWalk(RawParts(raw), []) {
        WalkIsOne(RawParts(raw), [], Kept(RawParts(raw)));
      }
    }
  }

  // ---------------------------------------------------------------- the reserved name

  /** strings.EqualFold against an ASCII name: besides the ASCII letters' case, the long s and the Kelvin sign fold. */
  function FoldChar(c: char): char {
    if c == '\U{017F}' then 's' else if c == '\U{212A}' then 'k' else LowerChar(c)
  }

  function Fold(s: string): (r: string)
    ensures |r| == |s|
  {
    seq(|s|, i requires 0 <= i < |s| => FoldChar(s[i]))
  }

  /** What the listing leaves out, at every level. */
  predicate HiddenName(name: string) {
    Fold(name) == METADATA_FILE
  }

  function CheckAllowed(rel: string): Cleaned {
    if rel != "" && (ToLower(rel) == METADATA_FILE || METADATA_FILE + "/" <= ToLower(rel)) then Refused(Reserved)
    else Rel(rel)
  }

  lemma {:induction false} LowerSplit(s: string)
    ensures |Split(ToLower(s), '/')| == |Split(s, '/')|
    ensures forall i :: 0 <= i < |Split(s, '/')| ==> Split(ToLower(s), '/')[i] == ToLower(Split(s, '/')[i])
  {
    if s != "" {
      LowerSplit(s[1..]);
      assert ToLower(s)[1..] == ToLower(s[1..]);
      LowerSplitStep(s, Split(s[1..], '/'), Split(ToLower(s[1..]), '/'));
    }
  }

  lemma LowerSplitStep(s: string, rest: seq<string>, lowered: seq<string>)
    requires s != "" && rest == Split(s[1..], '/') && |lowered| == |rest|
    requires forall i :: 0 <= i < |rest| ==> lowered[i] == ToLower(rest[i])
    requires ToLower(s)[1..] == ToLower(s[1..]) && lowered == Split(ToLower(s)[1..], '/')
    ensures |Split(ToLower(s), '/')| == |Split(s, '/')|
    ensures forall i :: 0 <= i < |Split(s, '/')| ==> Split(ToLower(s), '/')[i] == ToLower(Split(s, '/')[i])
  {
    assert ToLower(s)[0] == LowerChar(s[0]);
    if s[0] == '/' {
      assert Split(ToLower(s), '/') == [[]] + lowered && Split(s, '/') == [[]] + rest;
    } else {
      assert Split(ToLower(s), '/') == [[LowerChar(s[0])] + lowered[0]] + lowered[1..];
      assert Split(s, '/') == [[s[0]] + rest[0]] + rest[1..];
      assert ToLower([s[0]] + rest[0]) == [LowerChar(s[0])] + lowered[0];
    }
  }

  lemma FirstElement(s: string, name: string)
    requires '/' !in name
    ensures s == name || name + "/" <= s <==> Split(s, '/')[0] == name
  {
    if s == name {
      SplitWhole(s, '/');
    } else if name + "/" <= s {
      assert s == name + ['/'] + s[|name| + 1..];
      SplitAtFirst(name, s[|name| + 1..], '/');
    } else if Split(s, '/')[0] == name {
      JoinSplit(s, '/');
    }
  }

  /** A path is reserved exactly when its first element is the metadata file's name up to ASCII case. */
  lemma ReservedIsFirstElement(rel: string)
    requires rel != ""
    ensures CheckAllowed(rel) == Refused(Reserved) <==> ToLower(Elements(rel)[0]) == METADATA_FILE
  {
    FirstElement(ToLower(rel), METADATA_FILE);
    LowerSplit(rel);
  }

  /** The check on paths and the listing's filter agree on a name unless the name holds a long s, which the listing takes
      for an "s" and the check does not. */
  lemma HiddenButNotReserved(name: string)
    requires Proper(name) && HiddenName(name)
    ensures CheckAllowed(name) == Rel(name) <==> '\U{017F}' in name
  {
    SplitWhole(name, '/');
    ReservedIsFirstElement(name);
    assert forall i :: 0 <= i < |name| ==> Fold(name)[i] == METADATA_FILE[i];
    if '\U{017F}' in name {
      var i :| 0 <= i < |name| && name[i] == '\U{017F}';
      assert ToLower(name)[i] == '\U{017F}';
      assert METADATA_FILE[i] == 's';
    } else {
      NoKelvin(name);
      assert ToLower(name) == Fold(name);
    }
  }

  lemma NoKelvin(name: string)
    requires HiddenName(name)
    ensures '\U{212A}' !in name
  {
    forall i | 0 <= i < |name| ensures name[i] != '\U{212A}' {
      assert Fold(name)[i] == METADATA_FILE[i];
    }
  }

  lemma ReservedIsHidden(name: string)
    requires Proper(name) && CheckAllowed(name) == Refused(Reserved)
    ensures HiddenName(name)
  {
    SplitWhole(name, '/');
    ReservedIsFirstElement(name);
    forall i | 0 <= i < |name| ensures Fold(name)[i] == METADATA_FILE[i] {
      assert ToLower(name)[i] == METADATA_FILE[i];
    }
  }

  // ---------------------------------------------------------------- targets of symbolic links

  function TargetWithinRoot(rel: string, target: string): bool {
    if target != "" && target[0] == '/' then false
    else
      var normalized := Replace(target, '\\', '/');
      if normalized != "" && normalized[0] == '/' then false
      else
        var resolved := Clean(Join2(Dir(rel), normalized));
        resolved != ".." && !("../" <= resolved)
  }

  function Move(part: string): int {
    if part == "" || part == "." then 0 else if part == ".." then -1 else 1
  }

  /** How many levels below the root a walk from level `start` ends. */
  function Level(start: int, parts: seq<string>): int
    decreases |parts|
  {
    if parts == [] then start else Level(start + Move(parts[0]), parts[1..])
  }

  /** No prefix of the walk goes above the root. */
  ghost predicate StaysInside(start: int, parts: seq<string>) {
    forall i :: 0 <= i <= |parts| ==> Level(start, parts[..i]) >= 0
  }

  lemma StaysInsideStep(start: int, parts: seq<string>)
    requires parts != []
    ensures StaysInside(start, parts) <==> start >= 0 && StaysInside(start + Move(parts[0]), parts[1..])
  {
    forall i | 0 < i <= |parts| ensures Level(start, parts[..i]) == Level(start + Move(parts[0]), parts[1..][..i - 1]) {
      assert parts[..i][1..] == parts[1..][..i - 1];
    }
    if start >= 0 && StaysInside(start + Move(parts[0]), parts[1..]) {
      forall i | 0 <= i <= |parts| ensures Level(start, parts[..i]) >= 0 {
        assert i > 0 ==> Level(start + Move(parts[0]), parts[1..][..i - 1]) >= 0;
      }
    }
    if StaysInside(start, parts) {
      assert Level(start, parts[..0]) >= 0;
      forall i | 0 <= i <= |parts[1..]| ensures Level(start + Move(parts[0]), parts[1..][..i]) >= 0 {
        assert Level(start, parts[..i + 1]) >= 0;
      }
    }
  }

  predicate GoesUp(parts: seq<string>) {
    parts != [] && parts[0] == ".."
  }

  lemma {:induction false} OnceUpAlwaysUp(parts: seq<string>, base: seq<string>)
    requires Resolved(base) && GoesUp(base) && forall i :: 0 <= i < |parts| ==> '/' !in parts[i]
    ensures GoesUp(Resolve(parts, base, false))
    decreases |parts|
  {
    if parts != [] {
      OnceUpAlwaysUp(parts[1..], Follow(base, parts[0], false));
    }
  }

  lemma {:induction false} ResolveGoesUp(parts: seq<string>, base: seq<string>)
    requires AllProper(base) && forall i :: 0 <= i < |parts| ==> '/' !in parts[i]
    ensures GoesUp(Resolve(parts, base, false)) <==> !StaysInside(|base|, parts)
    decreases |parts|
  {
    if parts == [] {
      assert Level(|base|, parts[..0]) >= 0;
    } else {
      StaysInsideStep(|base|, parts);
      var next := Follow(base, parts[0], false);
      if GoesUp(next) {
        OnceUpAlwaysUp(parts[1..], next);
        assert Level(-1, parts[1..][..0]) == -1;
      } else {
        ResolveGoesUp(parts[1..], next);
      }
    }
  }

  /** What the test looks at is the walk from the link's directory. */
  lemma TargetResolves(parts: seq<string>, normalized: string)
    requires parts != [] && AllProper(parts) && (normalized != "" ==> normalized[0] != '/')
    ensures var front := parts[..|parts| - 1];
            Clean(Join2(Dir(Join(parts, '/')), normalized)) == Shown(Resolve(Split(normalized, '/'), front, false))
    ensures Resolved(Resolve(Split(normalized, '/'), parts[..|parts| - 1], false))
  {
    var front := parts[..|parts| - 1];
    DirOfProper(parts);
    CleanShown(front);
    ResolveResolves(Split(normalized, '/'), front);
    var dir := Shown(front);
    ShownIsRelative(front);
    if normalized == "" {
      assert Resolve([""], front, false) == Resolve([], front, false);
    } else {
      var joined := dir + "/" + normalized;
      SplitConcat(dir, normalized, '/');
      ResolveConcat(Split(dir, '/'), Split(normalized, '/'), [], false);
      assert Clean(joined) == Shown(Resolve(Split(normalized, '/'), front, false));
      CleanIsIdempotent(joined);
    }
  }

  lemma ShownIsRelative(parts: seq<string>)
    requires Resolved(parts)
    ensures Shown(parts) != "" && Shown(parts)[0] != '/'
    ensures Shown(parts) == ".." || "../" <= Shown(parts) <==> GoesUp(parts)
  {
    if parts != [] {
      JoinStarts(parts);
      assert parts[0] == ".." || parts[0][0] in parts[0];
      FirstElement(Shown(parts), "..");
      SplitJoin(parts, '/');
    }
  }

  lemma ResolvedTargetEscapes(parts: seq<string>, normalized: string)
    requires parts != [] && AllProper(parts) && (normalized != "" ==> normalized[0] != '/')
    ensures var resolved := Clean(Join2(Dir(Join(parts, '/')), normalized));
            resolved == ".." || "../" <= resolved <==> !StaysInside(|parts| - 1, Split(normalized, '/'))
  {
    var front := parts[..|parts| - 1];
    TargetResolves(parts, normalized);
    ShownIsRelative(Resolve(Split(normalized, '/'), front, false));
    ResolveGoesUp(Split(normalized, '/'), front);
  }

  /** A target is shown exactly when it is relative and no prefix of its walk from the link's directory leaves the volume. */
  lemma ContainmentIsExact(parts: seq<string>, target: string)
    requires parts != [] && AllProper(parts)
    ensures TargetWithinRoot(Join(parts, '/'), target) <==>
              && (target != "" ==> target[0] != '/' && target[0] != '\\')
              && StaysInside(|parts| - 1, Split(Replace(target, '\\', '/'), '/'))
  {
    var normalized := Replace(target, '\\', '/');
    if normalized == "" || normalized[0] != '/' {
      ResolvedTargetEscapes(parts, normalized);
    }
  }
}
