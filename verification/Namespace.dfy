/** The layer's name-based refusal of the trash namespace. */
module Namespace {
  import opened Wrappers
  import opened Texts
  import opened Paths

  const TRASH := "trashbin"
  const FILES_TRASH := "files_trashbin"
  const REMOTE := "remote.php"
  const DAV := "dav"
  const DAV_TRASH := REMOTE + "/" + DAV + "/" + TRASH

  predicate Forbidden(norm: string) {
    var lowered := Lower(norm);
    Inside(TRASH, lowered) || Inside(FILES_TRASH, lowered) || Inside(DAV_TRASH, lowered)
  }

  /** _namespace_guard: the canonical path, the root for a bare slash, or a refusal. */
  function Guard(path: string): Option<string> {
    var norm := Normalize(path);
    if norm.None? then if Strip(path) == "" || Strip(path) == "/" then Some("") else None
    else if Forbidden(norm.value) then None
    else norm
  }

  function LowerAll(parts: seq<string>): (r: seq<string>)
    ensures |r| == |parts|
  {
    if parts == [] then [] else [Lower(parts[0])] + LowerAll(parts[1..])
  }

  lemma {:induction false} SplitLower(s: string)
    ensures Split(Lower(s), '/') == LowerAll(Split(s, '/'))
  {
    if s != "" {
      SplitLower(s[1..]);
      assert Lower(s)[1..] == Lower(s[1..]);
      var rest := Split(s[1..], '/');
      if s[0] == '/' {
        assert ([""] + rest)[1..] == rest;
      } else {
        var head := [s[0]] + rest[0];
        assert head[1..] == rest[0];
        assert ([head] + rest[1..])[1..] == rest[1..];
      }
    }
  }

  lemma OnePart(a: string)
    requires a != "" && Lacks(a, '/')
    ensures PathOf(a) == [a]
  {
    SplitOfPart(a, '/');
  }

  lemma ThreeParts(a: string, b: string, c: string)
    requires a != "" && Lacks(a, '/') && Lacks(b, '/') && Lacks(c, '/')
    ensures PathOf(a + "/" + b + "/" + c) == [a, b, c]
  {
    assert a + "/" + b + "/" + c == a + "/" + (b + "/" + c);
    SplitAtSeparator(a, b + "/" + c);
    SplitAtSeparator(b, c);
    SplitOfPart(a, '/');
    SplitOfPart(b, '/');
    SplitOfPart(c, '/');
  }

  lemma ForbiddenNames()
    ensures forall name | name in {TRASH, FILES_TRASH, REMOTE, DAV} :: name != "" && Lacks(name, '/')
  {
  }

  /** The components of the names are given as variables: the names themselves need
      not be taken apart. */
  lemma ForbiddenRoots(trash: string, files: string, remote: string, dav: string)
    requires trash == TRASH && files == FILES_TRASH && remote == REMOTE && dav == DAV
    ensures PathOf(trash) == [trash] && PathOf(files) == [files]
    ensures PathOf(remote + "/" + dav + "/" + trash) == [remote, dav, trash]
  {
    ForbiddenNames();
    assert forall name | name in {trash, files, remote, dav} :: name != "" && Lacks(name, '/');
    OnePart(trash);
    OnePart(files);
    ThreeParts(remote, dav, trash);
  }

  predicate TrashParts(parts: seq<string>) {
    [TRASH] <= parts || [FILES_TRASH] <= parts || [REMOTE, DAV, TRASH] <= parts
  }

  /** The components lead into one of the trash namespaces, in any letter case. */
  predicate InTrash(parts: seq<string>) {
    || (|parts| >= 1 && SameLetters(parts[0], "trashbin"))
    || (|parts| >= 1 && SameLetters(parts[0], "files_trashbin"))
    || (|parts| >= 3 && SameLetters(parts[0], "remote.php") && SameLetters(parts[1], "dav") &&
        SameLetters(parts[2], "trashbin"))
  }

  lemma LowerHead(parts: seq<string>, k: nat)
    requires k < |parts|
    ensures LowerAll(parts)[k] == Lower(parts[k])
  {
    if k > 0 {
      LowerHead(parts[1..], k - 1);
    }
  }

  lemma TrashInAnyCase(parts: seq<string>)
    ensures TrashParts(LowerAll(parts)) <==> InTrash(parts)
  {
    var low := LowerAll(parts);
    forall k | 0 <= k < |parts|
      ensures low[k] == Lower(parts[k])
      ensures low[k] == TRASH <==> SameLetters(parts[k], "trashbin")
      ensures low[k] == FILES_TRASH <==> SameLetters(parts[k], "files_trashbin")
      ensures low[k] == REMOTE <==> SameLetters(parts[k], "remote.php")
      ensures low[k] == DAV <==> SameLetters(parts[k], "dav")
    {
      LowerHead(parts, k);
      LowerIs(parts[k], "trashbin");
      LowerIs(parts[k], "files_trashbin");
      LowerIs(parts[k], "remote.php");
      LowerIs(parts[k], "dav");
    }
    hide LowerAll, SameLetters;
    assert [TRASH] <= low <==> |low| >= 1 && low[0] == TRASH;
    assert [FILES_TRASH] <= low <==> |low| >= 1 && low[0] == FILES_TRASH;
    assert [REMOTE, DAV, TRASH] <= low <==> |low| >= 3 && low[0] == REMOTE && low[1] == DAV && low[2] == TRASH;
  }

  lemma ForbiddenByParts(norm: string)
    ensures Forbidden(norm) <==> TrashParts(LowerAll(PathOf(norm)))
  {
    SplitLower(norm);
    InsideIsPrefix(TRASH, Lower(norm));
    InsideIsPrefix(FILES_TRASH, Lower(norm));
    InsideIsPrefix(DAV_TRASH, Lower(norm));
    ForbiddenRoots(TRASH, FILES_TRASH, REMOTE, DAV);
  }

  /** The refusal is about whole leading components, in any letter case. */
  lemma ForbiddenIsComponentwise(norm: string)
    ensures Forbidden(norm) <==> InTrash(PathOf(norm))
  {
    ForbiddenByParts(norm);
    TrashInAnyCase(PathOf(norm));
  }

  /** A path that passes is canonical and outside the namespace. */
  lemma GuardedShape(path: string)
    requires Guard(path).Some?
    ensures Canonical(Guard(path).value) && !Forbidden(Guard(path).value) && !InTrash(PathOf(Guard(path).value))
    ensures Guard(path).value != "" ==> Normalize(path) == Guard(path)
  {
    ForbiddenIsComponentwise(Guard(path).value);
    if Normalize(path).Some? {
      NormalizedShape(path);
    }
  }
}
