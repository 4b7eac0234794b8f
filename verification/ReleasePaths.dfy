/** The paths of release members (package.py): normalized on building, checked on verifying. */
module ReleasePaths {
  import opened Text

  const ROOT := "FAB"

  /** Where the first part ends. */
  function Slash(s: string): (k: nat)
    ensures k <= |s| && '/' !in s[..k] && (k < |s| ==> s[k] == '/')
  {
    if s == [] || s[0] == '/' then 0
    else
      var k := Slash(s[1..]);
      assert s[..k + 1] == [s[0]] + s[1..][..k];
      k + 1
  }

  /** The parts of a POSIX path; empty ones and single dots do not count. */
  function Parts(s: string): (parts: seq<string>)
    decreases |s|
  {
    if s == [] then []
    else
      var k := Slash(s);
      (if s[..k] == "" || s[..k] == "." then [] else [s[..k]]) + if k < |s| then Parts(s[k + 1..]) else []
  }

  predicate IsAbsolute(s: string) {
    s != [] && s[0] == '/'
  }

  /** The path of a tracked file in normal form, or nothing if it is refused. */
  function NormalizeRelativePath(value: string): Option<string> {
    if value == "" || '\\' in value || IsAbsolute(value) || Parts(value) == [] || ".." in Parts(value) then None
    else Some(Join(Parts(value), '/'))
  }

  predicate IsArchiveName(name: string) {
    !IsAbsolute(name) && Parts(name) != [] && Parts(name)[0] == ROOT && ".." !in Parts(name)
  }

  function MemberName(path: string): string {
    ROOT + ['/'] + path
  }

  predicate IsDirectory(name: string) {
    name != [] && name[|name| - 1] == '/'
  }

  // ------------------------------------------------------------------------------------------
  // Normalized paths are safe members
  // ------------------------------------------------------------------------------------------

  predicate IsPart(part: string) {
    part != "" && part != "." && '/' !in part
  }

  lemma {:induction false} PartsAreParts(s: string)
    ensures forall i :: 0 <= i < |Parts(s)| ==> IsPart(Parts(s)[i])
    decreases |s|
  {
    if s != [] {
      var k := Slash(s);
      if k < |s| {
        PartsAreParts(s[k + 1..]);
      }
    }
  }

  lemma SlashAfter(part: string, rest: string)
    requires '/' !in part
    ensures Slash(part + ['/'] + rest) == |part|
    ensures Slash(part) == |part|
  {
    var s := part + ['/'] + rest;
    var k := Slash(s);
    assert s[|part|] == '/';
    assert forall i :: 0 <= i < k ==> s[i] == s[..k][i];
    assert forall i :: 0 <= i < |part| ==> s[i] == part[i];
  }

  lemma PartsPrepend(part: string, rest: string)
    requires IsPart(part)
    ensures Parts(part + ['/'] + rest) == [part] + Parts(rest)
  {
    var s := part + ['/'] + rest;
    SlashAfter(part, rest);
    assert s[..|part|] == part && s[|part| + 1..] == rest;
  }

  /** Splitting undoes joining. */
  lemma {:induction false} PartsOfJoin(parts: seq<string>)
    requires forall i :: 0 <= i < |parts| ==> IsPart(parts[i])
    ensures Parts(Join(parts, '/')) == parts
  {
    if |parts| == 1 {
      SlashAfter(parts[0], []);
      assert parts[0][..|parts[0]|] == parts[0];
    } else if |parts| > 1 {
      PartsOfJoin(parts[1..]);
      PartsPrepend(parts[0], Join(parts[1..], '/'));
      assert parts == [parts[0]] + parts[1..];
    }
  }

  lemma {:induction false} JoinEnds(parts: seq<string>)
    requires parts != [] && forall i :: 0 <= i < |parts| ==> IsPart(parts[i])
    ensures var s := Join(parts, '/'); s != [] && s[0] != '/' && s[|s| - 1] != '/'
  {
    assert parts[0][0] in parts[0];
    if |parts| > 1 {
      JoinEnds(parts[1..]);
    } else {
      assert parts[0][|parts[0]| - 1] in parts[0];
    }
  }

  /** A path in normal form. */
  ghost predicate IsNormal(path: string) {
    exists value :: NormalizeRelativePath(value) == Some(path)
  }

  lemma MemberParts(parts: seq<string>)
    requires parts != [] && forall i :: 0 <= i < |parts| ==> IsPart(parts[i])
    ensures Parts(MemberName(Join(parts, '/'))) == [ROOT] + parts
  {
    RootIsPart();
    PartsOfJoin(parts);
    PartsPrepend(ROOT, Join(parts, '/'));
  }

  lemma RootIsPart()
    ensures IsPart(ROOT)
  {
  }

  lemma NormalIsFile(path: string)
    requires path != [] && path[|path| - 1] != '/'
    ensures !IsDirectory(MemberName(path)) && !IsAbsolute(MemberName(path))
  {
  }

  lemma PartsInRoot(name: string, parts: seq<string>)
    requires !IsAbsolute(name) && Parts(name) == [ROOT] + parts && ".." !in parts
    ensures IsArchiveName(name)
  {
  }

  /** Its member is a file inside the root. */
  lemma NormalPathIsMember(path: string)
    requires IsNormal(path)
    ensures IsArchiveName(MemberName(path)) && !IsDirectory(MemberName(path))
  {
    var value :| NormalizeRelativePath(value) == Some(path);
    PartsAreParts(value);
    MemberOfParts(Parts(value));
  }

  lemma MemberOfParts(parts: seq<string>)
    requires parts != [] && ".." !in parts && forall i :: 0 <= i < |parts| ==> IsPart(parts[i])
    ensures var name := MemberName(Join(parts, '/')); IsArchiveName(name) && !IsDirectory(name)
  {
    JoinEnds(parts);
    NormalIsFile(Join(parts, '/'));
    MemberParts(parts);
    PartsInRoot(MemberName(Join(parts, '/')), parts);
  }

  /** Normalizing once is enough. */
  lemma NormalizeIsIdempotent(value: string)
    ensures var p := NormalizeRelativePath(value); p.Some? ==> NormalizeRelativePath(p.value) == p
  {
    var p := NormalizeRelativePath(value);
    if p.Some? {
      var parts := Parts(value);
      PartsAreParts(value);
      PartsOfJoin(parts);
      JoinEnds(parts);
      NoBackslash(value);
      JoinHasOnly(parts, '\\');
    }
  }

  lemma {:induction false} NoBackslash(s: string)
    requires '\\' !in s
    ensures forall i :: 0 <= i < |Parts(s)| ==> '\\' !in Parts(s)[i]
    decreases |s|
  {
    if s != [] {
      var k := Slash(s);
      if k < |s| {
        NoBackslash(s[k + 1..]);
      }
    }
  }

  lemma {:induction false} JoinHasOnly(parts: seq<string>, c: char)
    requires c != '/' && forall i :: 0 <= i < |parts| ==> c !in parts[i]
    ensures c !in Join(parts, '/')
  {
    if |parts| > 1 {
      JoinHasOnly(parts[1..], c);
    }
  }

  lemma MemberNameInjective(a: string, b: string)
    requires MemberName(a) == MemberName(b)
    ensures a == b
  {
    assert a == MemberName(a)[4..] && b == MemberName(b)[4..];
  }
}
