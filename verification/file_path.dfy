/** The part of base::FilePath the download rules rely on, for POSIX paths:
    base name, directory name, appending a component, the final extension
    and inserting text before it. */
module FilePaths {

  type FilePath = string

  const Separator: char := '/'
  const ExtensionSeparator: char := '.'
  const CurrentDirectory: FilePath := "."
  const ParentDirectory: FilePath := ".."

  /** The index of the last `c` in `s`, or -1 when there is none. */
  function LastIndexOf(s: string, c: char): (i: int)
    ensures -1 <= i < |s|
    ensures i >= 0 ==> s[i] == c
    ensures forall k :: i < k < |s| ==> s[k] != c
  {
    if s == [] then -1
    else if s[|s| - 1] == c then |s| - 1
    else LastIndexOf(s[..|s| - 1], c)
  }

  /** Any occurrence with no later occurrence is the last one. */
  lemma LastIndexOfUnique(s: string, c: char, i: int)
    requires -1 <= i < |s| && (i >= 0 ==> s[i] == c)
    requires forall k :: i < k < |s| ==> s[k] != c
    ensures LastIndexOf(s, c) == i
  {
  }

  /** Where the final component starts. */
  function BaseNameStart(p: FilePath): (i: nat)
    ensures i <= |p|
    ensures i > 0 ==> p[i - 1] == Separator
    ensures forall k :: i <= k < |p| ==> p[k] != Separator
  {
    LastIndexOf(p, Separator) + 1
  }

  /** The final component. */
  function BaseName(p: FilePath): (b: FilePath)
    ensures Separator !in b
  {
    p[BaseNameStart(p)..]
  }

  /** Everything before the final component; "." for a bare name. */
  function DirName(p: FilePath): (d: FilePath)
    ensures d != []
  {
    var i := LastIndexOf(p, Separator);
    if i < 0 then CurrentDirectory
    else if i == 0 then [Separator]
    else p[..i]
  }

  /** `component` appended to `dir` with one separator between them; a
      current-directory `dir` yields `component` alone. */
  function Append(dir: FilePath, component: FilePath): (r: FilePath)
    ensures dir != CurrentDirectory && component != [] && dir != [] && dir[|dir| - 1] != Separator ==>
      r == dir + [Separator] + component
    ensures dir == CurrentDirectory ==> r == component
  {
    if dir == CurrentDirectory then component
    else if component == [] || dir == [] || dir[|dir| - 1] == Separator then dir + component
    else dir + [Separator] + component
  }

  /** Appending a separator-free component makes it the base name. */
  lemma BaseNameOfAppend(dir: FilePath, component: FilePath)
    requires component != [] && Separator !in component
    ensures BaseName(Append(dir, component)) == component
  {
    var r := Append(dir, component);
    var start := |r| - |component|;
    assert r[start..] == component;
    assert forall k :: start <= k < |r| ==> r[k] == component[k - start];
    LastIndexOfUnique(r, Separator, start - 1);
  }

  /** A name made of one or two dots. */
  predicate IsDotName(b: FilePath)
  {
    b == CurrentDirectory || b == ParentDirectory
  }

  /** The index in `b` where the final extension starts, or -1. The
      names "." and ".." have none. */
  function ExtensionStart(b: FilePath): (i: int)
    ensures -1 <= i < |b|
    ensures i >= 0 ==> b[i] == ExtensionSeparator
    ensures !IsDotName(b) ==> forall k :: i < k < |b| ==> b[k] != ExtensionSeparator
  {
    if IsDotName(b) then -1 else LastIndexOf(b, ExtensionSeparator)
  }

  /** Where the final extension starts in the whole path; |p| when there
      is none. */
  function ExtensionIndex(p: FilePath): (x: nat)
    ensures BaseNameStart(p) <= x <= |p|
    ensures x < |p| ==> p[x] == ExtensionSeparator
  {
    var i := ExtensionStart(BaseName(p));
    if i < 0 then |p| else BaseNameStart(p) + i
  }

  /** The final extension with its leading ".", or "" when there is none. */
  function Extension(p: FilePath): (e: FilePath)
    ensures e != [] ==> e[0] == ExtensionSeparator && ExtensionSeparator !in e[1..]
    ensures Separator !in e
  {
    p[ExtensionIndex(p)..]
  }

  /** The path without its final extension. */
  function RemoveExtension(p: FilePath): (r: FilePath)
    ensures r + Extension(p) == p
  {
    p[..ExtensionIndex(p)]
  }

  /** `suffix` put between the path and its final extension; "" for a
      path whose base name is empty, "." or "..". */
  function InsertBeforeExtension(p: FilePath, suffix: string): (r: FilePath)
  {
    if suffix == [] then p
    else if BaseName(p) == [] || BaseName(p) == CurrentDirectory || BaseName(p) == ParentDirectory then []
    else RemoveExtension(p) + suffix + Extension(p)
  }

  /** Separator-free text inserted within the final component leaves
      the component where it starts. */
  lemma BaseNameStartOfInsert(p: FilePath, x: nat, suffix: string)
    requires BaseNameStart(p) <= x <= |p| && Separator !in suffix
    ensures BaseNameStart(p[..x] + suffix + p[x..]) == BaseNameStart(p)
  {
    var s := BaseNameStart(p);
    var r := p[..x] + suffix + p[x..];
    assert forall k :: 0 <= k < x ==> r[k] == p[k];
    assert forall k :: x <= k < x + |suffix| ==> r[k] == suffix[k - x];
    assert forall k :: x + |suffix| <= k < |r| ==> r[k] == p[k - |suffix|];
    LastIndexOfUnique(r, Separator, s as int - 1);
  }

  /** The separator-free tail after inserting is still the final
      component. */
  lemma BaseNameStartAfterInsert(p: FilePath, suffix: string)
    requires Separator !in suffix
    ensures BaseNameStart(RemoveExtension(p) + suffix + Extension(p)) == BaseNameStart(p)
  {
    BaseNameStartOfInsert(p, ExtensionIndex(p), suffix);
  }

  /** The new base name is the old one with the text inserted at the same
      place. */
  lemma BaseNameAfterInsert(p: FilePath, suffix: string)
    requires Separator !in suffix
    ensures var x := ExtensionIndex(p) - BaseNameStart(p);
      BaseName(RemoveExtension(p) + suffix + Extension(p)) == BaseName(p)[..x] + suffix + BaseName(p)[x..]
  {
    BaseNameStartAfterInsert(p, suffix);
    SliceOfInsert(p, BaseNameStart(p), ExtensionIndex(p), suffix);
  }

  /** Text inserted at `x`, seen from an earlier index `s`, lands at `x - s`. */
  lemma SliceOfInsert(p: string, s: nat, x: nat, suffix: string)
    requires s <= x <= |p|
    ensures (p[..x] + suffix + p[x..])[s..] == p[s..][..x - s] + suffix + p[s..][x - s..]
  {
    var b := p[s..];
    var tail := b[..x - s] + suffix + b[x - s..];
    assert p[..x] == p[..s] + b[..x - s];
    assert b[x - s..] == p[x..];
    assert p[..x] + suffix + p[x..] == p[..s] + tail;
  }

  /** Within one name: dot-free text inserted where the final extension
      starts (or at the end when there is none) moves that extension along
      and adds none. */
  lemma {:induction false} ExtensionStartOfInsert(b: FilePath, suffix: string)
    requires suffix != [] && ExtensionSeparator !in suffix && !IsDotName(b)
    ensures var i := ExtensionStart(b);
      var j := if i < 0 then |b| else i;
      ExtensionStart(b[..j] + suffix + b[j..]) == (if i < 0 then -1 else j + |suffix|)
  {
    var i := ExtensionStart(b);
    var j := if i < 0 then |b| else i;
    var t := b[..j] + suffix + b[j..];
    assert forall k :: 0 <= k < j ==> t[k] == b[k];
    assert forall k :: 0 <= k < |suffix| ==> t[j + k] == suffix[k];
    assert forall k :: j <= k < |b| ==> t[k + |suffix|] == b[k];
    assert !IsDotName(t) by {
      assert t[j] == suffix[0] && suffix[0] in suffix;
    }
    if i < 0 {
      LastIndexOfUnique(t, ExtensionSeparator, -1);
    } else {
      LastIndexOfUnique(t, ExtensionSeparator, j + |suffix|);
    }
  }

  /** The final extension of the new name is the old one, moved along. */
  lemma {:induction false} ExtensionStartAfterInsert(p: FilePath, suffix: string)
    requires suffix != [] && ExtensionSeparator !in suffix && Separator !in suffix
    requires !IsDotName(BaseName(p))
    ensures var r := RemoveExtension(p) + suffix + Extension(p);
      ExtensionIndex(r) == ExtensionIndex(p) + |suffix|
  {
    var r := RemoveExtension(p) + suffix + Extension(p);
    var b := BaseName(p);
    var x := ExtensionIndex(p);
    var start := BaseNameStart(p);
    var i := ExtensionStart(b);
    assert x - start == (if i < 0 then |b| else i);
    BaseNameStartAfterInsert(p, suffix);
    BaseNameAfterInsert(p, suffix);
    var t := b[..x - start] + suffix + b[x - start..];
    assert BaseName(r) == t;
    ExtensionStartOfInsert(b, suffix);
    assert ExtensionStart(t) == (if i < 0 then -1 else x - start + |suffix|);
    assert |r| == |p| + |suffix|;
  }

  /** Inserting text free of separators and dots keeps the directory and
      the extension, and puts the text right before the extension. */
  lemma {:induction false} InsertBeforeExtensionKeepsExtension(p: FilePath, suffix: string)
    requires suffix != [] && BaseName(p) != [] && !IsDotName(BaseName(p))
    requires Separator !in suffix && ExtensionSeparator !in suffix
    ensures var r := InsertBeforeExtension(p, suffix);
      && r == RemoveExtension(p) + suffix + Extension(p)
      && BaseNameStart(r) == BaseNameStart(p) && r[..BaseNameStart(r)] == p[..BaseNameStart(p)]
      && Extension(r) == Extension(p)
  {
    var r := InsertBeforeExtension(p, suffix);
    var x := ExtensionIndex(p);
    BaseNameStartAfterInsert(p, suffix);
    ExtensionStartAfterInsert(p, suffix);
    assert r == p[..x] + suffix + p[x..];
    assert r[x + |suffix|..] == p[x..];
    assert r[..BaseNameStart(p)] == p[..BaseNameStart(p)];
  }
}
