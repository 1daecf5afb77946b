/** Collision-free naming (auto_mkdir and auto_filename, gparch.py:63-96).
    Both try `path` for instance 0 and a decorated `path` for instance
    1, 2, ...; the first candidate that does not exist is taken. The
    recursion of the source is a loop over the instance counter here; it ends
    because distinct instances give distinct candidates, so at most
    |existing| + 1 candidates are tried. */
module Naming {
  import opened Text
  import opened Files

  /** auto_mkdir appends the marker at the end; auto_filename inserts it
      before the last "." of the path. */
  datatype Style = AppendSuffix | BeforeExtension

  /** The text " (n)" the source builds with `" (" + str(instance) + ")"`. */
  function Marker(n: nat): (m: string)
    ensures 4 <= |m|
    ensures m[..2] == " (" && m[2..|m| - 1] == NatToString(n) && m[|m| - 1] == ')'
  {
    " (" + NatToString(n) + ")"
  }

  /** Where auto_filename splits the path: `path.rfind(".")`, read as a slice
      bound. With no "." that is -1, which Python's slices read as "one before
      the end", so the marker lands before the final character. */
  function ExtensionIndex(path: string): (k: nat)
    ensures k <= |path|
  {
    SliceIndex(RFind(path, '.'), |path|)
  }

  /** The candidate the source tries for `instance == n`. */
  function Candidate(style: Style, path: string, n: nat): (c: string)
    ensures n == 0 ==> c == path
  {
    if n == 0 then path
    else match style
      case AppendSuffix => path + Marker(n)
      case BeforeExtension =>
        var k := ExtensionIndex(path);
        path[..k] + Marker(n) + path[k..]
  }

  /** The marker of a numbered candidate, read back from the candidate. */
  lemma MarkerInCandidate(style: Style, path: string, n: nat)
    requires 0 < n
    ensures var c := Candidate(style, path, n);
            var k := if style == AppendSuffix then |path| else ExtensionIndex(path);
            && |c| == |path| + |Marker(n)| && c[k..k + |Marker(n)|] == Marker(n)
            && c[..k] == path[..k] && c[k + |Marker(n)|..] == path[k..]
  {
    var c := Candidate(style, path, n);
    if style == BeforeExtension {
      var k := ExtensionIndex(path);
      assert c == path[..k] + Marker(n) + path[k..];
      assert c[k..k + |Marker(n)|] == Marker(n);
      assert c[..k] == path[..k] && c[k + |Marker(n)|..] == path[k..];
    } else {
      assert c == path + Marker(n);
      assert c[|path|..|path| + |Marker(n)|] == Marker(n);
      assert c[..|path|] == path[..|path|] && c[|path| + |Marker(n)|..] == path[|path|..];
    }
  }

  /** Distinct instances give distinct candidates. */
  lemma CandidateInjective(style: Style, path: string, a: nat, b: nat)
    requires Candidate(style, path, a) == Candidate(style, path, b)
    ensures a == b
  {
    if a != 0 && b != 0 {
      MarkerInCandidate(style, path, a);
      MarkerInCandidate(style, path, b);
      assert Marker(a) == Marker(b);
      NatToStringInjective(a, b);
    } else if a != 0 {
      MarkerInCandidate(style, path, a);
    } else if b != 0 {
      MarkerInCandidate(style, path, b);
    }
  }

  /** The candidates for instances 0 .. n-1. */
  function Tried(style: Style, path: string, n: nat): set<string> {
    set k | 0 <= k < n :: Candidate(style, path, k)
  }

  /** The next instance's candidate is new, and it is all that is added. */
  lemma TriedSnoc(style: Style, path: string, n: nat)
    ensures Candidate(style, path, n) !in Tried(style, path, n)
    ensures Tried(style, path, n + 1) == Tried(style, path, n) + {Candidate(style, path, n)}
    ensures |Tried(style, path, n + 1)| == |Tried(style, path, n)| + 1
  {
    var last := Candidate(style, path, n);
    var prev := Tried(style, path, n);
    if last in prev {
      var k :| 0 <= k < n && Candidate(style, path, k) == last;
      CandidateInjective(style, path, k, n);
    }
    forall x | x in Tried(style, path, n + 1) ensures x in prev + {last} {
      var k :| 0 <= k < n + 1 && Candidate(style, path, k) == x;
      if k < n {
        assert Candidate(style, path, k) in prev;
      }
    }
  }

  lemma {:induction false} TriedSize(style: Style, path: string, n: nat)
    ensures |Tried(style, path, n)| == n
  {
    if n == 0 {
      assert Tried(style, path, 0) == {};
    } else {
      TriedSize(style, path, n - 1);
      TriedSnoc(style, path, n - 1);
    }
  }

  /** Every candidate below instance n already exists. */
  predicate AllTaken(style: Style, existing: set<string>, path: string, n: nat) {
    forall k: nat :: k < n ==> Candidate(style, path, k) in existing
  }

  /** n candidates that all exist are n distinct members of `existing`. */
  lemma TakenBound(style: Style, existing: set<string>, path: string, n: nat)
    requires AllTaken(style, existing, path, n)
    ensures n <= |existing|
  {
    TriedSize(style, path, n);
    SubsetSize(Tried(style, path, n), existing);
  }

  lemma {:induction false} SubsetSize(a: set<string>, b: set<string>)
    requires a <= b
    ensures |a| <= |b|
    decreases |a|
  {
    if a != {} {
      var x :| x in a;
      SubsetSize(a - {x}, b - {x});
    }
  }

  /** The first free instance at or after n, given that those before n are taken. */
  function FreeInstance(style: Style, existing: set<string>, path: string, n: nat): (m: nat)
    requires AllTaken(style, existing, path, n)
    ensures n <= m <= |existing|
    ensures AllTaken(style, existing, path, m)
    ensures Candidate(style, path, m) !in existing
    decreases |existing| - n
  {
    TakenBound(style, existing, path, n);
    if Candidate(style, path, n) !in existing then n
    else
      TakenBound(style, existing, path, n + 1);
      FreeInstance(style, existing, path, n + 1)
  }

  /** The name the source settles on: the candidate of the least free instance. */
  function FreeName(style: Style, existing: set<string>, path: string): (name: string)
    ensures name !in existing
    ensures path !in existing ==> name == path
    ensures exists n: nat :: name == Candidate(style, path, n) && AllTaken(style, existing, path, n)
  {
    var n := FreeInstance(style, existing, path, 0);
    Candidate(style, path, n)
  }

  /** A free instance with every earlier one taken is the least free
      instance, wherever the search starts below it. */
  lemma {:induction false} FreeInstanceIsLeast(style: Style, existing: set<string>, path: string, n: nat, m: nat)
    requires n <= m
    requires AllTaken(style, existing, path, m)
    requires Candidate(style, path, m) !in existing
    ensures FreeInstance(style, existing, path, n) == m
    decreases m - n
  {
    if n < m {
      FreeInstanceIsLeast(style, existing, path, n + 1, m);
    }
  }

  /** The search loop shared by auto_mkdir and auto_filename. */
  method SearchFreeName(style: Style, existing: set<string>, path: string) returns (name: string)
    ensures name !in existing
    ensures name == FreeName(style, existing, path)
  {
    var instance := 0;
    while Candidate(style, path, instance) in existing
      invariant AllTaken(style, existing, path, instance)
      decreases |existing| - instance
    {
      TakenBound(style, existing, path, instance + 1);
      instance := instance + 1;
    }
    FreeInstanceIsLeast(style, existing, path, 0, instance);
    name := Candidate(style, path, instance);
  }

  /** auto_filename: a path for a new file, not taken by any existing file or
      directory; `path` itself when it is free. */
  method AutoFilename(existing: set<string>, path: string) returns (name: string)
    ensures name !in existing
    ensures name == FreeName(BeforeExtension, existing, path)
    ensures path !in existing ==> name == path
  {
    name := SearchFreeName(BeforeExtension, existing, path);
    if path !in existing {
      FreeInstanceIsLeast(BeforeExtension, existing, path, 0, 0);
    }
  }

  /** auto_mkdir: create the first free directory among `path`, `path (1)`, ...
      and return it; exactly that one directory is added. The source returns
      `os.path.abspath` of it, taken here as the identity. */
  method AutoMkdir(fs: FileSystem, path: string) returns (dir: string)
    modifies fs
    ensures dir !in old(fs.Existing())
    ensures dir == FreeName(AppendSuffix, old(fs.Existing()), path)
    ensures fs.dirs == old(fs.dirs) + {dir}
    ensures fs.files == old(fs.files)
  {
    dir := SearchFreeName(AppendSuffix, fs.files + fs.dirs, path);
    fs.dirs := fs.dirs + {dir};
  }

  /** The shape of auto_filename's numbered candidates: the marker goes before
      the last "." of the path; with no "." at all it goes before the final
      character (and an empty path becomes the bare marker). */
  lemma FileCandidateShape(path: string, n: nat)
    requires 0 < n
    ensures '.' in path ==>
              exists k :: 0 <= k < |path| && path[k] == '.' && '.' !in path[k + 1..] &&
                          Candidate(BeforeExtension, path, n) == path[..k] + Marker(n) + path[k..]
    ensures '.' !in path && path != [] ==>
              Candidate(BeforeExtension, path, n) == path[..|path| - 1] + Marker(n) + [path[|path| - 1]]
    ensures path == [] ==> Candidate(BeforeExtension, path, n) == Marker(n)
  {
    var i := RFind(path, '.');
    if '.' in path {
      assert 0 <= i && ExtensionIndex(path) == i;
    } else if path != [] {
      assert ExtensionIndex(path) == |path| - 1;
      assert path[|path| - 1..] == [path[|path| - 1]];
    }
  }
}
