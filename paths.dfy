/** `extract_filename`: the display name of an opened file is the part of
    its path after the last `/`. */
module Paths {

  /** `name` is the basename of `path`: a suffix of it that holds no `/` and
      is either the whole path or preceded by a `/`. */
  predicate IsBasename(path: string, name: string) {
    |name| <= |path| &&
    name == path[|path| - |name|..] &&
    (forall i | 0 <= i < |name| :: name[i] != '/') &&
    (|name| == |path| || path[|path| - |name| - 1] == '/')
  }

  /** Scans the path once, remembering the position just after the latest
      `/`, and returns the rest of the path from there. */
  method ExtractFilename(path: string) returns (name: string)
    ensures IsBasename(path, name)
  {
    var lastSlashIndex := 0;
    for i := 0 to |path|
      invariant lastSlashIndex <= i
      invariant forall j | lastSlashIndex <= j < i :: path[j] != '/'
      invariant lastSlashIndex == 0 || path[lastSlashIndex - 1] == '/'
    {
      if path[i] == '/' {
        lastSlashIndex := i + 1;
      }
    }
    name := path[lastSlashIndex..];
  }

  /** The basename is unique, so the contract of ExtractFilename fixes its
      result. */
  lemma BasenameUnique(path: string, a: string, b: string)
    requires IsBasename(path, a) && IsBasename(path, b)
    ensures a == b
  {
  }

  /** A path without `/` is its own basename, and no other string is. */
  lemma NoSlashIsWholePath(path: string, name: string)
    requires forall i | 0 <= i < |path| :: path[i] != '/'
    ensures IsBasename(path, name) <==> name == path
  {
    assert path[|path| - |path|..] == path;
    if IsBasename(path, name) {
      BasenameUnique(path, name, path);
    }
  }

  /** Taking the basename twice changes nothing. */
  lemma BasenameIdempotent(path: string, name: string)
    requires IsBasename(path, name)
    ensures IsBasename(name, name)
  {
    assert name[|name| - |name|..] == name;
  }
}
