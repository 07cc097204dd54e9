/** The three System.IO.Path operations the audit core uses, reduced to splitting and
    joining at the last directory separator ('\' or '/'). Root and UNC prefixes are
    not given special treatment. */
module Paths {
  import opened Strings

  predicate IsSeparator(c: char) {
    c == '\\' || c == '/'
  }

  /** Index of the last separator among the first n characters of path. */
  function LastSeparatorBelow(path: string, n: nat): (r: Option<nat>)
    requires n <= |path|
    ensures r.Some? ==> r.value < n && IsSeparator(path[r.value])
    ensures r.Some? ==> forall j :: r.value < j < n ==> !IsSeparator(path[j])
    ensures r.None? ==> forall j :: 0 <= j < n ==> !IsSeparator(path[j])
  {
    if n == 0 then None
    else if IsSeparator(path[n - 1]) then Some(n - 1)
    else LastSeparatorBelow(path, n - 1)
  }

  function LastSeparator(path: string): Option<nat> {
    LastSeparatorBelow(path, |path|)
  }

  /** Path.GetFileName: what follows the last separator (the whole path if none). */
  function GetFileName(path: string): (name: string)
    ensures |name| <= |path| && name == path[|path| - |name|..]
    ensures forall j :: 0 <= j < |name| ==> !IsSeparator(name[j])
  {
    match LastSeparator(path)
    case None => path
    case Some(k) => path[k + 1..]
  }

  /** Path.GetDirectoryName: what precedes the last separator ("" if none). */
  function GetDirectoryName(path: string): (dir: string)
    ensures |dir| <= |path| && dir == path[..|dir|]
    ensures dir != [] ==> |dir| < |path| && IsSeparator(path[|dir|])
  {
    match LastSeparator(path)
    case None => ""
    case Some(k) => path[..k]
  }

  /** Path.Combine(dir, name) for a relative name: a '\' is put between the two
      unless dir is empty or already ends with a separator. */
  function Combine(dir: string, name: string): (r: string)
    ensures dir == [] ==> r == name
    ensures dir != [] ==> IsAt(r, 0, dir)
  {
    if dir == [] then name
    else if IsSeparator(dir[|dir| - 1]) then dir + name
    else dir + "\\" + name
  }

  /** The event's FileName never holds a separator, and directory, separator and
      file name put back together give the full path. */
  lemma SplitPathRoundTrip(path: string)
    ensures forall j :: 0 <= j < |GetFileName(path)| ==> !IsSeparator(GetFileName(path)[j])
    ensures LastSeparator(path).None? ==> GetDirectoryName(path) == "" && GetFileName(path) == path
    ensures LastSeparator(path).Some? ==>
              var dir := GetDirectoryName(path);
              |dir| < |path| && IsSeparator(path[|dir|]) && dir + [path[|dir|]] + GetFileName(path) == path
  {
    match LastSeparator(path)
    case None =>
    case Some(k) =>
      assert path[..k] + [path[k]] + path[k + 1..] == path;
  }

  /** Combining a directory with a file name and splitting the result again gives
      the file name back. */
  lemma CombineThenFileName(dir: string, name: string)
    requires forall j :: 0 <= j < |name| ==> !IsSeparator(name[j])
    ensures GetFileName(Combine(dir, name)) == name
  {
    var p := Combine(dir, name);
    assert p[|p| - |name|..] == name;
    if dir != [] {
      var k := |p| - |name| - 1;
      assert IsSeparator(p[k]);
      assert forall j :: k < j < |p| ==> p[j] == name[j - k - 1];
      assert LastSeparator(p) == Some(k);
    } else {
      assert forall j :: 0 <= j < |p| ==> p[j] == name[j];
    }
  }
}
