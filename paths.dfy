/** The POSIX path rules (`os.path.join`, `os.path.basename`,
    `os.path.splitext`) used to name converted audio, spectrogram images
    and speaker files. */
module Paths {
  import opened Text

  /** `s.rfind(c)`: the last position of `c` in `s`, or -1. */
  function RFind(s: string, c: char): (r: int)
    ensures -1 <= r < |s|
    ensures r >= 0 ==> s[r] == c
    ensures forall k :: r < k < |s| ==> s[k] != c
    decreases |s|
  {
    if |s| == 0 then -1
    else if s[|s| - 1] == c then |s| - 1
    else RFind(s[..|s| - 1], c)
  }

  /** `os.path.join(a, b)`: an absolute `b` replaces `a`; otherwise a
      single '/' is put between them unless `a` is empty or ends in '/'. */
  function Join(a: string, b: string): (r: string)
    ensures EndsWith(r, b)
  {
    if StartsWith(b, "/") then b
    else if a == "" || a[|a| - 1] == '/' then a + b
    else a + "/" + b
  }

  /** `os.path.basename(p)`: the text after the last '/'. */
  function Basename(p: string): (r: string)
    ensures '/' !in r && EndsWith(p, r)
  {
    AfterLast(p, '/')
  }

  /** The last component of `x + f` is `f` when `f` holds no separator and
      `x` is empty or ends with one. */
  lemma {:induction false} AfterLastAppended(x: string, f: string, sep: char)
    requires sep !in f
    requires x == [] || x[|x| - 1] == sep
    ensures AfterLast(x + f, sep) == f
    decreases |f|
  {
    if |f| > 0 {
      var s := x + f;
      var g, c := f[..|f| - 1], f[|f| - 1];
      assert f == g + [c];
      assert c != sep && sep !in g;
      assert s[|s| - 1] == c && s[..|s| - 1] == x + g;
      AfterLastAppended(x, g, sep);
      assert AfterLast(s, sep) == AfterLast(x + g, sep) + [c];
    }
  }

  /** A relative name joined onto a directory that does not end in '/'
      gets exactly one '/' in between. */
  lemma JoinFlat(dir: string, name: string)
    requires '/' !in name && dir != "" && dir[|dir| - 1] != '/'
    ensures Join(dir, name) == dir + "/" + name
  {
    assert !StartsWith(name, "/") by {
      assert |name| >= 1 ==> name[..1] == [name[0]];
    }
  }

  /** A file name joined onto a directory is that path's base name. */
  lemma BasenameJoin(dir: string, file: string)
    requires '/' !in file
    ensures Basename(Join(dir, file)) == file
  {
    assert !StartsWith(file, "/") by {
      assert |file| >= 1 ==> file[..1] == [file[0]];
    }
    if dir == "" || dir[|dir| - 1] == '/' {
      AfterLastAppended(dir, file, '/');
    } else {
      assert Join(dir, file) == (dir + "/") + file;
      AfterLastAppended(dir + "/", file, '/');
    }
  }

  /** Some character of `p[from..to]` is not a dot. */
  predicate HasNonDot(p: string, from: int, to: int)
    requires 0 <= from && to <= |p|
  {
    exists k :: from <= k < to && p[k] != '.'
  }

  /** `os.path.splitext(p)`: splits at the last '.' of the last path
      component, except that leading dots of that component never start an
      extension (".wav" has root ".wav" and no extension). */
  function SplitExt(p: string): (r: (string, string))
    ensures r.0 + r.1 == p
    ensures r.1 == "" || (r.1[0] == '.' && '.' !in r.1[1..] && '/' !in r.1)
  {
    var sepIndex := RFind(p, '/');
    var dotIndex := RFind(p, '.');
    if dotIndex > sepIndex && HasNonDot(p, sepIndex + 1, dotIndex) then
      assert p[..dotIndex] + p[dotIndex..] == p;
      (p[..dotIndex], p[dotIndex..])
    else (p, "")
  }

  /** The root part of `os.path.splitext`. */
  function SplitExtRoot(p: string): (root: string)
    ensures StartsWith(p, root)
    ensures '/' !in p ==> '/' !in root
  {
    var r := SplitExt(p);
    assert p[..|r.0|] == r.0;
    r.0
  }
}
