/**
 * The filesystem as `java.io.File` sees it: which absolute paths exist and
 * which of them are directories, and how `File` turns a path into an
 * absolute one.
 */
module Files {
  import opened JavaStrings

  /** The absolute paths that exist, and those of them that are directories. */
  datatype FileSystem = FileSystem(existing: set<string>, directories: set<string>)

  /** `File.exists()` for an absolute path. */
  predicate Exists(fs: FileSystem, path: string) {
    path in fs.existing
  }

  /** `File.isDirectory()` for an absolute path: false for a path that does not exist. */
  predicate IsDirectory(fs: FileSystem, path: string) {
    path in fs.existing && path in fs.directories
  }

  predicate IsAbsolute(path: string) {
    StartsWith(path, "/")
  }

  // ---------------------------------------------------------------------
  // The normal form `File` gives every path it is constructed with
  // ---------------------------------------------------------------------

  /** No "/" directly follows another. */
  predicate NoRepeatedSeparator(s: string) {
    forall i :: 0 <= i < |s| - 1 ==> !(s[i] == '/' && s[i + 1] == '/')
  }

  /** `File`'s normal form: no repeated "/", and no trailing "/" except on the root. */
  predicate IsNormal(s: string) {
    NoRepeatedSeparator(s) && (|s| > 1 ==> s[|s| - 1] != '/')
  }

  /** Every run of "/" becomes a single "/". */
  function CollapseSeparators(s: string): string
    decreases |s|
  {
    if |s| <= 1 then s
    else if s[0] == '/' && s[1] == '/' then CollapseSeparators(s[1..])
    else [s[0]] + CollapseSeparators(s[1..])
  }

  /** Collapsing keeps the first and the last character, and empties only the empty string. */
  lemma {:induction false} CollapseEnds(s: string)
    decreases |s|
    ensures |CollapseSeparators(s)| <= |s|
    ensures |CollapseSeparators(s)| == 0 <==> |s| == 0
    ensures |s| > 0 ==> CollapseSeparators(s)[0] == s[0]
    ensures |s| > 0 ==> CollapseSeparators(s)[|CollapseSeparators(s)| - 1] == s[|s| - 1]
  {
    if |s| > 1 {
      CollapseEnds(s[1..]);
    }
  }

  /** Collapsing leaves no repeated "/", and changes nothing where there is none. */
  lemma {:induction false} CollapseFacts(s: string)
    decreases |s|
    ensures NoRepeatedSeparator(CollapseSeparators(s))
    ensures NoRepeatedSeparator(s) ==> CollapseSeparators(s) == s
  {
    if |s| > 1 {
      CollapseFacts(s[1..]);
      CollapseEnds(s[1..]);
      if !(s[0] == '/' && s[1] == '/') {
        var r := [s[0]] + CollapseSeparators(s[1..]);
        forall i | 0 <= i < |r| - 1
          ensures !(r[i] == '/' && r[i + 1] == '/')
        {
          if i > 0 {
            assert r[i] == CollapseSeparators(s[1..])[i - 1];
          }
        }
        if NoRepeatedSeparator(s) {
          assert NoRepeatedSeparator(s[1..]) by {
            forall i | 0 <= i < |s[1..]| - 1
              ensures !(s[1..][i] == '/' && s[1..][i + 1] == '/')
            {
              assert s[1..][i] == s[i + 1] && s[1..][i + 1] == s[i + 2];
            }
          }
          assert s == [s[0]] + s[1..];
        }
      }
    }
  }

  /**
   * `FileSystem.normalize` as `java.io.File`'s constructors apply it: runs
   * of "/" collapse and a trailing "/" is dropped, except on the root.
   */
  function Normalize(path: string): (r: string)
    ensures |r| == 0 <==> |path| == 0
    ensures |path| > 0 ==> r[0] == path[0]
  {
    CollapseEnds(path);
    var c := CollapseSeparators(path);
    if |c| > 1 && c[|c| - 1] == '/' then c[..|c| - 1] else c
  }

  /** The normal form is normal, and a normal path is its own normal form. */
  lemma NormalizeIsNormal(path: string)
    ensures IsNormal(Normalize(path))
    ensures IsNormal(path) ==> Normalize(path) == path
  {
    CollapseFacts(path);
    CollapseEnds(path);
    var c := CollapseSeparators(path);
    if |c| > 1 && c[|c| - 1] == '/' {
      assert c[|c| - 2] != '/';
    }
  }

  /** A separator appended to a string does not survive collapsing twice. */
  lemma {:induction false} CollapseAppendedSeparator(p: string)
    requires p != ""
    decreases |p|
    ensures CollapseSeparators(p + "/") ==
              if p[|p| - 1] == '/' then CollapseSeparators(p) else CollapseSeparators(p) + "/"
  {
    var s := p + "/";
    if |p| > 1 {
      assert s[1..] == p[1..] + "/";
      assert s[0] == p[0] && s[1] == p[1];
      CollapseAppendedSeparator(p[1..]);
    }
  }

  /** A trailing separator does not change the normal form. */
  lemma TrailingSeparatorIgnored(p: string)
    requires p != ""
    ensures Normalize(p + "/") == Normalize(p)
  {
    CollapseAppendedSeparator(p);
    CollapseEnds(p);
    var c := CollapseSeparators(p);
    if p[|p| - 1] != '/' {
      assert (c + "/")[..|c + "/"| - 1] == c;
      assert Normalize(p) == c;
    }
  }

  /** Doubling a separator does not change the collapsed form. */
  lemma {:induction false} CollapseRepeatedSeparator(a: string, b: string)
    decreases |a|
    ensures CollapseSeparators(a + "//" + b) == CollapseSeparators(a + "/" + b)
  {
    var s, t := a + "//" + b, a + "/" + b;
    if a == [] {
      assert s[1..] == t;
    } else {
      assert s[1..] == a[1..] + "//" + b && t[1..] == a[1..] + "/" + b;
      assert s[0] == t[0] && s[1] == t[1];
      CollapseRepeatedSeparator(a[1..], b);
    }
  }

  /** A repeated separator does not change the normal form. */
  lemma RepeatedSeparatorIgnored(a: string, b: string)
    ensures Normalize(a + "//" + b) == Normalize(a + "/" + b)
  {
    CollapseRepeatedSeparator(a, b);
  }

  /** Collapsing splits over a junction that is not a repeated separator. */
  lemma {:induction false} CollapseConcat(a: string, b: string)
    requires NoRepeatedSeparator(a) && a != [] && b != [] && b[0] != '/'
    decreases |a|
    ensures CollapseSeparators(a + b) == a + CollapseSeparators(b)
  {
    var s := a + b;
    if |a| == 1 {
      assert s[1..] == b;
      assert s[1] == b[0];
    } else {
      assert s[1..] == a[1..] + b;
      assert s[1] == a[1];
      assert NoRepeatedSeparator(a[1..]) by {
        forall i | 0 <= i < |a[1..]| - 1
          ensures !(a[1..][i] == '/' && a[1..][i + 1] == '/')
        {
          assert a[1..][i] == a[i + 1] && a[1..][i + 1] == a[i + 2];
        }
      }
      CollapseConcat(a[1..], b);
      assert a == [a[0]] + a[1..];
    }
  }

  /** A directory path as the start of its children's paths: with one "/" at its end. */
  function DirectoryPrefix(dir: string): string {
    if EndsWith(dir, "/") then dir else dir + "/"
  }

  /** `new File(dir, name).getPath()` for a directory path `dir` in normal form. */
  function Child(dir: string, name: string): (r: string)
    ensures IsAbsolute(dir) ==> IsAbsolute(r)
  {
    DirectoryPrefix(dir) + name
  }

  /** The prefix of a normal directory repeats no separator. */
  lemma DirectoryPrefixNormal(dir: string)
    requires IsAbsolute(dir) && IsNormal(dir)
    ensures DirectoryPrefix(dir) != [] && NoRepeatedSeparator(DirectoryPrefix(dir))
  {
    var prefix := DirectoryPrefix(dir);
    forall i | 0 <= i < |prefix| - 1
      ensures !(prefix[i] == '/' && prefix[i + 1] == '/')
    {
      assert prefix[i] == dir[i];
      if i + 1 < |dir| {
        assert prefix[i + 1] == dir[i + 1];
      } else {
        assert |dir| > 1;
      }
    }
  }

  /** Dropping the last character of a concatenation with a non-empty end drops it from the end. */
  lemma DropLast(a: string, c: string)
    requires c != []
    ensures (a + c)[..|a + c| - 1] == a + c[..|c| - 1]
  {
  }

  /** Normalising splits where collapsing does, when the second part starts a name. */
  lemma NormalizeConcat(a: string, b: string)
    requires a != [] && b != [] && b[0] != '/'
    requires CollapseSeparators(a + b) == a + CollapseSeparators(b)
    ensures Normalize(a + b) == a + Normalize(b)
  {
    CollapseEnds(b);
    var c := CollapseSeparators(b);
    assert c != [] && c[0] != '/';
    assert (a + c)[|a + c| - 1] == c[|c| - 1];
    if c[|c| - 1] == '/' {
      assert |c| > 1;
      DropLast(a, c);
    }
  }

  /** Under a normal directory, normalising a relative name and normalising the child agree. */
  lemma ChildNormal(dir: string, name: string)
    requires IsAbsolute(dir) && IsNormal(dir) && name != [] && name[0] != '/'
    ensures Normalize(Child(dir, name)) == Child(dir, Normalize(name))
  {
    DirectoryPrefixNormal(dir);
    CollapseConcat(DirectoryPrefix(dir), name);
    NormalizeConcat(DirectoryPrefix(dir), name);
  }

  /**
   * `new File(path).getAbsolutePath()` in a JVM whose working directory
   * (`user.dir`) is `cwd`: the path is normalised, an absolute one is then
   * kept, the empty path is the working directory, and any other path is
   * resolved against it.
   */
  function AbsolutePath(cwd: string, path: string): (r: string)
    ensures IsAbsolute(cwd) ==> IsAbsolute(r)
    ensures IsAbsolute(path) ==> r == Normalize(path)
    ensures !IsAbsolute(path) && path != "" ==> r == Child(cwd, Normalize(path))
  {
    var p := Normalize(path);
    assert IsAbsolute(p) <==> IsAbsolute(path);
    if IsAbsolute(p) then p
    else if p == "" then cwd
    else Child(cwd, p)
  }
}
