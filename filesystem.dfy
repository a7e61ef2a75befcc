/**
 * The file systems an include reads through (lib/file_system.php): the
 * blank one refuses every read; the local one turns a template name into a
 * partial's path under its root, Rails style (`dir/name` becomes
 * `root/dir/_name.liquid`), after checking the name's characters.
 */
module FileSystems {
  import opened Wrappers
  import opened Grammar
  import opened Errors

  /**
   * A local file system carries its root and, standing in for the disk, the
   * contents of the files under it by full path.
   */
  datatype FileSystem =
    | BlankFileSystem
    | LocalFileSystem(root: string, files: map<string, string>)

  /** The characters `[a-zA-Z0-9_\/]` allowed after the first one. */
  predicate IsNameChar(c: char) {
    ('a' <= c <= 'z') || ('A' <= c <= 'Z') || ('0' <= c <= '9') || c == '_' || c == '/'
  }

  /**
   * `^[^.\/][a-zA-Z0-9_\/]+$`: a first character other than a dot or a
   * slash, then at least one allowed character up to the end (PCRE's `$`
   * also accepts one final newline). The pattern has no `u` modifier, so it
   * runs over the UTF-8 bytes of the name: `[^.\/]` takes only the first
   * byte of a non-ASCII first character, and the continuation bytes left
   * over never match `[a-zA-Z0-9_\/]`. Over characters, that is a first
   * character below 128.
   */
  predicate NameAccepted(name: string) {
    |name| >= 2 && name[0] as int < 128 && name[0] != '.' && name[0] != '/' &&
    var e := RunEnd(name, 1, IsNameChar);
    e > 1 && (e == |name| || (e == |name| - 1 && name[e] == '\n'))
  }

  /** The end of p once its trailing slashes are dropped. */
  function TrimSlashesEnd(p: string, e: nat): (r: nat)
    requires e <= |p|
    ensures r <= e
    ensures r == 0 || p[r - 1] != '/'
    ensures forall i | r <= i < e :: p[i] == '/'
  {
    if e > 0 && p[e - 1] == '/' then TrimSlashesEnd(p, e - 1) else e
  }

  /** The start of the last component of p[..e]: just after its last slash. */
  function ComponentStart(p: string, e: nat): (r: nat)
    requires e <= |p|
    ensures r <= e
    ensures r == 0 || p[r - 1] == '/'
    ensures forall i | r <= i < e :: p[i] != '/'
  {
    if e > 0 && p[e - 1] != '/' then ComponentStart(p, e - 1) else e
  }

  /** PHP's dirname: trailing slashes, the last component and the slashes before it are dropped. */
  function Dirname(p: string): string {
    if p == [] then []
    else
      var e1 := TrimSlashesEnd(p, |p|);
      if e1 == 0 then "/"
      else
        var e2 := ComponentStart(p, e1);
        if e2 == 0 then "."
        else
          var e3 := TrimSlashesEnd(p, e2);
          if e3 == 0 then "/" else p[..e3]
  }

  /** PHP's basename: the last component once trailing slashes are dropped. */
  function Basename(p: string): (r: string)
    ensures '/' !in r
  {
    var e := TrimSlashesEnd(p, |p|);
    p[ComponentStart(p, e)..e]
  }

  /** full_path: the partial's path for an accepted name, an error for any other. */
  function FullPath(root: string, name: string): (r: Result<string, Error>)
    ensures r.Ok? <==> NameAccepted(name)
    ensures r.Err? ==> r.error == IllegalTemplateName(name)
  {
    if !NameAccepted(name) then Err(IllegalTemplateName(name))
    else if '/' in name then Ok(root + Dirname(name) + "/_" + Basename(name) + ".liquid")
    else Ok(root + "_" + name + ".liquid")
  }

  /**
   * read_template_file as written: the blank file system refuses; the local
   * one builds the path (full_path raises the fatal error for a bad name
   * before the "No such template" branch is reached) and then drops what
   * file_get_contents returns, so the caller gets PHP's null, which "" stands
   * for here (tokenize treats both the same).
   */
  function ReadTemplateFileAsWritten(fs: FileSystem, name: string): (r: Result<string, Error>)
    ensures fs.BlankFileSystem? ==> r == Err(IncludesNotAllowed)
    ensures fs.LocalFileSystem? ==> (r.Ok? <==> NameAccepted(name))
    ensures fs.LocalFileSystem? && r.Err? ==> r.error == IllegalTemplateName(name)
    ensures r.Ok? ==> r.value == ""
  {
    match fs
    case BlankFileSystem => Err(IncludesNotAllowed)
    case LocalFileSystem(root, _) =>
      match FullPath(root, name)
      case Err(e) => Err(e)
      case Ok(_) => Ok("")
  }

  /**
   * read_template_file as evidently intended: the contents of the file at
   * the full path; a missing file reads as PHP's false, "" here.
   */
  function ReadTemplateFile(fs: FileSystem, name: string): (r: Result<string, Error>)
    ensures fs.BlankFileSystem? ==> r == Err(IncludesNotAllowed)
    ensures fs.LocalFileSystem? ==> (r.Err? <==> !NameAccepted(name))
    ensures fs.LocalFileSystem? && r.Err? ==> r.error == IllegalTemplateName(name)
    ensures fs.LocalFileSystem? && r.Ok? ==>
      var p := FullPath(fs.root, name).value;
      r.value == (if p in fs.files then fs.files[p] else "")
  {
    match fs
    case BlankFileSystem => Err(IncludesNotAllowed)
    case LocalFileSystem(root, files) =>
      match FullPath(root, name)
      case Err(e) => Err(e)
      case Ok(p) => Ok(if p in files then files[p] else "")
  }

  /** A name starting with a dot or a slash is refused, whatever follows. */
  lemma RejectsDotOrSlash(root: string, name: string)
    requires |name| >= 1 && (name[0] == '.' || name[0] == '/')
    ensures FullPath(root, name) == Err(IllegalTemplateName(name))
  {
  }

  /** A name whose first character is not ASCII is refused: its second UTF-8 byte is no name character. */
  lemma RejectsNonAsciiStart(root: string, name: string)
    requires |name| >= 1 && name[0] as int >= 128
    ensures FullPath(root, name) == Err(IllegalTemplateName(name))
  {
  }

  /** "éa" is refused, as the byte-wise pattern refuses C3 A9 61. */
  lemma RejectsAccentedName()
    ensures FullPath("t/", "\U{00E9}a") == Err(IllegalTemplateName("\U{00E9}a"))
  {
  }

  /** A name of fewer than two characters is refused. */
  lemma RejectsShort(root: string, name: string)
    requires |name| < 2
    ensures FullPath(root, name).Err?
  {
  }

  /** An accepted name holds only allowed characters after the first, but for one final newline. */
  lemma AcceptedCharacters(name: string)
    requires NameAccepted(name)
    ensures name[0] as int < 128
    ensures forall i | 1 <= i < |name| :: IsNameChar(name[i]) || (i == |name| - 1 && name[i] == '\n')
  {
  }

  /** A name of allowed characters whose first is an ASCII character other than a dot or a slash is accepted. */
  lemma AcceptsCleanNames(name: string)
    requires |name| >= 2 && name[0] as int < 128 && name[0] != '.' && name[0] != '/'
    requires forall i | 1 <= i < |name| :: IsNameChar(name[i])
    ensures NameAccepted(name)
  {
    RunEndIs(name, 1, |name|, IsNameChar);
  }

  /** The last component of a path: what follows its last slash. */
  function LastComponent(p: string): (r: string)
    ensures '/' !in r
  {
    p[ComponentStart(p, |p|)..]
  }

  lemma {:induction false} LastComponentOfSuffix(a: string, b: string)
    requires '/' !in b
    requires a == [] || a[|a| - 1] == '/'
    ensures LastComponent(a + b) == b
  {
    var p := a + b;
    assert p[|a|..] == b;
  }

  /** Every accepted path ends in ".liquid" and its file name starts with "_". */
  lemma FullPathShape(root: string, name: string)
    requires NameAccepted(name)
    requires root == [] || root[|root| - 1] == '/' || '/' in name
    ensures EndsWith(FullPath(root, name).value, ".liquid")
    ensures var c := LastComponent(FullPath(root, name).value); |c| >= 1 && c[0] == '_'
  {
    if '/' in name {
      var a := root + Dirname(name) + "/";
      assert FullPath(root, name).value == a + "_" + Basename(name) + ".liquid";
      SuffixShape(a, Basename(name));
    } else {
      assert FullPath(root, name).value == root + "_" + name + ".liquid";
      SuffixShape(root, name);
    }
  }

  /** A prefix ending at a component boundary, then "_" + base + ".liquid" for a slash-free base. */
  lemma SuffixShape(a: string, base: string)
    requires '/' !in base
    requires a == [] || a[|a| - 1] == '/'
    ensures EndsWith(a + "_" + base + ".liquid", ".liquid")
    ensures LastComponent(a + "_" + base + ".liquid") == "_" + base + ".liquid"
  {
    var b := "_" + base + ".liquid";
    assert a + "_" + base + ".liquid" == a + b;
    LastComponentOfSuffix(a, b);
    var p := a + b;
    assert p[|p| - 7..] == ".liquid";
  }

  /** A name without a slash is looked up as root + "_" + name + ".liquid". */
  lemma FlatName(root: string, name: string)
    requires NameAccepted(name) && '/' !in name
    ensures FullPath(root, name) == Ok(root + "_" + name + ".liquid")
  {
  }

  /** "dir/name" (letters only on each side) is looked up as root + "dir/_name.liquid". */
  lemma {:induction false} NestedName(root: string, dir: string, base: string)
    requires |dir| >= 1 && '/' !in dir && dir[0] != '.'
    requires |base| >= 1 && '/' !in base
    requires forall i | 0 <= i < |dir| :: IsNameChar(dir[i])
    requires forall i | 0 <= i < |base| :: IsNameChar(base[i])
    ensures FullPath(root, dir + "/" + base) == Ok(root + dir + "/_" + base + ".liquid")
  {
    var n := dir + "/" + base;
    AcceptsCleanNames(n);
    assert n[|dir|] == '/';
    var e1 := TrimSlashesEnd(n, |n|);
    assert n[|n| - 1] == base[|base| - 1];
    assert e1 == |n|;
    var e2 := ComponentStart(n, e1);
    assert e2 == |dir| + 1 by {
      assert forall i | |dir| < i < |n| :: n[i] == base[i - |dir| - 1];
    }
    var e3 := TrimSlashesEnd(n, e2);
    assert e3 == |dir| by {
      assert n[|dir| - 1] == dir[|dir| - 1];
    }
    assert n[..e3] == dir;
    assert n[e2..e1] == base;
  }

  /**
   * The read as written returns no contents even when the file exists:
   * a template "a1" stored under root "t/" includes as the empty document.
   */
  lemma ReadDropsContents()
    ensures ReadTemplateFileAsWritten(LocalFileSystem("t/", map["t/_a1.liquid" := "hi"]), "a1") == Ok("")
    ensures ReadTemplateFile(LocalFileSystem("t/", map["t/_a1.liquid" := "hi"]), "a1") == Ok("hi")
  {
    AcceptsCleanNames("a1");
    FlatName("t/", "a1");
    assert "t/" + "_" + "a1" + ".liquid" == "t/_a1.liquid";
  }

  /** For an accepted name, the intended read returns exactly the stored contents. */
  lemma ReadReturnsContents(root: string, files: map<string, string>, name: string)
    requires NameAccepted(name)
    requires FullPath(root, name).value in files
    ensures ReadTemplateFile(LocalFileSystem(root, files), name) == Ok(files[FullPath(root, name).value])
  {
  }
}
