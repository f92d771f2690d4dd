/** File identifiers and storage paths (backend/src/utils.py), together with
    the two path functions of Python's `os.path` those paths go through:
    `join` and the extension half of `splitext`. The directories themselves
    are parameters; creating them at import time is not modelled. */
module Utils {
  import opened Strings

  /** The `ext` that `resolve_file_path` uses when no extension is passed. */
  const DefaultExt: string := "xlsx"

  /** A directory as `Path(...).resolve()` yields it: absolute, and without a
      trailing separator. */
  predicate IsDir(dir: string) {
    |dir| > 0 && dir[0] == '/' && dir[|dir| - 1] != '/'
  }

  /** The text form of a random UUID: 36 lower-case hex digits and dashes,
      the dashes at positions 8, 13, 18 and 23. */
  predicate IsUuidText(u: string) {
    && |u| == 36
    && forall k :: 0 <= k < 36 ==>
         if k in {8, 13, 18, 23} then u[k] == '-' else ('0' <= u[k] <= '9' || 'a' <= u[k] <= 'f')
  }

  /** `str(uuid).replace("-", "_")`: every dash becomes an underscore and no
      other character changes. */
  function GenerateFileId(uuid: string): (id: string)
    ensures |id| == |uuid|
    ensures forall k :: 0 <= k < |uuid| ==> id[k] == (if uuid[k] == '-' then '_' else uuid[k])
    ensures '-' !in id
  {
    if uuid == [] then []
    else [if uuid[0] == '-' then '_' else uuid[0]] + GenerateFileId(uuid[1..])
  }

  /** An identifier made from a UUID is a single, dot-free path component. */
  lemma GeneratedIdIsPlain(uuid: string)
    requires IsUuidText(uuid)
    ensures var id := GenerateFileId(uuid);
      |id| == 36 && '/' !in id && '.' !in id && '-' !in id
  {
    var id := GenerateFileId(uuid);
    forall k | 0 <= k < 36 ensures id[k] != '/' && id[k] != '.' {
      assert uuid[k] != '/' && uuid[k] != '.' by {
        if k !in {8, 13, 18, 23} {
          assert '0' <= uuid[k] <= '9' || 'a' <= uuid[k] <= 'f';
        }
      }
    }
  }

  /** `os.path.join(a, b)` on POSIX: an absolute `b` replaces `a`; otherwise
      a separator is put between them unless `a` is empty or already ends
      with one. */
  function Join(a: string, b: string): (p: string)
    ensures EndsWith(p, b)
    ensures StartsWith(b, "/") ==> p == b
    ensures !StartsWith(b, "/") && IsDir(a) ==> p == a + "/" + b
  {
    if StartsWith(b, "/") then b
    else if a == [] || a[|a| - 1] == '/' then a + b
    else a + "/" + b
  }

  /** `resolve_file_path(file_id, ext)`: the media directory joined with
      "{file_id}.{ext}". */
  function ResolveFilePath(mediaDir: string, fileId: string, ext: string): (p: string)
    ensures |p| > 0
    ensures EndsWith(p, "." + ext)
    ensures !StartsWith(fileId, "/") && IsDir(mediaDir) ==> p == mediaDir + "/" + fileId + "." + ext
  {
    assert fileId + "." + ext == fileId + ("." + ext);
    Join(mediaDir, fileId + "." + ext)
  }

  /** With the default extension the path always names an `.xlsx` file. */
  lemma DefaultPathIsXlsx(mediaDir: string, fileId: string)
    ensures EndsWith(ResolveFilePath(mediaDir, fileId, DefaultExt), ".xlsx")
  {
    DottedDefault();
  }

  lemma DottedDefault()
    ensures "." + DefaultExt == ".xlsx"
  {
  }

  /** `get_insights_path(file_id)`: the insights directory joined with
      "{file_id}.json". */
  function InsightsPath(insightDir: string, fileId: string): (p: string)
    ensures EndsWith(p, fileId + ".json")
    ensures !StartsWith(fileId, "/") && IsDir(insightDir) ==> p == insightDir + "/" + fileId + ".json"
  {
    var name := fileId + ".json";
    assert StartsWith(name, "/") ==> StartsWith(fileId, "/") by {
      if StartsWith(name, "/") {
        assert name[0] == '/';
        assert fileId[..1] == name[..1];
      }
    }
    assert insightDir + "/" + fileId + ".json" == insightDir + "/" + name;
    Join(insightDir, name)
  }

  /** Distinct identifiers that are single path components get distinct
      insight files. */
  lemma {:induction false} InsightsPathInjective(insightDir: string, a: string, b: string)
    requires IsDir(insightDir)
    requires '/' !in a && '/' !in b
    requires InsightsPath(insightDir, a) == InsightsPath(insightDir, b)
    ensures a == b
  {
    assert !StartsWith(a + ".json", "/") by { if |a| > 0 { assert (a + ".json")[0] == a[0]; } }
    assert !StartsWith(b + ".json", "/") by { if |b| > 0 { assert (b + ".json")[0] == b[0]; } }
    var pa := insightDir + "/" + a + ".json";
    var pb := insightDir + "/" + b + ".json";
    assert pa == InsightsPath(insightDir, a) && pb == InsightsPath(insightDir, b);
    assert |a| == |b|;
    var n := |insightDir| + 1;
    assert a == pa[n..n + |a|];
    assert b == pb[n..n + |b|];
  }

  /** Without that restriction injectivity fails: an absolute identifier that
      spells out the insights directory lands on the same file. */
  lemma InsightsPathCollision(insightDir: string, fileId: string)
    requires IsDir(insightDir)
    requires '/' !in fileId
    ensures insightDir + "/" + fileId != fileId
    ensures InsightsPath(insightDir, insightDir + "/" + fileId) == InsightsPath(insightDir, fileId)
  {
    var abs := insightDir + "/" + fileId;
    assert abs[0] == '/';
    assert abs + ".json" == insightDir + "/" + fileId + ".json";
    assert StartsWith(abs + ".json", "/");
    assert !StartsWith(fileId + ".json", "/") by {
      assert (fileId + ".json")[0] != '/';
    }
    assert |abs| > |fileId|;
  }

  /** `filename.split(".")[-1]` in `save_file`: the text after the last dot,
      or the whole name when it has no dot. */
  function ExtensionOf(filename: string): (ext: string)
    ensures '.' !in ext
    ensures EndsWith(filename, ext)
    ensures |ext| < |filename| ==> filename[|filename| - |ext| - 1] == '.'
    ensures ext == filename <==> '.' !in filename
  {
    if filename == [] then []
    else if filename[|filename| - 1] == '.' then []
    else
      var init := filename[..|filename| - 1];
      assert filename == init + [filename[|filename| - 1]];
      ExtensionOf(init) + [filename[|filename| - 1]]
  }

  /** The path `save_file` writes an upload to. */
  function SavedPath(mediaDir: string, fileId: string, filename: string): (p: string)
    ensures EndsWith(p, "." + ExtensionOf(filename))
    ensures !StartsWith(fileId, "/") && IsDir(mediaDir) ==> p == mediaDir + "/" + fileId + "." + ExtensionOf(filename)
  {
    ResolveFilePath(mediaDir, fileId, ExtensionOf(filename))
  }

  predicate HasNonDot(p: string, lo: int, hi: int)
    requires 0 <= lo && hi <= |p|
  {
    exists k :: lo <= k < hi && p[k] != '.'
  }

  /** `os.path.splitext(p)[1]` on POSIX: from the last dot of the last path
      component to the end, provided some character before that dot in the
      component is not a dot; otherwise empty. */
  function SplitExt(p: string): (ext: string)
    ensures ext == [] || (ext[0] == '.' && EndsWith(p, ext) && '/' !in ext && '.' !in ext[1..])
  {
    var sep := LastIndex(p, '/');
    var dot := LastIndex(p, '.');
    if dot > sep && HasNonDot(p, sep + 1, dot) then
      assert forall k :: dot < k < |p| ==> p[k] != '.' && p[k] != '/';
      p[dot..]
    else []
  }

  /** The extension of a path whose last component is `name + "." + ext`. */
  lemma SplitExtOfComponent(p: string, dirPart: string, name: string, ext: string)
    requires p == dirPart + name + "." + ext
    requires dirPart == [] || dirPart[|dirPart| - 1] == '/'
    requires '/' !in name && '/' !in ext && '.' !in ext
    ensures SplitExt(p) == if HasNonDot(name, 0, |name|) then "." + ext else []
  {
    var d := |dirPart| + |name|;
    assert p[d] == '.';
    assert p[d + 1..] == ext;
    assert LastIndex(p, '.') == d by {
      forall k | d < k < |p| ensures p[k] != '.' { assert p[k] == ext[k - d - 1]; }
      LastIndexAt(p, '.', d);
    }
    assert LastIndex(p, '/') == |dirPart| - 1 by {
      forall k | |dirPart| <= k < |p| ensures p[k] != '/' {
        if k < d { assert p[k] == name[k - |dirPart|]; }
        else if k > d { assert p[k] == ext[k - d - 1]; }
      }
      if dirPart == [] {
        assert '/' !in p;
      } else {
        LastIndexAt(p, '/', |dirPart| - 1);
      }
    }
    if HasNonDot(name, 0, |name|) {
      var k :| 0 <= k < |name| && name[k] != '.';
      assert p[|dirPart| + k] == name[k];
      assert HasNonDot(p, |dirPart|, d);
      assert p[d..] == "." + ext;
    } else {
      forall j | |dirPart| <= j < d ensures p[j] == '.' { assert p[j] == name[j - |dirPart|]; }
      assert !HasNonDot(p, |dirPart|, d);
    }
  }

  /** The directory part that `Join` puts in front of a relative name. */
  lemma JoinRelative(dir: string, name: string) returns (dirPart: string)
    requires !StartsWith(name, "/")
    ensures Join(dir, name) == dirPart + name
    ensures dirPart == [] || dirPart[|dirPart| - 1] == '/'
  {
    if dir == [] || dir[|dir| - 1] == '/' { dirPart := dir; }
    else { dirPart := dir + "/"; }
  }

  /** The extension services.py:58 recovers from a saved upload is a dot
      followed by the lower-cased extension of the uploaded name. */
  lemma SavedPathExtension(mediaDir: string, fileId: string, filename: string)
    requires fileId != [] && '/' !in fileId && '.' !in fileId
    requires '/' !in ExtensionOf(filename)
    ensures Lower(SplitExt(SavedPath(mediaDir, fileId, filename))) == "." + Lower(ExtensionOf(filename))
  {
    ResolvedExtension(mediaDir, fileId, ExtensionOf(filename));
  }

  lemma ResolvedExtension(mediaDir: string, fileId: string, ext: string)
    requires fileId != [] && '/' !in fileId && '.' !in fileId
    requires '/' !in ext && '.' !in ext
    ensures Lower(SplitExt(ResolveFilePath(mediaDir, fileId, ext))) == "." + Lower(ext)
  {
    var dirPart := ResolvedParts(mediaDir, fileId, ext);
    assert HasNonDot(fileId, 0, |fileId|) by { assert fileId[0] != '.'; }
    SplitExtOfComponent(ResolveFilePath(mediaDir, fileId, ext), dirPart, fileId, ext);
    LowerDotted(ext);
  }

  /** The resolved path of an id without `/` is a directory part ending in a
      separator (or empty), then "{file_id}.{ext}". */
  lemma ResolvedParts(mediaDir: string, fileId: string, ext: string) returns (dirPart: string)
    requires '/' !in fileId
    ensures ResolveFilePath(mediaDir, fileId, ext) == dirPart + fileId + "." + ext
    ensures dirPart == [] || dirPart[|dirPart| - 1] == '/'
  {
    var name := fileId + "." + ext;
    assert name == fileId + ("." + ext);
    assert !StartsWith(name, "/") by {
      if fileId == [] { assert name[0] == '.'; } else { assert name[0] == fileId[0]; }
    }
    dirPart := JoinRelative(mediaDir, name);
  }

  lemma LowerDotted(ext: string)
    ensures Lower("." + ext) == "." + Lower(ext)
  {
    LowerAppend(".", ext);
    LowerKeeps(".");
  }

  /** The extension `generate_insights` computes from the default path: the
      tabular ".xlsx" exactly when the identifier has a character other than
      a dot, and empty (an unsupported type) for "", ".", "..", and so on. */
  lemma GenerationPathExtension(mediaDir: string, fileId: string)
    requires '/' !in fileId
    ensures Lower(SplitExt(ResolveFilePath(mediaDir, fileId, DefaultExt)))
         == if HasNonDot(fileId, 0, |fileId|) then ".xlsx" else ""
  {
    DefaultSplitExt(mediaDir, fileId);
    LowerXlsx();
    assert Lower([]) == [];
  }

  lemma DefaultSplitExt(mediaDir: string, fileId: string)
    requires '/' !in fileId
    ensures SplitExt(ResolveFilePath(mediaDir, fileId, DefaultExt))
         == if HasNonDot(fileId, 0, |fileId|) then "." + DefaultExt else []
  {
    var dirPart := ResolvedParts(mediaDir, fileId, DefaultExt);
    SplitExtOfComponent(ResolveFilePath(mediaDir, fileId, DefaultExt), dirPart, fileId, DefaultExt);
  }

  lemma LowerXlsx()
    ensures Lower("." + DefaultExt) == ".xlsx"
  {
    DottedDefault();
    LowerKeeps(".xlsx");
  }
}
