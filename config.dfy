/**
 The skip lists of aider-cli.py and what filtering with them does. The
 directory list is compared as literal prefixes, so its glob-looking entry
 `*.egg-info` never applies, and `build` also drops `buildtools/`.
 */
module Config {
  import opened Strings
  import opened Paths
  import opened Glob
  import opened Filter

  const CacheFiles: seq<string> :=
    ["*.pyc", "*.class", "*.o", "*.obj", "*.dll", "*.exe", "*.so", "*.cache", "*.swp", "*~"]

  const CacheDirs: seq<string> :=
    ["__pycache__", "node_modules", "target", "build", "dist", ".cache", ".pytest_cache",
     "*.egg-info", "vendor", ".gradle"]

  const SkipFiles: seq<string> :=
    ["__init__.py", "aider-cli.py", "aider-cli.sh", ".aider.chat.history.md", ".aider.conf.yml",
     ".aider.input..aider.input.history", ".aider.tags..aider.tags.cache.v3/", ".codeiumignore",
     "README.md", "ARCHITECTURE.md"] + CacheFiles

  const SkipDirs: seq<string> :=
    [".git/", "config/", "docs/", "input/", "output/", "markdowns/"] + CacheDirs

  /** Every configured file pattern is a literal name or `*` followed by a
      literal suffix, the two shapes the glob matcher is proved correct on. */
  lemma SkipFilesAreSimple()
    ensures forall i :: 0 <= i < |SkipFiles| ==> IsLiteral(SkipFiles[i]) || IsStarSuffix(SkipFiles[i])
  {
  }

  /** A non-directory entry that survives the configured filter has a
      basename that does not start with '.', is none of the listed names and
      ends with none of the listed suffixes. */
  lemma KeptFileNames(f: string)
    requires !IsDir(f)
    requires ShouldKeep(f, SkipFiles, SkipDirs)
    ensures !StartsWith(Basename(f), ".")
    ensures forall i :: 0 <= i < |SkipFiles| && IsLiteral(SkipFiles[i]) ==> Basename(f) != SkipFiles[i]
    ensures forall i :: 0 <= i < |SkipFiles| && !IsLiteral(SkipFiles[i]) ==> !EndsWith(Basename(f), SkipFiles[i][1..])
  {
    SkipFilesAreSimple();
    KeptFileAvoidsPatterns(f, SkipFiles, SkipDirs);
  }

  /** `*.egg-info` is compared as a literal prefix, so an egg-info directory
      is not skipped. */
  lemma EggInfoDirIsKept()
    ensures ShouldKeep("pkg.egg-info/", SkipFiles, SkipDirs)
  {
    var f := "pkg.egg-info/";
    assert IsDir(f) by {
      assert f[|f| - 1..] == "/";
    }
    forall i | 0 <= i < |SkipDirs|
      ensures !StartsWith(f, SkipDirs[i])
    {
      assert SkipDirs[i] != [] && SkipDirs[i][0] != 'p';
    }
  }

  /** `build` has no trailing slash, so it also skips `buildtools/`. */
  lemma BuildSkipsBuildtools()
    ensures !ShouldKeep("buildtools/", SkipFiles, SkipDirs)
  {
    var f := "buildtools/";
    assert IsDir(f) by {
      assert f[|f| - 1..] == "/";
    }
    assert SkipDirs[9] == "build";
    assert f[..5] == "build";
  }

  /** The pattern `.aider.tags..aider.tags.cache.v3/` holds a '/', which no
      basename does, so it never matches. */
  lemma SlashPatternIsInert(f: string)
    ensures !GlobMatch(Basename(f), ".aider.tags..aider.tags.cache.v3/")
  {
    SlashPatternNeverMatches(Basename(f), ".aider.tags..aider.tags.cache.v3/");
  }

  lemma NestedBasename()
    ensures Basename("node_modules/y.js") == "y.js"
  {
    var f := "node_modules/y.js";
    assert f[12] == '/' && forall k :: 12 < k < |f| ==> f[k] != '/';
    assert LastSlash(f) == 12;
  }

  /** A name whose last character differs from a simple pattern's last
      character (or that is shorter than a `*`-suffix) does not match it. */
  lemma LastCharMismatch(name: string, pattern: string)
    requires IsLiteral(pattern) || IsStarSuffix(pattern)
    requires name != [] && |pattern| >= 2
    requires name[|name| - 1] != pattern[|pattern| - 1] || (IsStarSuffix(pattern) && |pattern| - 1 > |name|)
    ensures !GlobMatch(name, pattern)
  {
    MatchShapes(name, pattern);
  }

  lemma NoSkipPatternMatchesYJs()
    ensures forall i :: 0 <= i < |SkipFiles| ==> !GlobMatch("y.js", SkipFiles[i])
  {
    SkipFilesAreSimple();
    forall i | 0 <= i < |SkipFiles|
      ensures !GlobMatch("y.js", SkipFiles[i])
    {
      LastCharMismatch("y.js", SkipFiles[i]);
    }
  }

  /** A file under a skipped directory is judged by its basename only, so
      `node_modules/y.js` stays in the list. */
  lemma NestedFileOfSkippedDirIsKept()
    ensures ShouldKeep("node_modules/y.js", SkipFiles, SkipDirs)
  {
    NestedBasename();
    NoSkipPatternMatchesYJs();
    var f := "node_modules/y.js";
    assert !IsDir(f) by {
      assert f[|f| - 1..] == "s";
    }
    assert !StartsWith("y.js", ".") by {
      assert "y.js"[..1] == "y";
    }
  }

  /** The directory entry `node_modules/` itself is skipped. */
  lemma SkippedDirEntryIsDropped()
    ensures !ShouldKeep("node_modules/", SkipFiles, SkipDirs)
  {
    var d := "node_modules/";
    assert IsDir(d) by {
      assert d[|d| - 1..] == "/";
    }
    assert SkipDirs[7] == "node_modules";
    assert d[..12] == "node_modules";
  }

  /** `__init__.py` is skipped in any directory. */
  lemma InitFileIsDropped()
    ensures !ShouldKeep("b/__init__.py", SkipFiles, SkipDirs)
  {
    var g := "b/__init__.py";
    assert g[1] == '/' && forall k :: 1 < k < |g| ==> g[k] != '/';
    assert LastSlash(g) == 1;
    assert Basename(g) == "__init__.py";
    assert SkipFiles[0] == "__init__.py";
    MatchShapes("__init__.py", "__init__.py");
  }
}
