/** The agent's file classifier: every file name falls into exactly one of
    three categories, decided by fixed pattern lists, a few hand-coded
    regular expressions and the MAIN extension list; results are cached per
    path in a cache that is emptied wholesale once it holds more than 1000
    entries. */
module FileClassifier {
  import opened Base

  datatype Category = Main | Temporary | Ignore

  const MaxCacheSize: nat := 1000

  /** Extensions of the documents whose editing sessions are tracked. */
  const MainExtensions: seq<string> := [
    ".doc", ".docx", ".xls", ".xlsx", ".ppt", ".pptx", ".rtf",
    ".pdf", ".txt", ".md",
    ".odt", ".ods", ".odp",
    ".dwg", ".dxf", ".dgn", ".rvt", ".rfa", ".rte", ".sat", ".ipt", ".iam", ".prt", ".asm",
    ".sldprt", ".sldasm", ".3dm", ".skp", ".max", ".blend", ".mb", ".ma",
    ".crproj", ".credoproj", ".gpx", ".kml", ".kmz",
    ".zip", ".rar", ".7z", ".iso",
    ".jpg", ".jpeg", ".png", ".bmp", ".tiff", ".tif"]

  /** Static TEMPORARY patterns (none holds a wildcard). */
  const TemporaryPatterns: seq<string> := [
    ".tmp", ".temp", ".crdownload", ".part",
    "~$", "~wr", "~wrd", "~wrl", "~rf",
    ".bak", ".dwl", ".dwl2", ".sv$", ".autosave",
    ".lock", ".lck"]

  /** Static IGNORE patterns (none holds a wildcard). */
  const IgnorePatterns: seq<string> := [
    ".log", ".cache", ".DS_Store", ".thumb", ".thumbs", "desktop.ini", ".tmp.metadata"]

  // ---------------------------------------------------------------------
  // Pattern matching

  /** `fnmatch` matching with `*` (any run) and `?` (any one character);
      every other character stands for itself. */
  predicate Glob(s: string, p: string)
    decreases |s| + |p|
  {
    if p == [] then s == []
    else if p[0] == '*' then Glob(s, p[1..]) || (s != [] && Glob(s[1..], p))
    else s != [] && (p[0] == '?' || p[0] == s[0]) && Glob(s[1..], p[1..])
  }

  predicate Literal(p: string) { '*' !in p && '?' !in p }

  /** A pattern without wildcards matches only itself. */
  lemma {:induction false} GlobLiteral(s: string, p: string)
    requires Literal(p)
    ensures Glob(s, p) <==> s == p
    decreases |p|
  {
    if p != [] && s != [] {
      GlobLiteral(s[1..], p[1..]);
      assert s == [s[0]] + s[1..] && p == [p[0]] + p[1..];
    }
  }

  /** `_matches_pattern`: a `*x` suffix test, else an `x*` prefix test, else
      fnmatch for patterns holding `*` elsewhere, else equality, else the
      pattern translated to an anchored regular expression. */
  predicate MatchesPattern(name: string, p: string)
  {
    if |p| > 0 && p[0] == '*' && EndsWith(name, p[1..]) then true
    else if |p| > 0 && p[|p| - 1] == '*' && StartsWith(name, p[..|p| - 1]) then true
    else if '*' in p then Glob(NormCase(name), NormCase(p))
    else if name == p then true
    else Glob(name, p)
  }

  /** A static pattern without wildcards matches only an identical name. */
  lemma LiteralPatternMatchesOnlyItself(name: string, p: string)
    requires Literal(p)
    ensures MatchesPattern(name, p) <==> name == p
  {
    GlobLiteral(name, p);
  }

  predicate AnyMatch(name: string, patterns: seq<string>)
  {
    exists i | 0 <= i < |patterns| :: MatchesPattern(name, patterns[i])
  }

  /** Over a list of literal patterns, matching is list membership. */
  lemma {:induction false} AnyMatchLiterals(name: string, patterns: seq<string>)
    requires forall i | 0 <= i < |patterns| :: Literal(patterns[i])
    ensures AnyMatch(name, patterns) <==> name in patterns
  {
    forall i | 0 <= i < |patterns|
      ensures MatchesPattern(name, patterns[i]) <==> name == patterns[i]
    {
      LiteralPatternMatchesOnlyItself(name, patterns[i]);
    }
  }

  // ---------------------------------------------------------------------
  // Character classes of the hand-coded regular expressions

  /** `[0-9A-F]` under IGNORECASE. */
  predicate HexCI(c: char) { IsDigit(c) || ('A' <= c <= 'F') || ('a' <= c <= 'f') }
  /** `[A-F0-9]` without IGNORECASE. */
  predicate UpperHex(c: char) { IsDigit(c) || ('A' <= c <= 'F') }

  predicate AllHexCI(s: string) { forall i | 0 <= i < |s| :: HexCI(s[i]) }
  predicate AllUpperHex(s: string) { forall i | 0 <= i < |s| :: UpperHex(s[i]) }
  predicate AllAlnum(s: string) { forall i | 0 <= i < |s| :: IsAsciiAlnum(s[i]) }
  predicate AllDigits(s: string) { forall i | 0 <= i < |s| :: IsDigit(s[i]) }
  predicate NoNewline(s: string) { '\n' !in s }

  /** What `$` accepts after the last consumed character. */
  predicate EndAnchor(rest: string) { rest == [] || rest == ['\n'] }

  /** After a character run ending at index `k`: `suffix` (compared after
      lower-casing when `ci` holds), then `$`. */
  predicate SuffixThenEnd(name: string, k: int, suffix: string, ci: bool)
  {
    0 <= k <= |name| - |suffix|
    && (if ci then Lower(name[k..k + |suffix|]) == suffix else name[k..k + |suffix|] == suffix)
    && EndAnchor(name[k + |suffix|..])
  }

  /** `^[0-9A-F]{4,16}SUFFIX$` under IGNORECASE, the run ending at `k`. */
  predicate HexRunAt(name: string, k: int, suffix: string)
  {
    4 <= k <= 16 && SuffixThenEnd(name, k, suffix, true) && AllHexCI(name[..k])
  }

  /** `^[A-Z0-9]{4,8}SUFFIX$` under IGNORECASE, the run ending at `k`. */
  predicate AlnumRunAt(name: string, k: int, suffix: string)
  {
    4 <= k <= 8 && SuffixThenEnd(name, k, suffix, true) && AllAlnum(name[..k])
  }

  /** `^[A-F0-9]{8}SUFFIX$` without IGNORECASE. */
  predicate UpperHex8(name: string, suffix: string)
  {
    SuffixThenEnd(name, 8, suffix, false) && AllUpperHex(name[..8])
  }

  /** The five extended patterns, applied to the name as given, ignoring case. */
  predicate ExtendedTemporary(name: string)
  {
    (exists k | 4 <= k <= 16 :: HexRunAt(name, k, ""))
    || (exists k | 4 <= k <= 16 :: HexRunAt(name, k, ".tmp"))
    || (exists k | 4 <= k <= 16 :: HexRunAt(name, k, ".temp"))
    || (exists k | 4 <= k <= 8 :: AlnumRunAt(name, k, ""))
    || (exists k | 4 <= k <= 8 :: AlnumRunAt(name, k, ".tmp"))
  }

  /** `PREFIX\d+\.tmp` at the start of the name, digits ending at index `k`. */
  predicate DigitsTmpAt(s: string, prefix: string, k: int)
  {
    |prefix| < k <= |s| - 4 && StartsWith(s, prefix) && AllDigits(s[|prefix|..k]) && s[k..k + 4] == ".tmp"
  }

  /** `~rf.*\.tmp`: `.tmp` found at index `k` with no line feed before it. */
  predicate RfTmpAt(s: string, k: int)
  {
    3 <= k <= |s| - 4 && StartsWith(s, "~rf") && NoNewline(s[3..k]) && s[k..k + 4] == ".tmp"
  }

  /** `.*\.tmp\..*`: `.tmp.` found at index `k` with no line feed before it. */
  predicate DoubleExtensionAt(s: string, k: int)
  {
    0 <= k <= |s| - 5 && NoNewline(s[..k]) && s[k..k + 5] == ".tmp."
  }

  /** The application-specific patterns, applied to the lower-cased name. */
  predicate SpecificTemporary(lower: string)
  {
    (exists k | 0 <= k <= |lower| :: DigitsTmpAt(lower, "~wrl", k))
    || (exists k | 0 <= k <= |lower| :: DigitsTmpAt(lower, "~wrd", k))
    || (exists k | 0 <= k <= |lower| :: RfTmpAt(lower, k))
    || (exists k | 0 <= k <= |lower| :: DoubleExtensionAt(lower, k))
    || StartsWith(lower, "~$")
    || UpperHex8(lower, ".tmp")
    || UpperHex8(lower, "")
  }

  /** `str.isupper()` on ASCII: some letter, and no lower-case letter. */
  predicate IsUpperText(s: string)
  {
    (exists i | 0 <= i < |s| :: IsAsciiLetter(s[i]))
    && forall i | 0 <= i < |s| :: !IsAsciiLowerCase(s[i])
  }

  /** The last rule: a short extension-less alphanumeric name that is
      upper-case or entirely hexadecimal. */
  predicate ShortOpaqueName(name: string)
  {
    '.' !in name && 0 < |name| <= 8 && AllAlnum(name) && (IsUpperText(name) || AllHexCI(name))
  }

  // ---------------------------------------------------------------------
  // The rules in order

  /** `_is_ignored_file`: the lower-cased name against the IGNORE list and
      the configured ignore patterns. */
  predicate IsIgnoredName(name: string, userPatterns: seq<string>)
  {
    AnyMatch(Lower(name), IgnorePatterns) || AnyMatch(Lower(name), userPatterns)
  }

  /** `_is_temporary_file`. */
  predicate IsTemporaryName(name: string)
  {
    AnyMatch(Lower(name), TemporaryPatterns)
    || ExtendedTemporary(name)
    || SpecificTemporary(Lower(name))
    || ShortOpaqueName(name)
  }

  /** The category `get_file_category` computes for a base name. */
  function Classify(name: string, userPatterns: seq<string>): Category
  {
    if IsIgnoredName(name, userPatterns) then Ignore
    else if IsTemporaryName(name) then Temporary
    else if Lower(Extension(name)) in MainExtensions then Main
    else Ignore
  }

  /** `should_monitor_file_by_name` without its cache. */
  predicate MonitoredByName(path: string, userPatterns: seq<string>)
  {
    Classify(BaseName(path), userPatterns) != Ignore
  }

  // ---------------------------------------------------------------------
  // Properties of the rules

  /** IGNORE wins; TEMPORARY wins over MAIN; MAIN needs a listed extension;
      everything else is IGNORE. */
  lemma ClassifyPrecedence(name: string, userPatterns: seq<string>)
    ensures var c := Classify(name, userPatterns);
      && (c == Ignore <==>
            (IsIgnoredName(name, userPatterns)
             || (!IsTemporaryName(name) && Lower(Extension(name)) !in MainExtensions)))
      && (c == Temporary <==> !IsIgnoredName(name, userPatterns) && IsTemporaryName(name))
      && (c == Main ==> Lower(Extension(name)) in MainExtensions)
  {
  }

  /** The static TEMPORARY list only ever matches a name equal to an entry:
      `.tmp` matches a file called exactly `.tmp`, not `x.tmp`. */
  lemma StaticTemporaryListIsExact(name: string)
    ensures AnyMatch(Lower(name), TemporaryPatterns) <==> Lower(name) in TemporaryPatterns
  {
    AnyMatchLiterals(Lower(name), TemporaryPatterns);
  }

  /** Names starting with `~$` are TEMPORARY unless an IGNORE pattern matches. */
  lemma OfficeOwnerFileIsTemporary(name: string, userPatterns: seq<string>)
    requires StartsWith(name, "~$")
    requires !IsIgnoredName(name, userPatterns)
    ensures Classify(name, userPatterns) == Temporary
  {
    assert Lower(name)[..2] == "~$";
  }

  /** Word's `~wrl<digits>.tmp` and `~wrd<digits>.tmp` and Excel's
      `~rf….tmp` are TEMPORARY unless an IGNORE pattern matches. */
  lemma OfficeScratchFileIsTemporary(name: string, userPatterns: seq<string>, k: int)
    requires var lower := Lower(name);
      DigitsTmpAt(lower, "~wrl", k) || DigitsTmpAt(lower, "~wrd", k) || RfTmpAt(lower, k)
    requires !IsIgnoredName(name, userPatterns)
    ensures Classify(name, userPatterns) == Temporary
  {
    assert 0 <= k <= |Lower(name)|;
  }

  /** Extension-less names of 4 to 8 ASCII letters and digits, in any case,
      are TEMPORARY unless an IGNORE pattern matches. */
  lemma ShortAlnumNameIsTemporary(name: string, userPatterns: seq<string>)
    requires 4 <= |name| <= 8 && AllAlnum(name)
    requires !IsIgnoredName(name, userPatterns)
    ensures Classify(name, userPatterns) == Temporary
  {
    assert name[..|name|] == name;
    assert AlnumRunAt(name, |name|, "");
  }

  /** So are shorter alphanumeric names that are upper-case or all hex. */
  lemma ShortOpaqueNameIsTemporary(name: string, userPatterns: seq<string>)
    requires ShortOpaqueName(name)
    requires !IsIgnoredName(name, userPatterns)
    ensures Classify(name, userPatterns) == Temporary
  {
  }

  /** A document with a listed extension that no earlier rule claims is
      MAIN, `report.docx` for one. */
  lemma ListedExtensionIsMain(name: string, userPatterns: seq<string>)
    requires !IsIgnoredName(name, userPatterns) && !IsTemporaryName(name)
    requires Lower(Extension(name)) in MainExtensions
    ensures Classify(name, userPatterns) == Main
  {
  }

  /** `should_monitor_file_by_name` holds exactly for TEMPORARY and MAIN. */
  lemma MonitoredByNameIffKept(path: string, userPatterns: seq<string>)
    ensures MonitoredByName(path, userPatterns)
        <==> Classify(BaseName(path), userPatterns) in {Temporary, Main}
  {
  }

  // ---------------------------------------------------------------------
  // Directory and size checks for MAIN files

  /** `_contains_ignore_dirs`: some configured directory, normalised by
      `normpath` and lower-cased, is a component of the path normalised the
      same way. */
  predicate ContainsIgnoreDir(path: string, ignoreDirs: seq<string>)
  {
    ignoreDirs != []
    && exists i | 0 <= i < |ignoreDirs| :: Lower(NormPath(ignoreDirs[i])) in Split(Lower(NormPath(path)), '\\')
  }

  /** `_passes_additional_checks`; `size` is None when the size cannot be read. */
  predicate PassesAdditionalChecks(path: string, size: Option<int>,
                                   ignoreExtensions: seq<string>, ignoreDirs: seq<string>)
  {
    Lower(Extension(BaseName(path))) !in ignoreExtensions
    && !ContainsIgnoreDir(path, ignoreDirs)
    && !(size.Some? && size.value < 10)
  }

  /** A configured directory that still holds a separator after
      normalisation can never match, since path components hold none. */
  lemma NestedIgnoreDirNeverMatches(path: string, dir: string)
    requires '\\' in Lower(NormPath(dir))
    ensures !ContainsIgnoreDir(path, [dir])
  {
  }

  /** A separator after a plain directory name makes no difference: `temp\`
      and `temp/` exclude exactly the paths with a `temp` component. */
  lemma TrailingSeparatorIgnoreDir(path: string, d: string)
    requires PlainName(d)
    ensures ContainsIgnoreDir(path, [d + "\\"]) <==> ContainsIgnoreDir(path, [d])
    ensures ContainsIgnoreDir(path, [d + "/"]) <==> ContainsIgnoreDir(path, [d])
    ensures ContainsIgnoreDir(path, [d]) <==> Lower(d) in Split(Lower(NormPath(path)), '\\')
  {
    PlainNameNormalises(d);
    assert [d + "\\"][0] == d + "\\" && [d + "/"][0] == d + "/" && [d][0] == d;
  }

  // ---------------------------------------------------------------------
  // The validator object and its category cache

  class FileValidator {
    var cache: map<string, Category>
    var cacheHits: nat
    var cacheMisses: nat
    const ignorePatterns: seq<string>
    const ignoreExtensions: seq<string>
    const ignoreDirs: seq<string>

    /** The cache holds only values it computed, and at most one more entry
        than the limit. */
    ghost predicate Valid()
      reads this
    {
      |cache| <= MaxCacheSize + 1
      && forall p | p in cache :: cache[p] == Classify(BaseName(p), ignorePatterns)
    }

    constructor(ignorePatterns: seq<string>, ignoreExtensions: seq<string>, ignoreDirs: seq<string>)
      ensures Valid()
      ensures cache == map[] && cacheHits == 0 && cacheMisses == 0
      ensures this.ignorePatterns == ignorePatterns && this.ignoreExtensions == ignoreExtensions
      ensures this.ignoreDirs == ignoreDirs
    {
      cache := map[];
      cacheHits := 0;
      cacheMisses := 0;
      this.ignorePatterns := ignorePatterns;
      this.ignoreExtensions := ignoreExtensions;
      this.ignoreDirs := ignoreDirs;
    }

    /** `get_file_category`: the category of the path's base name, served from
        the cache when present; an over-full cache is emptied first. */
    method GetFileCategory(path: string) returns (c: Category)
      requires Valid()
      modifies this
      ensures Valid()
      ensures c == Classify(BaseName(path), ignorePatterns)
      ensures var hit := |old(cache)| <= MaxCacheSize && path in old(cache);
        && (hit ==> cache == old(cache))
        && (!hit ==> cache == (if |old(cache)| > MaxCacheSize then map[] else old(cache))[path := c])
        && cacheHits == old(cacheHits) + (if hit then 1 else 0)
        && cacheMisses == old(cacheMisses) + (if hit then 0 else 1)
    {
      if |cache| > MaxCacheSize {
        cache := map[];
      }
      c := CachedCategory(path);
    }

    /** The lookup of `get_file_category` once the cache has room: a hit is
        served from the cache, a miss is computed and stored. */
    method CachedCategory(path: string) returns (c: Category)
      requires Valid() && |cache| <= MaxCacheSize
      modifies this`cache, this`cacheHits, this`cacheMisses
      ensures Valid()
      ensures c == Classify(BaseName(path), ignorePatterns)
      ensures path in old(cache) ==> cache == old(cache) && cacheHits == old(cacheHits) + 1 && cacheMisses == old(cacheMisses)
      ensures path !in old(cache) ==> cache == old(cache)[path := c] && cacheHits == old(cacheHits) && cacheMisses == old(cacheMisses) + 1
    {
      if path in cache {
        cacheHits := cacheHits + 1;
        c := cache[path];
      } else {
        c := CacheMiss(path);
      }
    }

    /** A miss: the category is computed, counted and stored. */
    method CacheMiss(path: string) returns (c: Category)
      requires Valid() && |cache| <= MaxCacheSize && path !in cache
      modifies this`cache, this`cacheMisses
      ensures Valid()
      ensures c == Classify(BaseName(path), ignorePatterns)
      ensures cache == old(cache)[path := c] && cacheMisses == old(cacheMisses) + 1
    {
      cacheMisses := cacheMisses + 1;
      c := Categorize(BaseName(path));
      ghost var before := cache;
      cache := cache[path := c];
      assert |cache| == |before| + 1;
    }

    /** The rules `get_file_category` applies after a cache miss, in order:
        IGNORE, TEMPORARY, a listed MAIN extension, and IGNORE otherwise. */
    method Categorize(name: string) returns (c: Category)
      ensures c == Classify(name, ignorePatterns)
    {
      if IsIgnoredName(name, ignorePatterns) {
        return Ignore;
      }
      if IsTemporaryName(name) {
        return Temporary;
      }
      var ext := Lower(Extension(name));
      if ext in MainExtensions {
        return Main;
      }
      return Ignore;
    }

    /** `should_monitor_file`: existing regular files of category TEMPORARY,
        and MAIN files that pass the extension, directory and size checks. */
    method ShouldMonitorFile(path: string, isFile: bool, size: Option<int>) returns (b: bool)
      requires Valid()
      modifies this
      ensures Valid()
      ensures var c := Classify(BaseName(path), ignorePatterns);
        b <==> (isFile && (c == Temporary
                           || (c == Main && PassesAdditionalChecks(path, size, ignoreExtensions, ignoreDirs))))
      ensures !isFile ==> cache == old(cache)
    {
      if !isFile {
        return false;
      }
      var c := GetFileCategory(path);
      match c {
        case Ignore => b := false;
        case Temporary => b := true;
        case Main => b := PassesAdditionalChecks(path, size, ignoreExtensions, ignoreDirs);
      }
    }

    /** `should_monitor_file_by_name`: the category alone decides. */
    method ShouldMonitorFileByName(path: string) returns (b: bool)
      requires Valid()
      modifies this
      ensures Valid()
      ensures b == MonitoredByName(path, ignorePatterns)
    {
      var c := GetFileCategory(path);
      b := c != Ignore;
    }
  }
}
