/** Shared vocabulary: optional values and the ASCII string and Windows path
    helpers that the agent and the service rely on. */
module Base {

  datatype Option<T> = None | Some(value: T)

  // ---------------------------------------------------------------------
  // Characters and case

  predicate IsAsciiUpper(c: char) { 'A' <= c <= 'Z' }
  predicate IsAsciiLowerCase(c: char) { 'a' <= c <= 'z' }
  predicate IsDigit(c: char) { '0' <= c <= '9' }
  predicate IsAsciiLetter(c: char) { IsAsciiUpper(c) || IsAsciiLowerCase(c) }
  predicate IsAsciiAlnum(c: char) { IsAsciiLetter(c) || IsDigit(c) }

  /** Lower-casing of one character, restricted to ASCII letters. */
  function LowerChar(c: char): (r: char)
    ensures IsAsciiUpper(c) ==> r as int == c as int + 32
    ensures !IsAsciiUpper(c) ==> r == c
    ensures !IsAsciiUpper(r)
  {
    if IsAsciiUpper(c) then (c as int + 32) as char else c
  }

  /** `str.lower()` on ASCII text: position by position, letters folded. */
  function Lower(s: string): (r: string)
    ensures |r| == |s|
    ensures forall i | 0 <= i < |s| :: r[i] == LowerChar(s[i])
  {
    seq(|s|, i requires 0 <= i < |s| => LowerChar(s[i]))
  }

  lemma LowerIdempotent(s: string)
    ensures Lower(Lower(s)) == Lower(s)
  {
  }

  lemma LowerAppend(a: string, b: string)
    ensures Lower(a + b) == Lower(a) + Lower(b)
  {
  }

  // ---------------------------------------------------------------------
  // Substrings

  predicate StartsWith(s: string, prefix: string) { prefix <= s }

  predicate EndsWith(s: string, suffix: string)
  {
    |suffix| <= |s| && s[|s| - |suffix|..] == suffix
  }

  /** `sub in s` for Python strings. */
  predicate Contains(s: string, sub: string)
  {
    exists i | 0 <= i <= |s| - |sub| :: OccursAt(s, sub, i)
  }

  predicate OccursAt(s: string, sub: string, i: int)
  {
    0 <= i <= |s| - |sub| && s[i..i + |sub|] == sub
  }

  predicate HasChar(s: string, c: char) { c in s }

  /** ASCII whitespace as `str.strip()` removes it. */
  predicate IsSpace(c: char)
  {
    c == ' ' || c == '\t' || c == '\n' || c == '\r' || c as int == 11 || c as int == 12
  }

  /** `s.strip() == ""`. */
  predicate IsBlank(s: string)
  {
    forall i | 0 <= i < |s| :: IsSpace(s[i])
  }

  // ---------------------------------------------------------------------
  // Windows paths

  predicate IsSep(c: char) { c == '\\' || c == '/' }

  /** Index of the last separator strictly before position `end`, or -1. */
  function LastSep(s: string, end: nat): (r: int)
    requires end <= |s|
    ensures -1 <= r < end
  {
    if end == 0 then -1 else if IsSep(s[end - 1]) then end - 1 else LastSep(s, end - 1)
  }

  /** `LastSep` finds a separator, and none lies after it. */
  lemma {:induction false} LastSepFacts(s: string, end: nat)
    requires end <= |s|
    ensures var r := LastSep(s, end);
      && (r >= 0 ==> IsSep(s[r]))
      && forall j | r < j < end :: !IsSep(s[j])
  {
    if end > 0 && !IsSep(s[end - 1]) {
      LastSepFacts(s, end - 1);
    }
  }

  /** The text after the last separator (the whole string if there is none). */
  function AfterLastSep(p: string): string
  {
    p[LastSep(p, |p|) + 1..]
  }

  lemma AfterLastSepFacts(p: string)
    ensures EndsWith(p, AfterLastSep(p))
    ensures forall i | 0 <= i < |AfterLastSep(p)| :: !IsSep(AfterLastSep(p)[i])
  {
    var i := LastSep(p, |p|);
    LastSepFacts(p, |p|);
    forall k | 0 <= k < |AfterLastSep(p)|
      ensures !IsSep(AfterLastSep(p)[k])
    {
      assert AfterLastSep(p)[k] == p[i + 1 + k];
    }
  }

  /** `ntpath.basename`: drop a drive letter, then keep the last component. */
  function BaseName(p: string): string
  {
    if |p| >= 2 && p[1] == ':' && !IsSep(p[0]) then AfterLastSep(p[2..]) else AfterLastSep(p)
  }

  /** The basename is a suffix of the path and holds no separator.  (Kept
      apart from `BaseName` so that its quantifiers are only in scope where
      a proof asks for them.) */
  lemma BaseNameFacts(p: string)
    ensures EndsWith(p, BaseName(p))
    ensures forall i | 0 <= i < |BaseName(p)| :: !IsSep(BaseName(p)[i])
  {
    var r := BaseName(p);
    if |p| >= 2 && p[1] == ':' && !IsSep(p[0]) {
      AfterLastSepFacts(p[2..]);
      assert p[2..][|p| - 2 - |r|..] == p[|p| - |r|..];
    } else {
      AfterLastSepFacts(p);
    }
  }

  /** `ntpath.splitext(name)[1]` for a name without separators: the text from
      the last dot, unless every dot before it is a leading dot. */
  function Extension(name: string): string
  {
    var i := LastDot(name, |name|);
    if i < 0 || OnlyDots(name[..i]) then [] else name[i..]
  }

  /** The extension is a suffix of the name and is empty or starts with a
      dot, and no dot follows that one. */
  lemma ExtensionFacts(name: string)
    ensures EndsWith(name, Extension(name))
    ensures Extension(name) == [] || Extension(name)[0] == '.'
    ensures forall j | 0 < j < |Extension(name)| :: Extension(name)[j] != '.'
  {
    var i := LastDot(name, |name|);
    LastDotFacts(name, |name|);
    if !(i < 0 || OnlyDots(name[..i])) {
      forall j | 0 < j < |Extension(name)|
        ensures Extension(name)[j] != '.'
      {
        assert Extension(name)[j] == name[i + j];
      }
    }
  }

  /** Index of the last '.' strictly before position `end`, or -1. */
  function LastDot(s: string, end: nat): (r: int)
    requires end <= |s|
    ensures -1 <= r < end
  {
    if end == 0 then -1 else if s[end - 1] == '.' then end - 1 else LastDot(s, end - 1)
  }

  /** `LastDot` finds a dot, and none lies after it. */
  lemma {:induction false} LastDotFacts(s: string, end: nat)
    requires end <= |s|
    ensures var r := LastDot(s, end);
      && (r >= 0 ==> s[r] == '.')
      && forall j | r < j < end :: s[j] != '.'
  {
    if end > 0 && s[end - 1] != '.' {
      LastDotFacts(s, end - 1);
    }
  }

  predicate OnlyDots(s: string) { forall i | 0 <= i < |s| :: s[i] == '.' }

  /** `s.split(sep)`. */
  function Split(s: string, sep: char): (r: seq<string>)
    ensures |r| >= 1
    ensures forall k | 0 <= k < |r| :: sep !in r[k]
  {
    if |s| == 0 then [[]]
    else
      var rest := Split(s[1..], sep);
      if s[0] == sep then [[]] + rest else [[s[0]] + rest[0]] + rest[1..]
  }

  /** The text after the last occurrence of `c`, or all of `s` without one. */
  function AfterLast(s: string, c: char): (r: string)
    ensures EndsWith(s, r) && c !in r
    ensures c !in s ==> r == s
    ensures c in s ==> s[|s| - |r| - 1] == c
  {
    if s == [] then []
    else if c in s[1..] then
      var r := AfterLast(s[1..], c);
      assert s[1..][|s| - 1 - |r|..] == s[|s| - |r|..];
      r
    else if s[0] == c then s[1..]
    else
      assert c !in s by {
        forall i | 0 <= i < |s| ensures s[i] != c {
          if i > 0 { assert s[i] == s[1..][i - 1]; }
        }
      }
      s
  }

  /** The last piece of `s.split(c)` is the text after the last `c`. */
  lemma {:induction false} SplitLast(s: string, c: char)
    ensures var parts := Split(s, c); parts[|parts| - 1] == AfterLast(s, c)
  {
    if s != [] {
      SplitLast(s[1..], c);
      var rest := Split(s[1..], c);
      if s[0] != c && |rest| == 1 {
        assert c !in s[1..] by {
          if c in s[1..] {
            SplitSeparatorCount(s[1..], c);
          }
        }
      }
      if s[0] != c && |rest| > 1 {
        assert c in s[1..] by {
          SplitSeparatorCount(s[1..], c);
        }
      }
    }
  }

  /** `s.split(c)` has one piece more than `s` has occurrences of `c`; in
      particular a single piece means no `c` at all. */
  lemma {:induction false} SplitSeparatorCount(s: string, c: char)
    ensures |Split(s, c)| == 1 <==> c !in s
  {
    if s != [] {
      SplitSeparatorCount(s[1..], c);
      assert c in s <==> (s[0] == c || c in s[1..]) by {
        if c in s {
          var i :| 0 <= i < |s| && s[i] == c;
          if i > 0 { assert s[1..][i - 1] == c; }
        }
      }
    }
  }

  /** `ntpath.normcase` without its Unicode case folding: ASCII lower, '/' to '\'. */
  function NormCase(s: string): (r: string)
    ensures |r| == |s|
    ensures '/' !in r
  {
    seq(|s|, i requires 0 <= i < |s| => if s[i] == '/' then '\\' else LowerChar(s[i]))
  }

  // ---------------------------------------------------------------------
  // ntpath.normpath

  /** `'\\'.join(parts)`. */
  function Join(parts: seq<string>): string
  {
    if parts == [] then []
    else if |parts| == 1 then parts[0]
    else parts[0] + "\\" + Join(parts[1..])
  }

  /** `p.replace('/', '\\')`. */
  function Backslashed(p: string): (r: string)
    ensures |r| == |p| && '/' !in r
  {
    seq(|p|, i requires 0 <= i < |p| => if p[i] == '/' then '\\' else p[i])
  }

  /** The drive and root `normpath` keeps in front, whether there is a root,
      and the rest: `\x` is rooted, `X:\x` has a drive and a root, `X:x` a
      drive alone. */
  function SplitRoot(q: string): (string, bool, string)
  {
    if |q| >= 1 && q[0] == '\\' then ("\\", true, q[1..])
    else if |q| >= 2 && q[1] == ':' then
      if |q| >= 3 && q[2] == '\\' then (q[..3], true, q[3..]) else (q[..2], false, q[2..])
    else ([], false, q)
  }

  /** The component pass of `normpath`, one component at a time onto the
      components kept so far: empty and `.` components are dropped, `..`
      removes the component before it unless that is `..` too, and a
      leading `..` is dropped below a root and kept otherwise. */
  function NormComps(comps: seq<string>, rooted: bool): seq<string>
  {
    if comps == [] then []
    else
      var kept := NormComps(comps[..|comps| - 1], rooted);
      var c := comps[|comps| - 1];
      if c == [] || c == "." then kept
      else if c == ".." then
        if kept != [] && kept[|kept| - 1] != ".." then kept[..|kept| - 1]
        else if kept == [] && rooted then kept
        else kept + [c]
      else kept + [c]
  }

  /** `ntpath.normpath`: separators unified, then the components normalised
      behind the drive and root; an empty result is `.`. */
  function NormPath(p: string): string
  {
    var (prefix, rooted, rest) := SplitRoot(Backslashed(p));
    var comps := NormComps(Split(rest, '\\'), rooted);
    if prefix == [] && comps == [] then "." else prefix + Join(comps)
  }

  /** Components in normal form: none empty or `.`, `..` only in a leading
      run, and none at all below a root. */
  predicate NormalComps(comps: seq<string>, rooted: bool)
  {
    && (forall i | 0 <= i < |comps| :: comps[i] != [] && comps[i] != ".")
    && (forall i, j | 0 <= i < j < |comps| && comps[j] == ".." :: comps[i] == "..")
    && (rooted ==> forall i | 0 <= i < |comps| :: comps[i] != "..")
  }

  /** The component pass yields normal form. */
  lemma {:induction false} NormCompsNormal(comps: seq<string>, rooted: bool)
    ensures NormalComps(NormComps(comps, rooted), rooted)
  {
    if comps != [] {
      NormCompsNormal(comps[..|comps| - 1], rooted);
    }
  }

  /** Components already in normal form pass through unchanged, so the
      component pass is idempotent. */
  lemma {:induction false} NormCompsFixes(comps: seq<string>, rooted: bool)
    requires NormalComps(comps, rooted)
    ensures NormComps(comps, rooted) == comps
  {
    if comps != [] {
      var front := comps[..|comps| - 1];
      assert NormalComps(front, rooted);
      NormCompsFixes(front, rooted);
      assert comps == front + [comps[|comps| - 1]];
    }
  }

  lemma NormCompsIdempotent(comps: seq<string>, rooted: bool)
    ensures NormComps(NormComps(comps, rooted), rooted) == NormComps(comps, rooted)
  {
    NormCompsNormal(comps, rooted);
    NormCompsFixes(NormComps(comps, rooted), rooted);
  }

  /** A `..` cancels the ordinary component before it: `a\temp\..\b`
      keeps no `temp`. */
  lemma ParentCancels(comps: seq<string>, x: string, rooted: bool)
    requires x != [] && x != "." && x != ".."
    ensures NormComps(comps + [x, ".."], rooted) == NormComps(comps, rooted)
  {
    var c := comps + [x, ".."];
    assert c[..|c| - 1] == comps + [x];
    assert (comps + [x])[..|comps|] == comps;
    var kept := NormComps(comps + [x], rooted);
    assert kept == NormComps(comps, rooted) + [x];
    assert kept[..|kept| - 1] == NormComps(comps, rooted);
  }

  /** A plain directory name: no separator, no drive, and not `.` or `..`. */
  predicate PlainName(d: string)
  {
    d != [] && d != "." && d != ".." && '\\' !in d && '/' !in d && !(|d| >= 2 && d[1] == ':')
  }

  lemma {:induction false} SplitWithoutSep(s: string, c: char)
    requires c !in s
    ensures Split(s, c) == [s]
  {
    if s != [] {
      assert s[0] != c && c !in s[1..] by {
        assert s[0] in s;
        forall i | 0 <= i < |s[1..]| ensures s[1..][i] != c {
          assert s[1..][i] == s[i + 1];
        }
      }
      SplitWithoutSep(s[1..], c);
      assert [s[0]] + s[1..] == s;
    }
  }

  lemma {:induction false} SplitTrailingSep(s: string, c: char)
    requires c !in s
    ensures Split(s + [c], c) == [s, []]
  {
    if s == [] {
      assert Split([c], c) == [[]] + Split([], c);
    } else {
      assert (s + [c])[1..] == s[1..] + [c];
      assert s[0] != c && c !in s[1..] by {
        assert s[0] in s;
        forall i | 0 <= i < |s[1..]| ensures s[1..][i] != c {
          assert s[1..][i] == s[i + 1];
        }
      }
      SplitTrailingSep(s[1..], c);
      assert [s[0]] + s[1..] == s;
    }
  }

  /** `normpath` leaves a plain name alone and strips a separator after it. */
  lemma PlainNameNormalises(d: string)
    requires PlainName(d)
    ensures NormPath(d) == d && NormPath(d + "\\") == d && NormPath(d + "/") == d
  {
    assert Backslashed(d) == d;
    assert Backslashed(d + "/") == d + "\\";
    assert Backslashed(d + "\\") == d + "\\";
    SplitWithoutSep(d, '\\');
    SplitTrailingSep(d, '\\');
    assert NormComps([d], false) == [d];
    assert NormComps([d, []], false) == [d] by {
      assert [d, []][..1] == [d];
    }
  }

  // ---------------------------------------------------------------------
  // Enumerations of sets

  /** `keys` lists the set `gone`, each member exactly once, in the order
      they were added. */
  ghost predicate Listed<T>(keys: seq<T>, gone: set<T>)
  {
    if keys == [] then gone == {}
    else keys[|keys| - 1] in gone && Listed(keys[..|keys| - 1], gone - {keys[|keys| - 1]})
  }

  lemma {:induction false} ListedFacts<T>(keys: seq<T>, gone: set<T>)
    requires Listed(keys, gone)
    ensures |gone| == |keys|
    ensures forall i | 0 <= i < |keys| :: keys[i] in gone
    ensures forall k | k in gone :: k in keys
    ensures forall i, j | 0 <= i < j < |keys| :: keys[i] != keys[j]
  {
    if keys != [] {
      var last := keys[|keys| - 1];
      var front := keys[..|keys| - 1];
      ListedFacts(front, gone - {last});
      assert forall i | 0 <= i < |front| :: keys[i] == front[i];
      forall k | k in gone ensures k in keys {
        if k != last {
          assert k in front;
        }
      }
    }
  }

  lemma ListedStep<T>(keys: seq<T>, gone: set<T>, k: T)
    requires Listed(keys, gone) && k !in gone
    ensures Listed(keys + [k], gone + {k})
  {
    assert (keys + [k])[..|keys|] == keys;
    assert (gone + {k}) - {k} == gone;
  }
}
