/**
  The two ways the core takes a file name's extension: `os.path.splitext`
  (the OCR image subtype), which reads the path as written, and
  `pathlib.PurePath.suffix` (upload classification), which reads the name
  pathlib keeps after parsing. Paths are POSIX paths with `/` as the only
  separator.
*/
module Paths {
  import opened Wrappers

  /** `s.rfind(c)`, with `None` for Python's `-1`. */
  function LastIndex(s: string, c: char): (r: Option<nat>)
    ensures r.None? <==> c !in s
    ensures r.Some? ==> r.value < |s| && s[r.value] == c && c !in s[r.value + 1..]
  {
    if s == "" then None
    else if s[|s| - 1] == c then Some(|s| - 1)
    else
      var r := LastIndex(s[..|s| - 1], c);
      assert s == s[..|s| - 1] + [s[|s| - 1]];
      r
  }

  /** The position where the last path component starts. */
  function NameStart(p: string): (k: nat)
    ensures k <= |p| && '/' !in p[k..]
  {
    match LastIndex(p, '/')
    case None => 0
    case Some(i) => i + 1
  }

  /**
    `os.path.splitext(p)[1]`: from the last dot of the last component, provided
    that some character before that dot in the component is not a dot.
  */
  function Extension(p: string): (e: string)
    ensures e == "" || (e[0] == '.' && '.' !in e[1..] && '/' !in e && |e| <= |p| && e == p[|p| - |e|..])
  {
    match LastIndex(p, '.')
    case None => ""
    case Some(d) =>
      var start := NameStart(p);
      if start <= d && exists k :: start <= k < d && p[k] != '.' then
        ExtensionTail(p, start, d);
        p[d..]
      else ""
  }

  lemma ExtensionTail(p: string, start: nat, d: nat)
    requires start <= d < |p| && '/' !in p[start..] && p[d] == '.' && '.' !in p[d + 1..]
    ensures var e := p[d..]; e[0] == '.' && '.' !in e[1..] && '/' !in e
  {
    assert p[d..][1..] == p[d + 1..];
    assert p[d..] == p[start..][d - start..];
  }

  /**
    `PurePath(p).name`: the last component once the path is parsed, which
    drops every empty component and every `.` component; `""` when none is left.
  */
  function Name(p: string): (n: string)
    ensures '/' !in n && n != "." && |n| <= |p|
    decreases |p|
  {
    var k := NameStart(p);
    var last := p[k..];
    if last != "" && last != "." then last
    else if k == 0 then ""
    else Name(p[..k - 1])
  }

  /** `PurePath(p).suffix`: the suffix of the name pathlib keeps. */
  function Suffix(p: string): (e: string)
    ensures e == "" || (|e| >= 2 && e[0] == '.' && '.' !in e[1..] && '/' !in e && |e| <= |Name(p)| && e == Name(p)[|Name(p)| - |e|..])
  {
    NameSuffix(Name(p))
  }

  /** The suffix of a name: from its last dot, provided that dot is neither its first nor its last character. */
  function NameSuffix(name: string): (e: string)
    ensures e == "" || (|e| >= 2 && e[0] == '.' && '.' !in e[1..] && |e| <= |name| && e == name[|name| - |e|..])
  {
    match LastIndex(name, '.')
    case None => ""
    case Some(i) =>
      if 0 < i < |name| - 1 then
        assert name[i..][1..] == name[i + 1..];
        name[i..]
      else ""
  }

  /** A last component that is neither empty nor `.` is the name. */
  lemma NameOfLast(p: string)
    requires var last := p[NameStart(p)..]; last != "" && last != "."
    ensures Name(p) == p[NameStart(p)..]
  {
  }

  /** The name holds no character the path does not. */
  lemma {:induction false} NameWithout(p: string, c: char)
    requires c !in p
    ensures c !in Name(p)
    decreases |p|
  {
    var k := NameStart(p);
    var last := p[k..];
    if last != "" && last != "." {
      assert forall i :: 0 <= i < |last| ==> last[i] == p[k + i];
    } else if k > 0 {
      assert c !in p[..k - 1] by {
        assert forall i :: 0 <= i < k - 1 ==> p[..k - 1][i] == p[i];
      }
      NameWithout(p[..k - 1], c);
    }
  }

  /** A trailing slash, or a trailing `/.`, does not change the name. */
  lemma NameIgnoresTrailing(p: string)
    ensures Name(p + "/") == Name(p)
    ensures Name(p + "/.") == Name(p)
  {
    var q, r := p + "/", p + "/.";
    assert LastIndex(q, '/') == Some(|p|);
    assert q[..|p|] == p;
    assert r[..|r| - 1] == q;
    assert LastIndex(r, '/') == Some(|p|);
    assert r[|p| + 1..] == "." && r[..|p|] == p;
  }

  /** Nor, then, does it change the suffix. */
  lemma SuffixIgnoresTrailing(p: string)
    ensures Suffix(p + "/") == Suffix(p) && Suffix(p + "/.") == Suffix(p)
  {
    NameIgnoresTrailing(p);
  }

  /** A name given with a trailing slash keeps its suffix. */
  lemma TrailingSlashSuffix()
    ensures Suffix("x.png/") == ".png"
  {
    TrailingSlashName();
    PngSuffix();
  }

  /** The trailing slash of "x.png/" is dropped from the name. */
  lemma TrailingSlashName()
    ensures Name("x.png/") == "x.png"
  {
    var p := "x.png/";
    assert LastIndex(p, '/') == Some(5);
    assert p[..5] == "x.png" && p[6..] == "";
    assert LastIndex("x.png", '/') == None;
  }

  /** The suffix of the name "x.png". */
  lemma PngSuffix()
    ensures NameSuffix("x.png") == ".png"
  {
    var name := "x.png";
    assert LastIndex(name, '.') == Some(1);
    assert name[1..] == ".png";
  }

  /** A dot followed by no more dots is the last dot. */
  lemma {:induction false} LastIndexAfter(a: string, c: char, b: string)
    requires c !in b
    ensures LastIndex(a + [c] + b, c) == Some(|a|)
  {
    var s := a + [c] + b;
    if b != "" {
      var b' := b[..|b| - 1];
      assert s[|s| - 1] == b[|b| - 1];
      assert c !in b' by {
        forall i | 0 <= i < |b'| ensures b'[i] != c { assert b'[i] == b[i]; }
      }
      assert s[..|s| - 1] == a + [c] + b';
      LastIndexAfter(a, c, b');
    }
  }

  /** Whether a name has a character other than a dot, as `splitext` asks of what precedes the last dot. */
  predicate HasNonDot(s: string) {
    exists k :: 0 <= k < |s| && s[k] != '.'
  }

  /**
    A path whose last component is `stem.e`, under a directory `dir` that is
    empty or ends with a slash. The last dot decides: the suffix is `.e` when
    `e` is not empty, and the extension is `.e` unless the stem is all dots.
  */
  lemma ExtensionOfName(dir: string, stem: string, e: string)
    requires dir == "" || dir[|dir| - 1] == '/'
    requires stem != "" && '/' !in stem
    requires '.' !in e && '/' !in e
    ensures Extension(dir + stem + "." + e) == if HasNonDot(stem) then "." + e else ""
    ensures Suffix(dir + stem + "." + e) == if e != "" then "." + e else ""
  {
    SplitextOfName(dir, stem, e);
    SuffixOfName(dir, stem, e);
  }

  /** The `splitext` half of the lemma above. */
  lemma SplitextOfName(dir: string, stem: string, e: string)
    requires dir == "" || dir[|dir| - 1] == '/'
    requires stem != "" && '/' !in stem
    requires '.' !in e && '/' !in e
    ensures Extension(dir + stem + "." + e) == if HasNonDot(stem) then "." + e else ""
  {
    var p := dir + stem + "." + e;
    var d := |dir| + |stem|;
    assert LastIndex(p, '.') == Some(d) && NameStart(p) == |dir| && p[d..] == "." + e && p[|dir|..d] == stem by {
      PlainName(dir, stem, e);
      assert p[|dir|..d] == p[|dir|..][..|stem|];
    }
    ExtensionAt(p, |dir|, d);
    assert p[d..] == "." + e && p[|dir|..d] == stem;
  }

  /** The `suffix` half of the lemma above. */
  lemma SuffixOfName(dir: string, stem: string, e: string)
    requires dir == "" || dir[|dir| - 1] == '/'
    requires stem != "" && '/' !in stem
    requires '.' !in e && '/' !in e
    ensures Suffix(dir + stem + "." + e) == if e != "" then "." + e else ""
  {
    NameOfPath(dir, stem, e);
    NameSuffixOf(stem, e);
  }

  /** The name of `dir + stem + "." + e` is its last component. */
  lemma NameOfPath(dir: string, stem: string, e: string)
    requires dir == "" || dir[|dir| - 1] == '/'
    requires stem != "" && '/' !in stem
    requires '.' !in e && '/' !in e
    ensures Name(dir + stem + "." + e) == stem + "." + e
  {
    var p, name := dir + stem + "." + e, stem + "." + e;
    assert NameStart(p) == |dir| && p[|dir|..] == name by { PlainName(dir, stem, e); }
    assert |name| >= 2;
    NameOfLast(p);
  }

  /** The suffix of the name `stem.e` is `.e`, unless `e` is empty. */
  lemma NameSuffixOf(stem: string, e: string)
    requires stem != "" && '.' !in e
    ensures NameSuffix(stem + "." + e) == if e != "" then "." + e else ""
  {
    var name := stem + "." + e;
    LastDot(stem, e);
    NameSuffixAt(name, |stem|);
    assert name[|stem|..] == "." + e;
  }

  /** `splitext` once the component's start and its last dot are known. */
  lemma ExtensionAt(p: string, start: nat, d: nat)
    requires LastIndex(p, '.') == Some(d) && NameStart(p) == start && start <= d
    ensures Extension(p) == if HasNonDot(p[start..d]) then p[d..] else ""
  {
    NonDotBetween(p, start, d);
  }

  /** The suffix of a name once its last dot is known. */
  lemma NameSuffixAt(name: string, i: nat)
    requires LastIndex(name, '.') == Some(i)
    ensures NameSuffix(name) == if 0 < i < |name| - 1 then name[i..] else ""
  {
  }

  /** Some character between `i` and `j` is not a dot exactly when that slice has one. */
  lemma NonDotBetween(p: string, i: nat, j: nat)
    requires i <= j <= |p|
    ensures (exists k :: i <= k < j && p[k] != '.') <==> HasNonDot(p[i..j])
  {
    if exists k :: i <= k < j && p[k] != '.' {
      var k :| i <= k < j && p[k] != '.';
      assert p[i..j][k - i] == p[k];
    }
    if HasNonDot(p[i..j]) {
      var k :| 0 <= k < j - i && p[i..j][k] != '.';
      assert p[i + k] == p[i..j][k];
    }
  }

  /** Where the last component of `dir + stem + "." + e` starts, and where its last dot is. */
  lemma PlainName(dir: string, stem: string, e: string)
    requires dir == "" || dir[|dir| - 1] == '/'
    requires stem != "" && '/' !in stem
    requires '.' !in e && '/' !in e
    ensures var p := dir + stem + "." + e;
      && LastIndex(p, '.') == Some(|dir| + |stem|) && NameStart(p) == |dir|
      && p[|dir|..] == stem + "." + e && p[|dir| + |stem|..] == "." + e
  {
    var p, name := dir + stem + "." + e, stem + "." + e;
    assert NameStart(p) == |dir| by {
      Regroup(dir, stem, ".", e);
      NameWithoutSlash(stem, e);
      NameStartUnder(dir, name);
    }
    assert LastIndex(p, '.') == Some(|dir| + |stem|) by {
      LastDot(dir + stem, e);
    }
    assert p[|dir|..] == name && p[|dir| + |stem|..] == "." + e by {
      Regroup(dir, stem, ".", e);
    }
  }

  /** `stem.e` has no slash when neither part has one. */
  lemma NameWithoutSlash(stem: string, e: string)
    requires '/' !in stem && '/' !in e
    ensures '/' !in stem + "." + e
  {
    var name := stem + "." + e;
    forall i | 0 <= i < |name| ensures name[i] != '/' {
      if i < |stem| { assert name[i] == stem[i]; }
      else if i > |stem| { assert name[i] == e[i - |stem| - 1]; }
    }
  }

  /** The dot written before a dotless `e` is the last dot. */
  lemma LastDot(prefix: string, e: string)
    requires '.' !in e
    ensures LastIndex(prefix + "." + e, '.') == Some(|prefix|)
  {
    assert prefix + "." + e == prefix + ['.'] + e;
    LastIndexAfter(prefix, '.', e);
  }

  /** `a + b + c + d` read as `a` before `b + c + d`, and the slices that drop `a` and `a + b`. */
  lemma Regroup(a: string, b: string, c: string, d: string)
    ensures a + b + c + d == a + (b + c + d)
    ensures (a + b + c + d)[|a|..] == b + c + d && (a + b + c + d)[|a| + |b|..] == c + d
  {
    assert a + b + c + d == a + (b + c + d);
    assert a + b + c + d == (a + b) + (c + d);
  }

  /** A component with no slash, under a directory ending with one, starts right after it. */
  lemma NameStartUnder(dir: string, name: string)
    requires dir == "" || dir[|dir| - 1] == '/'
    requires '/' !in name
    ensures NameStart(dir + name) == |dir|
  {
    if dir == "" {
      assert dir + name == name;
    } else {
      var d := dir[..|dir| - 1];
      assert dir + name == d + ['/'] + name;
      LastIndexAfter(d, '/', name);
    }
  }

  /** Without a dot there is neither an extension nor a suffix. */
  lemma NoDotNoExtension(p: string)
    requires '.' !in p
    ensures Extension(p) == "" && Suffix(p) == ""
  {
    NameWithout(p, '.');
  }
}
