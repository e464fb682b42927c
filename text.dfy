/** The handful of Python string and path primitives the core relies on,
    written out so that their edge cases are part of the model:
    `str.startswith`, `in` on strings, `str.split`, `str.strip`, ASCII
    `str.lower`, `str(int)`, `posixpath.join`, `posixpath.dirname` and the
    `name`/`stem`/`suffix`/`with_name` parts of `pathlib`. */
module Text {
  import opened Wrappers

  // ---------------------------------------------------------------------
  // Prefixes and substrings

  /** `s.startswith(p)` */
  predicate StartsWith(s: string, p: string) {
    |p| <= |s| && s[..|p|] == p
  }

  /** `p in s`: some suffix of `s` starts with `p`. */
  predicate Contains(s: string, p: string) {
    exists i | 0 <= i <= |s| :: StartsWith(s[i..], p)
  }

  lemma ContainsAt(s: string, p: string, i: nat)
    requires i <= |s| && StartsWith(s[i..], p)
    ensures Contains(s, p)
  {
  }

  /** A string contains every slice of itself. */
  lemma ContainsSlice(s: string, i: nat, j: nat)
    requires i <= j <= |s|
    ensures Contains(s, s[i..j])
  {
    assert s[i..][..j - i] == s[i..j];
    ContainsAt(s, s[i..j], i);
  }

  /** An occurrence inside `t` is an occurrence inside `s + t + u`. */
  lemma ContainsInfix(s: string, t: string, u: string, p: string)
    requires Contains(t, p)
    ensures Contains(s + t + u, p)
  {
    var i :| 0 <= i <= |t| && StartsWith(t[i..], p);
    var w := s + t + u;
    assert w[|s| + i..][..|p|] == t[i..][..|p|];
    ContainsAt(w, p, |s| + i);
  }

  /** `s.find(p)`, as an option: the first index at which `p` occurs
      (`FindSpec` states what it finds). */
  function Find(s: string, p: string): (r: Option<nat>)
    ensures r.Some? ==> r.value + |p| <= |s|
    decreases |s|
  {
    if StartsWith(s, p) then Some(0)
    else if s == [] then None
    else match Find(s[1..], p)
      case Some(j) => Some(j + 1)
      case None => None
  }

  /** `Find` gives the first occurrence, and nothing exactly when there is
      none. */
  lemma {:induction false} FindSpec(s: string, p: string)
    ensures Find(s, p).Some? ==> StartsWith(s[Find(s, p).value..], p)
    ensures Find(s, p).Some? ==> forall j | 0 <= j < Find(s, p).value :: !StartsWith(s[j..], p)
    ensures Find(s, p).None? <==> !Contains(s, p)
    decreases |s|
  {
    if StartsWith(s, p) {
      assert s[0..] == s;
      ContainsAt(s, p, 0);
    } else if s == [] {
      assert forall j | 0 <= j <= |s| :: s[j..] == s;
    } else {
      FindSpec(s[1..], p);
      assert s[0..] == s;
      assert forall j | 1 <= j <= |s| :: s[j..] == s[1..][j - 1..];
      if Contains(s, p) {
        var i :| 0 <= i <= |s| && StartsWith(s[i..], p);
        ContainsAt(s[1..], p, i - 1);
      }
      ContainsTail(s, p);
    }
  }

  // ---------------------------------------------------------------------
  // str.split(sep) and its inverse

  /** `s.split(sep)` for a non-empty separator. */
  function Split(s: string, sep: string): (r: seq<string>)
    requires sep != []
    ensures |r| >= 1
    decreases |s|, 0
  {
    match Find(s, sep)
    case None => [s]
    case Some(i) => SplitAt(s, sep, i)
  }

  /** The pieces when the first separator starts at `i`: the text before
      it, then the pieces of the text after it. */
  function SplitAt(s: string, sep: string, i: nat): (r: seq<string>)
    requires sep != [] && i + |sep| <= |s|
    ensures |r| >= 2
    decreases |s| - i - |sep|, 1
  {
    [s[..i]] + Split(s[i + |sep|..], sep)
  }

  /** Without a separator the text is its only piece. */
  lemma SplitNone(s: string, sep: string)
    requires sep != [] && Find(s, sep).None?
    ensures Split(s, sep) == [s]
  {
  }

  /** One step of `Split`: the piece before the first separator, then the
      pieces of the rest. */
  lemma SplitStep(s: string, sep: string, i: nat)
    requires sep != [] && Find(s, sep) == Some(i)
    ensures i + |sep| <= |s|
    ensures |Split(s, sep)| == 1 + |Split(s[i + |sep|..], sep)|
    ensures Split(s, sep)[0] == s[..i]
    ensures Split(s, sep)[1..] == Split(s[i + |sep|..], sep)
  {
    assert Split(s, sep) == SplitAt(s, sep, i);
    SplitAtParts(s, sep, i);
  }

  lemma SplitAtParts(s: string, sep: string, i: nat)
    requires sep != [] && i + |sep| <= |s|
    ensures |SplitAt(s, sep, i)| == 1 + |Split(s[i + |sep|..], sep)|
    ensures SplitAt(s, sep, i)[0] == s[..i]
    ensures SplitAt(s, sep, i)[1..] == Split(s[i + |sep|..], sep)
  {
  }

  /** The text before the first separator holds no separator. */
  lemma FirstPieceFree(s: string, sep: string, i: nat)
    requires sep != [] && i <= |s| && forall j | 0 <= j < i :: !StartsWith(s[j..], sep)
    ensures !Contains(s[..i], sep)
  {
    var piece := s[..i];
    forall j | 0 <= j <= |piece|
      ensures !StartsWith(piece[j..], sep)
    {
      if j + |sep| <= |piece| {
        assert piece[j..][..|sep|] == s[j..j + |sep|];
        assert s[j..][..|sep|] == s[j..j + |sep|];
      }
    }
  }

  /** No piece of a split holds the separator. */
  lemma {:induction false} SplitPieces(s: string, sep: string)
    requires sep != []
    ensures forall k | 0 <= k < |Split(s, sep)| :: !Contains(Split(s, sep)[k], sep)
    decreases |s|
  {
    FindSpec(s, sep);
    match Find(s, sep)
    case None =>
      SplitNone(s, sep);
    case Some(i) =>
      var tail := s[i + |sep|..];
      SplitStep(s, sep, i);
      SplitPieces(tail, sep);
      FirstPieceFree(s, sep, i);
      var parts := Split(s, sep);
      forall k | 0 <= k < |parts|
        ensures !Contains(parts[k], sep)
      {
        if k > 0 {
          assert parts[k] == parts[1..][k - 1];
        }
      }
  }

  /** `sep.join(parts)` */
  function Join(parts: seq<string>, sep: string): string
    decreases |parts|
  {
    if |parts| == 0 then ""
    else if |parts| == 1 then parts[0]
    else parts[0] + sep + Join(parts[1..], sep)
  }

  /** Splitting loses nothing: joining the pieces again gives the input. */
  lemma {:induction false} JoinSplit(s: string, sep: string)
    requires sep != []
    ensures Join(Split(s, sep), sep) == s
    decreases |s|
  {
    FindSpec(s, sep);
    match Find(s, sep)
    case None =>
      SplitNone(s, sep);
    case Some(i) =>
      var tail := s[i + |sep|..];
      SplitStep(s, sep, i);
      JoinSplit(tail, sep);
      JoinCons(Split(s, sep), sep, s[..i], tail);
      Reassemble(s, sep, i);
  }

  /** `Join` of two or more pieces: the first, the separator, then the
      join of the others. */
  lemma JoinCons(parts: seq<string>, sep: string, head: string, tail: string)
    requires |parts| >= 2 && parts[0] == head && Join(parts[1..], sep) == tail
    ensures Join(parts, sep) == head + sep + tail
  {
  }

  /** A string is the text before an occurrence of `sep`, `sep`, and the
      text after it. */
  lemma Reassemble(s: string, sep: string, i: nat)
    requires i <= |s| && StartsWith(s[i..], sep)
    ensures s == s[..i] + sep + s[i + |sep|..]
  {
    assert s[i..][..|sep|] == sep;
  }

  /** `Find` is the first occurrence: an occurrence with none before it is
      the one it finds. */
  lemma FindFirst(s: string, p: string, i: nat)
    requires i <= |s| && StartsWith(s[i..], p)
    requires forall j | 0 <= j < i :: !StartsWith(s[j..], p)
    ensures Find(s, p) == Some(i)
  {
    ContainsAt(s, p, i);
    FindSpec(s, p);
  }

  /** A string that lacks the first character of `p` does not contain `p`. */
  lemma NoCharNotContains(s: string, p: string)
    requires p != [] && NoChar(s, p[0])
    ensures !Contains(s, p)
  {
    forall i | 0 <= i <= |s|
      ensures !StartsWith(s[i..], p)
    {
      if i < |s| {
        assert s[i..][0] == s[i];
      }
    }
  }

  /** A string that starts with the separator splits into an empty first
      piece and at least one more. */
  lemma SplitAtPrefix(s: string, sep: string)
    requires sep != [] && StartsWith(s, sep)
    ensures |Split(s, sep)| >= 2 && Split(s, sep)[0] == ""
    ensures Split(s, sep)[1..] == Split(s[|sep|..], sep)
  {
    SplitStep(s, sep, 0);
  }

  /** The first piece of a split is a prefix of the string, and it runs
      up to the first separator or to the end. */
  lemma SplitHead(s: string, sep: string)
    requires sep != []
    ensures StartsWith(s, Split(s, sep)[0])
    ensures Split(s, sep)[0] == s || StartsWith(s[|Split(s, sep)[0]|..], sep)
  {
    match Find(s, sep)
    case None =>
      SplitNone(s, sep);
    case Some(i) =>
      SplitStep(s, sep, i);
      FindSpec(s, sep);
      assert s[..|s[..i]|] == s[..i];
  }

  /** Joining pieces none of which holds the separator's first character,
      then splitting, gives the pieces back. */
  lemma {:induction false} SplitJoin(parts: seq<string>, sep: string)
    requires sep != [] && |parts| >= 1
    requires forall k | 0 <= k < |parts| :: NoChar(parts[k], sep[0])
    ensures Split(Join(parts, sep), sep) == parts
    decreases |parts|
  {
    var s := Join(parts, sep);
    if |parts| == 1 {
      NoCharNotContains(s, sep);
      FindSpec(s, sep);
      SplitNone(s, sep);
    } else {
      var head := parts[0];
      var tail := Join(parts[1..], sep);
      assert s == head + sep + tail;
      assert s[|head|..][..|sep|] == sep;
      forall j | 0 <= j < |head|
        ensures !StartsWith(s[j..], sep)
      {
        assert s[j..][0] == head[j];
      }
      FindFirst(s, sep, |head|);
      SplitStep(s, sep, |head|);
      assert s[..|head|] == head;
      assert s[|head| + |sep|..] == tail;
      SplitJoin(parts[1..], sep);
      var r := Split(s, sep);
      assert r == [r[0]] + r[1..];
    }
  }

  /** `s.replace(p, "")`: every occurrence of `p`, scanning from the left
      without overlaps, removed. */
  function RemoveAll(s: string, p: string): (r: string)
    requires p != []
    ensures |r| <= |s|
    decreases |s|
  {
    if s == [] then ""
    else if StartsWith(s, p) then RemoveAll(s[|p|..], p)
    else [s[0]] + RemoveAll(s[1..], p)
  }

  lemma ContainsTail(s: string, p: string)
    requires s != []
    ensures Contains(s[1..], p) ==> Contains(s, p)
  {
    if Contains(s[1..], p) {
      var i :| 0 <= i <= |s[1..]| && StartsWith(s[1..][i..], p);
      assert s[1..][i..] == s[i + 1..];
      ContainsAt(s, p, i + 1);
    }
  }

  /** A string that does not contain `p` loses nothing, and a leading `p`
      in front of such a string is all that is removed. */
  lemma {:induction false} RemoveAllNone(s: string, p: string)
    requires p != [] && !Contains(s, p)
    ensures RemoveAll(s, p) == s
    ensures RemoveAll(p + s, p) == s
    decreases |s|
  {
    if s != [] {
      assert s[0..] == s;
      ContainsTail(s, p);
      RemoveAllNone(s[1..], p);
    }
    var t := p + s;
    assert t[..|p|] == p;
    assert t[|p|..] == s;
  }

  // ---------------------------------------------------------------------
  // str.strip()

  /** The characters Python's `str.strip()` removes (those for which
      `str.isspace()` holds). */
  predicate IsSpace(c: char) {
    c in {'\U{0020}', '\U{0009}', '\U{000A}', '\U{000D}', '\U{000B}', '\U{000C}', '\U{001C}', '\U{001D}',
          '\U{001E}', '\U{001F}', '\U{0085}', '\U{00A0}', '\U{1680}', '\U{2000}', '\U{2001}', '\U{2002}',
          '\U{2003}', '\U{2004}', '\U{2005}', '\U{2006}', '\U{2007}', '\U{2008}', '\U{2009}', '\U{200A}',
          '\U{2028}', '\U{2029}', '\U{202F}', '\U{205F}', '\U{3000}'}
  }

  /** The length of the run of white space that starts `s`. */
  function LeadingSpaces(s: string): (n: nat)
    ensures n <= |s|
    ensures forall k | 0 <= k < n :: IsSpace(s[k])
    ensures n < |s| ==> !IsSpace(s[n])
    decreases |s|
  {
    if s != [] && IsSpace(s[0]) then 1 + LeadingSpaces(s[1..]) else 0
  }

  /** The length of the run of white space that ends `s`. */
  function TrailingSpaces(s: string): (n: nat)
    ensures n <= |s|
    ensures forall k | |s| - n <= k < |s| :: IsSpace(s[k])
    ensures n < |s| ==> !IsSpace(s[|s| - 1 - n])
    decreases |s|
  {
    if s != [] && IsSpace(s[|s| - 1]) then 1 + TrailingSpaces(s[..|s| - 1]) else 0
  }

  /** `s.strip()` */
  function Strip(s: string): (r: string)
    ensures r == [] || (!IsSpace(r[0]) && !IsSpace(r[|r| - 1]))
    ensures |r| <= |s|
  {
    var rest := s[LeadingSpaces(s)..];
    rest[..|rest| - TrailingSpaces(rest)]
  }

  /** Stripping removes only white space: the result is a slice of the
      input with nothing but white space on either side of it. */
  lemma StripIsTrimmedSlice(s: string)
    ensures exists i, j | 0 <= i <= j <= |s| ::
      Strip(s) == s[i..j] &&
      (forall k | 0 <= k < i :: IsSpace(s[k])) &&
      (forall k | j <= k < |s| :: IsSpace(s[k]))
  {
    var a := LeadingSpaces(s);
    var rest := s[a..];
    var b := TrailingSpaces(rest);
    assert Strip(s) == s[a..|s| - b];
    forall k | |s| - b <= k < |s| ensures IsSpace(s[k]) {
      assert s[k] == rest[k - a];
    }
  }

  /** A string without white space at either end is its own strip. */
  lemma StripNoSpaces(s: string)
    requires s == [] || (!IsSpace(s[0]) && !IsSpace(s[|s| - 1]))
    ensures Strip(s) == s
  {
  }

  // ---------------------------------------------------------------------
  // Character-wise rewrites

  /** `c.lower()` on ASCII letters; other characters are kept. */
  function LowerChar(c: char): char {
    if 'A' <= c <= 'Z' then (c as int + 32) as char else c
  }

  /** `s.lower()` restricted to ASCII letters. */
  function Lower(s: string): (r: string)
    ensures |r| == |s|
    ensures forall k | 0 <= k < |s| :: r[k] == LowerChar(s[k])
  {
    seq(|s|, k requires 0 <= k < |s| => LowerChar(s[k]))
  }

  /** `re.sub('[...]', '', s)`: `s` with every character of `drop` removed. */
  function RemoveChars(s: string, drop: set<char>): (r: string)
    ensures forall k | 0 <= k < |r| :: r[k] !in drop
    ensures |r| <= |s|
    decreases |s|
  {
    if s == [] then ""
    else if s[0] in drop then RemoveChars(s[1..], drop)
    else [s[0]] + RemoveChars(s[1..], drop)
  }

  /** Removing characters never introduces a character. */
  lemma {:induction false} RemoveCharsSubset(s: string, drop: set<char>, c: char)
    requires c in RemoveChars(s, drop)
    ensures c in s && c !in drop
    decreases |s|
  {
    if s != [] && c != s[0] {
      RemoveCharsSubset(s[1..], drop, c);
    }
  }

  /** A string none of whose characters is dropped is left as it is. */
  lemma {:induction false} RemoveCharsNone(s: string, drop: set<char>)
    requires forall k | 0 <= k < |s| :: s[k] !in drop
    ensures RemoveChars(s, drop) == s
    decreases |s|
  {
    if s != [] {
      RemoveCharsNone(s[1..], drop);
    }
  }

  // ---------------------------------------------------------------------
  // str(n) for a natural number

  predicate IsDigit(c: char) {
    '0' <= c <= '9'
  }

  predicate AllDigits(s: string) {
    forall k | 0 <= k < |s| :: IsDigit(s[k])
  }

  /** `str(n)` */
  function NatToString(n: nat): (r: string)
    ensures r != [] && AllDigits(r)
    decreases n
  {
    if n < 10 then [('0' as int + n) as char]
    else NatToString(n / 10) + [('0' as int + n % 10) as char]
  }

  /** `int(s)` on a string of decimal digits. */
  function ParseNat(s: string): nat
    requires AllDigits(s)
    decreases |s|
  {
    if s == [] then 0
    else ParseNat(s[..|s| - 1]) * 10 + (s[|s| - 1] as int - '0' as int)
  }

  /** `int(str(n)) == n` */
  lemma {:induction false} ParseNatToString(n: nat)
    ensures ParseNat(NatToString(n)) == n
    decreases n
  {
    if n >= 10 {
      ParseNatToString(n / 10);
      var s := NatToString(n);
      assert s[..|s| - 1] == NatToString(n / 10);
    }
  }

  /** Different numbers print differently. */
  lemma NatToStringInjective(a: nat, b: nat)
    requires NatToString(a) == NatToString(b)
    ensures a == b
  {
    ParseNatToString(a);
    ParseNatToString(b);
  }

  // ---------------------------------------------------------------------
  // Paths (POSIX)

  /** The index of the last occurrence of `c` in `s`. */
  function LastIndexOf(s: string, c: char): (r: Option<nat>)
    ensures r.Some? ==> r.value < |s| && s[r.value] == c
    ensures r.Some? ==> forall k | r.value < k < |s| :: s[k] != c
    ensures r.None? ==> forall k | 0 <= k < |s| :: s[k] != c
    decreases |s|
  {
    if s == [] then None
    else if s[|s| - 1] == c then Some(|s| - 1)
    else LastIndexOf(s[..|s| - 1], c)
  }

  predicate NoChar(s: string, c: char) {
    forall k | 0 <= k < |s| :: s[k] != c
  }

  /** `posixpath.join(a, b)` */
  function PathJoin(a: string, b: string): (r: string)
    ensures StartsWith(b, "/") ==> r == b
    ensures !StartsWith(b, "/") && a != [] && a[|a| - 1] != '/' ==> r == a + "/" + b
  {
    if StartsWith(b, "/") then b
    else if a == [] || a[|a| - 1] == '/' then a + b
    else a + "/" + b
  }

  /** The length of the run of '/' that ends `s`. */
  function TrailingSlashes(s: string): (n: nat)
    ensures n <= |s|
    ensures forall k | |s| - n <= k < |s| :: s[k] == '/'
    ensures n < |s| ==> s[|s| - 1 - n] != '/'
    decreases |s|
  {
    if s != [] && s[|s| - 1] == '/' then 1 + TrailingSlashes(s[..|s| - 1]) else 0
  }

  /** `posixpath.dirname(p)`: everything up to the last '/', with the
      trailing slashes removed unless it is made of slashes only. */
  function Dirname(p: string): string {
    match LastIndexOf(p, '/')
    case None => ""
    case Some(i) =>
      var head := p[..i + 1];
      var n := TrailingSlashes(head);
      if n == |head| then head else head[..|head| - n]
  }

  /** `PurePosixPath(p).name` for a path without a trailing '/'. */
  function BaseName(p: string): (r: string)
    ensures NoChar(r, '/')
  {
    match LastIndexOf(p, '/')
    case None => p
    case Some(i) => p[i + 1..]
  }

  /** `PurePosixPath(name).suffix`: from the last '.', unless that dot
      starts or ends the name. */
  function Suffix(name: string): string {
    match LastIndexOf(name, '.')
    case None => ""
    case Some(i) => if 0 < i < |name| - 1 then name[i..] else ""
  }

  /** `PurePosixPath(name).stem`: the name without its suffix. */
  function Stem(name: string): string {
    match LastIndexOf(name, '.')
    case None => name
    case Some(i) => if 0 < i < |name| - 1 then name[..i] else name
  }

  /** A name splits into its stem and its suffix. */
  lemma StemSuffix(name: string)
    ensures Stem(name) + Suffix(name) == name
  {
  }

  /** `PurePosixPath(p).with_name(n)` for a path without a trailing '/'. */
  function WithName(p: string, n: string): string {
    match LastIndexOf(p, '/')
    case None => n
    case Some(i) => p[..i] + "/" + n
  }

  /** For a directory and a file name made of no '/', the path parts give
      back what `join` put together. */
  lemma {:induction false} PathParts(dir: string, name: string)
    requires dir != [] && NoChar(dir, '/') && NoChar(name, '/')
    ensures LastIndexOf(PathJoin(dir, name), '/') == Some(|dir|)
    ensures Dirname(PathJoin(dir, name)) == dir
    ensures BaseName(PathJoin(dir, name)) == name
    ensures PathJoin(dir, name) == dir + "/" + name
  {
    var p := PathJoin(dir, name);
    assert !StartsWith(name, "/") by {
      if name != [] { assert name[..1][0] == name[0]; }
    }
    assert p == dir + "/" + name;
    assert forall k | |dir| < k < |p| :: p[k] == name[k - |dir| - 1];
    var head := p[..|dir| + 1];
    assert head == dir + "/";
    assert TrailingSlashes(head) == 1 by {
      assert head[..|head| - 1] == dir;
      assert TrailingSlashes(dir) == 0;
    }
  }

  /** Renaming the file of `join(dir, name)` keeps the directory. */
  lemma WithNameJoin(dir: string, name: string, n: string)
    requires dir != [] && NoChar(dir, '/') && NoChar(name, '/')
    ensures WithName(PathJoin(dir, name), n) == dir + "/" + n
  {
    PathParts(dir, name);
    assert PathJoin(dir, name)[..|dir|] == dir;
  }
}
