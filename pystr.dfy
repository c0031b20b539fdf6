/** The few Python string and POSIX path operations the hook core relies on,
    written out with Python 3 semantics: `x in s` on strings, `startswith`,
    `endswith`, `split(' ')`, `splitlines()`, `strip()`, `os.path.split`,
    `os.path.splitext`, `os.path.join` and `int(s)`. */
module PyStr {
  import opened Wrappers

  // ---------------------------------------------------------------------------
  // Prefixes, suffixes and substrings

  predicate IsPrefix(p: string, s: string) {
    |p| <= |s| && s[..|p|] == p
  }

  predicate IsSuffix(p: string, s: string) {
    |p| <= |s| && s[|s| - |p|..] == p
  }

  /** `needle` occurs in `hay` at offset `k`. */
  predicate OccursAt(needle: string, hay: string, k: int) {
    0 <= k <= |hay| - |needle| && hay[k..k + |needle|] == needle
  }

  /** Python's `needle in hay` for two strings: a substring test. */
  predicate IsInfix(needle: string, hay: string)
    decreases |hay|
  {
    IsPrefix(needle, hay) || (|hay| > 0 && IsInfix(needle, hay[1..]))
  }

  /** `needle in hay` holds exactly when `needle` occurs at some offset of `hay`. */
  lemma {:induction false} InfixIffWindow(needle: string, hay: string)
    ensures IsInfix(needle, hay) <==> exists k :: OccursAt(needle, hay, k)
    decreases |hay|
  {
    if IsPrefix(needle, hay) {
      assert OccursAt(needle, hay, 0);
    } else if |hay| > 0 {
      InfixIffWindow(needle, hay[1..]);
      forall k | OccursAt(needle, hay[1..], k) ensures OccursAt(needle, hay, k + 1) {
        assert hay[k + 1..k + 1 + |needle|] == hay[1..][k..k + |needle|];
      }
      forall k | OccursAt(needle, hay, k) ensures OccursAt(needle, hay[1..], k - 1) {
        assert k != 0;
        assert hay[1..][k - 1..k - 1 + |needle|] == hay[k..k + |needle|];
      }
    } else {
      assert forall k :: !OccursAt(needle, hay, k);
    }
  }

  /** A one-character string is `in` another exactly when that character occurs in it. */
  lemma CharInfix(c: char, hay: string)
    ensures IsInfix([c], hay) <==> c in hay
  {
    InfixIffWindow([c], hay);
    if c in hay {
      var k :| 0 <= k < |hay| && hay[k] == c;
      assert OccursAt([c], hay, k);
    }
    forall k | OccursAt([c], hay, k) ensures c in hay {
      assert hay[k] == hay[k..k + 1][0];
    }
  }

  /** A non-empty needle found in `hay` has its first character in `hay`. */
  lemma InfixHead(needle: string, hay: string)
    requires needle != [] && IsInfix(needle, hay)
    ensures needle[0] in hay
  {
    InfixIffWindow(needle, hay);
    var k :| OccursAt(needle, hay, k);
    assert hay[k] == hay[k..k + |needle|][0];
  }

  /** A part written into a concatenation is `in` the result. */
  lemma InfixOfConcat(a: string, n: string, b: string)
    ensures IsInfix(n, a + n + b)
  {
    InfixIffWindow(n, a + n + b);
    assert (a + n + b)[|a|..|a| + |n|] == n;
    assert OccursAt(n, a + n + b, |a|);
  }

  /** A substring stays a substring when text is added in front of or behind it. */
  lemma InfixExtend(n: string, s: string, a: string, b: string)
    requires IsInfix(n, s)
    ensures IsInfix(n, a + s) && IsInfix(n, s + b)
  {
    InfixIffWindow(n, s);
    InfixIffWindow(n, a + s);
    InfixIffWindow(n, s + b);
    var k :| OccursAt(n, s, k);
    assert (a + s)[|a| + k..|a| + k + |n|] == s[k..k + |n|];
    assert OccursAt(n, a + s, |a| + k);
    assert (s + b)[k..k + |n|] == s[k..k + |n|];
    assert OccursAt(n, s + b, k);
  }

  lemma InfixSelf(n: string)
    ensures IsInfix(n, n)
  {
    assert IsPrefix(n, n);
  }

  /** The empty string is `in` every string (a Python quirk the pre-commit filter inherits). */
  lemma EmptyInfix(hay: string)
    ensures IsInfix("", hay)
  {
    assert IsPrefix("", hay);
  }

  // ---------------------------------------------------------------------------
  // str.split with an explicit one-character separator

  function IndexOf(s: string, c: char): (r: nat)
    requires c in s
    ensures r < |s| && s[r] == c
    ensures forall k :: 0 <= k < r ==> s[k] != c
  {
    if s[0] == c then 0
    else
      assert c in s[1..];
      IndexOf(s[1..], c) + 1
  }

  /** The first occurrence is the only index with no earlier occurrence. */
  lemma IndexOfIs(s: string, c: char, i: nat)
    requires i < |s| && s[i] == c
    requires forall k :: 0 <= k < i ==> s[k] != c
    ensures c in s && IndexOf(s, c) == i
  {
    assert s[i] in s;
  }

  /** `s.split(sep)`: cuts at every occurrence of `sep`, keeping empty fields. */
  function Split(s: string, sep: char): (r: seq<string>)
    ensures |r| >= 1
    ensures forall i :: 0 <= i < |r| ==> sep !in r[i]
    decreases |s|
  {
    if sep !in s then [s]
    else
      var i := IndexOf(s, sep);
      [s[..i]] + Split(s[i + 1..], sep)
  }

  /** `sep.join(fields)`. */
  function Join(fields: seq<string>, sep: char): string
    requires |fields| >= 1
  {
    if |fields| == 1 then fields[0] else fields[0] + [sep] + Join(fields[1..], sep)
  }

  /** Joining the fields of a split gives back the original string. */
  lemma {:induction false} JoinSplit(s: string, sep: char)
    ensures Join(Split(s, sep), sep) == s
    decreases |s|
  {
    if sep in s {
      var i := IndexOf(s, sep);
      var rest := Split(s[i + 1..], sep);
      assert Split(s, sep) == [s[..i]] + rest;
      assert ([s[..i]] + rest)[1..] == rest;
      JoinSplit(s[i + 1..], sep);
      assert s == s[..i] + [sep] + s[i + 1..];
    }
  }

  /** Splitting fields that do not contain the separator recovers them exactly. */
  lemma {:induction false} SplitJoin(fields: seq<string>, sep: char)
    requires |fields| >= 1
    requires forall i :: 0 <= i < |fields| ==> sep !in fields[i]
    ensures Split(Join(fields, sep), sep) == fields
    decreases |fields|
  {
    if |fields| > 1 {
      var f := fields[0];
      var rest := Join(fields[1..], sep);
      var s := f + [sep] + rest;
      assert Join(fields, sep) == s;
      forall k | 0 <= k < |f| ensures s[k] != sep {
        assert s[k] == f[k];
      }
      IndexOfIs(s, sep, |f|);
      assert s[..|f|] == f;
      assert s[|f| + 1..] == rest;
      SplitJoin(fields[1..], sep);
    }
  }

  // ---------------------------------------------------------------------------
  // str.splitlines()

  /** The line boundaries of Python 3's `str.splitlines`. */
  predicate IsLineBreak(c: char) {
    c == '\n' || c == '\r' || c == '\U{0B}' || c == '\U{0C}' || c == '\U{1C}' || c == '\U{1D}' ||
    c == '\U{1E}' || c == '\U{85}' || c == '\U{2028}' || c == '\U{2029}'
  }

  predicate NoLineBreak(s: string) {
    forall k :: 0 <= k < |s| ==> !IsLineBreak(s[k])
  }

  /** Index of the first line boundary of `s`, or `|s|` when there is none. */
  function FirstBreak(s: string): (r: nat)
    ensures r <= |s|
    ensures r < |s| ==> IsLineBreak(s[r])
    ensures forall k :: 0 <= k < r ==> !IsLineBreak(s[k])
  {
    if s == [] then 0
    else if IsLineBreak(s[0]) then 0
    else FirstBreak(s[1..]) + 1
  }

  /** The first line boundary is the only one with no boundary before it. */
  lemma FirstBreakIs(s: string, i: nat)
    requires i <= |s| && (i < |s| ==> IsLineBreak(s[i]))
    requires forall k :: 0 <= k < i ==> !IsLineBreak(s[k])
    ensures FirstBreak(s) == i
  {
  }

  /** `s.splitlines()`: the lines of `s` without their terminators; `"\r\n"` is one
      terminator, and a final terminator does not open an empty last line. */
  function SplitLines(s: string): (r: seq<string>)
    ensures forall i :: 0 <= i < |r| ==> NoLineBreak(r[i])
    ensures s == [] <==> r == []
    decreases |s|
  {
    if s == [] then []
    else
      var i := FirstBreak(s);
      if i == |s| then [s]
      else
        var next := if s[i] == '\r' && i + 1 < |s| && s[i + 1] == '\n' then i + 2 else i + 1;
        [s[..i]] + SplitLines(s[next..])
  }

  /** Two pieces without a line boundary make a string without one. */
  lemma NoLineBreakConcat(a: string, b: string)
    requires NoLineBreak(a) && NoLineBreak(b)
    ensures NoLineBreak(a + b)
  {
    forall k | 0 <= k < |a + b| ensures !IsLineBreak((a + b)[k]) {
      if k >= |a| {
        assert (a + b)[k] == b[k - |a|];
      }
    }
  }

  /** What a writer of `lines` produces, each line followed by a newline. */
  function JoinLines(lines: seq<string>): string {
    if lines == [] then [] else lines[0] + "\n" + JoinLines(lines[1..])
  }

  /** Reading back newline-terminated lines gives exactly those lines, one per line. */
  lemma {:induction false} SplitLinesJoinLines(lines: seq<string>)
    requires forall i :: 0 <= i < |lines| ==> NoLineBreak(lines[i])
    ensures SplitLines(JoinLines(lines)) == lines
    decreases |lines|
  {
    if lines != [] {
      var l := lines[0];
      var rest := JoinLines(lines[1..]);
      var s := l + "\n" + rest;
      assert JoinLines(lines) == s;
      forall k | 0 <= k < |l| ensures !IsLineBreak(s[k]) {
        assert s[k] == l[k];
      }
      FirstBreakIs(s, |l|);
      assert s[..|l|] == l;
      assert s[|l| + 1..] == rest;
      SplitLinesJoinLines(lines[1..]);
    }
  }

  // ---------------------------------------------------------------------------
  // str.strip()

  /** The characters for which Python 3's `str.isspace()` holds. */
  predicate IsSpace(c: char) {
    ('\t' <= c <= '\r') || ('\U{1C}' <= c <= ' ') || c == '\U{85}' || c == '\U{A0}' ||
    c == '\U{1680}' || ('\U{2000}' <= c <= '\U{200A}') || c == '\U{2028}' || c == '\U{2029}' ||
    c == '\U{202F}' || c == '\U{205F}' || c == '\U{3000}'
  }

  function TrimLeft(s: string): (r: string)
    ensures IsSuffix(r, s)
    ensures forall k :: 0 <= k < |s| - |r| ==> IsSpace(s[k])
    ensures r == [] || !IsSpace(r[0])
    decreases |s|
  {
    if s != [] && IsSpace(s[0]) then
      var r := TrimLeft(s[1..]);
      assert forall k :: 0 < k < |s| - |r| ==> IsSpace(s[k]) by {
        forall k | 0 < k < |s| - |r| ensures IsSpace(s[k]) {
          assert s[k] == s[1..][k - 1];
        }
      }
      r
    else s
  }

  function TrimRight(s: string): (r: string)
    ensures IsPrefix(r, s)
    ensures forall k :: |r| <= k < |s| ==> IsSpace(s[k])
    ensures r == [] || !IsSpace(r[|r| - 1])
    decreases |s|
  {
    if s != [] && IsSpace(s[|s| - 1]) then TrimRight(s[..|s| - 1]) else s
  }

  /** `s.strip()`: drops leading and trailing whitespace and nothing else. */
  function Strip(s: string): (r: string)
    ensures exists i :: OccursAt(r, s, i) && (forall k :: 0 <= k < i ==> IsSpace(s[k]))
                        && (forall k :: i + |r| <= k < |s| ==> IsSpace(s[k]))
    ensures r == [] || (!IsSpace(r[0]) && !IsSpace(r[|r| - 1]))
  {
    var t := TrimLeft(s);
    var r := TrimRight(t);
    CutBoth(s, t, r);
    r
  }

  /** A prefix `r` of a suffix `t` of `s`, where `t` goes on with whitespace only after
      `r`, sits at offset |s| - |t| with whitespace only after it in `s`. */
  lemma CutBoth(s: string, t: string, r: string)
    requires IsSuffix(t, s) && IsPrefix(r, t)
    requires forall k :: |r| <= k < |t| ==> IsSpace(t[k])
    ensures OccursAt(r, s, |s| - |t|)
    ensures forall k :: |s| - |t| + |r| <= k < |s| ==> IsSpace(s[k])
  {
    var i := |s| - |t|;
    assert s[i..i + |r|] == s[i..][..|r|];
    forall k | i + |r| <= k < |s| ensures IsSpace(s[k]) {
      assert s[k] == t[k - i];
    }
  }



  /** A string that neither starts nor ends with whitespace is left alone by `strip()`. */
  lemma StripUntouched(s: string)
    requires s == [] || (!IsSpace(s[0]) && !IsSpace(s[|s| - 1]))
    ensures Strip(s) == s
  {
  }

  // ---------------------------------------------------------------------------
  // POSIX paths

  /** `s.rfind(c)`: the last index of `c` in `s`, or -1. */
  function RFind(s: string, c: char): (r: int)
    ensures -1 <= r < |s|
    ensures r >= 0 ==> s[r] == c
    ensures forall k :: r < k < |s| ==> s[k] != c
  {
    RFindBefore(s, c, |s|)
  }

  /** The last index of `c` among the first `n` characters of `s`, or -1. */
  function RFindBefore(s: string, c: char, n: nat): (r: int)
    requires n <= |s|
    ensures -1 <= r < n
    ensures r >= 0 ==> s[r] == c
    ensures forall k :: r < k < n ==> s[k] != c
  {
    if n == 0 then -1 else if s[n - 1] == c then n - 1 else RFindBefore(s, c, n - 1)
  }

  /** The last occurrence is the only index with no occurrence after it. */
  lemma RFindIs(s: string, c: char, r: int)
    requires -1 <= r < |s| && (r >= 0 ==> s[r] == c)
    requires forall k :: r < k < |s| ==> s[k] != c
    ensures RFind(s, c) == r
  {
  }

  /** `os.path.split(p)[-1]`: the part of `p` after its last '/'. */
  function Basename(p: string): (r: string)
    ensures IsSuffix(r, p)
    ensures '/' !in r
    ensures |r| < |p| ==> p[|p| - |r| - 1] == '/'
  {
    p[RFind(p, '/') + 1..]
  }

  /** `os.path.splitext(p)` on POSIX: the extension runs from the last '.' of the
      last path component, provided that component has a character other than '.'
      before it (so a leading dot, as in ".bashrc", starts no extension). */
  function Splitext(p: string): (r: (string, string))
    ensures r.0 + r.1 == p
    ensures r.1 == [] || (r.1[0] == '.' && forall k :: 0 < k < |r.1| ==> r.1[k] != '.' && r.1[k] != '/')
    ensures r.1 != [] ==> !AllDots(p, RFind(p, '/') + 1, |r.0|)
  {
    var sepIndex := RFind(p, '/');
    var dotIndex := RFind(p, '.');
    if dotIndex > sepIndex && !AllDots(p, sepIndex + 1, dotIndex) then
      (p[..dotIndex], p[dotIndex..])
    else
      (p, [])
  }

  /** Every character of `s[lo..hi]` is '.'. */
  predicate AllDots(s: string, lo: nat, hi: nat)
    requires hi <= |s|
    decreases hi - lo
  {
    lo >= hi || (s[lo] == '.' && AllDots(s, lo + 1, hi))
  }

  /** Looking at a range of a suffix is looking at the shifted range of the whole. */
  lemma {:induction false} AllDotsShift(s: string, off: nat, lo: nat, hi: nat)
    requires off <= lo <= hi <= |s|
    ensures AllDots(s, lo, hi) == AllDots(s[off..], lo - off, hi - off)
    decreases hi - lo
  {
    if lo < hi {
      assert s[off..][lo - off] == s[lo];
      AllDotsShift(s, off, lo + 1, hi);
    }
  }

  /** The extension depends on the last path component only. */
  lemma ExtensionOfBasename(p: string)
    ensures Splitext(p).1 == Splitext(Basename(p)).1
  {
    var sepIndex := RFind(p, '/');
    var dotIndex := RFind(p, '.');
    var off := sepIndex + 1;
    var b := p[off..];
    assert b == Basename(p);
    RFindAfter(p, '/', off);
    RFindAfter(p, '.', off);
    if dotIndex > sepIndex {
      AllDotsShift(p, off, off, dotIndex);
      assert p[dotIndex..] == b[dotIndex - off..];
    }
  }

  /** A character other than '.' inside the range breaks `AllDots`. */
  lemma {:induction false} NotAllDots(s: string, lo: nat, hi: nat, k: nat)
    requires lo <= k < hi <= |s| && s[k] != '.'
    ensures !AllDots(s, lo, hi)
    decreases k - lo
  {
    if lo < k {
      NotAllDots(s, lo + 1, hi, k);
    }
  }

  /** The extension of a path built as directory, stem and extension: a directory that
      is empty or ends in '/', a stem without '/' holding a character other than '.',
      and an extension that is one '.' followed by neither '.' nor '/'. */
  lemma SplitextOfParts(dir: string, stem: string, ext: string)
    requires dir == [] || dir[|dir| - 1] == '/'
    requires '/' !in stem && exists k :: 0 <= k < |stem| && stem[k] != '.'
    requires ext != [] && ext[0] == '.' && forall k :: 0 < k < |ext| ==> ext[k] != '.' && ext[k] != '/'
    ensures Splitext(dir + stem + ext) == (dir + stem, ext)
  {
    var p := dir + stem + ext;
    var d := |dir| + |stem|;
    assert p[d] == '.' by { assert p[d] == ext[0]; }
    forall k | d < k < |p| ensures p[k] != '.' && p[k] != '/' {
      assert p[k] == ext[k - d];
    }
    RFindIs(p, '.', d);
    forall k | |dir| <= k < d ensures p[k] != '/' {
      assert p[k] == stem[k - |dir|];
      assert stem[k - |dir|] in stem;
    }
    assert |dir| > 0 ==> p[|dir| - 1] == dir[|dir| - 1];
    RFindIs(p, '/', |dir| - 1);
    var j :| 0 <= j < |stem| && stem[j] != '.';
    assert p[|dir| + j] == stem[j];
    NotAllDots(p, |dir|, d, |dir| + j);
    assert p[..d] == dir + stem;
    assert p[d..] == ext;
  }

  /** Searching a suffix of `p` finds the last occurrence in `p` when it lies in that
      suffix, and nothing otherwise. */
  lemma RFindAfter(p: string, c: char, off: nat)
    requires off <= |p|
    ensures RFind(p[off..], c) == if RFind(p, c) >= off then RFind(p, c) - off else -1
  {
    var q := RFind(p, c);
    var b := p[off..];
    var r := if q >= off then q - off else -1;
    forall k | r < k < |b| ensures b[k] != c {
      assert b[k] == p[k + off];
    }
    if q >= off {
      assert b[q - off] == p[q];
    }
    RFindIs(b, c, r);
  }

  /** `os.path.join(a, b)` on POSIX: `b` follows `a` after a '/' unless `b` is
      absolute, in which case it replaces `a`. */
  function PathJoin(a: string, b: string): (r: string)
    ensures IsSuffix(b, r)
    ensures |r| == |b| || r[|r| - |b| - 1] == '/'
    ensures (b != [] && b[0] == '/') || IsPrefix(a, r)
  {
    if b != [] && b[0] == '/' then
      assert IsSuffix(b, b);
      b
    else
      var front := if a == [] || a[|a| - 1] == '/' then a else a + "/";
      var r := front + b;
      assert r[..|a|] == a by {
        assert r[..|a|] == front[..|a|];
      }
      assert r[|r| - |b|..] == b;
      assert front == [] || r[|front| - 1] == '/';
      r
  }

  /** A joined path has the last component of its second part. */
  lemma JoinedBasename(a: string, b: string)
    requires b != []
    ensures Basename(PathJoin(a, b)) == Basename(b)
  {
    SuffixBasename(PathJoin(a, b), b);
  }

  /** Two paths that end in the same non-empty component after a '/' (or are equal
      from that component on) have the same basename. */
  lemma SuffixBasename(r: string, b: string)
    requires b != [] && IsSuffix(b, r)
    requires |b| == |r| || r[|r| - |b| - 1] == '/'
    ensures Basename(r) == Basename(b)
  {
    var off := |r| - |b|;
    var i := RFind(b, '/');
    if i >= 0 {
      assert RFind(r, '/') == i + off by {
        forall k | i + off < k < |r| ensures r[k] != '/' {
          assert r[k] == b[k - off];
        }
        assert r[i + off] == b[i];
        RFindIs(r, '/', i + off);
      }
      assert Basename(r) == r[i + off + 1..] == b[i + 1..] == Basename(b);
    } else {
      assert RFind(r, '/') == off - 1 by {
        forall k | off - 1 < k < |r| ensures r[k] != '/' {
          assert r[k] == b[k - off];
        }
        RFindIs(r, '/', off - 1);
      }
      assert Basename(r) == r[off..] == b == Basename(b);
    }
  }

  // ---------------------------------------------------------------------------
  // int(s) in base 10

  predicate IsDigit(c: char) {
    '0' <= c <= '9'
  }

  /** The digit part of a Python integer literal: digits, with single underscores
      allowed between two digits. */
  predicate ValidDigits(s: string) {
    && s != []
    && IsDigit(s[0]) && IsDigit(s[|s| - 1])
    && (forall k :: 0 <= k < |s| ==> IsDigit(s[k]) || s[k] == '_')
    && (forall k :: 0 <= k < |s| - 1 ==> !(s[k] == '_' && s[k + 1] == '_'))
  }

  /** Decimal value of a digit string, underscores ignored. */
  function DigitsValue(s: string): nat
    requires forall k :: 0 <= k < |s| ==> IsDigit(s[k]) || s[k] == '_'
  {
    if s == [] then 0
    else if s[|s| - 1] == '_' then DigitsValue(s[..|s| - 1])
    else
      assert IsDigit(s[|s| - 1]);
      DigitsValue(s[..|s| - 1]) * 10 + (s[|s| - 1] as int - '0' as int) as nat
  }

  /** What `int()` accepts once whitespace is stripped: digit groups, optionally after
      one `+` or `-`. */
  predicate IntLiteral(t: string) {
    ValidDigits(t) || (t != [] && (t[0] == '-' || t[0] == '+') && ValidDigits(t[1..]))
  }

  /** `int(s)`: None where Python raises ValueError. Surrounding whitespace and one
      sign are accepted. */
  function ParseInt(s: string): (r: Option<int>)
    ensures r.Some? <==> IntLiteral(Strip(s))
  {
    var t := Strip(s);
    if t == [] then None
    else
      var neg := t[0] == '-';
      var body := if t[0] == '-' || t[0] == '+' then t[1..] else t;
      if ValidDigits(body) then
        var v: int := DigitsValue(body);
        Some(if neg then -v else v)
      else None
  }

  function DigitChar(d: nat): char
    requires d < 10
  {
    ('0' as int + d) as char
  }

  /** `str(n)` for a natural number. */
  function ShowNat(n: nat): (r: string)
    ensures r != [] && forall k :: 0 <= k < |r| ==> IsDigit(r[k])
  {
    if n < 10 then [DigitChar(n)] else ShowNat(n / 10) + [DigitChar(n % 10)]
  }

  /** `str(n)`. */
  function Show(n: int): string {
    if n < 0 then "-" + ShowNat(-n) else ShowNat(n)
  }

  lemma {:induction false} DigitsValueShowNat(n: nat)
    ensures DigitsValue(ShowNat(n)) == n
  {
    if n >= 10 {
      var s := ShowNat(n);
      assert s[..|s| - 1] == ShowNat(n / 10);
      DigitsValueShowNat(n / 10);
    }
  }

  /** An optionally negated digit string parses to its value. */
  lemma ParseSigned(digits: string, neg: bool)
    requires ValidDigits(digits)
    ensures ParseInt((if neg then "-" else "") + digits) ==
            Some(if neg then -(DigitsValue(digits) as int) else DigitsValue(digits))
  {
    var s := (if neg then "-" else "") + digits;
    assert Strip(s) == s by {
      assert !IsSpace(s[0]) && !IsSpace(s[|s| - 1]);
      StripUntouched(s);
    }
    if neg {
      assert s[0] == '-' && s[1..] == digits;
    } else {
      assert s == digits && IsDigit(s[0]);
    }
  }

  /** `int(str(n)) == n`. */
  lemma ParseShow(n: int)
    ensures ParseInt(Show(n)) == Some(n)
  {
    var m := if n < 0 then -n else n;
    var digits := ShowNat(m);
    DigitsValueShowNat(m);
    assert ValidDigits(digits) by {
      assert IsDigit(digits[0]) && IsDigit(digits[|digits| - 1]);
    }
    ParseSigned(digits, n < 0);
    assert Show(n) == (if n < 0 then "-" else "") + digits;
  }
}
