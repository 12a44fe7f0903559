/** The handful of Python string operations the core relies on: `str.strip()`,
    `str.replace` of one character, slicing `s[:n]`, `str.isalnum` (on ASCII),
    `str.lower` (on ASCII), decimal formatting of an `int` in an f-string, and
    `pathlib.Path(p).name`. */
module Text {

  /** ASCII letters and digits; Python's `str.isalnum` also accepts the
      letters and digits of other scripts. */
  predicate IsAsciiAlnum(c: char)
  {
    'a' <= c <= 'z' || 'A' <= c <= 'Z' || '0' <= c <= '9'
  }

  /** Python's `str.isspace`, which decides what `str.strip()` removes: the
      ASCII controls 0x09-0x0D and 0x1C-0x1F, the space, and the Unicode
      separators. */
  predicate IsSpace(c: char)
  {
    var n := c as int;
    n == 0x20 || 0x09 <= n <= 0x0D || 0x1C <= n <= 0x1F || n == 0x85 || n == 0xA0 ||
    n == 0x1680 || 0x2000 <= n <= 0x200A || n == 0x2028 || n == 0x2029 ||
    n == 0x202F || n == 0x205F || n == 0x3000
  }

  /** The index of the first character at or after `i` that is not
      whitespace, or `|s|` if there is none. */
  function SkipSpace(s: string, i: nat): (j: nat)
    requires i <= |s|
    ensures i <= j <= |s|
    decreases |s| - i
  {
    if i < |s| && IsSpace(s[i]) then SkipSpace(s, i + 1) else i
  }

  /** Everything skipped is whitespace, and the skip stops at a character
      that is not. */
  lemma {:induction false} SkipSpaceCuts(s: string, i: nat)
    requires i <= |s|
    ensures forall k :: i <= k < SkipSpace(s, i) ==> IsSpace(s[k])
    ensures SkipSpace(s, i) < |s| ==> !IsSpace(s[SkipSpace(s, i)])
    decreases |s| - i
  {
    if i < |s| && IsSpace(s[i]) {
      SkipSpaceCuts(s, i + 1);
    }
  }

  /** The end of `s[lo..j]` once the whitespace at its end is cut off. */
  function BackSpace(s: string, lo: nat, j: nat): (e: nat)
    requires lo <= j <= |s|
    ensures lo <= e <= j
    decreases j
  {
    if lo < j && IsSpace(s[j - 1]) then BackSpace(s, lo, j - 1) else j
  }

  /** Everything cut off is whitespace, and the cut stops after a character
      that is not. */
  lemma {:induction false} BackSpaceCuts(s: string, lo: nat, j: nat)
    requires lo <= j <= |s|
    ensures forall k :: BackSpace(s, lo, j) <= k < j ==> IsSpace(s[k])
    ensures lo < BackSpace(s, lo, j) ==> !IsSpace(s[BackSpace(s, lo, j) - 1])
    decreases j
  {
    if lo < j && IsSpace(s[j - 1]) {
      BackSpaceCuts(s, lo, j - 1);
    }
  }

  /** Where `strip()` starts cutting from the front. */
  function StripStart(s: string): nat
  {
    SkipSpace(s, 0)
  }

  /** Where `strip()` stops keeping. */
  function StripEnd(s: string): nat
  {
    BackSpace(s, SkipSpace(s, 0), |s|)
  }

  /** Python's `s.strip()`: the slice of `s` that starts at its first and ends at
      its last non-whitespace character. */
  function Strip(s: string): string
  {
    s[StripStart(s)..StripEnd(s)]
  }

  /** Everything `strip()` cuts off is whitespace, and what it keeps neither
      starts nor ends with whitespace. */
  lemma StripShape(s: string)
    ensures var r, i := Strip(s), StripStart(s);
      && i + |r| <= |s| && r == s[i..i + |r|]
      && (forall k :: 0 <= k < i ==> IsSpace(s[k]))
      && (forall k :: i + |r| <= k < |s| ==> IsSpace(s[k]))
      && (r != [] ==> !IsSpace(r[0]) && !IsSpace(r[|r| - 1]))
  {
    var i := SkipSpace(s, 0);
    SkipSpaceCuts(s, 0);
    BackSpaceCuts(s, i, |s|);
  }

  /** Every character of `s` is whitespace. */
  predicate AllSpace(s: string)
  {
    forall k :: 0 <= k < |s| ==> IsSpace(s[k])
  }

  /** `strip()` leaves nothing exactly when the string is all whitespace. */
  lemma StripEmpty(s: string)
    ensures Strip(s) == [] <==> AllSpace(s)
  {
    StripShape(s);
    if Strip(s) != [] {
      assert s[StripStart(s)] == Strip(s)[0];
    }
  }

  /** A run of whitespace from `i` up to a character that is not whitespace
      (or the end) is exactly what `SkipSpace` skips. */
  lemma {:induction false} SkipSpaceOver(s: string, i: nat, j: nat)
    requires i <= j <= |s|
    requires forall k :: i <= k < j ==> IsSpace(s[k])
    requires j < |s| ==> !IsSpace(s[j])
    ensures SkipSpace(s, i) == j
    decreases j - i
  {
    if i < j {
      SkipSpaceOver(s, i + 1, j);
    }
  }

  /** A run of whitespace from `e` up to `j`, after a character that is not
      whitespace (or `lo`), is exactly what `BackSpace` cuts off. */
  lemma {:induction false} BackSpaceOver(s: string, lo: nat, e: nat, j: nat)
    requires lo <= e <= j <= |s|
    requires forall k :: e <= k < j ==> IsSpace(s[k])
    requires lo < e ==> !IsSpace(s[e - 1])
    ensures BackSpace(s, lo, j) == e
    decreases j
  {
    if e < j {
      BackSpaceOver(s, lo, e, j - 1);
    }
  }

  /** `strip()` of a word between two runs of whitespace is the word, when
      the word neither starts nor ends with whitespace. */
  lemma StripPadded(pre: string, w: string, post: string)
    requires AllSpace(pre) && AllSpace(post)
    requires w != [] && !IsSpace(w[0]) && !IsSpace(w[|w| - 1])
    ensures Strip(pre + w + post) == w
  {
    var line := pre + w + post;
    var i, e := |pre|, |pre| + |w|;
    assert line[i] == w[0];
    SkipSpaceOver(line, 0, i);
    forall k | e <= k < |line| ensures IsSpace(line[k]) {
      assert line[k] == post[k - e];
    }
    assert line[e - 1] == w[|w| - 1];
    BackSpaceOver(line, i, e, |line|);
    assert line[i..e] == w;
  }

  /** Python's `s.replace(from, to)` for one-character `from` and `to`. */
  function ReplaceChar(s: string, from: char, to: char): string
  {
    seq(|s|, k requires 0 <= k < |s| => if s[k] == from then to else s[k])
  }

  /** Python's slice `s[:n]`. */
  function Take(s: string, n: nat): (r: string)
    ensures |r| <= n && r <= s
    ensures |s| <= n ==> r == s
  {
    if |s| <= n then s else s[..n]
  }

  /** Python's `c.lower()` for ASCII letters; every other character is kept. */
  function LowerChar(c: char): char
  {
    if 'A' <= c <= 'Z' then (c as int + 32) as char else c
  }

  /** Python's `c.upper()` for ASCII letters; every other character is kept. */
  function UpperChar(c: char): char
  {
    if 'a' <= c <= 'z' then (c as int - 32) as char else c
  }

  function Lower(s: string): string
  {
    seq(|s|, k requires 0 <= k < |s| => LowerChar(s[k]))
  }

  function Upper(s: string): string
  {
    seq(|s|, k requires 0 <= k < |s| => UpperChar(s[k]))
  }

  predicate IsDigit(c: char)
  {
    '0' <= c <= '9'
  }

  function DigitChar(d: nat): (c: char)
    requires d < 10
    ensures IsDigit(c) && c as int - '0' as int == d
  {
    (d + '0' as int) as char
  }

  /** The decimal text of `n`, as an f-string `{n}` prints an `int`. */
  function NatToString(n: nat): (r: string)
    ensures |r| >= 1
    decreases n
  {
    if n < 10 then [DigitChar(n)] else NatToString(n / 10) + [DigitChar(n % 10)]
  }

  /** The text is all digits, with no leading zero except for `0` itself. */
  lemma {:induction false} NatToStringDigits(n: nat)
    ensures forall k :: 0 <= k < |NatToString(n)| ==> IsDigit(NatToString(n)[k])
    ensures NatToString(n)[0] == '0' ==> n == 0
    decreases n
  {
    if n >= 10 {
      NatToStringDigits(n / 10);
      var s := NatToString(n);
      assert s[0] == NatToString(n / 10)[0];
      forall k | 0 <= k < |s| ensures IsDigit(s[k]) {
        if k < |s| - 1 {
          assert s[k] == NatToString(n / 10)[k];
        }
      }
    }
  }

  /** The value of a digit; other characters are read as 0. */
  function DigitValue(c: char): nat
  {
    if IsDigit(c) then c as int - '0' as int else 0
  }

  /** The value of a string of decimal digits, most significant first. */
  function ParseNat(s: string): nat
  {
    if s == [] then 0 else 10 * ParseNat(s[..|s| - 1]) + DigitValue(s[|s| - 1])
  }

  /** Reading the decimal text back gives the number: the rendering loses nothing. */
  lemma {:induction false} NatToStringRoundTrip(n: nat)
    ensures ParseNat(NatToString(n)) == n
    decreases n
  {
    if n >= 10 {
      var s := NatToString(n);
      NatToStringRoundTrip(n / 10);
      assert s[..|s| - 1] == NatToString(n / 10);
    }
  }

  /** Two numbers print the same exactly when they are equal. */
  lemma NatToStringInjective(m: nat, n: nat)
    ensures NatToString(m) == NatToString(n) <==> m == n
  {
    NatToStringRoundTrip(m);
    NatToStringRoundTrip(n);
  }

  /** `pathlib.Path(path).name`: the part after the last `/`. */
  function Basename(path: string): string
  {
    if path == [] || path[|path| - 1] == '/' then []
    else Basename(path[..|path| - 1]) + [path[|path| - 1]]
  }

  /** The name is the longest suffix of the path without a `/`. */
  lemma {:induction false} BasenameIsLastComponent(path: string)
    ensures var r := Basename(path);
      && '/' !in r && |r| <= |path| && r == path[|path| - |r|..]
      && (|r| < |path| ==> path[|path| - |r| - 1] == '/')
  {
    if path != [] && path[|path| - 1] != '/' {
      BasenameIsLastComponent(path[..|path| - 1]);
    }
  }

  /** The name of a file joined under a directory is the file's name, when the
      name holds no `/` of its own. */
  lemma {:induction false} BasenameOfJoin(dir: string, name: string)
    requires '/' !in name
    ensures Basename(dir + "/" + name) == name
    decreases |name|
  {
    var path := dir + "/" + name;
    if name != [] {
      assert path[..|path| - 1] == dir + "/" + name[..|name| - 1];
      BasenameOfJoin(dir, name[..|name| - 1]);
      assert name == name[..|name| - 1] + [name[|name| - 1]];
    } else {
      assert path[|path| - 1] == '/';
    }
  }
}
