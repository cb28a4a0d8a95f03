/**
 * The few Python `str` operations the crawler relies on, over `string`
 * (that is, `seq<char>`): ASCII lower-casing, prefix and suffix tests,
 * `split`, `join`, `strip` and `lstrip`.
 */
module Strings {

  predicate IsAsciiUpper(c: char) {
    'A' <= c <= 'Z'
  }

  /** Lower-case one character; only the ASCII capitals change. */
  function LowerChar(c: char): char {
    if IsAsciiUpper(c) then (c as int + 32) as char else c
  }

  /** `s.lower()`, restricted to ASCII letters. */
  function Lower(s: string): (r: string)
    ensures |r| == |s|
    ensures forall i :: 0 <= i < |s| ==> r[i] == LowerChar(s[i])
  {
    if s == [] then [] else [LowerChar(s[0])] + Lower(s[1..])
  }

  /** `s.startswith(p)`. */
  predicate StartsWith(s: string, p: string) {
    |p| <= |s| && s[..|p|] == p
  }

  /** `s.endswith(q)`. */
  predicate EndsWith(s: string, q: string) {
    |q| <= |s| && s[|s| - |q|..] == q
  }

  /** The position of the first occurrence of `c` in `s`. */
  function IndexOf(s: string, c: char): (i: nat)
    requires c in s
    ensures i < |s| && s[i] == c
    ensures c !in s[..i]
  {
    if s[0] == c then 0
    else
      var j := IndexOf(s[1..], c);
      assert s[1..][..j] == s[1..j + 1];
      1 + j
  }

  /** `s.split(sep)` for a one-character separator: the pieces between separators, in order. */
  function Split(s: string, sep: char): (parts: seq<string>)
    ensures |parts| >= 1
    ensures forall k :: 0 <= k < |parts| ==> sep !in parts[k]
    decreases |s|
  {
    if sep !in s then [s]
    else
      var i := IndexOf(s, sep);
      [s[..i]] + Split(s[i + 1..], sep)
  }

  /** `sep.join(parts)`. */
  function Join(parts: seq<string>, sep: char): string {
    if |parts| == 0 then ""
    else if |parts| == 1 then parts[0]
    else parts[0] + [sep] + Join(parts[1..], sep)
  }

  /** Joining the pieces of a split with the same separator gives back the string. */
  lemma {:induction false} JoinSplit(s: string, sep: char)
    ensures Join(Split(s, sep), sep) == s
    decreases |s|
  {
    if sep in s {
      var i := IndexOf(s, sep);
      var rest := Split(s[i + 1..], sep);
      JoinSplit(s[i + 1..], sep);
      assert Split(s, sep) == [s[..i]] + rest;
      assert ([s[..i]] + rest)[1..] == rest;
      assert s == s[..i] + [sep] + s[i + 1..];
    }
  }

  /** `s.split("/")[-1]`. */
  function LastSegment(s: string): string {
    var parts := Split(s, '/');
    parts[|parts| - 1]
  }

  /** Every `.` of `s` has a `/` somewhere after it. */
  predicate NoDotAfterLastSlash(s: string) {
    forall i :: 0 <= i < |s| && s[i] == '.' ==> '/' in s[i + 1..]
  }

  /** Cutting `s` just after a `/` keeps the answer of `NoDotAfterLastSlash`. */
  lemma NoDotAfterSlash(s: string, i: nat)
    requires i < |s| && s[i] == '/'
    ensures NoDotAfterLastSlash(s) <==> NoDotAfterLastSlash(s[i + 1..])
  {
    var rest := s[i + 1..];
    if NoDotAfterLastSlash(rest) {
      forall j | 0 <= j < |s| && s[j] == '.' ensures '/' in s[j + 1..] {
        if j < i {
          assert s[j + 1..][i - j - 1] == '/';
        } else {
          assert rest[j - i - 1] == '.';
          assert s[j + 1..] == rest[j - i..];
        }
      }
    }
    if NoDotAfterLastSlash(s) {
      forall k | 0 <= k < |rest| && rest[k] == '.' ensures '/' in rest[k + 1..] {
        assert s[i + 1 + k] == '.';
        assert s[i + 1 + k + 1..] == rest[k + 1..];
      }
    }
  }

  /** A string ending in `/` has an empty last piece, so no `.` in it. */
  lemma TrailingSlashNoDot(s: string)
    ensures EndsWith(s, "/") ==> NoDotAfterLastSlash(s)
  {
    if EndsWith(s, "/") {
      forall i | 0 <= i < |s| && s[i] == '.' ensures '/' in s[i + 1..] {
        assert s[|s| - 1] == '/';
        assert s[i + 1..][|s| - 2 - i] == '/';
      }
    }
  }

  /** A string without `/` satisfies `NoDotAfterLastSlash` only when it has no `.` at all. */
  lemma NoDotWithoutSlash(s: string)
    requires '/' !in s
    ensures NoDotAfterLastSlash(s) <==> '.' !in s
  {
    if '.' in s {
      var i :| 0 <= i < |s| && s[i] == '.';
      assert forall c :: c in s[i + 1..] ==> c in s;
    }
  }

  /** The last `/`-separated piece of `s` has no `.` exactly when every `.` of `s` is followed by a `/`. */
  lemma {:induction false} LastSegmentHasNoDot(s: string)
    ensures '.' !in LastSegment(s) <==> NoDotAfterLastSlash(s)
    decreases |s|
  {
    if '/' !in s {
      NoDotWithoutSlash(s);
    } else {
      var i := IndexOf(s, '/');
      assert Split(s, '/') == [s[..i]] + Split(s[i + 1..], '/');
      LastSegmentHasNoDot(s[i + 1..]);
      NoDotAfterSlash(s, i);
    }
  }

  /** The characters `str.isspace` accepts, by code point. */
  predicate IsSpace(c: char) {
    (0x09 <= c as int <= 0x0D) || (0x1C <= c as int <= 0x20) || c as int == 0x85 || c as int == 0xA0
    || c as int == 0x1680 || (0x2000 <= c as int <= 0x200A) || c as int == 0x2028 || c as int == 0x2029
    || c as int == 0x202F || c as int == 0x205F || c as int == 0x3000
  }

  predicate IsSlash(c: char) {
    c == '/'
  }

  /** `s.lstrip(chars)` where `drop` says which characters are in `chars`. */
  function TrimStart(s: string, drop: char -> bool): string {
    if s != [] && drop(s[0]) then TrimStart(s[1..], drop) else s
  }

  /** `lstrip` keeps the longest suffix of `s` that does not start with a dropped character. */
  lemma {:induction false} TrimStartSpec(s: string, drop: char -> bool)
    ensures var r := TrimStart(s, drop);
      && |r| <= |s| && r == s[|s| - |r|..]
      && (forall i :: 0 <= i < |s| - |r| ==> drop(s[i]))
      && (r != [] ==> !drop(r[0]))
    decreases |s|
  {
    if s != [] && drop(s[0]) {
      TrimStartSpec(s[1..], drop);
    }
  }

  /** `s.rstrip(chars)`. */
  function TrimEnd(s: string, drop: char -> bool): string {
    if s != [] && drop(s[|s| - 1]) then TrimEnd(s[..|s| - 1], drop) else s
  }

  /** `rstrip` keeps the longest prefix of `s` that does not end with a dropped character. */
  lemma {:induction false} TrimEndSpec(s: string, drop: char -> bool)
    ensures var r := TrimEnd(s, drop);
      && |r| <= |s| && r == s[..|r|]
      && (forall i :: |r| <= i < |s| ==> drop(s[i]))
      && (r != [] ==> !drop(r[|r| - 1]))
    decreases |s|
  {
    if s != [] && drop(s[|s| - 1]) {
      TrimEndSpec(s[..|s| - 1], drop);
    }
  }

  /** `s.strip()`. */
  function Strip(s: string): string {
    TrimEnd(TrimStart(s, IsSpace), IsSpace)
  }

  predicate AllSpace(s: string) {
    forall i :: 0 <= i < |s| ==> IsSpace(s[i])
  }

  /** `lstrip` takes away a white-space prefix and stops at the first other character. */
  lemma {:induction false} TrimStartSpaces(left: string, u: string)
    requires AllSpace(left)
    requires u == [] || !IsSpace(u[0])
    ensures TrimStart(left + u, IsSpace) == u
    decreases |left|
  {
    if left != [] {
      assert (left + u)[0] == left[0];
      assert (left + u)[1..] == left[1..] + u;
      TrimStartSpaces(left[1..], u);
    }
  }

  /** `rstrip` takes away a white-space suffix and stops at the last other character. */
  lemma {:induction false} TrimEndSpaces(u: string, right: string)
    requires AllSpace(right)
    requires u == [] || !IsSpace(u[|u| - 1])
    ensures TrimEnd(u + right, IsSpace) == u
    decreases |right|
  {
    if right != [] {
      var t := u + right;
      assert t[|t| - 1] == right[|right| - 1];
      assert t[..|t| - 1] == u + right[..|right| - 1];
      TrimEndSpaces(u, right[..|right| - 1]);
    }
  }

  /** `strip` removes exactly the white space around a string that neither starts nor ends with white space. */
  lemma StripRemovesPadding(left: string, s: string, right: string)
    requires AllSpace(left) && AllSpace(right)
    requires s != [] ==> !IsSpace(s[0]) && !IsSpace(s[|s| - 1])
    ensures Strip(left + s + right) == s
  {
    if s == [] {
      assert left + s + right == (left + right) + [];
      TrimStartSpaces(left + right, []);
    } else {
      assert left + s + right == left + (s + right);
      TrimStartSpaces(left, s + right);
      TrimEndSpaces(s, right);
    }
  }
}
