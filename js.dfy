/**
 * The few JavaScript value rules and String built-ins that the server and
 * the browser script rely on.
 *
 * A JavaScript string is a sequence of UTF-16 code units; here a string is
 * a sequence of Unicode scalar values (`char`), and a character above U+FFFF,
 * which JavaScript stores as two code units, is one `char`. Where the code
 * units matter (the filename sanitiser's regular expression has no `u` flag),
 * the model counts them with `Utf16Units`. A JSON field that the code reads as a string is either
 * absent (`undefined` or `null`), which is `None`, or a string, which is
 * `Some(s)`.
 */
module Js {

  datatype Option<+T> = None | Some(value: T)

  /** JavaScript truthiness of an absent-or-string value: only a non-empty string is truthy. */
  predicate Truthy(v: Option<string>) {
    v.Some? && v.value != ""
  }

  /** `a || b` on absent-or-string values: the first operand when it is truthy, else the second as it is. */
  function Or(a: Option<string>, b: Option<string>): Option<string> {
    if Truthy(a) then a else b
  }

  /** `v || fallback` for a string literal `fallback`: always a string. */
  function OrElse(v: Option<string>, fallback: string): (r: string)
    ensures Truthy(v) ==> r == v.value
    ensures !Truthy(v) ==> r == fallback
    ensures fallback != "" ==> r != ""
  {
    if Truthy(v) then v.value else fallback
  }

  /** `a || b || c` yields the first truthy operand; when none is truthy it yields `c` as it is. */
  lemma OrChain(a: Option<string>, b: Option<string>, c: Option<string>)
    ensures Truthy(Or(Or(a, b), c)) <==> Truthy(a) || Truthy(b) || Truthy(c)
    ensures Truthy(a) ==> Or(Or(a, b), c) == a
    ensures !Truthy(a) && Truthy(b) ==> Or(Or(a, b), c) == b
    ensures !Truthy(a) && !Truthy(b) ==> Or(Or(a, b), c) == c
  {
  }

  /** `s.startsWith(p)`. */
  predicate StartsWith(s: string, p: string) {
    |p| <= |s| && s[..|p|] == p
  }

  /** `t` occurs in `s` at index `i`. */
  ghost predicate OccursAt(s: string, t: string, i: int) {
    0 <= i && i + |t| <= |s| && s[i..i + |t|] == t
  }

  /** `s.includes(t)`: tries every start position from the left. */
  predicate Includes(s: string, t: string)
    decreases |s|
  {
    StartsWith(s, t) || (s != [] && Includes(s[1..], t))
  }

  /** `Includes` agrees with the definition of a substring: some position where `t` occurs. */
  lemma {:induction false} IncludesIff(s: string, t: string)
    ensures Includes(s, t) <==> exists i :: OccursAt(s, t, i)
    decreases |s|
  {
    if StartsWith(s, t) {
      assert OccursAt(s, t, 0);
    } else if s != [] {
      IncludesIff(s[1..], t);
      if Includes(s[1..], t) {
        var i :| OccursAt(s[1..], t, i);
        assert s[i + 1..i + 1 + |t|] == s[1..][i..i + |t|];
        assert OccursAt(s, t, i + 1);
      } else {
        forall i | 1 <= i && OccursAt(s, t, i) ensures OccursAt(s[1..], t, i - 1) {
          assert s[1..][i - 1..i - 1 + |t|] == s[i..i + |t|];
        }
      }
    }
  }

  /** A match of `t` cannot begin inside a prefix `p` that does not hold `t`'s first character. */
  lemma {:induction false} IncludesAfterPrefix(p: string, s: string, t: string)
    requires t != [] && t[0] !in p
    ensures Includes(p + s, t) <==> Includes(s, t)
    decreases |p|
  {
    if p != [] {
      assert (p + s)[0] == p[0];
      assert (p + s)[1..] == p[1..] + s;
      assert Includes(p + s, t) == Includes(p[1..] + s, t);
      IncludesAfterPrefix(p[1..], s, t);
    } else {
      assert p + s == s;
    }
  }

  /** `s.indexOf(c)`: the position of the first `c`, or -1 when there is none. */
  function IndexOf(s: string, c: char): (r: int)
    ensures r == -1 <==> c !in s
    ensures r != -1 ==> 0 <= r < |s| && s[r] == c && c !in s[..r]
    decreases |s|
  {
    if s == [] then -1
    else if s[0] == c then 0
    else
      var k := IndexOf(s[1..], c);
      assert s[1..] == s[..|s|][1..];
      if k == -1 then -1
      else
        assert s[..k + 1] == [s[0]] + s[1..][..k];
        k + 1
  }

  /** `s.replace(c, '')` with a one-character string pattern: removes the FIRST occurrence of `c` only. */
  function RemoveFirst(s: string, c: char): string
    decreases |s|
  {
    if s == [] then []
    else if s[0] == c then s[1..]
    else [s[0]] + RemoveFirst(s[1..], c)
  }

  /** Without a `c` in it the string comes back unchanged. */
  lemma {:induction false} RemoveFirstAbsent(s: string, c: char)
    requires c !in s
    ensures RemoveFirst(s, c) == s
    decreases |s|
  {
    if s != [] {
      RemoveFirstAbsent(s[1..], c);
    }
  }

  /** When the first `c` is at `i`, exactly that character is cut out. */
  lemma {:induction false} RemoveFirstAt(s: string, c: char, i: nat)
    requires i < |s| && s[i] == c && c !in s[..i]
    ensures RemoveFirst(s, c) == s[..i] + s[i + 1..]
    decreases i
  {
    if i > 0 {
      assert s[0] == s[..i][0];
      assert s[1..][..i - 1] == s[1..i];
      RemoveFirstAt(s[1..], c, i - 1);
      assert s[..i] == [s[0]] + s[1..i];
    }
  }

  /**
   * What `RemoveFirst` promises: the string is unchanged without `c`;
   * otherwise exactly the first `c` (the one `IndexOf` finds) is cut out, so
   * one `c` fewer and every other character kept.
   */
  lemma RemoveFirstSpec(s: string, c: char)
    ensures c !in s ==> RemoveFirst(s, c) == s
    ensures c in s ==> RemoveFirst(s, c) == s[..IndexOf(s, c)] + s[IndexOf(s, c) + 1..]
    ensures c in s ==> multiset(RemoveFirst(s, c)) + multiset{c} == multiset(s)
  {
    if c !in s {
      RemoveFirstAbsent(s, c);
    } else {
      var i := IndexOf(s, c);
      RemoveFirstAt(s, c, i);
      MultisetWithout(s, i);
    }
  }

  /** Cutting out the character at `i` removes exactly one copy of it from the multiset. */
  lemma MultisetWithout(s: string, i: nat)
    requires i < |s|
    ensures multiset(s[..i] + s[i + 1..]) + multiset{s[i]} == multiset(s)
  {
    assert s == s[..i] + [s[i]] + s[i + 1..];
  }

  /**
   * The characters `String.prototype.trim` strips: the ECMAScript WhiteSpace
   * code points (tab, vertical tab, form feed, space, no-break space, the
   * byte-order mark and the Unicode space separators) and the LineTerminator
   * code points (line feed, carriage return, line and paragraph separator).
   */
  predicate IsTrimmable(c: char) {
    ('\t' <= c <= '\r') || c == ' ' || c == '\U{00A0}' || c == '\U{1680}'
    || ('\U{2000}' <= c <= '\U{200A}') || c == '\U{2028}' || c == '\U{2029}'
    || c == '\U{202F}' || c == '\U{205F}' || c == '\U{3000}' || c == '\U{FEFF}'
  }

  /** How many trimmable characters `s` starts with: they all go, and the next one (if any) is not trimmable. */
  function LeadingTrimmable(s: string): (n: nat)
    ensures n <= |s|
    ensures forall k :: 0 <= k < n ==> IsTrimmable(s[k])
    ensures n == |s| || !IsTrimmable(s[n])
    decreases |s|
  {
    if s != [] && IsTrimmable(s[0]) then
      var m := LeadingTrimmable(s[1..]);
      assert forall k :: 1 <= k < |s| ==> s[1..][k - 1] == s[k];
      1 + m
    else 0
  }

  /** How many trimmable characters `s` ends with: they all go, and the one before them (if any) is not trimmable. */
  function TrailingTrimmable(s: string): (n: nat)
    ensures n <= |s|
    ensures forall k :: |s| - n <= k < |s| ==> IsTrimmable(s[k])
    ensures n == |s| || !IsTrimmable(s[|s| - n - 1])
    decreases |s|
  {
    if s != [] && IsTrimmable(s[|s| - 1]) then
      var m := TrailingTrimmable(s[..|s| - 1]);
      assert forall k :: 0 <= k < |s| - 1 ==> s[..|s| - 1][k] == s[k];
      1 + m
    else 0
  }

  /** `s.trim()`: the part between the leading and the trailing trimmable characters. */
  function Trim(s: string): string {
    var i := LeadingTrimmable(s);
    s[i..][..|s| - i - TrailingTrimmable(s[i..])]
  }

  /** `t` is the slice `s[i..j]` and everything outside it is trimmable. */
  ghost predicate TrimmedSlice(s: string, t: string, i: int, j: int) {
    && 0 <= i <= j <= |s| && t == s[i..j]
    && (forall k :: 0 <= k < i ==> IsTrimmable(s[k]))
    && (forall k :: j <= k < |s| ==> IsTrimmable(s[k]))
  }

  /** `trim` keeps a contiguous middle part of the string and strips only trimmable characters around it. */
  lemma TrimSpec(s: string)
    ensures exists i, j :: TrimmedSlice(s, Trim(s), i, j)
    ensures Trim(s) == [] || (!IsTrimmable(Trim(s)[0]) && !IsTrimmable(Trim(s)[|Trim(s)| - 1]))
  {
    var i := LeadingTrimmable(s);
    var a := s[i..];
    var m := TrailingTrimmable(a);
    var j := |s| - m;
    assert Trim(s) == s[i..j];
    forall k | j <= k < |s| ensures IsTrimmable(s[k]) {
      assert s[k] == a[k - i];
    }
    assert TrimmedSlice(s, Trim(s), i, j);
    if Trim(s) != [] {
      assert Trim(s)[0] == s[i];
      assert Trim(s)[|Trim(s)| - 1] == a[|a| - m - 1];
    }
  }

  /** Dropping characters that all differ from `c` keeps the count of `c`. */
  lemma SplitKeepsCount(s: string, n: nat, c: char)
    requires n <= |s| && c !in s[..n]
    ensures multiset(s[n..])[c] == multiset(s)[c]
    ensures multiset(s[..n])[c] == 0
  {
    assert s == s[..n] + s[n..];
  }

  /** Trimming removes no character that is not trimmable: its count stays the same. */
  lemma TrimKeepsOthers(s: string, c: char)
    requires !IsTrimmable(c)
    ensures multiset(Trim(s))[c] == multiset(s)[c]
    ensures c in Trim(s) <==> c in s
  {
    var i := LeadingTrimmable(s);
    var a := s[i..];
    var m := TrailingTrimmable(a);
    assert c !in s[..i] by {
      assert forall k :: 0 <= k < i ==> s[..i][k] == s[k];
    }
    SplitKeepsCount(s, i, c);
    assert Trim(s) == a[..|a| - m];
    var tail := a[|a| - m..];
    forall k | 0 <= k < |tail| ensures IsTrimmable(tail[k]) {
      assert tail[k] == a[|a| - m + k];
    }
    assert multiset(a) == multiset(a[..|a| - m]) + multiset(a[|a| - m..]) by {
      assert a == a[..|a| - m] + a[|a| - m..];
    }
    assert c in Trim(s) <==> c in multiset(Trim(s));
    assert c in s <==> c in multiset(s);
  }

  /** Trimming twice is trimming once. */
  lemma TrimIdempotent(s: string)
    ensures Trim(Trim(s)) == Trim(s)
  {
    var t := Trim(s);
    TrimSpec(s);
    if t != [] {
      assert LeadingTrimmable(t) == 0;
      assert t[0..] == t;
      assert TrailingTrimmable(t) == 0;
    }
  }

  /** An ASCII letter or digit: what the class `[a-z0-9]` matches under the `i` flag. */
  predicate IsAsciiAlnum(c: char) {
    ('a' <= c <= 'z') || ('A' <= c <= 'Z') || ('0' <= c <= '9')
  }

  /** The number of UTF-16 code units JavaScript uses for `c`: two above U+FFFF, one otherwise. */
  function Utf16Units(c: char): nat {
    if c as int > 0xFFFF then 2 else 1
  }

  /** `s.length` in JavaScript: the number of UTF-16 code units of `s`. */
  function Utf16Length(s: string): nat
    decreases |s|
  {
    if s == [] then 0 else Utf16Units(s[0]) + Utf16Length(s[1..])
  }

  /** Every character of `s` is one UTF-16 code unit. */
  ghost predicate InBmp(s: string) {
    forall k :: 0 <= k < |s| ==> Utf16Units(s[k]) == 1
  }

  /**
   * What `replace(/[^a-z0-9]/gi, '_')` makes of one character: an ASCII
   * letter or digit stays, anything else becomes one `_` per code unit, since
   * without the `u` flag the pattern matches each half of a surrogate pair
   * on its own.
   */
  function Replacement(c: char): string {
    if IsAsciiAlnum(c) then [c] else if Utf16Units(c) == 2 then "__" else "_"
  }

  /** `s.replace(/[^a-z0-9]/gi, '_')`. */
  function ReplaceNonAlnum(s: string): string
    decreases |s|
  {
    if s == [] then [] else Replacement(s[0]) + ReplaceNonAlnum(s[1..])
  }

  /** Lower-cases the ASCII capitals and leaves every other character alone. */
  function LowerAscii(c: char): char {
    if 'A' <= c <= 'Z' then (c as int + 32) as char else c
  }

  /**
   * `s.toLowerCase()` on strings of ASCII characters, where it lower-cases
   * the capitals A to Z and nothing else.
   */
  function ToLowerCase(s: string): string
    decreases |s|
  {
    if s == [] then [] else [LowerAscii(s[0])] + ToLowerCase(s[1..])
  }

  /** Lower-case ASCII letter, digit or underscore: the characters `[a-z0-9_]`. */
  predicate IsFilenameChar(c: char) {
    ('a' <= c <= 'z') || ('0' <= c <= '9') || c == '_'
  }

  /** `s.replace(/[^a-z0-9]/gi, '_').toLowerCase()`. */
  function Sanitize(s: string): string {
    ToLowerCase(ReplaceNonAlnum(s))
  }

  /** The character that `Sanitize` puts in place of a one-unit character `c`. */
  function SanitizedChar(c: char): (d: char)
    ensures IsFilenameChar(d)
  {
    if IsAsciiAlnum(c) then LowerAscii(c) else '_'
  }

  /** What `Sanitize` makes of one character `c`: one filename character per code unit of `c`. */
  function SanitizedUnits(c: char): (r: string)
    ensures |r| == Utf16Units(c)
    ensures forall k :: 0 <= k < |r| ==> r[k] == SanitizedChar(c)
  {
    if Utf16Units(c) == 2 then [SanitizedChar(c), SanitizedChar(c)] else [SanitizedChar(c)]
  }

  /** `ToLowerCase` works character by character. */
  lemma {:induction false} ToLowerCaseAppend(s: string, t: string)
    ensures ToLowerCase(s + t) == ToLowerCase(s) + ToLowerCase(t)
    decreases |s|
  {
    if s == [] {
      assert s + t == t;
    } else {
      assert (s + t)[1..] == s[1..] + t;
      ToLowerCaseAppend(s[1..], t);
    }
  }

  /** `Sanitize` of a non-empty string is its first character's units followed by the rest, sanitised. */
  lemma SanitizeCons(s: string)
    requires s != []
    ensures Sanitize(s) == SanitizedUnits(s[0]) + Sanitize(s[1..])
  {
    ToLowerCaseAppend(Replacement(s[0]), ReplaceNonAlnum(s[1..]));
    var r := Replacement(s[0]);
    if IsAsciiAlnum(s[0]) {
      assert ToLowerCase(r) == [LowerAscii(s[0])] + ToLowerCase([]);
    } else if Utf16Units(s[0]) == 2 {
      assert ToLowerCase(r) == [LowerAscii('_')] + ToLowerCase(r[1..]);
      assert ToLowerCase(r[1..]) == [LowerAscii('_')] + ToLowerCase([]);
    } else {
      assert ToLowerCase(r) == [LowerAscii('_')] + ToLowerCase([]);
    }
  }

  /**
   * `Sanitize` is the character-by-character map `SanitizedUnits`: it
   * distributes over concatenation, so the name of a joined title is the
   * joined names.
   */
  lemma {:induction false} SanitizeAppend(s: string, t: string)
    ensures Sanitize(s + t) == Sanitize(s) + Sanitize(t)
    decreases |s|
  {
    if s == [] {
      assert s + t == t;
      assert Sanitize(s) == [];
    } else {
      var st := s + t;
      assert st[0] == s[0];
      assert st[1..] == s[1..] + t;
      calc {
        Sanitize(st);
        { SanitizeCons(st); }
        SanitizedUnits(s[0]) + Sanitize(s[1..] + t);
        { SanitizeAppend(s[1..], t); }
        SanitizedUnits(s[0]) + (Sanitize(s[1..]) + Sanitize(t));
        (SanitizedUnits(s[0]) + Sanitize(s[1..])) + Sanitize(t);
        { SanitizeCons(s); }
        Sanitize(s) + Sanitize(t);
      }
    }
  }

  /**
   * The result is as long as the title in code units and made only of
   * `[a-z0-9_]`; for a title of one-unit characters each character is
   * mapped on its own: ASCII letters and digits lower-cased, anything else
   * `_`.
   */
  lemma {:induction false} SanitizeAt(s: string)
    ensures |Sanitize(s)| == Utf16Length(s)
    ensures forall k :: 0 <= k < |Sanitize(s)| ==> IsFilenameChar(Sanitize(s)[k])
    ensures InBmp(s) ==> |Sanitize(s)| == |s| && forall k :: 0 <= k < |s| ==> Sanitize(s)[k] == SanitizedChar(s[k])
    decreases |s|
  {
    if s != [] {
      var head := SanitizedUnits(s[0]);
      var rest := Sanitize(s[1..]);
      SanitizeCons(s);
      SanitizeAt(s[1..]);
      assert Sanitize(s) == head + rest;
      forall k | 0 <= k < |Sanitize(s)| ensures IsFilenameChar(Sanitize(s)[k]) {
        if k >= |head| {
          assert Sanitize(s)[k] == rest[k - |head|];
        }
      }
      if InBmp(s) {
        assert InBmp(s[1..]) by {
          forall k | 0 <= k < |s[1..]| ensures Utf16Units(s[1..][k]) == 1 {
            assert s[1..][k] == s[k + 1];
          }
        }
        forall k | 0 <= k < |s| ensures Sanitize(s)[k] == SanitizedChar(s[k]) {
          if k > 0 {
            assert Sanitize(s)[k] == rest[k - 1];
            assert s[1..][k - 1] == s[k];
          }
        }
      }
    } else {
      assert Sanitize(s) == [];
    }
  }

  /** Sanitizing a sanitized string changes nothing. */
  lemma SanitizeIdempotent(s: string)
    ensures Sanitize(Sanitize(s)) == Sanitize(s)
  {
    var t := Sanitize(s);
    SanitizeAt(s);
    assert InBmp(t) by {
      forall k | 0 <= k < |t| ensures Utf16Units(t[k]) == 1 {
        assert IsFilenameChar(t[k]);
      }
    }
    SanitizeAt(t);
    forall k | 0 <= k < |t| ensures Sanitize(t)[k] == t[k] {
      assert IsFilenameChar(t[k]);
    }
  }

  /** The decimal digit character for `d`. */
  function DigitChar(d: nat): char
    requires d < 10
  {
    ('0' as int + d) as char
  }

  /** `${n}` for a non-negative integer: its decimal digits, without leading zeros. */
  function NatToString(n: nat): (r: string)
    ensures |r| > 0
    ensures forall k :: 0 <= k < |r| ==> '0' <= r[k] <= '9'
    decreases n
  {
    if n < 10 then [DigitChar(n)] else NatToString(n / 10) + [DigitChar(n % 10)]
  }

  /** The number a string of decimal digits denotes. */
  function DigitsValue(s: string): nat
    requires forall k :: 0 <= k < |s| ==> '0' <= s[k] <= '9'
    decreases |s|
  {
    if s == [] then 0 else DigitsValue(s[..|s| - 1]) * 10 + (s[|s| - 1] as int - '0' as int)
  }

  /** Reading back the digits of `${n}` gives `n`: the formatting loses nothing. */
  lemma {:induction false} NatToStringRoundTrip(n: nat)
    ensures DigitsValue(NatToString(n)) == n
    decreases n
  {
    if n >= 10 {
      var r := NatToString(n);
      NatToStringRoundTrip(n / 10);
      assert r[..|r| - 1] == NatToString(n / 10);
    }
  }
}
