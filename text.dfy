/**
 * String helpers with the meaning JavaScript gives them: `split` on a separator, `join`,
 * `split(/\s+/).filter(Boolean)`, `trim() === ""`, ASCII `toUpperCase`, `startsWith`,
 * `includes` and `String(n)` for integers.
 */
module Text {

  /** The characters matched by the JavaScript regular-expression class `\s`. */
  predicate IsWhitespace(c: char) {
    || c == ' ' || c == '\t' || c == '\n' || c == '\r' || c == '\U{000B}' || c == '\U{000C}'
    || c == '\U{00A0}' || c == '\U{1680}' || ('\U{2000}' <= c <= '\U{200A}') || c == '\U{2028}'
    || c == '\U{2029}' || c == '\U{202F}' || c == '\U{205F}' || c == '\U{3000}' || c == '\U{FEFF}'
  }

  /** `s.trim() === ""`: the string holds whitespace only. */
  predicate IsBlank(s: string) {
    forall i :: 0 <= i < |s| ==> IsWhitespace(s[i])
  }

  /** No character of `s` is a separator. */
  predicate SeparatorFree(s: string, isSep: char -> bool) {
    forall i :: 0 <= i < |s| ==> !isSep(s[i])
  }

  /**
   * `s.split(sep)` where every character satisfying `isSep` separates two parts
   * (so two adjacent separators give an empty part between them).
   */
  function SplitBy(s: string, isSep: char -> bool): (parts: seq<string>)
    ensures |parts| >= 1
    ensures forall i :: 0 <= i < |parts| ==> SeparatorFree(parts[i], isSep)
  {
    if |s| == 0 then [""]
    else
      var rest := SplitBy(s[1..], isSep);
      if isSep(s[0]) then [""] + rest
      else [[s[0]] + rest[0]] + rest[1..]
  }

  /** `s.split(c)` for a one-character separator. */
  function Split(s: string, c: char): seq<string> {
    SplitBy(s, x => x == c)
  }

  /** `parts.join(sep)`. */
  function Join(parts: seq<string>, sep: string): string {
    if |parts| == 0 then ""
    else if |parts| == 1 then parts[0]
    else parts[0] + sep + Join(parts[1..], sep)
  }

  /** `.filter(Boolean)` on strings: drops the empty ones, keeps the order. */
  function NonEmptyParts(parts: seq<string>): (r: seq<string>)
    ensures forall i :: 0 <= i < |r| ==> r[i] != ""
    ensures forall p :: p in r <==> p in parts && p != ""
    ensures forall i :: 0 <= i < |r| ==> r[i] in parts
    ensures |r| <= |parts|
  {
    if parts == [] then []
    else if parts[0] == "" then NonEmptyParts(parts[1..])
    else [parts[0]] + NonEmptyParts(parts[1..])
  }
  /** The filter keeps the order: filtering a concatenation concatenates the filtered halves. */
  lemma {:induction false} NonEmptyPartsAppend(a: seq<string>, b: seq<string>)
    ensures NonEmptyParts(a + b) == NonEmptyParts(a) + NonEmptyParts(b)
  {
    if a == [] {
      assert a + b == b;
    } else {
      assert (a + b)[0] == a[0] && (a + b)[1..] == a[1..] + b;
      NonEmptyPartsAppend(a[1..], b);
    }
  }


  /** `s.split(/\s+/).filter(Boolean)`: the whitespace-separated tokens of `s`. Splitting at every
      whitespace character instead of at every run only adds empty parts, which the filter drops. */
  function Tokens(s: string): (ts: seq<string>)
    ensures forall i :: 0 <= i < |ts| ==> ts[i] != "" && SeparatorFree(ts[i], IsWhitespace)
  {
    NonEmptyParts(SplitBy(s, IsWhitespace))
  }

  /** Number of occurrences of `c` in `s`. */
  function Count(s: string, c: char): nat {
    if s == [] then 0 else (if s[0] == c then 1 else 0) + Count(s[1..], c)
  }

  function UpperChar(c: char): char {
    if 'a' <= c <= 'z' then (c as int - 32) as char else c
  }

  /** `s.toUpperCase()`, for the ASCII letters. */
  function ToUpper(s: string): (r: string)
    ensures |r| == |s|
    ensures forall i :: 0 <= i < |s| ==> r[i] == UpperChar(s[i])
  {
    seq(|s|, i requires 0 <= i < |s| => UpperChar(s[i]))
  }

  predicate StartsWith(s: string, prefix: string) {
    |prefix| <= |s| && s[..|prefix|] == prefix
  }

  /** `s.includes(t)`. */
  predicate Contains(s: string, t: string) {
    exists i :: 0 <= i <= |s| && OccursAt(s, t, i)
  }

  /** `t` occurs in `s` starting at index `i`. */
  predicate OccursAt(s: string, t: string, i: int) {
    0 <= i && i + |t| <= |s| && s[i..i + |t|] == t
  }

  function Spaces(n: nat): (r: string)
    ensures |r| == n && forall i :: 0 <= i < n ==> r[i] == ' '
  {
    seq(n, _ => ' ')
  }

  function DigitChar(d: nat): char
    requires d < 10
  {
    ('0' as int + d) as char
  }

  predicate IsDigit(c: char) {
    '0' <= c <= '9'
  }

  /** Decimal digits of `n`, most significant first, with no leading zero. */
  function NatToString(n: nat): (r: string)
    ensures |r| >= 1 && forall i :: 0 <= i < |r| ==> IsDigit(r[i])
  {
    if n < 10 then [DigitChar(n)] else NatToString(n / 10) + [DigitChar(n % 10)]
  }

  /** `String(n)` for an integer-valued JavaScript number. */
  function IntToString(n: int): string {
    if n < 0 then "-" + NatToString(-n) else NatToString(n)
  }

  /** The value of a string of decimal digits (the empty string gives 0, as `Number("")` does). */
  function DigitsValue(s: string): nat
    requires forall i :: 0 <= i < |s| ==> IsDigit(s[i])
  {
    if s == [] then 0 else DigitsValue(s[..|s| - 1]) * 10 + DigitValue(s[|s| - 1])
  }

  function DigitValue(c: char): nat
    requires IsDigit(c)
  {
    c as int - '0' as int
  }

  // ---------------------------------------------------------------------------------------------
  // Lemmas

  lemma {:induction false} JoinConsHead(a: string, parts: seq<string>, sep: string)
    requires |parts| >= 1
    ensures Join([a + parts[0]] + parts[1..], sep) == a + Join(parts, sep)
  {
    var q := [a + parts[0]] + parts[1..];
    if |parts| == 1 {
    } else {
      assert q[1..] == parts[1..];
    }
  }

  /** Joining the parts of a split with the separator gives back the string. */
  lemma {:induction false} JoinSplitBy(s: string, isSep: char -> bool, c: char)
    requires forall x :: isSep(x) <==> x == c
    ensures Join(SplitBy(s, isSep), [c]) == s
  {
    if |s| == 0 {
    } else {
      var rest := SplitBy(s[1..], isSep);
      JoinSplitBy(s[1..], isSep, c);
      if isSep(s[0]) {
        assert ([""] + rest)[1..] == rest;
        assert s == [c] + s[1..];
      } else {
        JoinConsHead([s[0]], rest, [c]);
        assert s == [s[0]] + s[1..];
      }
    }
  }

  lemma JoinSplit(s: string, c: char)
    ensures Join(Split(s, c), [c]) == s
  {
    JoinSplitBy(s, x => x == c, c);
  }

  /** Splitting a separator-free string prefix followed by a separator peels off that prefix. */
  lemma {:induction false} SplitByPrefix(x: string, c: char, y: string, isSep: char -> bool)
    requires isSep(c) && SeparatorFree(x, isSep)
    ensures SplitBy(x + [c] + y, isSep) == [x] + SplitBy(y, isSep)
  {
    if |x| == 0 {
      assert x + [c] + y == [c] + y;
      assert ([c] + y)[1..] == y;
    } else {
      var s := x + [c] + y;
      assert s[1..] == x[1..] + [c] + y;
      SplitByPrefix(x[1..], c, y, isSep);
      assert [x[0]] + x[1..] == x;
    }
  }

  lemma {:induction false} SplitBySeparatorFree(x: string, isSep: char -> bool)
    requires SeparatorFree(x, isSep)
    ensures SplitBy(x, isSep) == [x]
  {
    if |x| > 0 {
      SplitBySeparatorFree(x[1..], isSep);
      assert [x[0]] + x[1..] == x;
    }
  }

  /** Splitting a join of separator-free parts gives back the parts. */
  lemma {:induction false} SplitByJoin(parts: seq<string>, c: char, isSep: char -> bool)
    requires isSep(c) && |parts| >= 1
    requires forall i :: 0 <= i < |parts| ==> SeparatorFree(parts[i], isSep)
    ensures SplitBy(Join(parts, [c]), isSep) == parts
  {
    if |parts| == 1 {
      SplitBySeparatorFree(parts[0], isSep);
    } else {
      SplitByJoin(parts[1..], c, isSep);
      SplitByPrefix(parts[0], c, Join(parts[1..], [c]), isSep);
      assert [parts[0]] + parts[1..] == parts;
    }
  }

  /** `split` yields one more part than there are separators. */
  lemma {:induction false} SplitCount(s: string, c: char)
    ensures |Split(s, c)| == Count(s, c) + 1
  {
    SplitByCount(s, x => x == c, c);
  }

  lemma {:induction false} SplitByCount(s: string, isSep: char -> bool, c: char)
    requires forall x :: isSep(x) <==> x == c
    ensures |SplitBy(s, isSep)| == Count(s, c) + 1
  {
    if |s| > 0 {
      SplitByCount(s[1..], isSep, c);
    }
  }

  lemma {:induction false} NonEmptyPartsIdentity(parts: seq<string>)
    requires forall i :: 0 <= i < |parts| ==> parts[i] != ""
    ensures NonEmptyParts(parts) == parts
  {
    if parts != [] {
      NonEmptyPartsIdentity(parts[1..]);
      assert [parts[0]] + parts[1..] == parts;
    }
  }

  /** Tokenising a space-joined list of non-empty, whitespace-free tokens gives back the list. */
  lemma TokensOfJoin(ts: seq<string>)
    requires forall i :: 0 <= i < |ts| ==> ts[i] != "" && SeparatorFree(ts[i], IsWhitespace)
    ensures Tokens(Join(ts, " ")) == ts
  {
    if ts == [] {
      assert SplitBy("", IsWhitespace) == [""];
    } else {
      SplitByJoin(ts, ' ', IsWhitespace);
      NonEmptyPartsIdentity(ts);
    }
  }

  /** A string has no token exactly when it is blank (`trim()` leaves nothing). */
  lemma {:induction false} TokensEmptyIffBlank(s: string)
    ensures Tokens(s) == [] <==> IsBlank(s)
  {
    if |s| > 0 {
      TokensEmptyIffBlank(s[1..]);
      var rest := SplitBy(s[1..], IsWhitespace);
      if IsWhitespace(s[0]) {
        assert NonEmptyParts([""] + rest) == NonEmptyParts(rest) by {
          assert ([""] + rest)[1..] == rest;
        }
        assert IsBlank(s) <==> IsBlank(s[1..]) by {
          if IsBlank(s[1..]) {
            forall i | 0 <= i < |s| ensures IsWhitespace(s[i]) {
              if i > 0 { assert s[i] == s[1..][i - 1]; }
            }
          }
          if IsBlank(s) {
            forall i | 0 <= i < |s[1..]| ensures IsWhitespace(s[1..][i]) {
              assert s[1..][i] == s[i + 1];
            }
          }
        }
      } else {
        assert !IsBlank(s);
        var p := [[s[0]] + rest[0]] + rest[1..];
        assert p[0] != "";
        assert Tokens(s) == NonEmptyParts(p);
        assert Tokens(s) != [];
      }
    }
  }

  lemma UpperCharIdempotent(c: char)
    ensures UpperChar(UpperChar(c)) == UpperChar(c)
  {
  }

  lemma ToUpperIdempotent(s: string)
    ensures ToUpper(ToUpper(s)) == ToUpper(s)
  {
  }

  /** Reading back the decimal digits of `n` gives `n`. */
  lemma {:induction false} DigitsValueOfNatToString(n: nat)
    ensures DigitsValue(NatToString(n)) == n
  {
    if n >= 10 {
      DigitsValueOfNatToString(n / 10);
      var s := NatToString(n / 10) + [DigitChar(n % 10)];
      assert s[..|s| - 1] == NatToString(n / 10);
    }
  }

  /** The lines a logger writes for one message: each `"\n"`-separated segment of `text`, in
      order, between `prefix` and a newline. */
  function PrefixedLines(prefix: string, text: string): (r: seq<string>)
    ensures |r| == |Split(text, '\n')| == Count(text, '\n') + 1
    ensures forall i :: 0 <= i < |r| ==> r[i] == prefix + Split(text, '\n')[i] + "\n"
  {
    SplitCount(text, '\n');
    var lines := Split(text, '\n');
    seq(|lines|, i requires 0 <= i < |lines| => prefix + lines[i] + "\n")
  }

  /** The segments carried by the lines, joined with `"\n"`, give back the message. */
  lemma PrefixedLinesRoundTrip(prefix: string, text: string)
    ensures var r := PrefixedLines(prefix, text);
      Join(seq(|r|, i requires 0 <= i < |r| => r[i][|prefix|..|r[i]| - 1]), "\n") == text
  {
    var r := PrefixedLines(prefix, text);
    var segments := seq(|r|, i requires 0 <= i < |r| => r[i][|prefix|..|r[i]| - 1]);
    forall i | 0 <= i < |r| ensures segments[i] == Split(text, '\n')[i] {
      var line := Split(text, '\n')[i];
      assert r[i] == prefix + line + "\n";
      assert r[i][|prefix|..|r[i]| - 1] == line;
    }
    assert segments == Split(text, '\n');
    JoinSplit(text, '\n');
  }
}
