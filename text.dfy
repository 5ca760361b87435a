/** String primitives the routes rely on, stated for Dafny strings (sequences of
    Unicode scalar values): ECMAScript trim, ASCII lower-casing, prefix and suffix
    tests, splitting on line feeds, decimal rendering of a number, and the
    character-class replacement used by the two admin sanitisers. */
module Text {

  /** The characters String.prototype.trim removes: white space and line terminators. */
  predicate IsTrimmable(c: char) {
    || c == ' ' || c == '\t' || c == '\n' || c == '\r' || c == '\U{000B}' || c == '\U{000C}'
    || c == '\U{00A0}' || c == '\U{1680}' || ('\U{2000}' <= c <= '\U{200A}')
    || c == '\U{2028}' || c == '\U{2029}' || c == '\U{202F}' || c == '\U{205F}'
    || c == '\U{3000}' || c == '\U{FEFF}'
  }

  /** Drops leading trimmable characters: the result is a suffix of `s`, everything
      dropped is trimmable and the result does not start with a trimmable character. */
  function TrimStart(s: string): (r: string)
    ensures |r| <= |s| && r == s[|s| - |r|..]
    ensures forall i :: 0 <= i < |s| - |r| ==> IsTrimmable(s[i])
    ensures r == [] || !IsTrimmable(r[0])
  {
    if s != [] && IsTrimmable(s[0]) then TrimStart(s[1..]) else s
  }

  /** Drops trailing trimmable characters: the result is a prefix of `s`, everything
      dropped is trimmable and the result does not end with a trimmable character. */
  function TrimEnd(s: string): (r: string)
    ensures |r| <= |s| && r == s[..|r|]
    ensures forall i :: |r| <= i < |s| ==> IsTrimmable(s[i])
    ensures r == [] || !IsTrimmable(r[|r| - 1])
  {
    if s != [] && IsTrimmable(s[|s| - 1]) then TrimEnd(s[..|s| - 1]) else s
  }

  /** ECMAScript `s.trim()`. */
  function Trim(s: string): (r: string)
    ensures r == [] || (!IsTrimmable(r[0]) && !IsTrimmable(r[|r| - 1]))
  {
    TrimEnd(TrimStart(s))
  }

  /** A blank string (falsy after `.trim()`) is one made only of trimmable characters. */
  lemma TrimEmptyIff(s: string)
    ensures Trim(s) == [] <==> forall i :: 0 <= i < |s| ==> IsTrimmable(s[i])
  {
    var t := TrimStart(s);
    if Trim(s) == [] {
      assert t == [];
    } else {
      var r := Trim(s);
      assert r[0] == t[0] == s[|s| - |t|];
    }
  }

  /** Trimming twice is trimming once. */
  lemma TrimIdempotent(s: string)
    ensures Trim(Trim(s)) == Trim(s)
  {
    var r := Trim(s);
    assert TrimStart(r) == r;
  }

  /** TrimStart is determined by its contract: dropping `m` leading characters that
      are all trimmable, up to a non-trimmable one (or the end), is TrimStart. */
  lemma TrimStartUnique(x: string, m: nat)
    requires m <= |x| && (m == |x| || !IsTrimmable(x[m]))
    requires forall i :: 0 <= i < m ==> IsTrimmable(x[i])
    ensures TrimStart(x) == x[m..]
  {
  }

  /** TrimEnd is determined by its contract, in the same way. */
  lemma TrimEndUnique(x: string, n: nat)
    requires n <= |x| && (n == 0 || !IsTrimmable(x[n - 1]))
    requires forall i :: n <= i < |x| ==> IsTrimmable(x[i])
    ensures TrimEnd(x) == x[..n]
  {
  }

  /** Trailing white space after a non-blank prefix is trimmed from the suffix alone. */
  lemma TrimEndAfter(p: string, s: string)
    requires p != [] && !IsTrimmable(p[|p| - 1])
    ensures TrimEnd(p + s) == p + TrimEnd(s)
  {
    var e := TrimEnd(s);
    TrimEndUnique(p + s, |p| + |e|);
    assert (p + s)[..|p| + |e|] == p + e;
  }

  /** Trimming the end first does not change the trimmed result. */
  lemma {:induction false} TrimAfterTrimEnd(s: string)
    decreases |s|
    ensures Trim(TrimEnd(s)) == Trim(s)
  {
    var e := TrimEnd(s);
    if s == [] {
    } else if !IsTrimmable(s[0]) {
      assert e != [] && e[0] == s[0];
      assert TrimStart(e) == e;
      TrimEndUnique(e, |e|);
      assert e[..|e|] == e;
    } else {
      var e1 := TrimEnd(s[1..]);
      if e1 == [] {
        TrimEndUnique(s, 0);
        TrimStartUnique(s, |s|);
      } else {
        TrimEndUnique(s, 1 + |e1|);
        assert e == [s[0]] + e1 by {
          assert s[..1 + |e1|] == [s[0]] + s[1..][..|e1|];
        }
        assert TrimStart(e) == TrimStart(e1) by {
          assert e[1..] == e1;
        }
        TrimAfterTrimEnd(s[1..]);
      }
    }
  }

  /** ASCII upper-case letters map to lower case; everything else is kept. */
  function LowerChar(c: char): char {
    if 'A' <= c <= 'Z' then (c as int + 32) as char else c
  }

  /** `s.toLowerCase()` restricted to ASCII letters; it keeps the length. */
  function Lower(s: string): (r: string)
    ensures |r| == |s|
    ensures forall i :: 0 <= i < |s| ==> r[i] == LowerChar(s[i])
  {
    seq(|s|, i requires 0 <= i < |s| => LowerChar(s[i]))
  }

  predicate StartsWith(s: string, prefix: string) {
    |prefix| <= |s| && s[..|prefix|] == prefix
  }

  predicate EndsWith(s: string, suffix: string) {
    |suffix| <= |s| && s[|s| - |suffix|..] == suffix
  }

  /** Lines joined back with line feeds (the inverse of Split). */
  function Join(lines: seq<string>): string
    requires |lines| >= 1
  {
    if |lines| == 1 then lines[0] else lines[0] + "\n" + Join(lines[1..])
  }

  /** `s.split('\n')`: at least one piece, no piece holds a line feed, and joining
      the pieces with line feeds gives `s` back. */
  function Split(s: string): (lines: seq<string>)
    ensures |lines| >= 1
    ensures forall i :: 0 <= i < |lines| ==> '\n' !in lines[i]
    ensures Join(lines) == s
  {
    if s == [] then [""]
    else
      var rest := Split(s[1..]);
      if s[0] == '\n' then
        assert [s[0]] + Join(rest) == s;
        [""] + rest
      else
        var lines := [[s[0]] + rest[0]] + rest[1..];
        assert lines[1..] == rest[1..];
        assert Join(lines) == s by {
          if |rest| == 1 {
          } else {
            assert Join(rest) == rest[0] + "\n" + Join(rest[1..]);
          }
        }
        lines
  }

  predicate IsDigit(c: char) {
    '0' <= c <= '9'
  }

  function DigitChar(d: nat): char
    requires d < 10
  {
    ('0' as int + d) as char
  }

  function DigitValue(c: char): nat
    requires IsDigit(c)
  {
    c as int - '0' as int
  }

  /** Decimal rendering of a non-negative integer, as template-literal interpolation
      of a number gives it: one or more digits with no leading zero. */
  function Decimal(n: nat): (r: string)
    ensures |r| >= 1
    ensures forall i :: 0 <= i < |r| ==> IsDigit(r[i])
    ensures r[0] != '0' || n == 0
  {
    if n < 10 then [DigitChar(n)] else Decimal(n / 10) + [DigitChar(n % 10)]
  }

  /** The value of a string of decimal digits. */
  function DecimalValue(s: string): nat
    requires forall i :: 0 <= i < |s| ==> IsDigit(s[i])
  {
    if s == [] then 0 else 10 * DecimalValue(s[..|s| - 1]) + DigitValue(s[|s| - 1])
  }

  /** Reading the rendering back gives the number. */
  lemma {:induction false} DecimalRoundTrip(n: nat)
    ensures DecimalValue(Decimal(n)) == n
  {
    if n >= 10 {
      DecimalRoundTrip(n / 10);
      var r := Decimal(n);
      assert r[..|r| - 1] == Decimal(n / 10);
    }
  }

  /** The characters kept by the sanitisers: `[a-z0-9-]`, plus `.` when `keepDot`. */
  predicate IsSlugChar(c: char, keepDot: bool) {
    ('a' <= c <= 'z') || ('0' <= c <= '9') || c == '-' || (keepDot && c == '.')
  }

  /** One character of `s.toLowerCase().replace(/[^a-z0-9-]/g, '-')`
      (or `[^a-z0-9.-]` when `keepDot`). */
  function SlugChar(c: char, keepDot: bool): char {
    var l := LowerChar(c);
    if IsSlugChar(l, keepDot) then l else '-'
  }

  /** The sanitiser: the same length as `s`, and only kept characters. */
  function Slug(s: string, keepDot: bool): (r: string)
    ensures |r| == |s|
    ensures forall i :: 0 <= i < |r| ==> IsSlugChar(r[i], keepDot)
  {
    seq(|s|, i requires 0 <= i < |s| => SlugChar(s[i], keepDot))
  }

  /** Characters already allowed stay in place, ASCII capitals become their lower-case
      letter, and every other character becomes `-`. */
  lemma SlugPointwise(s: string, keepDot: bool, i: nat)
    requires i < |s|
    ensures IsSlugChar(s[i], keepDot) ==> Slug(s, keepDot)[i] == s[i]
    ensures 'A' <= s[i] <= 'Z' ==> Slug(s, keepDot)[i] == LowerChar(s[i]) && 'a' <= LowerChar(s[i]) <= 'z'
    ensures !IsSlugChar(LowerChar(s[i]), keepDot) ==> Slug(s, keepDot)[i] == '-'
  {
  }

  /** Sanitising a sanitised string changes nothing. */
  lemma SlugIdempotent(s: string, keepDot: bool)
    ensures Slug(Slug(s, keepDot), keepDot) == Slug(s, keepDot)
  {
    var r := Slug(s, keepDot);
    forall i | 0 <= i < |r| ensures Slug(r, keepDot)[i] == r[i] {
      SlugPointwise(r, keepDot, i);
    }
  }
}
