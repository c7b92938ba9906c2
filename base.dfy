/**
 * Shared value types and the small pieces of the C and C++ standard library
 * that the modelled code leans on: optional results, ASCII case folding,
 * character search, blank trimming, `std::stoi`, decimal rendering of an
 * `int`, line splitting as `std::getline` does it, and the ordering that
 * `std::map<std::string, T>` iterates in.
 */
module Base {

  datatype Option<T> = None | Some(value: T)

  /** Range of a 32-bit C `int`. */
  const INT_MIN: int := -0x8000_0000
  const INT_MAX: int := 0x7FFF_FFFF

  predicate IsInt32(v: int) { INT_MIN <= v <= INT_MAX }

  // ---------------------------------------------------------------------
  // Characters

  /** `::tolower` in the "C" locale: only 'A'..'Z' change. */
  function ToLowerChar(c: char): (r: char)
  {
    if 'A' <= c <= 'Z' then (c as int + 32) as char else c
  }

  function ToLower(s: string): (r: string)
    ensures |r| == |s|
    ensures forall i :: 0 <= i < |s| ==> r[i] == ToLowerChar(s[i])
  {
    if s == [] then [] else [ToLowerChar(s[0])] + ToLower(s[1..])
  }

  /** A string is the lower-cased form of another when it is so character by character. */
  lemma LowerMatches(s: string, t: string)
    requires |s| == |t|
    requires forall i :: 0 <= i < |s| ==> ToLowerChar(s[i]) == t[i]
    ensures ToLower(s) == t
  {
  }

  lemma LowerPrefix(s: string, n: nat)
    requires n <= |s|
    ensures ToLower(s)[..n] == ToLower(s[..n])
  {
  }

  lemma LowerSuffix(s: string, n: nat)
    requires n <= |s|
    ensures ToLower(s)[n..] == ToLower(s[n..])
  {
  }

  lemma LowerIdempotent(s: string)
    ensures ToLower(ToLower(s)) == ToLower(s)
  {
  }

  lemma LowerConcat(a: string, b: string)
    ensures ToLower(a + b) == ToLower(a) + ToLower(b)
  {
  }

  predicate IsDigit(c: char) { '0' <= c <= '9' }

  /** `isspace` in the "C" locale. */
  predicate IsSpace(c: char)
  {
    c == ' ' || c == '\t' || c == '\n' || c == '\r' || c == 11 as char || c == 12 as char
  }

  /** The blank set `" \t"` used by the INI trimming code. */
  predicate IsBlank(c: char) { c == ' ' || c == '\t' }

  // ---------------------------------------------------------------------
  // Searching

  /** `s.find(c)`: the first position of `c`, or None for `npos`. */
  function FindChar(s: string, c: char): (r: Option<nat>)
    ensures r.None? <==> c !in s
    ensures r.Some? ==> r.value < |s| && s[r.value] == c && c !in s[..r.value]
  {
    if s == [] then None
    else if s[0] == c then Some(0)
    else match FindChar(s[1..], c)
      case None => None
      case Some(i) => assert s[1..][..i] == s[1..i+1]; Some(i + 1)
  }

  /** The first occurrence of `c` is where `find` stops. */
  lemma {:induction false} FindCharAt(s: string, c: char, i: nat)
    requires i < |s| && s[i] == c && c !in s[..i]
    ensures FindChar(s, c) == Some(i)
    decreases i
  {
    if i > 0 {
      assert s[0] in s[..i];
      var t := s[1..][..i - 1];
      assert c !in t by {
        forall j | 0 <= j < |t| ensures t[j] != c {
          assert t[j] == s[..i][j + 1];
        }
      }
      FindCharAt(s[1..], c, i - 1);
    }
  }

  /** `s.find_last_of(c)`: the last position of `c`, or None for `npos`. */
  function FindLastChar(s: string, c: char): (r: Option<nat>)
    ensures r.None? <==> c !in s
    ensures r.Some? ==> r.value < |s| && s[r.value] == c && c !in s[r.value + 1..]
  {
    if s == [] then None
    else if s[|s| - 1] == c then Some(|s| - 1)
    else
      var r := FindLastChar(s[..|s| - 1], c);
      assert r.Some? ==> s[r.value + 1..] == s[..|s| - 1][r.value + 1..] + [s[|s| - 1]];
      assert r.None? ==> s == s[..|s| - 1] + [s[|s| - 1]];
      r
  }

  /** The last occurrence is the one with no occurrence after it. */
  lemma LastCharAt(s: string, c: char, i: nat)
    requires i < |s| && s[i] == c && c !in s[i + 1..]
    ensures FindLastChar(s, c) == Some(i)
  {
    assert s[i] in s;
  }

  lemma {:induction false} LowerKeepsLastChar(s: string, c: char)
    requires !('A' <= c <= 'Z') && !('a' <= c <= 'z')
    ensures FindLastChar(ToLower(s), c) == FindLastChar(s, c)
    decreases |s|
  {
    if s != [] {
      var init := s[..|s| - 1];
      var l := ToLower(s);
      LowerKeepsLastChar(init, c);
      LowerPrefix(s, |s| - 1);
      assert l[..|l| - 1] == ToLower(init);
      LowerCharIs(s[|s| - 1], c);
    }
  }

  /** Lower-casing never produces or removes a character that is not a letter. */
  lemma LowerCharIs(x: char, c: char)
    requires !('A' <= c <= 'Z') && !('a' <= c <= 'z')
    ensures ToLowerChar(x) == c <==> x == c
  {
  }

  predicate StartsWith(s: string, p: string)
  {
    |p| <= |s| && s[..|p|] == p
  }

  /** `sub` sits in `s` starting at index `i`. */
  predicate OccursAt(s: string, sub: string, i: nat)
  {
    i + |sub| <= |s| && s[i..i + |sub|] == sub
  }

  /** `s.find(sub) != npos`. */
  predicate Contains(s: string, sub: string)
  {
    exists i: nat | i <= |s| :: OccursAt(s, sub, i)
  }

  // ---------------------------------------------------------------------
  // Trimming of " \t" at both ends, as
  //   s.erase(0, s.find_first_not_of(" \t")); s.erase(s.find_last_not_of(" \t") + 1);

  function TrimLeft(s: string): (r: string)
  {
    if |s| > 0 && IsBlank(s[0]) then TrimLeft(s[1..]) else s
  }

  function TrimRight(s: string): (r: string)
  {
    if |s| > 0 && IsBlank(s[|s| - 1]) then TrimRight(s[..|s| - 1]) else s
  }

  function Trim(s: string): (r: string)
  {
    TrimRight(TrimLeft(s))
  }

  /** A string that trimming leaves alone: no blank at either end. */
  predicate Trimmed(s: string)
  {
    s == [] || (!IsBlank(s[0]) && !IsBlank(s[|s| - 1]))
  }

  lemma TrimmedFixed(s: string)
    requires Trimmed(s)
    ensures TrimLeft(s) == s && TrimRight(s) == s && Trim(s) == s
  {
  }

  /** Leading blanks are all that `TrimLeft` removes. */
  lemma {:induction false} TrimLeftBlankPrefix(pad: string, rest: string)
    requires forall i :: 0 <= i < |pad| ==> IsBlank(pad[i])
    ensures TrimLeft(pad + rest) == TrimLeft(rest)
    decreases |pad|
  {
    if pad == [] {
      assert pad + rest == rest;
    } else {
      assert (pad + rest)[0] == pad[0] && (pad + rest)[1..] == pad[1..] + rest;
      TrimLeftBlankPrefix(pad[1..], rest);
    }
  }

  /** A line of blanks trims to nothing. */
  lemma AllBlankTrimsEmpty(s: string)
    requires forall i :: 0 <= i < |s| ==> IsBlank(s[i])
    ensures Trim(s) == []
  {
    TrimLeftBlankPrefix(s, []);
    assert s + [] == s;
  }

  /** `TrimRight` keeps a first character that is not blank. */
  lemma {:induction false} TrimRightKeepsHead(s: string)
    requires s != [] && !IsBlank(s[0])
    ensures TrimRight(s) != [] && TrimRight(s)[0] == s[0]
    decreases |s|
  {
    if IsBlank(s[|s| - 1]) {
      TrimRightKeepsHead(s[..|s| - 1]);
    }
  }

  /** Trimming only removes characters. */
  lemma {:induction false} TrimLeftKeepsOut(s: string, c: char)
    requires c !in s
    ensures c !in TrimLeft(s)
    decreases |s|
  {
    if |s| > 0 && IsBlank(s[0]) {
      TrimLeftKeepsOut(s[1..], c);
    }
  }

  lemma {:induction false} TrimRightKeepsOut(s: string, c: char)
    requires c !in s
    ensures c !in TrimRight(s)
    decreases |s|
  {
    if |s| > 0 && IsBlank(s[|s| - 1]) {
      TrimRightKeepsOut(s[..|s| - 1], c);
    }
  }

  // ---------------------------------------------------------------------
  // Lines, as a loop of `std::getline(stream, line)` reads them

  /** The text written by emitting each line followed by '\n'. */
  function JoinLines(lines: seq<string>): (text: string)
  {
    if lines == [] then [] else lines[0] + "\n" + JoinLines(lines[1..])
  }

  lemma {:induction false} JoinLinesAppend(lines: seq<string>, l: string)
    ensures JoinLines(lines + [l]) == JoinLines(lines) + l + "\n"
    decreases |lines|
  {
    if lines == [] {
      assert [l][1..] == [];
    } else {
      assert (lines + [l])[1..] == lines[1..] + [l];
      JoinLinesAppend(lines[1..], l);
    }
  }

  lemma {:induction false} JoinLinesConcat(a: seq<string>, b: seq<string>)
    ensures JoinLines(a + b) == JoinLines(a) + JoinLines(b)
    decreases |a|
  {
    if a == [] {
      assert a + b == b;
    } else {
      assert (a + b)[1..] == a[1..] + b;
      JoinLinesConcat(a[1..], b);
    }
  }

  /**
   * The lines `std::getline` yields on `text`: pieces between '\n's; a
   * final piece without '\n' is still a line, and nothing is read at the
   * very end of the text.
   */
  function SplitLines(text: string): (lines: seq<string>)
    decreases |text|
  {
    if text == [] then []
    else match FindChar(text, '\n')
      case None => [text]
      case Some(i) => [text[..i]] + SplitLines(text[i + 1..])
  }

  predicate NoNewline(lines: seq<string>)
  {
    forall i :: 0 <= i < |lines| ==> '\n' !in lines[i]
  }

  /** Reading back what was written line by line gives the same lines. */
  lemma {:induction false} SplitJoinLines(lines: seq<string>)
    requires NoNewline(lines)
    ensures SplitLines(JoinLines(lines)) == lines
    decreases |lines|
  {
    if lines != [] {
      assert '\n' !in lines[0] && NoNewline(lines[1..]);
      SplitFirstLine(lines[0], JoinLines(lines[1..]));
      SplitJoinLines(lines[1..]);
    }
  }

  /** A line ended by '\n' is read as one line, and reading goes on after it. */
  lemma SplitFirstLine(l: string, rest: string)
    requires '\n' !in l
    ensures SplitLines(l + "\n" + rest) == [l] + SplitLines(rest)
  {
    var text := l + "\n" + rest;
    FindNewlineAt(l, rest);
    assert text[..|l|] == l;
    assert text[|l| + 1..] == rest;
  }

  lemma FindNewlineAt(l: string, rest: string)
    requires '\n' !in l
    ensures FindChar(l + "\n" + rest, '\n') == Some(|l|)
  {
    var t := l + "\n" + rest;
    assert t[|l|] == '\n';
    assert t[..|l|] == l;
    FindCharAt(t, '\n', |l|);
  }

  // ---------------------------------------------------------------------
  // Decimal numerals

  function DigitValue(c: char): nat
    requires IsDigit(c)
  {
    c as int - '0' as int
  }

  function DigitChar(d: nat): (c: char)
    requires d < 10
    ensures IsDigit(c) && DigitValue(c) == d
  {
    ('0' as int + d) as char
  }

  predicate AllDigits(s: string)
  {
    forall i :: 0 <= i < |s| ==> IsDigit(s[i])
  }

  /** The value of a string of decimal digits, most significant first. */
  function DigitsValue(s: string): nat
    requires AllDigits(s)
  {
    if s == [] then 0 else DigitsValue(s[..|s| - 1]) * 10 + DigitValue(s[|s| - 1])
  }

  /** Length of the longest prefix of `s` made of digits. */
  function DigitPrefixLength(s: string): (n: nat)
    ensures n <= |s| && AllDigits(s[..n])
    ensures n < |s| ==> !IsDigit(s[n])
  {
    if s == [] || !IsDigit(s[0]) then 0
    else
      var n := DigitPrefixLength(s[1..]);
      assert s[..n + 1] == [s[0]] + s[1..][..n];
      n + 1
  }

  lemma {:induction false} DigitPrefixOfAllDigits(s: string)
    requires AllDigits(s)
    ensures DigitPrefixLength(s) == |s|
    decreases |s|
  {
    if s != [] {
      DigitPrefixOfAllDigits(s[1..]);
    }
  }

  /** The digit prefix stops at the first character that is not a digit. */
  lemma {:induction false} DigitPrefixOfConcat(digits: string, rest: string)
    requires AllDigits(digits)
    requires rest == [] || !IsDigit(rest[0])
    ensures DigitPrefixLength(digits + rest) == |digits|
    decreases |digits|
  {
    if digits != [] {
      assert (digits + rest)[1..] == digits[1..] + rest;
      DigitPrefixOfConcat(digits[1..], rest);
    }
  }

  /**
   * `std::stoi` reads the leading digits and ignores what follows them; a
   * value beyond `int` is out of range.
   */
  lemma StoIReadsDigitPrefix(digits: string, rest: string)
    requires digits != [] && AllDigits(digits)
    requires rest == [] || !IsDigit(rest[0])
    ensures StoI(digits + rest)
            == if DigitsValue(digits) <= INT_MAX then Some(DigitsValue(digits) as int) else None
  {
    var s := digits + rest;
    assert s[0] == digits[0];
    assert SkipSpace(s) == s;
    DigitPrefixOfConcat(digits, rest);
    assert s[..|digits|] == digits;
  }

  /** Decimal rendering of a natural number, as `operator<<` prints it. */
  function NatToString(n: nat): (s: string)
    ensures |s| > 0 && AllDigits(s)
    ensures DigitsValue(s) == n
  {
    if n < 10 then [DigitChar(n)]
    else
      var p := NatToString(n / 10);
      var s := p + [DigitChar(n % 10)];
      assert s[..|s| - 1] == p;
      s
  }

  /** Decimal rendering of an `int`, with a leading '-' when negative. */
  function IntToString(v: int): (s: string)
    ensures |s| > 0 && (IsDigit(s[0]) || s[0] == '-')
    ensures '.' !in s && '\n' !in s && '=' !in s
    ensures Trimmed(s)
  {
    var s := if v < 0 then "-" + NatToString(-v) else NatToString(v);
    assert forall i :: 0 <= i < |s| ==> IsDigit(s[i]) || s[i] == '-';
    s
  }

  /**
   * `std::stoi(s)`: `strtol` in base 10 skips leading white space, takes an
   * optional sign and the longest run of digits after it, and ignores what
   * follows. No digits throws `std::invalid_argument` and a value outside
   * `int` throws `std::out_of_range`; both are None here.
   */
  function StoI(s: string): (r: Option<int>)
    ensures r.Some? ==> IsInt32(r.value)
  {
    var t := SkipSpace(s);
    var signed := |t| > 0 && (t[0] == '-' || t[0] == '+');
    var u := if signed then t[1..] else t;
    var n := DigitPrefixLength(u);
    if n == 0 then None
    else
      var magnitude: int := DigitsValue(u[..n]);
      var v: int := if signed && t[0] == '-' then -magnitude else magnitude;
      if IsInt32(v) then Some(v) else None
  }

  function SkipSpace(s: string): (r: string)
    ensures r == [] || !IsSpace(r[0])
  {
    if |s| > 0 && IsSpace(s[0]) then SkipSpace(s[1..]) else s
  }

  /** `std::stoi` reads back every `int` that `operator<<` printed. */
  lemma StoIOfIntToString(v: int)
    requires IsInt32(v)
    ensures StoI(IntToString(v)) == Some(v)
  {
    var digits := if v < 0 then NatToString(-v) else NatToString(v);
    var s := IntToString(v);
    assert SkipSpace(s) == s;
    var u := if v < 0 then s[1..] else s;
    assert u == digits;
    DigitPrefixOfAllDigits(digits);
    assert digits[..|digits|] == digits;
  }

  // ---------------------------------------------------------------------
  // The order `std::map<std::string, T>` iterates in: lexicographic by
  // character, a proper prefix first.

  predicate StrLe(a: string, b: string)
    decreases |a|
  {
    |a| == 0 || (|b| > 0 && (a[0] < b[0] || (a[0] == b[0] && StrLe(a[1..], b[1..]))))
  }

  predicate StrLt(a: string, b: string) { StrLe(a, b) && a != b }

  lemma StrLeReflexive(a: string)
    ensures StrLe(a, a)
  {
  }

  lemma StrLeTotal(a: string, b: string)
    ensures StrLe(a, b) || StrLe(b, a)
  {
  }

  lemma StrLeAntisymmetric(a: string, b: string)
    requires StrLe(a, b) && StrLe(b, a)
    ensures a == b
  {
    if |a| > 0 && |b| > 0 {
      StrLeAntisymmetric(a[1..], b[1..]);
      assert a == [a[0]] + a[1..] && b == [b[0]] + b[1..];
    }
  }

  lemma StrLeTransitive(a: string, b: string, c: string)
    requires StrLe(a, b) && StrLe(b, c)
    ensures StrLe(a, c)
  {
    if |a| > 0 && |b| > 0 && |c| > 0 && a[0] == b[0] == c[0] {
      StrLeTransitive(a[1..], b[1..], c[1..]);
    }
  }

  predicate IsLeast(m: string, s: set<string>)
  {
    m in s && forall y :: y in s ==> StrLe(m, y)
  }

  lemma {:induction false} LeastExists(s: set<string>)
    requires s != {}
    ensures exists m :: IsLeast(m, s)
    decreases |s|
  {
    var x :| x in s;
    StrLeReflexive(x);
    if s == {x} {
      assert IsLeast(x, s);
    } else {
      LeastExists(s - {x});
      var m :| IsLeast(m, s - {x});
      StrLeTotal(m, x);
      if StrLe(m, x) {
        assert IsLeast(m, s);
      } else {
        forall y | y in s ensures StrLe(x, y) {
          if y != x {
            StrLeTransitive(x, m, y);
          }
        }
        assert IsLeast(x, s);
      }
    }
  }

  lemma LeastUnique()
    ensures forall m1, m2, s :: IsLeast(m1, s) && IsLeast(m2, s) ==> m1 == m2
  {
    forall m1, m2, s | IsLeast(m1, s) && IsLeast(m2, s) ensures m1 == m2 {
      StrLeAntisymmetric(m1, m2);
    }
  }

  predicate StrictlyAscending(r: seq<string>)
  {
    forall i, j :: 0 <= i < j < |r| ==> StrLt(r[i], r[j])
  }

  /** The keys of a `std::map<std::string, T>` in iteration order. */
  function SortedKeys(s: set<string>): (r: seq<string>)
    ensures |r| == |s|
    ensures forall x :: x in r <==> x in s
    ensures StrictlyAscending(r)
    decreases |s|
  {
    if s == {} then []
    else
      LeastExists(s);
      LeastUnique();
      var m :| IsLeast(m, s);
      var rest := SortedKeys(s - {m});
      assert forall j :: 0 <= j < |rest| ==> StrLt(m, rest[j]) by {
        forall j | 0 <= j < |rest| ensures StrLt(m, rest[j]) {
          assert rest[j] in s - {m};
        }
      }
      AscendingCons(m, rest);
      [m] + rest
  }

  lemma AscendingCons(m: string, rest: seq<string>)
    requires StrictlyAscending(rest)
    requires forall j :: 0 <= j < |rest| ==> StrLt(m, rest[j])
    ensures StrictlyAscending([m] + rest)
  {
    var r := [m] + rest;
    forall i, j | 0 <= i < j < |r|
      ensures StrLt(r[i], r[j])
    {
      assert r[j] == rest[j - 1];
      if i > 0 {
        assert r[i] == rest[i - 1];
      }
    }
  }
}
