/**
 * The JavaScript string operations the core relies on: `includes`, `toLowerCase`, `trim`,
 * `split`, `join`, `padStart`, `parseInt`, decimal rendering and the ordering used to sort names.
 * A string is a sequence of `char`, each standing for one UTF-16 code unit of the JavaScript
 * string; every character the app handles (ASCII, the accented Spanish letters) is one unit.
 */
module Text {
  import opened Wrappers

  // ---------------------------------------------------------------- characters

  predicate IsDigit(c: char) {
    '0' <= c <= '9'
  }

  predicate AllDigits(s: string) {
    forall i | 0 <= i < |s| :: IsDigit(s[i])
  }

  /** A digit of base 10, or of base 16 when `hex` holds (either case). */
  predicate IsRadixDigit(c: char, hex: bool) {
    IsDigit(c) || (hex && ('a' <= c <= 'f' || 'A' <= c <= 'F'))
  }

  function RadixDigitValue(c: char, hex: bool): (d: nat)
    requires IsRadixDigit(c, hex)
    ensures d < (if hex then 16 else 10)
  {
    if IsDigit(c) then (c as int) - ('0' as int)
    else if 'a' <= c <= 'f' then (c as int) - ('a' as int) + 10
    else (c as int) - ('A' as int) + 10
  }

  function DigitChar(d: nat): (c: char)
    requires d < 10
    ensures IsDigit(c) && RadixDigitValue(c, false) == d
  {
    (('0' as int) + d) as char
  }

  /** The characters ECMAScript's `trim` and `parseInt` skip: WhiteSpace and LineTerminator. */
  predicate IsJsWhitespace(c: char) {
    var n := c as int;
    n == 0x09 || n == 0x0A || n == 0x0B || n == 0x0C || n == 0x0D || n == 0x20 || n == 0xA0
    || n == 0x1680 || (0x2000 <= n <= 0x200A) || n == 0x2028 || n == 0x2029 || n == 0x202F
    || n == 0x205F || n == 0x3000 || n == 0xFEFF
  }

  /** `s.trim() === ""`: every character is white space (the empty string included). */
  predicate IsBlank(s: string) {
    forall i | 0 <= i < |s| :: IsJsWhitespace(s[i])
  }

  /** `toLowerCase` on one character, for the ASCII and Latin-1 letters. */
  function LowerChar(c: char): char {
    var n := c as int;
    if ('A' as int) <= n <= ('Z' as int) || (0xC0 <= n <= 0xDE && n != 0xD7) then (n + 32) as char else c
  }

  function Lower(s: string): string {
    seq(|s|, i requires 0 <= i < |s| => LowerChar(s[i]))
  }

  // ---------------------------------------------------------------- includes

  /** `s.includes(w)`: `w` occurs as a contiguous block of `s`. */
  predicate Contains(s: string, w: string)
    decreases |s|
  {
    |w| <= |s| && (s[..|w|] == w || (|s| > 0 && Contains(s[1..], w)))
  }

  /** A word of the same length as `p` occurs in `p` only as `p` itself. */
  lemma ContainsSameLength(p: string, w: string)
    requires |p| == |w|
    ensures Contains(p, w) <==> p == w
  {
    if |p| > 0 {
      assert !Contains(p[1..], w);
    }
  }

  /** No occurrence of `w` straddles a character that `w` does not contain. */
  lemma {:induction false} ContainsAround(a: string, c: char, b: string, w: string)
    requires |w| > 0 && c !in w
    ensures Contains(a + [c] + b, w) <==> Contains(a, w) || Contains(b, w)
    decreases |a|
  {
    var s := a + [c] + b;
    if |a| == 0 {
      assert s == [c] + b;
      assert s[1..] == b;
      if |w| <= |s| {
        assert s[..|w|][0] == c;
      }
    } else {
      ContainsAround(a[1..], c, b, w);
      assert s[1..] == a[1..] + [c] + b;
      if |w| <= |a| {
        assert s[..|w|] == a[..|w|];
      } else {
        assert !Contains(a[1..], w);
        if |w| <= |s| {
          assert s[..|w|][|a|] == c;
        }
      }
    }
  }

  /** An occurrence of a non-empty word needs its first character somewhere in the text. */
  lemma {:induction false} ContainsFirstChar(s: string, w: string)
    requires |w| > 0 && Contains(s, w)
    ensures w[0] in s
    decreases |s|
  {
    if s[..|w|] == w {
      assert s[0] == w[0];
    } else {
      ContainsFirstChar(s[1..], w);
      assert w[0] in s[1..];
    }
  }

  /** A word whose first character is missing from the text does not occur in it. */
  lemma AbsentFirstChar(s: string, w: string)
    requires |w| > 0 && w[0] !in s
    ensures !Contains(s, w)
  {
    if Contains(s, w) {
      ContainsFirstChar(s, w);
    }
  }

  // ---------------------------------------------------------------- numbers

  /** The decimal rendering of a natural number, as `String(n)` prints it. */
  function Decimal(n: nat): (s: string)
    ensures |s| > 0 && AllDigits(s)
    decreases n
  {
    if n < 10 then [DigitChar(n)] else Decimal(n / 10) + [DigitChar(n % 10)]
  }

  /** The number a string of base-10 (or base-16) digits denotes; the empty string denotes 0. */
  function NumeralValue(ds: string, hex: bool): nat
    requires forall i | 0 <= i < |ds| :: IsRadixDigit(ds[i], hex)
  {
    if |ds| == 0 then 0
    else NumeralValue(ds[..|ds| - 1], hex) * (if hex then 16 else 10) + RadixDigitValue(ds[|ds| - 1], hex)
  }

  /** Reading back a decimal rendering gives the number rendered. */
  lemma {:induction false} DecimalValue(n: nat)
    ensures NumeralValue(Decimal(n), false) == n
    decreases n
  {
    var s := Decimal(n);
    if n >= 10 {
      DecimalValue(n / 10);
      assert s[..|s| - 1] == Decimal(n / 10);
    } else {
      assert s[..|s| - 1] == [];
    }
  }

  /** The longest prefix of `s` made of digits of the given radix. */
  function DigitPrefix(s: string, hex: bool): (p: string)
    ensures p <= s
    ensures forall i | 0 <= i < |p| :: IsRadixDigit(p[i], hex)
    ensures |p| < |s| ==> !IsRadixDigit(s[|p|], hex)
    decreases |s|
  {
    if |s| > 0 && IsRadixDigit(s[0], hex) then [s[0]] + DigitPrefix(s[1..], hex) else ""
  }

  /** `s` with its leading white space removed. */
  function TrimStart(s: string): string
    decreases |s|
  {
    if |s| > 0 && IsJsWhitespace(s[0]) then TrimStart(s[1..]) else s
  }

  /** `s` with its trailing white space removed. */
  function TrimEnd(s: string): string
    decreases |s|
  {
    if |s| > 0 && IsJsWhitespace(s[|s| - 1]) then TrimEnd(s[..|s| - 1]) else s
  }

  /** `s.trim()`. */
  function Trim(s: string): string {
    TrimEnd(TrimStart(s))
  }

  /** Digits are not white space, so trimming leaves a digit string as it is. */
  lemma TrimDigits(s: string)
    requires AllDigits(s)
    ensures Trim(s) == s
  {
    assert TrimStart(s) == s;
  }

  /** A leading zero does not change the value of a digit string. */
  lemma {:induction false} LeadingZero(x: string)
    requires AllDigits(x)
    ensures NumeralValue("0" + x, false) == NumeralValue(x, false)
    decreases |x|
  {
    var z := "0" + x;
    if |x| > 0 {
      LeadingZero(x[..|x| - 1]);
      assert z[..|z| - 1] == "0" + x[..|x| - 1];
      assert z[|z| - 1] == x[|x| - 1];
    } else {
      assert z[..|z| - 1] == [];
    }
  }

  /**
   * `parseInt(s)` with no radix: leading white space is skipped, one sign is read, a `0x`/`0X`
   * prefix selects base 16, and the longest run of digits after that is the value; `None` is `NaN`.
   */
  function ParseInt(s: string): Option<int> {
    var t := TrimStart(s);
    var neg := |t| > 0 && t[0] == '-';
    var u := if |t| > 0 && (t[0] == '-' || t[0] == '+') then t[1..] else t;
    var hex := |u| >= 2 && u[0] == '0' && (u[1] == 'x' || u[1] == 'X');
    var ds := DigitPrefix(if hex then u[2..] else u, hex);
    if |ds| == 0 then None
    else
      var v: int := NumeralValue(ds, hex);
      Some(if neg then -v else v)
  }

  lemma {:induction false} DigitPrefixOfDigits(d: string, rest: string)
    requires AllDigits(d)
    requires |rest| == 0 || !IsDigit(rest[0])
    ensures DigitPrefix(d + rest, false) == d
    decreases |d|
  {
    if |d| > 0 {
      DigitPrefixOfDigits(d[1..], rest);
      assert (d + rest)[1..] == d[1..] + rest;
    } else {
      assert d + rest == rest;
    }
  }

  /**
   * `parseInt` reads back the decimal rendering of any natural number, also when other text
   * follows that starts with neither a digit nor an `x` (so `parseInt("12abc")` is 12).
   */
  lemma ParseIntDecimal(n: nat, rest: string)
    requires |rest| == 0 || (!IsDigit(rest[0]) && rest[0] != 'x' && rest[0] != 'X')
    ensures ParseInt(Decimal(n) + rest) == Some(n)
  {
    var d := Decimal(n);
    var s := d + rest;
    assert s[0] == d[0] && IsDigit(s[0]);
    assert TrimStart(s) == s;
    var hex := |s| >= 2 && s[0] == '0' && (s[1] == 'x' || s[1] == 'X');
    assert !hex by {
      if |s| >= 2 {
        if |d| >= 2 {
          assert s[1] == d[1];
        } else {
          assert s[1] == rest[0];
        }
      }
    }
    DigitPrefixOfDigits(d, rest);
    DecimalValue(n);
  }

  // ---------------------------------------------------------------- split, join, padStart

  /** `s.split(sep)` for a one-character separator: the pieces between separators, in order. */
  function Split(s: string, sep: char): (parts: seq<string>)
    ensures |parts| > 0
    decreases |s|
  {
    if |s| == 0 then [""] else SplitCons(s[0], sep, Split(s[1..], sep))
  }

  /** The pieces of `[c] + t` from the pieces of `t`: a separator starts a new piece, any other character joins the first. */
  function SplitCons(c: char, sep: char, rest: seq<string>): (parts: seq<string>)
    requires |rest| > 0
    ensures |parts| > 0
  {
    if c == sep then [""] + rest else [[c] + rest[0]] + rest[1..]
  }

  /** Pieces that follow later are untouched by one step. */
  lemma SplitConsAppend(c: char, sep: char, x: seq<string>, y: seq<string>)
    requires |x| > 0
    ensures SplitCons(c, sep, x + y) == SplitCons(c, sep, x) + y
  {
    if c != sep {
      assert (x + y)[0] == x[0];
      assert (x + y)[1..] == x[1..] + y;
    }
  }

  /** Splitting at a separator splits each side independently. */
  lemma {:induction false} SplitAround(a: string, sep: char, b: string)
    ensures Split(a + [sep] + b, sep) == Split(a, sep) + Split(b, sep)
    decreases |a|
  {
    var s := a + [sep] + b;
    if |a| == 0 {
      assert s == [sep] + b;
      assert s[1..] == b;
    } else {
      assert s[0] == a[0];
      assert s[1..] == a[1..] + [sep] + b;
      SplitAround(a[1..], sep, b);
      SplitConsAppend(a[0], sep, Split(a[1..], sep), Split(b, sep));
    }
  }

  /** A string without the separator splits into itself alone. */
  lemma {:induction false} SplitWithout(a: string, sep: char)
    requires sep !in a
    ensures Split(a, sep) == [a]
    decreases |a|
  {
    if |a| > 0 {
      SplitWithout(a[1..], sep);
      assert a == [a[0]] + a[1..];
    }
  }

  /** Three separator-free pieces joined by the separator split back into those pieces. */
  lemma SplitThree(a: string, b: string, c: string, sep: char)
    requires sep !in a && sep !in b && sep !in c
    ensures Split(a + [sep] + b + [sep] + c, sep) == [a, b, c]
  {
    var bc := b + [sep] + c;
    Regroup(a + [sep], b, [sep], c);
    SplitAround(a, sep, bc);
    SplitAround(b, sep, c);
    SplitWithout(a, sep);
    SplitWithout(b, sep);
    SplitWithout(c, sep);
    assert [a] + ([b] + [c]) == [a, b, c];
  }

  /** Concatenation regrouped to the right. */
  lemma Regroup(a: string, b: string, c: string, d: string)
    ensures a + b + c + d == a + (b + c + d)
  {
  }

  /** `s.padStart(2, "0")`. */
  function PadStart2(s: string): string {
    if |s| >= 2 then s else if |s| == 1 then "0" + s else "00"
  }

  /** `parts.join(sep)`. */
  function Join(parts: seq<string>, sep: string): string
    decreases |parts|
  {
    if |parts| == 0 then "" else if |parts| == 1 then parts[0] else parts[0] + sep + Join(parts[1..], sep)
  }

  /**
   * A word without commas or spaces occurs in a `", "`-joined list exactly when it occurs in one
   * of the parts.
   */
  lemma {:induction false} ContainsJoin(parts: seq<string>, w: string)
    requires |w| > 0 && ',' !in w && ' ' !in w
    ensures Contains(Join(parts, ", "), w) <==> exists k | 0 <= k < |parts| :: Contains(parts[k], w)
    decreases |parts|
  {
    if |parts| >= 2 {
      ContainsJoin(parts[1..], w);
      var rest := Join(parts[1..], ", ");
      assert Join(parts, ", ") == parts[0] + [','] + ([] + [' '] + rest);
      ContainsAround(parts[0], ',', [] + [' '] + rest, w);
      ContainsAround([], ' ', rest, w);
      if exists k | 0 <= k < |parts| :: Contains(parts[k], w) {
        var k :| 0 <= k < |parts| && Contains(parts[k], w);
        if k > 0 {
          assert parts[1..][k - 1] == parts[k];
        }
      }
      if exists k | 0 <= k < |parts| - 1 :: Contains(parts[1..][k], w) {
        var k :| 0 <= k < |parts| - 1 && Contains(parts[1..][k], w);
        assert parts[k + 1] == parts[1..][k];
      }
    }
  }

  predicate NoDigit(s: string) {
    forall i | 0 <= i < |s| :: !IsDigit(s[i])
  }

  /** Joining digit-free parts with a digit-free separator gives a digit-free string. */
  lemma {:induction false} NoDigitJoin(parts: seq<string>, sep: string)
    requires NoDigit(sep) && forall k | 0 <= k < |parts| :: NoDigit(parts[k])
    ensures NoDigit(Join(parts, sep))
    decreases |parts|
  {
    if |parts| >= 2 {
      NoDigitJoin(parts[1..], sep);
      var j := Join(parts, sep);
      var rest := Join(parts[1..], sep);
      assert j == parts[0] + sep + rest;
      forall i | 0 <= i < |j| ensures !IsDigit(j[i]) {
        if i < |parts[0]| {
          assert j[i] == parts[0][i];
        } else if i < |parts[0]| + |sep| {
          assert j[i] == sep[i - |parts[0]|];
        } else {
          assert j[i] == rest[i - |parts[0]| - |sep|];
        }
      }
    }
  }

  // ---------------------------------------------------------------- ordering

  /** Lexicographic order by character code, standing in for `localeCompare(...) <= 0`. */
  predicate LexLeq(x: string, y: string)
    decreases |x|
  {
    |x| == 0 || (|y| > 0 && (x[0] < y[0] || (x[0] == y[0] && LexLeq(x[1..], y[1..]))))
  }

  lemma {:induction false} LexTotal(x: string, y: string)
    ensures LexLeq(x, y) || LexLeq(y, x)
    decreases |x|
  {
    if |x| > 0 && |y| > 0 && x[0] == y[0] {
      LexTotal(x[1..], y[1..]);
    }
  }

  lemma {:induction false} LexTransitive(x: string, y: string, z: string)
    requires LexLeq(x, y) && LexLeq(y, z)
    ensures LexLeq(x, z)
    decreases |x|
  {
    if |x| > 0 && x[0] == y[0] && y[0] == z[0] {
      LexTransitive(x[1..], y[1..], z[1..]);
    }
  }
}
