/**
 * The string primitives that the importer chains together: `trim`, ASCII
 * `toLowerCase`, `includes`, `split` on one character, the digit filter
 * `replace(/\D/g, '')` and `parseInt` with its default radix.
 */
module Text {
  import opened Wrappers
  import opened Seqs

  /** The characters `String.prototype.trim` removes (white space and line terminators). */
  predicate IsSpace(c: char)
  {
    || c == ' ' || c == '\t' || c == '\n' || c == '\r'
    || c == '\U{000B}' || c == '\U{000C}' || c == '\U{00A0}' || c == '\U{1680}'
    || ('\U{2000}' <= c <= '\U{200A}')
    || c == '\U{2028}' || c == '\U{2029}' || c == '\U{202F}' || c == '\U{205F}'
    || c == '\U{3000}' || c == '\U{FEFF}'
  }

  /** `trimStart`: the longest suffix of `s` that does not start with white space. */
  function TrimStart(s: string): (r: string)
    ensures |r| <= |s| && r == s[|s| - |r|..]
    ensures r == [] || !IsSpace(r[0])
    decreases |s|
  {
    if s != [] && IsSpace(s[0]) then TrimStart(s[1..]) else s
  }

  /** Everything `TrimStart` drops is white space. */
  lemma {:induction false} TrimStartDropsSpace(s: string)
    ensures forall i :: 0 <= i < |s| - |TrimStart(s)| ==> IsSpace(s[i])
    decreases |s|
  {
    if s != [] && IsSpace(s[0]) {
      TrimStartDropsSpace(s[1..]);
      assert forall i :: 1 <= i < |s| ==> s[i] == s[1..][i - 1];
    }
  }

  /** `trimEnd`: the longest prefix of `s` that does not end with white space. */
  function TrimEnd(s: string): (r: string)
    ensures |r| <= |s| && r == s[..|r|]
    ensures r == [] || !IsSpace(r[|r| - 1])
    decreases |s|
  {
    if s != [] && IsSpace(s[|s| - 1]) then TrimEnd(s[..|s| - 1]) else s
  }

  /** Everything `TrimEnd` drops is white space. */
  lemma {:induction false} TrimEndDropsSpace(s: string)
    ensures forall i :: |TrimEnd(s)| <= i < |s| ==> IsSpace(s[i])
    decreases |s|
  {
    if s != [] && IsSpace(s[|s| - 1]) {
      TrimEndDropsSpace(s[..|s| - 1]);
    }
  }

  /** `t` occurs in `s` starting at offset `i`. */
  predicate OccursAt(s: string, t: string, i: int)
  {
    0 <= i <= |s| - |t| && s[i..i + |t|] == t
  }

  /** `r` is the piece of `s` at offset `i`, and only white space lies around it. */
  predicate PieceBetweenSpaces(s: string, r: string, i: int)
  {
    && OccursAt(s, r, i)
    && (forall k :: 0 <= k < i ==> IsSpace(s[k]))
    && (forall k :: i + |r| <= k < |s| ==> IsSpace(s[k]))
  }

  /** Neither the first nor the last character is white space. */
  predicate Trimmed(s: string)
  {
    s == [] || (!IsSpace(s[0]) && !IsSpace(s[|s| - 1]))
  }

  /** `trim`: `s` without its leading and trailing white space. */
  function Trim(s: string): (r: string)
    ensures Trimmed(r)
    ensures |r| <= |s|
  {
    TrimEnd(TrimStart(s))
  }

  /** What `Trim` keeps is one contiguous piece of `s`, and only white space lies around it. */
  lemma TrimIsPiece(s: string)
    ensures exists i :: PieceBetweenSpaces(s, Trim(s), i)
  {
    var a := TrimStart(s);
    var r := TrimEnd(a);
    var i := |s| - |a|;
    TrimStartDropsSpace(s);
    TrimEndDropsSpace(a);
    assert Trim(s) == r;
    assert r == s[i..i + |r|];
    assert forall k :: i + |r| <= k < |s| ==> s[k] == a[k - i];
    assert PieceBetweenSpaces(s, r, i);
  }

  /** Everything `Trim` keeps comes from its argument. */
  lemma TrimKeeps(s: string, c: char)
    requires c in Trim(s)
    ensures c in s
  {
    var r := Trim(s);
    TrimIsPiece(s);
    var i :| PieceBetweenSpaces(s, r, i);
    var k :| 0 <= k < |r| && r[k] == c;
    assert s[i + k] == c;
  }

  /** A string without white space at either end is its own trim. */
  lemma TrimmedIsFixed(s: string)
    requires Trimmed(s)
    ensures Trim(s) == s
  {
    assert TrimStart(s) == s;
    assert TrimEnd(s) == s;
  }

  /** Trimming twice is trimming once. */
  lemma TrimIdempotent(s: string)
    ensures Trim(Trim(s)) == Trim(s)
  {
    TrimmedIsFixed(Trim(s));
  }

  /** ASCII `toLowerCase` of one character. */
  function LowerChar(c: char): char
  {
    if 'A' <= c <= 'Z' then (c as int + 32) as char else c
  }

  /** `toLowerCase`, character by character. */
  function ToLower(s: string): (r: string)
    ensures |r| == |s|
    ensures forall i :: 0 <= i < |s| ==> r[i] == LowerChar(s[i])
  {
    seq(|s|, i requires 0 <= i < |s| => LowerChar(s[i]))
  }

  /** Lower-casing leaves no upper-case ASCII letter, and a second pass changes nothing. */
  lemma ToLowerIdempotent(s: string)
    ensures forall i :: 0 <= i < |s| ==> !('A' <= ToLower(s)[i] <= 'Z')
    ensures ToLower(ToLower(s)) == ToLower(s)
  {
  }

  /** `s.includes(t)`: `t` occurs in `s` at some offset. */
  predicate Contains(s: string, t: string)
  {
    exists i :: 0 <= i <= |s| - |t| && OccursAt(s, t, i)
  }

  /** A string contains each of its parts. */
  lemma ContainsPart(a: string, t: string, b: string)
    ensures Contains(a + t + b, t)
  {
    var s := a + t + b;
    assert s[|a|..|a| + |t|] == t;
    assert OccursAt(s, t, |a|);
  }

  /** `s` cannot contain `t` when some character of `t` is missing from `s`. */
  lemma MissingCharRulesOut(s: string, t: string, c: char)
    requires c in t && c !in s
    ensures !Contains(s, t)
  {
    var k :| 0 <= k < |t| && t[k] == c;
    forall i | 0 <= i <= |s| - |t| ensures !OccursAt(s, t, i) {
      assert s[i + k] != c;
    }
  }

  /** How many times `c` occurs in `s`. */
  function Count(s: string, c: char): nat
    decreases |s|
  {
    if s == [] then 0 else (if s[0] == c then 1 else 0) + Count(s[1..], c)
  }

  /** `s.split(c)`: the pieces between the occurrences of `c`. */
  function SplitOn(s: string, c: char): (r: seq<string>)
    ensures |r| == Count(s, c) + 1
    ensures forall k :: 0 <= k < |r| ==> c !in r[k]
    decreases |s|
  {
    if s == [] then [[]]
    else
      var rest := SplitOn(s[1..], c);
      if s[0] == c then [[]] + rest
      else
        assert s[0] != c;
        [[s[0]] + rest[0]] + rest[1..]
  }

  /** The pieces joined with the separator: `join(c)`. */
  function JoinWith(pieces: seq<string>, c: char): string
    decreases |pieces|
  {
    if pieces == [] then []
    else if |pieces| == 1 then pieces[0]
    else pieces[0] + [c] + JoinWith(pieces[1..], c)
  }

  /** Splitting loses nothing: joining the pieces again gives the string back. */
  lemma {:induction false} JoinSplit(s: string, c: char)
    ensures JoinWith(SplitOn(s, c), c) == s
    decreases |s|
  {
    if s != [] {
      JoinSplit(s[1..], c);
      var rest := SplitOn(s[1..], c);
      if s[0] == c {
        assert SplitOn(s, c) == [[]] + rest;
        assert s == [c] + s[1..];
      } else {
        var r := [[s[0]] + rest[0]] + rest[1..];
        assert SplitOn(s, c) == r;
        if |rest| == 1 {
          assert s[1..] == rest[0];
        } else {
          assert rest == [rest[0]] + rest[1..];
          assert JoinWith(rest, c) == rest[0] + [c] + JoinWith(rest[1..], c);
          assert r[1..] == rest[1..];
        }
      }
    }
  }

  predicate IsDigit(c: char) { '0' <= c <= '9' }

  function IsDigitFn(): char -> bool { (c: char) => IsDigit(c) }

  /** `replace(/\D/g, '')`: the ASCII digits of `s`, in order. */
  function OnlyDigits(s: string): (r: string)
    ensures forall c :: c in r <==> c in s && IsDigit(c)
    ensures SubsequenceOf(r, s)
    ensures forall c :: multiset(r)[c] == if IsDigit(c) then multiset(s)[c] else 0
  {
    var r := Filter(s, IsDigitFn());
    FilterIsSubsequence(s, IsDigitFn());
    forall c ensures multiset(r)[c] == if IsDigit(c) then multiset(s)[c] else 0 {
      FilterCounts(s, IsDigitFn(), c);
    }
    r
  }

  /** The value of a digit in radix 10 or 16, or -1 when `c` is no digit of that radix. */
  function DigitValue(c: char, radix: int): (v: int)
    ensures -1 <= v < radix || (radix < 10 && v < 16)
  {
    if '0' <= c <= '9' then c as int - '0' as int
    else if radix == 16 && 'a' <= c <= 'f' then c as int - 'a' as int + 10
    else if radix == 16 && 'A' <= c <= 'F' then c as int - 'A' as int + 10
    else -1
  }

  /** How many leading characters of `s` are digits of `radix`. */
  function DigitRun(s: string, radix: int): (n: nat)
    ensures n <= |s|
    ensures forall i :: 0 <= i < n ==> DigitValue(s[i], radix) >= 0
    ensures n < |s| ==> DigitValue(s[n], radix) < 0
    decreases |s|
  {
    if s != [] && DigitValue(s[0], radix) >= 0 then 1 + DigitRun(s[1..], radix) else 0
  }

  /** The number the digits spell, most significant first. */
  function DigitsValue(ds: string, radix: int): int
    decreases |ds|
  {
    if ds == [] then 0
    else DigitsValue(ds[..|ds| - 1], radix) * radix + DigitValue(ds[|ds| - 1], radix)
  }

  /** The longest run of `radix` digits at the start of `body`, converted; none at all is `NaN`. */
  function ParseDigits(body: string, radix: int): (r: Option<int>)
    ensures r.None? <==> body == [] || DigitValue(body[0], radix) < 0
  {
    var n := DigitRun(body, radix);
    if n == 0 then None else Some(DigitsValue(body[..n], radix))
  }

  /** A `0x` or `0X` prefix. */
  predicate HasHexPrefix(u: string)
  {
    |u| >= 2 && u[0] == '0' && (u[1] == 'x' || u[1] == 'X')
  }

  /** The digits after the optional sign: radix 16 after a hex prefix, else radix 10. */
  function ParseUnsigned(u: string): Option<int>
  {
    if HasHexPrefix(u) then ParseDigits(u[2..], 16) else ParseDigits(u, 10)
  }

  function Negate(r: Option<int>): Option<int>
  {
    match r
    case None => None
    case Some(v) => Some(-v)
  }

  /** One optional sign in front of the digits. */
  function ParseSigned(t: string): Option<int>
  {
    if t != [] && t[0] == '-' then Negate(ParseUnsigned(t[1..]))
    else if t != [] && t[0] == '+' then ParseUnsigned(t[1..])
    else ParseUnsigned(t)
  }

  /**
   * `parseInt(s)` with no radix: leading white space is skipped, one sign is
   * read, a `0x`/`0X` prefix selects radix 16, and the longest run of digits
   * that follows is converted; no digit at all is `NaN`, here `None`.
   */
  function ParseInt(s: string): Option<int>
  {
    ParseSigned(TrimStart(s))
  }

  /** The decimal digits of a natural number. */
  function Decimal(n: nat): (r: string)
    ensures r != []
    ensures forall i :: 0 <= i < |r| ==> IsDigit(r[i])
  {
    if n < 10 then [('0' as int + n) as char]
    else Decimal(n / 10) + [('0' as int + n % 10) as char]
  }

  lemma {:induction false} DecimalValue(n: nat)
    ensures DigitsValue(Decimal(n), 10) == n
    ensures DigitRun(Decimal(n), 10) == |Decimal(n)|
  {
    var r := Decimal(n);
    if n >= 10 {
      DecimalValue(n / 10);
      assert r[..|r| - 1] == Decimal(n / 10);
    }
  }

  /** The decimal form of a number has no sign and no hex prefix, and reads back as that number. */
  lemma ParseUnsignedDecimal(n: nat)
    ensures ParseUnsigned(Decimal(n)) == Some(n as int)
  {
    DecimalValue(n);
    var d := Decimal(n);
    assert !HasHexPrefix(d) by {
      if |d| >= 2 { assert IsDigit(d[1]); }
    }
    assert d[..|d|] == d;
  }

  /** `parseInt` reads back the decimal form of every number. */
  lemma ParseDecimal(n: nat)
    ensures ParseInt(Decimal(n)) == Some(n as int)
  {
    var d := Decimal(n);
    assert IsDigit(d[0]);
    assert !IsSpace(d[0]) && d[0] != '-' && d[0] != '+';
    assert TrimStart(d) == d;
    assert ParseSigned(d) == ParseUnsigned(d);
    ParseUnsignedDecimal(n);
  }

  /** ... and with a minus sign in front, its negation. */
  lemma ParseNegativeDecimal(n: nat)
    ensures ParseInt("-" + Decimal(n)) == Some(-(n as int))
  {
    var m := "-" + Decimal(n);
    assert TrimStart(m) == m;
    assert m[1..] == Decimal(n);
    ParseUnsignedDecimal(n);
  }
}
