/**
 * The JavaScript string operations the compiler relies on: `Array.prototype.join`,
 * `String.prototype.split` on a one-character separator, `String.prototype.trim`
 * and the decimal text of an integer (`String(n)`), each with its inverse or with
 * the property the compiler depends on.
 */
module Strings {

  import opened Outcomes

  /** `parts.join(sep)`. */
  function Join(parts: seq<string>, sep: string): string
  {
    if |parts| == 0 then ""
    else if |parts| == 1 then parts[0]
    else parts[0] + sep + Join(parts[1..], sep)
  }

  /** `s.split(d)` for a one-character separator `d`: never empty, `[""]` for `""`. */
  function Split(s: string, d: char): (r: seq<string>)
    ensures |r| >= 1
    ensures forall i :: 0 <= i < |r| ==> d !in r[i]
    decreases |s|
  {
    if |s| == 0 then [""]
    else
      var rest := Split(s[1..], d);
      if s[0] == d then [""] + rest
      else [[s[0]] + rest[0]] + rest[1..]
  }

  lemma {:induction false} SplitNoSeparator(s: string, d: char)
    requires d !in s
    ensures Split(s, d) == [s]
    decreases |s|
  {
    if |s| > 0 {
      SplitNoSeparator(s[1..], d);
      assert [s[0]] + s[1..] == s;
    }
  }

  /** Splitting `a + [d] + b`, where `a` holds no separator, yields `a` before the pieces of `b`. */
  lemma {:induction false} SplitAtSeparator(a: string, b: string, d: char)
    requires d !in a
    ensures Split(a + [d] + b, d) == [a] + Split(b, d)
    decreases |a|
  {
    if |a| == 0 {
      assert a + [d] + b == [d] + b;
      assert ([d] + b)[1..] == b;
    } else {
      SplitAtSeparator(a[1..], b, d);
      assert (a + [d] + b)[1..] == a[1..] + [d] + b;
      assert [a[0]] + a[1..] == a;
    }
  }

  /** A separator splits the text into the pieces before it and the pieces after it. */
  lemma {:induction false} SplitConcat(x: string, y: string, d: char)
    ensures Split(x + [d] + y, d) == Split(x, d) + Split(y, d)
    decreases |x|
  {
    if |x| == 0 {
      assert x + [d] + y == [d] + y;
      assert ([d] + y)[1..] == y;
    } else {
      SplitConcat(x[1..], y, d);
      assert x == [x[0]] + x[1..];
      assert x + [d] + y == [x[0]] + (x[1..] + [d] + y);
      SplitConcatStep(x[0], x[1..], y, d);
    }
  }

  /** The step of `SplitConcat`: one more character in front of the first part. */
  lemma SplitConcatStep(c: char, x: string, y: string, d: char)
    requires Split(x + [d] + y, d) == Split(x, d) + Split(y, d)
    ensures Split([c] + (x + [d] + y), d) == Split([c] + x, d) + Split(y, d)
  {
    if c != d {
      SplitCons(c, x + [d] + y, d);
      SplitCons(c, x, d);
      ConsPieces(c, Split(x, d), Split(y, d));
    } else {
      SplitSeparatorCons(x + [d] + y, d);
      SplitSeparatorCons(x, d);
      assert [""] + (Split(x, d) + Split(y, d)) == ([""] + Split(x, d)) + Split(y, d);
    }
  }

  /** Extending the first piece of `a` before or after appending `b` gives the same pieces. */
  lemma ConsPieces(c: char, a: seq<string>, b: seq<string>)
    requires |a| >= 1
    ensures [[c] + (a + b)[0]] + (a + b)[1..] == ([[c] + a[0]] + a[1..]) + b
  {
    assert (a + b)[1..] == a[1..] + b;
  }

  /** Splitting `c + s` for a character other than the separator extends the first piece. */
  lemma SplitCons(c: char, s: string, d: char)
    requires c != d
    ensures Split([c] + s, d) == [[c] + Split(s, d)[0]] + Split(s, d)[1..]
    ensures var r, r' := Split(s, d), Split([c] + s, d);
            |r'| == |r| && r'[0] == [c] + r[0] && forall i :: 1 <= i < |r| ==> r'[i] == r[i]
  {
    assert ([c] + s)[1..] == s;
  }

  /** Splitting `d + s` on `d` starts with an empty piece. */
  lemma SplitSeparatorCons(s: string, d: char)
    ensures Split([d] + s, d) == [""] + Split(s, d)
    ensures var r, r' := Split(s, d), Split([d] + s, d);
            |r'| == |r| + 1 && r'[0] == "" && forall i :: 1 <= i < |r'| ==> r'[i] == r[i - 1]
  {
    assert ([d] + s)[1..] == s;
  }

  /** Joining lines that hold no separator and splitting again gives the lines back. */
  lemma {:induction false} SplitJoin(parts: seq<string>, d: char)
    requires |parts| >= 1
    requires forall i :: 0 <= i < |parts| ==> d !in parts[i]
    ensures Split(Join(parts, [d]), d) == parts
  {
    if |parts| == 1 {
      SplitNoSeparator(parts[0], d);
    } else {
      SplitJoin(parts[1..], d);
      SplitAtSeparator(parts[0], Join(parts[1..], [d]), d);
      assert [parts[0]] + parts[1..] == parts;
    }
  }

  /** Splitting and joining again gives the text back. */
  lemma {:induction false} JoinSplit(s: string, d: char)
    ensures Join(Split(s, d), [d]) == s
    decreases |s|
  {
    if |s| > 0 {
      var rest := Split(s[1..], d);
      JoinSplit(s[1..], d);
      if s[0] == d {
        assert Join([""] + rest, [d]) == "" + [d] + Join(rest, [d]);
      } else {
        var r := [[s[0]] + rest[0]] + rest[1..];
        if |rest| == 1 {
          assert Join(r, [d]) == [s[0]] + rest[0];
        } else {
          assert rest == [rest[0]] + rest[1..];
          assert Join(rest, [d]) == rest[0] + [d] + Join(rest[1..], [d]);
          assert Join(r, [d]) == [s[0]] + rest[0] + [d] + Join(r[1..], [d]);
          assert r[1..] == rest[1..];
        }
      }
      assert [s[0]] + s[1..] == s;
    }
  }

  /** A separator between every two parts: the joined text holds no `c` the parts and `sep` lack. */
  lemma {:induction false} JoinAvoids(parts: seq<string>, sep: string, c: char)
    requires c !in sep
    requires forall i :: 0 <= i < |parts| ==> c !in parts[i]
    ensures c !in Join(parts, sep)
  {
    if |parts| > 1 {
      JoinAvoids(parts[1..], sep, c);
    }
  }

  /** The characters `String.prototype.trim` removes: ECMAScript WhiteSpace and LineTerminator. */
  predicate IsSpace(c: char)
  {
    c == ' ' || c == '\t' || c == '\n' || c == '\r' || c == '\U{B}' || c == '\U{C}'
    || c == '\U{A0}' || c == '\U{1680}' || ('\U{2000}' <= c <= '\U{200A}')
    || c == '\U{2028}' || c == '\U{2029}' || c == '\U{202F}' || c == '\U{205F}'
    || c == '\U{3000}' || c == '\U{FEFF}'
  }

  /** How many characters `trim` removes at the front. */
  function LeadingSpaces(s: string): (k: nat)
    ensures k <= |s|
    ensures forall i :: 0 <= i < k ==> IsSpace(s[i])
    ensures k < |s| ==> !IsSpace(s[k])
  {
    if |s| > 0 && IsSpace(s[0]) then 1 + LeadingSpaces(s[1..]) else 0
  }

  /** How many characters `trim` removes at the back. */
  function TrailingSpaces(s: string): (k: nat)
    ensures k <= |s|
    ensures forall i :: |s| - k <= i < |s| ==> IsSpace(s[i])
    ensures k < |s| ==> !IsSpace(s[|s| - 1 - k])
  {
    if |s| > 0 && IsSpace(s[|s| - 1]) then 1 + TrailingSpaces(s[..|s| - 1]) else 0
  }

  /** `s.trim()`: the longest infix of `s` that neither starts nor ends with white space,
      obtained by removing only white space. */
  function Trim(s: string): (r: string)
    ensures |r| > 0 ==> !IsSpace(r[0]) && !IsSpace(r[|r| - 1])
    ensures var a := LeadingSpaces(s);
            a + |r| <= |s| && r == s[a..a + |r|]
            && forall j :: a + |r| <= j < |s| ==> IsSpace(s[j])
  {
    var a := LeadingSpaces(s);
    var rest := s[a..];
    var b := TrailingSpaces(rest);
    assert forall j :: |rest| - b <= j < |rest| ==> IsSpace(rest[j]);
    rest[..|rest| - b]
  }

  /** A string that neither starts nor ends with white space is left alone by `trim`. */
  lemma TrimUnchanged(s: string)
    requires |s| > 0 ==> !IsSpace(s[0]) && !IsSpace(s[|s| - 1])
    ensures Trim(s) == s
  {
    assert LeadingSpaces(s) == 0;
    assert TrailingSpaces(s) == 0;
  }

  predicate IsDigit(c: char) { '0' <= c <= '9' }

  function DigitChar(d: nat): (c: char)
    requires d < 10
    ensures IsDigit(c)
  {
    "0123456789"[d]
  }

  function DigitValue(c: char): (d: nat)
    requires IsDigit(c)
    ensures d < 10 && DigitChar(d) == c
  {
    (c as int - '0' as int) as nat
  }

  /** The decimal digits of a natural number, with no leading zero. */
  function NatText(k: nat): (r: string)
    ensures |r| >= 1
    ensures forall i :: 0 <= i < |r| ==> IsDigit(r[i])
    ensures |r| > 1 ==> r[0] != '0'
  {
    if k < 10 then [DigitChar(k)] else NatText(k / 10) + [DigitChar(k % 10)]
  }

  /** `String(k)` for an integer-valued JavaScript number. */
  function IntText(k: int): (r: string)
    ensures |r| >= 1
    ensures forall i :: 0 <= i < |r| ==> IsDigit(r[i]) || (i == 0 && r[i] == '-')
  {
    if k < 0 then "-" + NatText(-k) else NatText(k)
  }

  /** A string of decimal digits read back as a number. */
  function ParseNat(s: string): Option<nat>
  {
    if |s| == 0 || !IsDigit(s[|s| - 1]) then None
    else if |s| == 1 then Some(DigitValue(s[0]))
    else match ParseNat(s[..|s| - 1])
         case None => None
         case Some(k) => Some(10 * k + DigitValue(s[|s| - 1]))
  }

  /** An optionally negative decimal integer read back as a number. */
  function ParseInt(s: string): Option<int>
  {
    if |s| > 0 && s[0] == '-' then
      match ParseNat(s[1..])
      case None => None
      case Some(k) => Some(-(k as int))
    else match ParseNat(s)
         case None => None
         case Some(k) => Some(k)
  }

  lemma {:induction false} NatTextRoundTrip(k: nat)
    ensures ParseNat(NatText(k)) == Some(k)
  {
    if k >= 10 {
      NatTextRoundTrip(k / 10);
      var s := NatText(k);
      assert s[..|s| - 1] == NatText(k / 10);
    }
  }

  /** Reading back the decimal text of an integer gives the integer. */
  lemma IntTextRoundTrip(k: int)
    ensures ParseInt(IntText(k)) == Some(k)
  {
    if k < 0 {
      var m: nat := -k;
      var s := "-" + NatText(m);
      NatTextRoundTrip(m);
      assert IntText(k) == s;
      assert s[0] == '-' && s[1..] == NatText(m);
    } else {
      NatTextRoundTrip(k);
    }
  }

  /** Decimal text never holds a given non-digit character other than the sign. */
  lemma IntTextAvoids(k: int, c: char)
    requires !IsDigit(c) && c != '-'
    ensures c !in IntText(k)
  {
  }
}
