/** The string operations the source uses on clock and duration texts: `Number` on a digit field,
    `String` of an integer, `padStart(2, '0')` and `split(':')`. */
module Text {
  import opened Seqs

  predicate IsDigit(c: char)
  {
    '0' <= c <= '9'
  }

  predicate AllDigits(s: string)
  {
    forall i :: 0 <= i < |s| ==> IsDigit(s[i])
  }

  /** The value of one decimal digit; a character that is not a digit reads as 0. */
  function DigitValue(c: char): (d: nat)
    ensures d < 10
  {
    if IsDigit(c) then (c as int - '0' as int) else 0
  }

  function DigitChar(d: nat): (c: char)
    requires d < 10
    ensures IsDigit(c) && DigitValue(c) == d
  {
    ('0' as int + d) as char
  }

  /** `Number(s)` of a field made of decimal digits; the empty field reads as 0, as in JavaScript. */
  function DecimalValue(s: string): nat
  {
    if s == [] then 0 else DecimalValue(s[..|s| - 1]) * 10 + DigitValue(s[|s| - 1])
  }

  /** `String(n)` for a non-negative integer: its decimal digits, without leading zeros. */
  function NatToText(n: nat): (r: string)
    ensures |r| >= 1 && AllDigits(r)
    ensures DecimalValue(r) == n
    ensures r[0] == '0' <==> n == 0
  {
    if n < 10 then [DigitChar(n)]
    else
      var front := NatToText(n / 10);
      var r := front + [DigitChar(n % 10)];
      assert r[..|r| - 1] == front;
      r
  }

  /** `String(i)` for any integer: a minus sign in front of the magnitude of a negative one. */
  function IntToText(i: int): (r: string)
    ensures i >= 0 ==> r == NatToText(i)
    ensures i < 0 ==> r == "-" + NatToText(-i)
  {
    if i < 0 then "-" + NatToText(-i) else NatToText(i)
  }

  /** `s.padStart(2, '0')`. */
  function PadStart2(s: string): (r: string)
    ensures |s| >= 2 ==> r == s
    ensures |s| < 2 ==> |r| == 2 && r[2 - |s|..] == s && forall i :: 0 <= i < 2 - |s| ==> r[i] == '0'
  {
    if |s| >= 2 then s else if |s| == 1 then "0" + s else "00"
  }

  /** A leading zero does not change the value of a field. */
  lemma {:induction false} LeadingZero(s: string)
    ensures DecimalValue("0" + s) == DecimalValue(s)
  {
    if s != [] {
      var front := s[..|s| - 1];
      assert ("0" + s)[..|"0" + s| - 1] == "0" + front;
      LeadingZero(front);
    }
  }

  /** Padding keeps the digits and the value of a field. */
  lemma PadKeepsValue(s: string)
    ensures DecimalValue(PadStart2(s)) == DecimalValue(s)
    ensures AllDigits(s) ==> AllDigits(PadStart2(s))
  {
    if |s| == 1 {
      LeadingZero(s);
    } else if |s| == 0 {
      LeadingZero("");
      LeadingZero("0");
    }
  }

  function ColonIndex(s: string): int
  {
    FirstIndex(s, (c: char) => c == ':')
  }

  /** `s.split(':')[0]`: the text before the first colon (all of it when there is none). */
  function FirstField(s: string): (r: string)
    ensures |r| <= |s| && r == s[..|r|]
    ensures ':' !in r
  {
    var k := ColonIndex(s);
    if k == -1 then s else s[..k]
  }

  /** `s.split(':')[1]`: the text between the first and the second colon. A missing second field
      is the empty text here (JavaScript has `undefined`, which `Number` turns into NaN). */
  function SecondField(s: string): (r: string)
    ensures ':' !in r
  {
    var k := ColonIndex(s);
    if k == -1 then "" else FirstField(s[k + 1..])
  }

  lemma DigitsHaveNoColon(s: string)
    requires AllDigits(s)
    ensures ':' !in s
  {
    forall i | 0 <= i < |s| ensures s[i] != ':' {
      assert IsDigit(s[i]);
    }
  }

  /** The first field of `f + rest`, when `f` holds no colon and `rest` is empty or starts with one. */
  lemma FirstFieldOf(f: string, rest: string)
    requires ':' !in f && (rest == [] || rest[0] == ':')
    ensures FirstField(f + rest) == f
  {
    var s := f + rest;
    forall j | 0 <= j < |f| ensures s[j] != ':' {
      assert s[j] == f[j];
    }
    if rest != [] {
      assert s[|f|] == ':';
    }
  }

  lemma ColonAfterField(f: string, tail: string)
    requires ':' !in f && tail != [] && tail[0] == ':'
    ensures ColonIndex(f + tail) == |f|
  {
    var s := f + tail;
    forall j | 0 <= j < |f| ensures s[j] != ':' {
      assert s[j] == f[j];
    }
    assert s[|f|] == ':';
  }

  /** `"h:m"`, or `"h:m:…"`, splits into the fields `h` and `m` when neither holds a colon. */
  lemma ClockFields(h: string, m: string, rest: string)
    requires ':' !in h && ':' !in m && (rest == [] || rest[0] == ':')
    ensures FirstField(h + ":" + m + rest) == h
    ensures SecondField(h + ":" + m + rest) == m
  {
    var tail := ":" + m + rest;
    var s := h + tail;
    assert h + ":" + m + rest == s;
    assert FirstField(s) == h by {
      FirstFieldOf(h, tail);
    }
    assert SecondField(s) == m by {
      ColonAfterField(h, tail);
      assert s[|h| + 1..] == m + rest;
      FirstFieldOf(m, rest);
    }
  }

  /** JavaScript's `a < b` on strings: the first differing character decides, and a proper prefix
      comes first. */
  predicate LexLess(a: string, b: string)
    decreases |a|
  {
    if b == [] then false
    else if a == [] then true
    else if a[0] != b[0] then a[0] < b[0]
    else LexLess(a[1..], b[1..])
  }

  /** `a.localeCompare(b) <= 0`, with the locale's collation read as the plain character order. */
  predicate LexLe(a: string, b: string)
  {
    !LexLess(b, a)
  }

  lemma {:induction false} LexIrreflexive(a: string)
    ensures !LexLess(a, a)
  {
    if a != [] {
      LexIrreflexive(a[1..]);
    }
  }

  /** The string order is a strict total order: of two different strings exactly one comes first. */
  lemma {:induction false} LexTrichotomy(a: string, b: string)
    ensures LexLess(a, b) || a == b || LexLess(b, a)
    ensures !(LexLess(a, b) && LexLess(b, a))
    decreases |a|
  {
    if a != [] && b != [] && a[0] == b[0] {
      LexTrichotomy(a[1..], b[1..]);
      if a[1..] == b[1..] {
        assert a == [a[0]] + a[1..] && b == [b[0]] + b[1..];
      }
    }
  }

  lemma {:induction false} LexLessTransitive(a: string, b: string, c: string)
    requires LexLess(a, b) && LexLess(b, c)
    ensures LexLess(a, c)
    decreases |a|
  {
    if a != [] && a[0] == b[0] && b[0] == c[0] {
      LexLessTransitive(a[1..], b[1..], c[1..]);
    }
  }

  /** "Not after" is total and transitive, as a sort comparator must be. */
  lemma LexLePreorder(a: string, b: string, c: string)
    ensures LexLe(a, b) || LexLe(b, a)
    ensures LexLe(a, b) && LexLe(b, c) ==> LexLe(a, c)
  {
    LexTrichotomy(a, b);
    LexTrichotomy(b, c);
    LexTrichotomy(a, c);
    LexIrreflexive(a);
    if LexLess(c, a) && LexLess(a, b) {
      LexLessTransitive(c, a, b);
    }
    if LexLess(c, a) && LexLess(b, c) {
      LexLessTransitive(b, c, a);
    }
  }
}
