/** The few Python string built-ins the extractors and the formatter rely on. */
module PyStrings {

  /** `s.lstrip(c)`: every leading `c` removed. */
  function LStrip(s: string, c: char): string
  {
    if s != [] && s[0] == c then LStrip(s[1..], c) else s
  }

  /** `s.rstrip(c)`: every trailing `c` removed. */
  function RStrip(s: string, c: char): string
  {
    if s != [] && s[|s| - 1] == c then RStrip(s[..|s| - 1], c) else s
  }

  /** `LStrip` leaves a suffix of `s`, drops only `c`s, and stops at a character other than `c`. */
  lemma {:induction false} LStripSuffix(s: string, c: char)
    ensures |LStrip(s, c)| <= |s| && LStrip(s, c) == s[|s| - |LStrip(s, c)|..]
    ensures forall k :: 0 <= k < |s| - |LStrip(s, c)| ==> s[k] == c
    ensures LStrip(s, c) != [] ==> LStrip(s, c)[0] != c
  {
    if s != [] && s[0] == c {
      LStripSuffix(s[1..], c);
      var r := LStrip(s[1..], c);
      assert s[1..][|s| - 1 - |r|..] == s[|s| - |r|..];
      forall k | 0 < k < |s| - |r| ensures s[k] == c {
        assert s[1..][k - 1] == s[k];
      }
    }
  }

  /** `RStrip` leaves a prefix of `s`, drops only `c`s, and stops at a character other than `c`. */
  lemma {:induction false} RStripPrefix(s: string, c: char)
    ensures |RStrip(s, c)| <= |s| && RStrip(s, c) == s[..|RStrip(s, c)|]
    ensures forall k :: |RStrip(s, c)| <= k < |s| ==> s[k] == c
    ensures RStrip(s, c) != [] ==> RStrip(s, c)[|RStrip(s, c)| - 1] != c
  {
    if s != [] && s[|s| - 1] == c {
      RStripPrefix(s[..|s| - 1], c);
      var r := RStrip(s[..|s| - 1], c);
      assert s[..|s| - 1][..|r|] == s[..|r|];
      forall k | |r| <= k < |s| - 1 ensures s[k] == c {
        assert s[..|s| - 1][k] == s[k];
      }
    }
  }

  /**
   * `r` sits in `s` at offset `i`, and every character of `s` before and after
   * it is `c`.
   */
  ghost predicate StrippedAt(r: string, s: string, c: char, i: nat) {
    && i + |r| <= |s|
    && r == s[i..i + |r|]
    && (forall k :: 0 <= k < i ==> s[k] == c)
    && (forall k :: i + |r| <= k < |s| ==> s[k] == c)
  }

  /**
   * `s.strip(c)` for a one-character argument: the longest middle stretch of
   * `s` that neither begins nor ends with `c`, everything around it being `c`.
   */
  function Strip(s: string, c: char): string
  {
    RStrip(LStrip(s, c), c)
  }

  /** `Strip` leaves a stretch of `s` surrounded by `c`s only, and neither end of it is `c`. */
  lemma StripSpec(s: string, c: char)
    ensures exists i: nat :: StrippedAt(Strip(s, c), s, c, i)
    ensures Strip(s, c) != [] ==> Strip(s, c)[0] != c && Strip(s, c)[|Strip(s, c)| - 1] != c
  {
    var left := LStrip(s, c);
    StripWitness(s, c, left, RStrip(left, c));
    assert StrippedAt(Strip(s, c), s, c, |s| - |left|);
  }

  lemma StripWitness(s: string, c: char, left: string, r: string)
    requires left == LStrip(s, c) && r == RStrip(left, c)
    ensures |left| <= |s| && StrippedAt(r, s, c, |s| - |left|)
    ensures r != [] ==> r[0] != c && r[|r| - 1] != c
  {
    LStripSuffix(s, c);
    RStripPrefix(left, c);
    var i := |s| - |left|;
    assert left == s[i..];
    assert r == left[..|r|];
    forall k | i + |r| <= k < |s| ensures s[k] == c {
      assert s[k] == left[k - i];
    }
  }

  /** A string that does not begin or end with `c` is left as it is. */
  lemma StripNoop(s: string, c: char)
    requires s != [] ==> s[0] != c && s[|s| - 1] != c
    ensures Strip(s, c) == s
  {
  }

  /** One `c` on each side of a string that neither begins nor ends with `c` is stripped off. */
  lemma StripEnclosed(s: string, c: char)
    requires s != [] ==> s[0] != c && s[|s| - 1] != c
    ensures Strip([c] + s + [c], c) == s
  {
    var t := [c] + s + [c];
    assert t[1..] == s + [c];
    if s == [] {
      assert [c][1..] == [];
      assert LStrip(t, c) == LStrip([c], c) == LStrip([], c) == [];
    } else {
      assert (s + [c])[0] == s[0];
      assert LStrip(t, c) == s + [c];
      assert (s + [c])[..|s|] == s;
      assert RStrip(s + [c], c) == RStrip(s, c) == s;
    }
  }

  /** `sep.join(parts)`. */
  function Join(parts: seq<string>, sep: string): string
  {
    if |parts| == 0 then "" else if |parts| == 1 then parts[0] else parts[0] + sep + Join(parts[1..], sep)
  }

  /** Where part `k` begins in `Join(parts, sep)`: every earlier part and its separator come first. */
  function JoinOffset(parts: seq<string>, sep: string, k: nat): nat
    requires k <= |parts|
  {
    if k == 0 then 0 else |parts[0]| + |sep| + JoinOffset(parts[1..], sep, k - 1)
  }

  lemma ShiftedSlice(a: string, b: string, lo: nat, hi: nat)
    requires lo <= hi <= |b|
    ensures (a + b)[|a| + lo..|a| + hi] == b[lo..hi]
  {
  }

  /** The offset of the next part is past this part and one separator. */
  lemma {:induction false} JoinOffsetStep(parts: seq<string>, sep: string, k: nat)
    requires k < |parts|
    ensures JoinOffset(parts, sep, k + 1) == JoinOffset(parts, sep, k) + |parts[k]| + |sep|
  {
    if k > 0 {
      JoinOffsetStep(parts[1..], sep, k - 1);
      assert parts[1..][k - 1] == parts[k];
    }
  }

  /** Part `k` sits in the join at its offset. */
  lemma {:induction false} JoinPartAt(parts: seq<string>, sep: string, k: nat)
    requires k < |parts|
    ensures JoinOffset(parts, sep, k) + |parts[k]| <= |Join(parts, sep)|
    ensures Join(parts, sep)[JoinOffset(parts, sep, k)..JoinOffset(parts, sep, k) + |parts[k]|] == parts[k]
  {
    if k == 0 {
      JoinFirstPart(parts, sep);
    } else {
      var at := JoinOffset(parts[1..], sep, k - 1);
      JoinPartAt(parts[1..], sep, k - 1);
      assert parts[1..][k - 1] == parts[k];
      JoinTailSlice(parts, sep, at, at + |parts[k]|);
    }
  }

  /** The first part starts the join. */
  lemma JoinFirstPart(parts: seq<string>, sep: string)
    requires parts != []
    ensures |parts[0]| <= |Join(parts, sep)|
    ensures Join(parts, sep)[..|parts[0]|] == parts[0]
  {
    if |parts| > 1 {
      var head, rest := parts[0] + sep, Join(parts[1..], sep);
      assert Join(parts, sep) == head + rest;
      assert (head + rest)[..|parts[0]|] == parts[0];
    }
  }

  /** What the join of the tail holds, the whole join holds past the first part and its separator. */
  lemma JoinTailSlice(parts: seq<string>, sep: string, lo: nat, hi: nat)
    requires 1 < |parts| && lo <= hi <= |Join(parts[1..], sep)|
    ensures |parts[0]| + |sep| + hi <= |Join(parts, sep)|
    ensures Join(parts, sep)[|parts[0]| + |sep| + lo..|parts[0]| + |sep| + hi] == Join(parts[1..], sep)[lo..hi]
  {
    var head, rest := parts[0] + sep, Join(parts[1..], sep);
    assert Join(parts, sep) == head + rest;
    ShiftedSlice(head, rest, lo, hi);
  }

  /** Between part `k` and part `k + 1` the join holds exactly `sep`. */
  lemma {:induction false} JoinSeparatorAt(parts: seq<string>, sep: string, k: nat)
    requires k + 1 < |parts|
    ensures JoinOffset(parts, sep, k) + |parts[k]| + |sep| <= |Join(parts, sep)|
    ensures Join(parts, sep)[JoinOffset(parts, sep, k) + |parts[k]|..JoinOffset(parts, sep, k) + |parts[k]| + |sep|] == sep
  {
    if k == 0 {
      JoinFirstSeparator(parts, sep);
    } else {
      var at := JoinOffset(parts[1..], sep, k - 1) + |parts[k]|;
      JoinSeparatorAt(parts[1..], sep, k - 1);
      assert parts[1..][k - 1] == parts[k];
      JoinTailSlice(parts, sep, at, at + |sep|);
    }
  }

  /** The first separator follows the first part. */
  lemma JoinFirstSeparator(parts: seq<string>, sep: string)
    requires 1 < |parts|
    ensures |parts[0]| + |sep| <= |Join(parts, sep)|
    ensures Join(parts, sep)[|parts[0]|..|parts[0]| + |sep|] == sep
  {
    var head, rest := parts[0] + sep, Join(parts[1..], sep);
    assert Join(parts, sep) == head + rest;
    assert (head + rest)[|parts[0]|..|head|] == sep;
  }

  /** The last part ends the join. */
  lemma {:induction false} JoinLastPartEnds(parts: seq<string>, sep: string)
    requires parts != []
    ensures JoinOffset(parts, sep, |parts| - 1) + |parts[|parts| - 1]| == |Join(parts, sep)|
  {
    if |parts| > 1 {
      JoinLastPartEnds(parts[1..], sep);
      assert parts[1..][|parts| - 2] == parts[|parts| - 1];
    }
  }

  /**
   * A join holds every part at its offset, `sep` between each part and the
   * next, and nothing after the last part; the first part starts the text.
   */
  lemma JoinParts(parts: seq<string>, sep: string, k: nat)
    requires k < |parts|
    ensures JoinOffset(parts, sep, 0) == 0
    ensures JoinOffset(parts, sep, k) + |parts[k]| <= |Join(parts, sep)|
    ensures Join(parts, sep)[JoinOffset(parts, sep, k)..JoinOffset(parts, sep, k) + |parts[k]|] == parts[k]
    ensures k + 1 < |parts| ==>
              && JoinOffset(parts, sep, k + 1) == JoinOffset(parts, sep, k) + |parts[k]| + |sep|
              && JoinOffset(parts, sep, k + 1) <= |Join(parts, sep)|
              && Join(parts, sep)[JoinOffset(parts, sep, k) + |parts[k]|..JoinOffset(parts, sep, k + 1)] == sep
    ensures k + 1 == |parts| ==> JoinOffset(parts, sep, k) + |parts[k]| == |Join(parts, sep)|
  {
    JoinPartAt(parts, sep, k);
    if k + 1 < |parts| {
      JoinOffsetStep(parts, sep, k);
      JoinSeparatorAt(parts, sep, k);
    } else {
      JoinLastPartEnds(parts, sep);
    }
  }

  /**
   * Joined with a one-character separator, each part sits at its offset and
   * is followed by that character, except the last, which ends the text.
   */
  lemma JoinedByChar(parts: seq<string>, sep: string, k: nat)
    requires k < |parts| && |sep| == 1
    ensures var text, at := Join(parts, sep), JoinOffset(parts, sep, k);
            && at + |parts[k]| <= |text| && text[at..at + |parts[k]|] == parts[k]
            && (k + 1 < |parts| ==> at + |parts[k]| < |text| && text[at + |parts[k]|] == sep[0])
            && (k + 1 == |parts| ==> at + |parts[k]| == |text|)
  {
    JoinParts(parts, sep, k);
    if k + 1 < |parts| {
      var at, text := JoinOffset(parts, sep, k) + |parts[k]|, Join(parts, sep);
      assert text[at..at + 1] == sep;
      assert text[at] == text[at..at + 1][0];
    }
  }

  /** Total length of `parts`. */
  function TotalLength(parts: seq<string>): nat
  {
    if parts == [] then 0 else |parts[0]| + TotalLength(parts[1..])
  }

  /** The length of a join is the parts' total length plus one separator per pair of neighbouring parts. */
  lemma {:induction false} JoinLength(parts: seq<string>, sep: string)
    requires parts != []
    ensures |Join(parts, sep)| == TotalLength(parts) + (|parts| - 1) * |sep|
  {
    if |parts| > 1 {
      JoinLength(parts[1..], sep);
    }
  }

  /** The decimal digit for `d`. */
  function DigitChar(d: nat): char
    requires d < 10
  {
    "0123456789"[d]
  }

  /** The decimal numeral of `n`. */
  function NatToString(n: nat): (r: string)
    ensures r != []
    ensures forall k :: 0 <= k < |r| ==> '0' <= r[k] <= '9'
    decreases n
  {
    if n < 10 then [DigitChar(n)] else NatToString(n / 10) + [DigitChar(n % 10)]
  }

  /** Python's `str(i)` for an integer. */
  function IntToString(i: int): (r: string)
    ensures r != []
  {
    if i < 0 then "-" + NatToString(-i) else NatToString(i)
  }

  predicate IsDigit(c: char)
  {
    '0' <= c <= '9'
  }

  predicate AllDigits(s: string)
  {
    forall k :: 0 <= k < |s| ==> IsDigit(s[k])
  }

  /** The value of a decimal digit. */
  function DigitValue(c: char): nat
    requires IsDigit(c)
  {
    (c as int) - ('0' as int)
  }

  /** The value of a string of decimal digits, read from left to right: each digit multiplies what came before by ten. */
  function DecimalValue(s: string): nat
    requires AllDigits(s)
  {
    if s == [] then 0 else 10 * DecimalValue(s[..|s| - 1]) + DigitValue(s[|s| - 1])
  }

  /** The value of an optionally signed numeral, as Python's `int(s)` reads it. */
  function IntValue(s: string): int
    requires s != [] && (if s[0] == '-' then AllDigits(s[1..]) else AllDigits(s))
  {
    if s[0] == '-' then -(DecimalValue(s[1..]) as int) else DecimalValue(s)
  }

  /** A numeral in canonical form: some digits, no leading zero unless the numeral is `0`. */
  predicate CanonicalDigits(s: string)
  {
    s != [] && AllDigits(s) && (|s| > 1 ==> s[0] != '0')
  }

  lemma DigitCharValue(d: nat)
    requires d < 10
    ensures IsDigit(DigitChar(d)) && DigitValue(DigitChar(d)) == d
  {
  }

  /** The numeral of `n` reads back as `n`. */
  lemma {:induction false} NatToStringValue(n: nat)
    ensures AllDigits(NatToString(n))
    ensures DecimalValue(NatToString(n)) == n
    decreases n
  {
    var r := NatToString(n);
    if n < 10 {
      DigitCharValue(n);
      assert r[..0] == [];
    } else {
      NatToStringValue(n / 10);
      DigitCharValue(n % 10);
      assert r[..|r| - 1] == NatToString(n / 10);
    }
  }

  /** The numeral of `n` has no leading zero, except the numeral `0` itself. */
  lemma {:induction false} NatToStringCanonical(n: nat)
    ensures CanonicalDigits(NatToString(n))
    ensures NatToString(n)[0] == '0' <==> n == 0
    decreases n
  {
    if n >= 10 {
      NatToStringCanonical(n / 10);
      assert NatToString(n)[0] == NatToString(n / 10)[0];
    }
  }

  /** `str(i)` begins with `-` exactly for negative `i`; what follows the sign is the numeral of `-i`. */
  lemma IntToStringSign(i: int)
    ensures IntToString(i)[0] == '-' <==> i < 0
    ensures i < 0 ==> IntToString(i)[1..] == NatToString(-i)
    ensures i >= 0 ==> IntToString(i) == NatToString(i)
  {
    if i < 0 {
      assert IntToString(i)[1..] == NatToString(-i);
    } else {
      NatToStringValue(i);
      assert IsDigit(NatToString(i)[0]);
    }
  }

  /** `str(i)` is canonical after its sign, and never `-0`. */
  lemma IntToStringCanonical(i: int)
    ensures var r := IntToString(i);
            && (r[0] == '-' ==> CanonicalDigits(r[1..]) && r[1..] != "0")
            && (r[0] != '-' ==> CanonicalDigits(r))
  {
    var r := IntToString(i);
    IntToStringSign(i);
    if i < 0 {
      var m: nat := -i;
      NatToStringCanonical(m);
      assert r[1..] == NatToString(m);
      assert NatToString(m)[0] != "0"[0];
    } else {
      NatToStringCanonical(i);
      assert r == NatToString(i);
    }
  }

  /** A minus sign before digits negates their value. */
  lemma NegatedValue(digits: string)
    requires AllDigits(digits)
    ensures IntValue("-" + digits) == -(DecimalValue(digits) as int)
  {
    assert ("-" + digits)[1..] == digits;
  }

  /** `str(i)` reads back as `i`. */
  lemma IntToStringValue(i: int)
    ensures var r := IntToString(i);
            (if r[0] == '-' then AllDigits(r[1..]) else AllDigits(r)) && IntValue(r) == i
  {
    var r := IntToString(i);
    if i < 0 {
      var m: nat := -i;
      var digits := NatToString(m);
      assert r == "-" + digits;
      NatToStringValue(m);
      NegatedValue(digits);
      assert r[0] == '-' && r[1..] == digits;
    } else {
      NatToStringValue(i);
      IntToStringSign(i);
    }
  }

  /** Different integers have different numerals: `str` on integers is injective. */
  lemma IntToStringInjective(i: int, j: int)
    requires IntToString(i) == IntToString(j)
    ensures i == j
  {
    IntToStringValue(i);
    IntToStringValue(j);
  }
}
