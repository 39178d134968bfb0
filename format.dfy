/**
 * Thousands separators for the result counter of the native window
 * (cardinal-native/src/main.rs): `format_number` and `format_results_text`.
 */
module Format {

  /** Rust's `u64`; `usize` is taken to be 64 bits wide. */
  type U64 = x: nat | x < 0x1_0000_0000_0000_0000

  predicate IsDigit(c: char) {
    '0' <= c <= '9'
  }

  function DigitChar(d: nat): (c: char)
    requires d < 10
    ensures IsDigit(c)
  {
    (48 + d) as char
  }

  /** `value.to_string()`: the decimal digits of the value, most significant first. */
  function Digits(value: nat): (s: string)
    ensures |s| >= 1 && (forall i :: 0 <= i < |s| ==> IsDigit(s[i]))
    ensures (|s| == 1) == (value < 10)
    ensures (|s| <= 2) == (value < 100)
    ensures (|s| <= 3) == (value < 1000)
  {
    if value < 10 then [DigitChar(value)] else Digits(value / 10) + [DigitChar(value % 10)]
  }

  /** Reading a string of decimal digits back as a number. */
  function DecimalValue(s: string): nat
    requires forall i :: 0 <= i < |s| ==> IsDigit(s[i])
  {
    if s == [] then 0
    else
      var last := s[|s| - 1];
      assert IsDigit(last);
      DecimalValue(s[..|s| - 1]) * 10 + (last as int - 48)
  }

  /** `to_string` loses nothing: its digits read back as the value, with no leading zero. */
  lemma {:induction false} DigitsRoundTrip(value: nat)
    ensures DecimalValue(Digits(value)) == value
    ensures Digits(value)[0] != '0' || value == 0
  {
    if value >= 10 {
      DigitsRoundTrip(value / 10);
      var d := Digits(value / 10);
      assert (d + [DigitChar(value % 10)])[..|d|] == d;
      assert (d + [DigitChar(value % 10)])[0] == d[0];
    }
  }

  /** The digits split into groups of three from the right, joined by commas. */
  function Grouped(digits: string): string
  {
    if |digits| <= 3 then digits
    else Grouped(digits[..|digits| - 3]) + "," + digits[|digits| - 3..]
  }

  /** The string without its commas. */
  function StripCommas(s: string): string
  {
    if s == [] then []
    else StripCommas(s[..|s| - 1]) + (if s[|s| - 1] == ',' then "" else [s[|s| - 1]])
  }

  lemma {:induction false} StripCommasAppend(a: string, b: string)
    ensures StripCommas(a + b) == StripCommas(a) + StripCommas(b)
  {
    if b == [] {
      assert a + b == a;
    } else {
      assert (a + b)[..|a + b| - 1] == a + b[..|b| - 1];
      StripCommasAppend(a, b[..|b| - 1]);
    }
  }

  lemma {:induction false} StripCommasOfDigits(s: string)
    requires forall i :: 0 <= i < |s| ==> IsDigit(s[i])
    ensures StripCommas(s) == s
  {
    if s != [] {
      StripCommasOfDigits(s[..|s| - 1]);
    }
  }

  lemma StripCommaAlone()
    ensures StripCommas(",") == []
  {
    assert ","[..0] == [];
  }

  /** Deleting the separators gives back exactly the digits. */
  lemma {:induction false} GroupedStripsToDigits(digits: string)
    requires forall i :: 0 <= i < |digits| ==> IsDigit(digits[i])
    ensures StripCommas(Grouped(digits)) == digits
  {
    if |digits| <= 3 {
      StripCommasOfDigits(digits);
    } else {
      var head, tail := digits[..|digits| - 3], digits[|digits| - 3..];
      GroupedStripsToDigits(head);
      StripCommasOfDigits(tail);
      StripCommaAlone();
      calc {
        StripCommas(Grouped(digits));
        StripCommas(Grouped(head) + "," + tail);
        { StripCommasAppend(Grouped(head) + ",", tail); }
        StripCommas(Grouped(head) + ",") + StripCommas(tail);
        { StripCommasAppend(Grouped(head), ","); }
        head + tail;
      }
      assert head + tail == digits;
    }
  }

  /**
   * The shape of the grouping of d >= 1 digits: (d - 1) / 3 commas, placed
   * exactly where a multiple of four characters remains; so there is no
   * leading or trailing comma, the first group has one to three digits and
   * every later group exactly three.
   */
  lemma {:induction false} GroupedShape(digits: string)
    requires |digits| >= 1
    requires forall i :: 0 <= i < |digits| ==> IsDigit(digits[i])
    ensures var s := Grouped(digits);
      && |s| == |digits| + (|digits| - 1) / 3
      && (forall p :: 0 <= p < |s| ==> (s[p] == ',' <==> (|s| - p) % 4 == 0))
      && (forall p :: 0 <= p < |s| && s[p] != ',' ==> IsDigit(s[p]))
  {
    var s := Grouped(digits);
    if |digits| > 3 {
      var head, tail := digits[..|digits| - 3], digits[|digits| - 3..];
      GroupedShape(head);
      var g := Grouped(head);
      assert s == g + "," + tail;
      forall p | 0 <= p < |s| ensures (s[p] == ',' <==> (|s| - p) % 4 == 0) && (s[p] != ',' ==> IsDigit(s[p])) {
        if p < |g| {
          assert s[p] == g[p];
          assert (|s| - p) % 4 == (|g| - p) % 4;
        } else if p > |g| {
          assert s[p] == tail[p - |g| - 1];
        }
      }
    } else {
      forall p | 0 <= p < |s| ensures (s[p] == ',' <==> (|s| - p) % 4 == 0) {
        assert IsDigit(digits[p]);
      }
    }
  }

  /** Grouping after one more leading digit: a new group starts exactly when the rest fills whole groups. */
  lemma {:induction false} GroupedCons(c: char, t: string)
    ensures Grouped([c] + t) == [c] + (if |t| > 0 && |t| % 3 == 0 then "," else "") + Grouped(t)
    decreases |t|
  {
    var ct := [c] + t;
    if |t| == 3 {
      assert ct[..1] == [c] && ct[1..] == t;
    } else if |t| > 3 {
      var head := t[..|t| - 3];
      assert ct[..|ct| - 3] == [c] + head;
      assert ct[|ct| - 3..] == t[|t| - 3..];
      GroupedCons(c, head);
    }
  }

  function Reverse(s: string): (r: string)
    ensures |r| == |s|
  {
    if s == [] then [] else Reverse(s[1..]) + [s[0]]
  }

  lemma {:induction false} ReverseAppend(a: string, b: string)
    ensures Reverse(a + b) == Reverse(b) + Reverse(a)
  {
    if a == [] {
      assert a + b == b;
    } else {
      assert (a + b)[1..] == a[1..] + b;
      ReverseAppend(a[1..], b);
    }
  }

  lemma {:induction false} ReverseReverse(s: string)
    ensures Reverse(Reverse(s)) == s
  {
    if s != [] {
      ReverseReverse(s[1..]);
      ReverseAppend(Reverse(s[1..]), [s[0]]);
      assert Reverse([s[0]]) == [s[0]] by {
        assert [s[0]][1..] == [];
      }
      assert [s[0]] + s[1..] == s;
    }
  }

  /**
   * `format_number`: walk the digits from the least significant one, pushing
   * a comma before every third digit after the first, then reverse.
   */
  method FormatNumber(value: U64) returns (s: string)
    ensures s == Grouped(Digits(value))
    ensures StripCommas(s) == Digits(value)
    ensures |s| == |Digits(value)| + (|Digits(value)| - 1) / 3
    ensures forall p :: 0 <= p < |s| ==> (s[p] == ',' <==> (|s| - p) % 4 == 0)
  {
    var digits := Digits(value);
    var formatted: string := [];
    var count := 0;
    while count < |digits|
      invariant 0 <= count <= |digits|
      invariant formatted == Reverse(Grouped(digits[|digits| - count..]))
    {
      var ch := digits[|digits| - 1 - count];
      ghost var rest := digits[|digits| - count..];
      assert digits[|digits| - (count + 1)..] == [ch] + rest;
      GroupedCons(ch, rest);
      ghost var sep: string := if count != 0 && count % 3 == 0 then "," else "";
      ReverseAppend([ch] + sep, Grouped(rest));
      ReverseAppend([ch], sep);
      assert Reverse([ch]) == [ch] by {
        assert [ch][1..] == [];
      }
      assert Reverse(sep) == sep by {
        if sep != [] {
          assert sep[1..] == [];
        }
      }
      if count != 0 && count % 3 == 0 {
        formatted := formatted + [','];
      }
      formatted := formatted + [ch];
      count := count + 1;
    }
    assert digits[|digits| - count..] == digits;
    ReverseReverse(Grouped(digits));
    s := Reverse(formatted);
    GroupedStripsToDigits(digits);
    GroupedShape(digits);
  }

  /** The value below 1000 gets no separator at all. */
  lemma SmallNumbersUngrouped(value: nat)
    requires value < 1000
    ensures Grouped(Digits(value)) == Digits(value)
  {
  }

  lemma FormatNumberExamples()
    ensures Grouped(Digits(128440)) == "128,440"
    ensures Grouped(Digits(0)) == "0"
  {
    assert Digits(1) == "1";
    assert Digits(12) == "12";
    assert Digits(128) == "128";
    assert Digits(1284) == "1284";
    assert Digits(12844) == "12844";
    assert Digits(128440) == "128440";
    assert "128440"[..3] == "128" && "128440"[3..] == "440";
    assert Grouped("128") == "128";
  }

  /** `format_results_text`: the grouped count, " result", and an "s" unless the count is exactly one. */
  function FormatResultsText(count: U64): (text: string)
    ensures count == 1 ==> text == "1 result"
    ensures count != 1 ==> |text| > 8 && text[|text| - 8..] == " results"
    ensures text[..|text| - (if count == 1 then 7 else 8)] == Grouped(Digits(count))
  {
    var suffix := if count == 1 then "" else "s";
    Grouped(Digits(count)) + " result" + suffix
  }
}
