/**
 * The `@IdNo` constraint with its default pattern for the 18-character citizen
 * ID number of GB 11643-1999:
 * `^[1-9]\d{5}(18|19|20|(3\d))\d{2}((0[1-9])|(1[0-2]))(([0-2][1-9])|10|20|30|31)\d{3}[0-9Xx]$`.
 * The pattern checks the layout only: it neither computes the check character
 * nor relates the day to the month.
 */
module IdNumbers {
  import opened Nullable
  import opened Patterns

  const DefaultMessage: string := "身份证号码格式不正确"

  /** `[1-9]`: the first character of the region code. */
  predicate RegionLead(c: char)
  {
    '1' <= c <= '9'
  }

  /** `(18|19|20|(3\d))`: the first two digits of the birth year. */
  predicate CenturyGroup(p: string)
    requires |p| == 2
  {
    p == "18" || p == "19" || p == "20" || (p[0] == '3' && IsDigit(p[1]))
  }

  /** `((0[1-9])|(1[0-2]))`: the birth month. */
  predicate MonthGroup(p: string)
    requires |p| == 2
  {
    (p[0] == '0' && '1' <= p[1] <= '9') || (p[0] == '1' && '0' <= p[1] <= '2')
  }

  /** `(([0-2][1-9])|10|20|30|31)`: the birth day. */
  predicate DayGroup(p: string)
    requires |p| == 2
  {
    ('0' <= p[0] <= '2' && '1' <= p[1] <= '9') || p == "10" || p == "20" || p == "30" || p == "31"
  }

  /** `[0-9Xx]`: the check character. */
  predicate CheckChar(c: char)
  {
    IsDigit(c) || c == 'X' || c == 'x'
  }

  /** The default pattern, piece by piece over the 18 positions. */
  predicate Matches(s: string)
  {
    |s| == 18 &&
    RegionLead(s[0]) && DigitRun(s[1..6], 5, 5) &&
    CenturyGroup(s[6..8]) && DigitRun(s[8..10], 2, 2) &&
    MonthGroup(s[10..12]) && DayGroup(s[12..14]) &&
    DigitRun(s[14..17], 3, 3) && CheckChar(s[17])
  }

  /** The constraint as declared with its defaults. */
  function Default(): Rule
  {
    Rule(Matches, DefaultMessage)
  }

  // ---------------------------------------------------------------------------
  // The layout in numbers, independent of the pattern's alternations.

  function DigitValue(c: char): int
  {
    c as int - '0' as int
  }

  /** The number written by two digits. */
  function TwoDigitValue(p: string): int
    requires |p| == 2
  {
    10 * DigitValue(p[0]) + DigitValue(p[1])
  }

  lemma CenturyIff(p: string)
    requires |p| == 2
    ensures CenturyGroup(p) <==> AllDigits(p) && (TwoDigitValue(p) in {18, 19, 20} || 30 <= TwoDigitValue(p) <= 39)
  {
    if AllDigits(p) {
      assert IsDigit(p[0]) && IsDigit(p[1]);
      assert p == [p[0], p[1]];
    }
  }

  /** `((0[1-9])|(1[0-2]))` covers exactly the months 01 to 12. */
  lemma MonthIff(p: string)
    requires |p| == 2
    ensures MonthGroup(p) <==> AllDigits(p) && 1 <= TwoDigitValue(p) <= 12
  {
    if AllDigits(p) {
      assert IsDigit(p[0]) && IsDigit(p[1]);
    }
  }

  /** `(([0-2][1-9])|10|20|30|31)` covers exactly the days 01 to 31: 00 and 32 are rejected. */
  lemma DayIff(p: string)
    requires |p| == 2
    ensures DayGroup(p) <==> AllDigits(p) && 1 <= TwoDigitValue(p) <= 31
  {
    if AllDigits(p) {
      assert IsDigit(p[0]) && IsDigit(p[1]);
      assert p == [p[0], p[1]];
    }
  }

  /**
   * The ID-number layout: 18 characters; a non-zero region lead and digits up to
   * position 17; a birth year starting 18, 19, 20 or 30-39; a month 1-12 and a
   * day 1-31 (whatever the month); a digit, `X` or `x` last.
   */
  ghost predicate Layout(s: string)
  {
    |s| == 18 && AllDigits(s[..17]) && s[0] != '0' && CheckChar(s[17]) &&
    (TwoDigitValue(s[6..8]) in {18, 19, 20} || 30 <= TwoDigitValue(s[6..8]) <= 39) &&
    1 <= TwoDigitValue(s[10..12]) <= 12 &&
    1 <= TwoDigitValue(s[12..14]) <= 31
  }

  /** A slice of an all-digit string is all digits. */
  lemma DigitsOfSlice(s: string, i: int, j: int)
    requires AllDigits(s) && 0 <= i <= j <= |s|
    ensures AllDigits(s[i..j])
  {
    forall k | 0 <= k < j - i ensures IsDigit(s[i..j][k]) {
      assert s[i..j][k] == s[i + k];
    }
  }

  /** The pattern accepts exactly the strings with the ID-number layout. */
  lemma MatchesIffLayout(s: string)
    ensures Matches(s) <==> Layout(s)
  {
    if |s| == 18 {
      DigitRunIff(s[1..6], 5, 5);
      DigitRunIff(s[8..10], 2, 2);
      DigitRunIff(s[14..17], 3, 3);
      CenturyIff(s[6..8]);
      MonthIff(s[10..12]);
      DayIff(s[12..14]);
      var p := s[..17];
      if Matches(s) {
        forall k | 0 <= k < 17 ensures IsDigit(p[k]) {
          if k == 0 {
          } else if k < 6 {
            assert p[k] == s[1..6][k - 1];
          } else if k < 8 {
            assert p[k] == s[6..8][k - 6];
          } else if k < 10 {
            assert p[k] == s[8..10][k - 8];
          } else if k < 12 {
            assert p[k] == s[10..12][k - 10];
          } else if k < 14 {
            assert p[k] == s[12..14][k - 12];
          } else {
            assert p[k] == s[14..17][k - 14];
          }
        }
      }
      if Layout(s) {
        assert s[1..6] == p[1..6] && s[6..8] == p[6..8] && s[8..10] == p[8..10];
        assert s[10..12] == p[10..12] && s[12..14] == p[12..14] && s[14..17] == p[14..17];
        DigitsOfSlice(p, 1, 6);
        DigitsOfSlice(p, 6, 8);
        DigitsOfSlice(p, 8, 10);
        DigitsOfSlice(p, 10, 12);
        DigitsOfSlice(p, 12, 14);
        DigitsOfSlice(p, 14, 17);
        assert IsDigit(p[0]);
      }
    }
  }

  /** Every accepted string has exactly 18 characters, with digits in every position but the last. */
  lemma AcceptedShape(s: string)
    requires Matches(s)
    ensures |s| == 18 && '1' <= s[0] <= '9'
    ensures forall k :: 1 <= k < 17 ==> IsDigit(s[k])
    ensures IsDigit(s[17]) || s[17] == 'X' || s[17] == 'x'
  {
    MatchesIffLayout(s);
    forall k | 1 <= k < 17 ensures IsDigit(s[k]) {
      assert s[k] == s[..17][k];
    }
  }

  /** Each position of an accepted string holds a digit, `X` or `x`. */
  lemma AcceptedCharacter(s: string, k: int)
    requires Matches(s) && 0 <= k < |s|
    ensures IsDigit(s[k]) || s[k] == 'X' || s[k] == 'x'
  {
    AcceptedShape(s);
  }

  /**
   * Replacing any position with a character that no class of the pattern allows
   * (neither a digit nor `X`/`x`) makes the string fail.
   */
  lemma ForeignCharacterRejected(s: string, i: int, c: char)
    requires Matches(s) && 0 <= i < |s|
    requires !IsDigit(c) && c != 'X' && c != 'x'
    ensures !Matches(s[i := c])
  {
    var t := s[i := c];
    assert t[i] == c;
    if Matches(t) {
      AcceptedCharacter(t, i);
    }
  }

  /** No calendar check: 31 February is accepted. */
  lemma NoCalendarCheck()
    ensures Matches("110101199002310012")
  {
    var s := "110101199002310012";
    assert s[1..6] == "10101" && s[6..8] == "19" && s[8..10] == "90";
    assert s[10..12] == "02" && s[12..14] == "31" && s[14..17] == "001";
    assert DigitRun("10101", 5, 5) by { DigitRunIff("10101", 5, 5); }
    assert DigitRun("90", 2, 2) by { DigitRunIff("90", 2, 2); }
    assert DigitRun("001", 3, 3) by { DigitRunIff("001", 3, 3); }
  }

  /** No check-character computation: only the class of the last character matters. */
  lemma CheckCharacterNotComputed(s: string, c: char)
    requires Matches(s) && CheckChar(c)
    ensures Matches(s[17 := c])
  {
    var t := s[17 := c];
    assert t[1..6] == s[1..6] && t[6..8] == s[6..8] && t[8..10] == s[8..10];
    assert t[10..12] == s[10..12] && t[12..14] == s[12..14] && t[14..17] == s[14..17];
  }

  /** With the default declaration: `null` passes, and a failure is one violation with the default message. */
  lemma DefaultDeclaration(s: string)
    ensures Violations([Default()], None) == []
    ensures Violations([Default()], Some(s)) == if Matches(s) then [] else [DefaultMessage]
  {
    SingleRule(Default(), s);
  }
}
