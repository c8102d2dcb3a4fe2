/** The `@PhoneNo` constraint with its default pattern `^\d{8,11}$`. */
module PhoneNumbers {
  import opened Nullable
  import opened Patterns

  const DefaultMessage: string := "电话号码格式不正确"

  /** The default pattern: the whole string is a run of eight to eleven digits. */
  predicate Matches(s: string)
  {
    DigitRun(s, 8, 11)
  }

  /** The constraint as declared with its defaults. */
  function Default(): Rule
  {
    Rule(Matches, DefaultMessage)
  }

  /** Accepted exactly when the string has 8 to 11 characters, all ASCII digits. */
  lemma MatchesIff(s: string)
    ensures Matches(s) <==> 8 <= |s| <= 11 && AllDigits(s)
  {
    DigitRunIff(s, 8, 11);
  }

  /** Seven or twelve digits are one too few or one too many. */
  lemma LengthBoundsAreTight(s: string)
    requires AllDigits(s)
    ensures |s| == 7 ==> !Matches(s)
    ensures |s| == 12 ==> !Matches(s)
    ensures |s| == 8 ==> Matches(s)
    ensures |s| == 11 ==> Matches(s)
  {
    MatchesIff(s);
  }

  /** One non-digit anywhere (`+`, `-`, a space, ...) is enough to reject. */
  lemma NonDigitRejected(s: string, i: int)
    requires 0 <= i < |s| && !IsDigit(s[i])
    ensures !Matches(s)
  {
    MatchesIff(s);
  }

  /**
   * With the default declaration: `null` passes, the empty string does not (the
   * pattern needs eight digits), and a failure is one violation with the
   * default message.
   */
  lemma DefaultDeclaration(s: string)
    ensures Violations([Default()], None) == []
    ensures Violations([Default()], Some("")) == [DefaultMessage]
    ensures Violations([Default()], Some(s)) == if Matches(s) then [] else [DefaultMessage]
  {
    SingleRule(Default(), "");
    SingleRule(Default(), s);
    MatchesIff("");
  }
}
