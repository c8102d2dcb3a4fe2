/**
 * What the phone-number and ID-number constraints share: they compose a single
 * `@Pattern` check, report a failure as one violation carrying the constraint's
 * message, treat `null` as valid, and may be repeated on one element.
 */
module Patterns {
  import opened Nullable

  /** `\d` in a Java pattern without UNICODE_CHARACTER_CLASS: an ASCII digit. */
  predicate IsDigit(c: char)
  {
    '0' <= c <= '9'
  }

  predicate AllDigits(s: string)
  {
    forall i :: 0 <= i < |s| ==> IsDigit(s[i])
  }

  /**
   * `\d{min,max}` matched against the whole of `s`: consume one digit at a time,
   * counting down both bounds.
   */
  predicate DigitRun(s: string, min: nat, max: nat)
  {
    if s == [] then min == 0
    else max > 0 && IsDigit(s[0]) && DigitRun(s[1..], if min > 0 then min - 1 else 0, max - 1)
  }

  /** `\d{min,max}` accepts exactly the all-digit strings whose length lies between the bounds. */
  lemma {:induction false} DigitRunIff(s: string, min: nat, max: nat)
    ensures DigitRun(s, min, max) <==> min <= |s| <= max && AllDigits(s)
  {
    if s != [] && max > 0 {
      DigitRunIff(s[1..], if min > 0 then min - 1 else 0, max - 1);
      if AllDigits(s) {
        assert AllDigits(s[1..]) by {
          forall i | 0 <= i < |s[1..]| ensures IsDigit(s[1..][i]) {
            assert s[1..][i] == s[i + 1];
          }
        }
      }
      if IsDigit(s[0]) && AllDigits(s[1..]) {
        forall i | 0 <= i < |s| ensures IsDigit(s[i]) {
          if i > 0 { assert s[i] == s[1..][i - 1]; }
        }
      }
    }
  }

  /** One declaration of a pattern constraint: the pattern it checks and its message. */
  datatype Rule = Rule(matches: string -> bool, message: string)

  /**
   * Validating a value against the declarations on one element: `null` passes
   * every declaration; otherwise each declaration the value does not match adds
   * exactly one violation, its own message.
   */
  function Violations(rules: seq<Rule>, value: Option<string>): (msgs: seq<string>)
    ensures |msgs| <= |rules|
    ensures value.None? ==> msgs == []
    ensures msgs == [] <==> value.None? || forall k :: 0 <= k < |rules| ==> rules[k].matches(value.value)
  {
    if rules == [] || value.None? then []
    else
      var rest := Violations(rules[1..], value);
      assert (forall k :: 0 <= k < |rules| ==> rules[k].matches(value.value)) <==>
             rules[0].matches(value.value) && forall k :: 0 <= k < |rules[1..]| ==> rules[1..][k].matches(value.value) by {
        if forall k :: 0 <= k < |rules[1..]| ==> rules[1..][k].matches(value.value) {
          assert forall k :: 1 <= k < |rules| ==> rules[k] == rules[1..][k - 1];
        }
      }
      if rules[0].matches(value.value) then rest else [rules[0].message] + rest
  }

  /** The positions, from `from` on, of the declarations that `s` fails, in order. */
  ghost function FailingPositions(rules: seq<Rule>, s: string, from: nat): (ks: seq<nat>)
    requires from <= |rules|
    ensures forall i :: 0 <= i < |ks| ==> from <= ks[i] < |rules|
    decreases |rules| - from
  {
    if from == |rules| then []
    else if rules[from].matches(s) then FailingPositions(rules, s, from + 1)
    else [from] + FailingPositions(rules, s, from + 1)
  }

  /**
   * `FailingPositions` lists every declaration from `from` on that `s` fails, and
   * only those, in increasing order: these facts determine the sequence uniquely.
   */
  lemma {:induction false} FailingPositionsEnumerate(rules: seq<Rule>, s: string, from: nat)
    requires from <= |rules|
    ensures var ks := FailingPositions(rules, s, from);
            (forall i :: 0 <= i < |ks| ==> !rules[ks[i]].matches(s)) &&
            (forall i, j :: 0 <= i < j < |ks| ==> ks[i] < ks[j]) &&
            (forall k :: from <= k < |rules| && !rules[k].matches(s) ==> k in ks)
    decreases |rules| - from
  {
    if from < |rules| {
      FailingPositionsEnumerate(rules, s, from + 1);
    }
  }

  /** The messages of the declarations at the given positions, in that order. */
  function MessagesAt(rules: seq<Rule>, ks: seq<nat>): (msgs: seq<string>)
    requires forall i :: 0 <= i < |ks| ==> ks[i] < |rules|
    ensures |msgs| == |ks| && forall i :: 0 <= i < |ks| ==> msgs[i] == rules[ks[i]].message
  {
    seq(|ks|, i requires 0 <= i < |ks| => rules[ks[i]].message)
  }

  /** One step of `Violations`: the first declaration's verdict, then the others'. */
  lemma ViolationsStep(rules: seq<Rule>, s: string)
    requires rules != []
    ensures Violations(rules, Some(s)) ==
            (if rules[0].matches(s) then [] else [rules[0].message]) + Violations(rules[1..], Some(s))
  {
  }

  /** `ViolationsStep` on the declarations from position `from` on. */
  lemma ViolationsSuffixStep(rules: seq<Rule>, s: string, from: nat)
    requires from < |rules|
    ensures Violations(rules[from..], Some(s)) ==
            (if rules[from].matches(s) then [] else [rules[from].message]) + Violations(rules[from + 1..], Some(s))
  {
    ViolationsStep(rules[from..], s);
    assert rules[from..][0] == rules[from] && rules[from..][1..] == rules[from + 1..];
  }

  /** One step of `FailingPositions`. */
  lemma FailingPositionsStep(rules: seq<Rule>, s: string, from: nat)
    requires from < |rules|
    ensures FailingPositions(rules, s, from) ==
            (if rules[from].matches(s) then [] else [from]) + FailingPositions(rules, s, from + 1)
  {
  }

  /** `MessagesAt` distributes over concatenation of position sequences. */
  lemma MessagesAtAppend(rules: seq<Rule>, a: seq<nat>, b: seq<nat>)
    requires forall i :: 0 <= i < |a| ==> a[i] < |rules|
    requires forall i :: 0 <= i < |b| ==> b[i] < |rules|
    ensures MessagesAt(rules, a + b) == MessagesAt(rules, a) + MessagesAt(rules, b)
  {
    assert forall i :: 0 <= i < |a + b| ==> (a + b)[i] < |rules|;
  }

  /**
   * The violations reported for a non-null value are exactly the messages of the
   * declarations it fails, one per failing declaration, listed in declaration order
   * (an order the model chooses: the validation engine reports an unordered set).
   */
  lemma {:induction false} ViolationsAreFailingMessages(rules: seq<Rule>, s: string, from: nat)
    requires from <= |rules|
    ensures Violations(rules[from..], Some(s)) == MessagesAt(rules, FailingPositions(rules, s, from))
    decreases |rules| - from
  {
    if from < |rules| {
      ViolationsAreFailingMessages(rules, s, from + 1);
      ViolationsSuffixStep(rules, s, from);
      FailingPositionsStep(rules, s, from);
      if !rules[from].matches(s) {
        MessagesAtAppend(rules, [from], FailingPositions(rules, s, from + 1));
      }
    }
  }

  /**
   * On a whole element: the violations are the messages of the failing
   * declarations, listed in declaration order (the model's choice of order).
   */
  lemma ViolationsInDeclarationOrder(rules: seq<Rule>, s: string)
    ensures Violations(rules, Some(s)) == MessagesAt(rules, FailingPositions(rules, s, 0))
  {
    ViolationsAreFailingMessages(rules, s, 0);
    assert rules[0..] == rules;
  }

  /** A single declaration: no violation, or exactly its own message. */
  lemma SingleRule(rule: Rule, s: string)
    ensures Violations([rule], Some(s)) == if rule.matches(s) then [] else [rule.message]
  {
    assert [rule][1..] == [];
  }
}
