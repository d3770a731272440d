/** Identifiers of Daytona runs: a session's identifier, a mark and a number of at
    least six digits. */
module RunIdentifiers {
  import opened Decimal

  function Mark(): string { "-daytona-" }

  function RunId(sessionId: string, n: nat): string { sessionId + Mark() + Padded(n, 6) }

  /** How many digits a string ends in. */
  function DigitTail(s: string): (k: nat)
    ensures k <= |s| && AllDigits(s[|s| - k..])
    ensures k == |s| || !IsDigit(s[|s| - k - 1])
  {
    if s == "" || !IsDigit(s[|s| - 1]) then 0
    else
      var k := DigitTail(s[..|s| - 1]);
      assert s[|s| - 1 - k..] == s[..|s| - 1][|s| - 1 - k..] + [s[|s| - 1]];
      1 + k
  }

  predicate EndsInMark(s: string) { |s| >= |Mark()| && s[|s| - |Mark()|..] == Mark() }

  /** The number in the name of a run, as `/-daytona-(\d+)$/` finds it, and 0 for a name of
      any other form. */
  function RunNumber(id: string): nat {
    var k := DigitTail(id);
    if k > 0 && EndsInMark(id[..|id| - k]) then ValueOf(id[|id| - k..]) else 0
  }

  lemma {:induction false} TailIsDigits(front: string, digits: string)
    requires AllDigits(digits) && (front == "" || !IsDigit(front[|front| - 1]))
    ensures DigitTail(front + digits) == |digits|
  {
    var s := front + digits;
    if digits == "" {
      assert s == front;
    } else {
      assert s[..|s| - 1] == front + digits[..|digits| - 1];
      TailIsDigits(front, digits[..|digits| - 1]);
    }
  }

  lemma MarkEnds(sessionId: string)
    ensures EndsInMark(sessionId + Mark()) && !IsDigit((sessionId + Mark())[|sessionId + Mark()| - 1])
  {
    var s := sessionId + Mark();
    assert s[|s| - |Mark()|..] == Mark();
    assert Mark()[|Mark()| - 1] == '-';
  }

  /** Reading a printed number back gives the number. */
  lemma RunNumberOfRunId(sessionId: string, n: nat)
    ensures RunNumber(RunId(sessionId, n)) == n
  {
    hide Mark, EndsInMark;
    var front, digits := sessionId + Mark(), Padded(n, 6);
    MarkEnds(sessionId);
    TailIsDigits(front, digits);
    assert (front + digits)[..|front|] == front && (front + digits)[|front|..] == digits;
    ValueOfPadded(n, 6);
  }

  /** No two sessions and no two numbers share a name. */
  lemma RunIdInjective(s: string, n: nat, t: string, m: nat)
    requires RunId(s, n) == RunId(t, m)
    ensures s == t && n == m
  {
    hide Mark;
    RunNumberOfRunId(s, n);
    RunNumberOfRunId(t, m);
    assert RunId(s, n)[..|s|] == s && RunId(t, m)[..|t|] == t;
  }

  /** The text of a name: the number in at least six digits, with no zero in front of more
      than six. */
  lemma RunIdText(s: string, n: nat)
    ensures exists digits ::
      && RunId(s, n) == s + "-daytona-" + digits && AllDigits(digits) && |digits| >= 6 && ValueOf(digits) == n
      && (|digits| > 6 ==> digits[0] != '0')
  {
    var digits := Padded(n, 6);
    ValueOfPadded(n, 6);
    LeadingDigit(n);
    assert RunId(s, n) == s + "-daytona-" + digits;
  }

  lemma {:induction false} LeadingDigit(n: nat)
    ensures n > 0 ==> Digits(n)[0] != '0'
  {
    if n >= 10 { LeadingDigit(n / 10); }
  }

  /** A number is read exactly from names that end in the mark and digits. */
  lemma RunNumberExactly(id: string)
    ensures forall front, digits :: id == front + "-daytona-" + digits && digits != "" && AllDigits(digits) ==>
              RunNumber(id) == ValueOf(digits)
    ensures RunNumber(id) > 0 ==>
              exists front, digits :: id == front + "-daytona-" + digits && digits != "" && AllDigits(digits)
  {
    forall front: string, digits: string | id == front + "-daytona-" + digits && digits != "" && AllDigits(digits)
      ensures RunNumber(id) == ValueOf(digits)
    {
      MarkEnds(front);
      assert front + "-daytona-" == front + Mark();
      TailIsDigits(front + Mark(), digits);
      assert id[..|id| - |digits|] == front + Mark() && id[|id| - |digits|..] == digits;
    }
    if RunNumber(id) > 0 {
      var k := DigitTail(id);
      var marked, digits := id[..|id| - k], id[|id| - k..];
      var front := marked[..|marked| - |Mark()|];
      assert marked == front + "-daytona-" && id == marked + digits;
    }
  }
}
