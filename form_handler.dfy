/** The contact form's validators (`FormHandler.validateName`, `FormHandler.validateEmail`) and
    the gate that the submit button applies before sending. The styling that `showError` and
    `showSuccess` apply to the page is reduced to the feedback each field receives. */
module FormHandler {
  import opened JsText

  const AtSign: CodeUnit := 0x40
  const FullStop: CodeUnit := 0x2E

  const NameMessage := "Name must be at least 2 characters"
  const EmailMessage := "Please enter a valid email"

  /** A code unit the class `[^\s@]` matches. */
  predicate IsTokenUnit(c: CodeUnit) {
    !IsWhiteSpace(c) && c != AtSign
  }

  predicate AllTokenUnits(s: JsString) {
    forall i :: 0 <= i < |s| ==> IsTokenUnit(s[i])
  }

  /** A string the pattern `[^\s@]+` matches in full. */
  predicate IsToken(s: JsString) {
    |s| > 0 && AllTokenUnits(s)
  }

  /** The language of `^[^\s@]+@[^\s@]+\.[^\s@]+$`, read off the pattern: three tokens joined by
      an at sign and a full stop. */
  ghost predicate MatchesEmailPattern(s: JsString) {
    exists l, a, b :: IsToken(l) && IsToken(a) && IsToken(b) && s == l + [AtSign] + a + [FullStop] + b
  }

  /** Position of the first at sign in `s`, or `|s|` when there is none. */
  function IndexOfAt(s: JsString): (k: nat)
    ensures k <= |s|
    ensures forall i :: 0 <= i < k ==> s[i] != AtSign
    ensures k < |s| ==> s[k] == AtSign
  {
    if s == [] then 0
    else if s[0] == AtSign then 0
    else 1 + IndexOfAt(s[1..])
  }

  /** A full stop that is neither the first nor the last code unit of `d`. */
  predicate HasInnerFullStop(d: JsString) {
    exists k :: 1 <= k < |d| - 1 && d[k] == FullStop
  }

  /** A matcher for the email pattern: split at the first at sign, then require a non-empty
      local part, a domain free of white space and at signs, and a full stop inside the domain. */
  predicate MatchEmail(s: JsString) {
    var k := IndexOfAt(s);
    0 < k < |s| && AllTokenUnits(s[..k]) && AllTokenUnits(s[k + 1..]) && HasInnerFullStop(s[k + 1..])
  }

  /** The matcher accepts exactly the language of the regular expression. */
  lemma MatchEmailIffPattern(s: JsString)
    ensures MatchEmail(s) <==> MatchesEmailPattern(s)
  {
    if MatchEmail(s) {
      MatchEmailSound(s);
    }
    if MatchesEmailPattern(s) {
      var l, a, b :| IsToken(l) && IsToken(a) && IsToken(b) && s == l + [AtSign] + a + [FullStop] + b;
      MatchEmailComplete(l, a, b);
    }
  }

  lemma MatchEmailSound(s: JsString)
    requires MatchEmail(s)
    ensures MatchesEmailPattern(s)
  {
    var k := IndexOfAt(s);
    var l, d := s[..k], s[k + 1..];
    var j :| 1 <= j < |d| - 1 && d[j] == FullStop;
    var a, b := SplitDomain(d, j);
    assert s == l + [AtSign] + d;
    assert s == l + [AtSign] + a + [FullStop] + b;
    assert IsToken(l);
  }

  /** A domain cut at an inner full stop leaves two tokens. */
  lemma SplitDomain(d: JsString, j: nat) returns (a: JsString, b: JsString)
    requires AllTokenUnits(d) && 1 <= j < |d| - 1 && d[j] == FullStop
    ensures IsToken(a) && IsToken(b) && d == a + [FullStop] + b
  {
    a, b := d[..j], d[j + 1..];
    forall i | 0 <= i < |a| ensures IsTokenUnit(a[i]) {
      assert a[i] == d[i];
    }
    forall i | 0 <= i < |b| ensures IsTokenUnit(b[i]) {
      assert b[i] == d[j + 1 + i];
    }
    assert d == a + [FullStop] + b;
  }

  lemma MatchEmailComplete(l: JsString, a: JsString, b: JsString)
    requires IsToken(l) && IsToken(a) && IsToken(b)
    ensures MatchEmail(l + [AtSign] + a + [FullStop] + b)
  {
    var s := l + [AtSign] + a + [FullStop] + b;
    var d := a + [FullStop] + b;
    assert s == l + [AtSign] + d;
    AtSignIsFirst(l, d);
    assert s[..|l|] == l && s[|l| + 1..] == d;
    assert d[|a|] == FullStop;
    forall i | 0 <= i < |d| ensures IsTokenUnit(d[i]) {
      if i < |a| { assert d[i] == a[i]; }
      else if i > |a| { assert d[i] == b[i - |a| - 1]; }
    }
  }

  lemma {:induction false} AtSignIsFirst(l: JsString, d: JsString)
    requires AllTokenUnits(l)
    ensures IndexOfAt(l + [AtSign] + d) == |l|
  {
    var s := l + [AtSign] + d;
    if l != [] {
      assert s[1..] == l[1..] + [AtSign] + d;
      AtSignIsFirst(l[1..], d);
    }
  }

  /** An accepted address holds exactly one at sign, and the part after it has a full stop that
      is neither its first nor its last code unit. */
  lemma MatchedAddressShape(s: JsString)
    requires MatchEmail(s)
    ensures exists k :: 0 < k < |s| - 1 && s[k] == AtSign && HasInnerFullStop(s[k + 1..])
    ensures forall i, j :: 0 <= i < |s| && 0 <= j < |s| && s[i] == AtSign && s[j] == AtSign ==> i == j
  {
    var k := IndexOfAt(s);
    assert s[k] == AtSign;
    forall i | 0 <= i < |s| && s[i] == AtSign ensures i == k {
    }
  }

  /** `validateName`: the trimmed value holds at least two code units. */
  predicate ValidateName(value: JsString) {
    |Trim(value)| >= 2
  }

  /** `validateEmail`: the trimmed value matches the email pattern. */
  predicate ValidateEmail(value: JsString) {
    MatchEmail(Trim(value))
  }

  /** For a value padded with white space around a trimmed core, `validateName` judges the core:
      it passes exactly when the core is two code units or longer. */
  lemma ValidateNameOfPadded(a: JsString, m: JsString, b: JsString)
    requires AllWhiteSpace(a) && AllWhiteSpace(b) && Trimmed(m)
    ensures ValidateName(a + m + b) <==> |m| >= 2
  {
    TrimOf(a, m, b);
  }

  /** For a value padded with white space around a trimmed core, `validateEmail` passes exactly
      when the core is in the language of the email pattern. */
  lemma ValidateEmailOfPadded(a: JsString, m: JsString, b: JsString)
    requires AllWhiteSpace(a) && AllWhiteSpace(b) && Trimmed(m)
    ensures ValidateEmail(a + m + b) <==> MatchesEmailPattern(m)
  {
    TrimOf(a, m, b);
    MatchEmailIffPattern(m);
  }

  /** `length` counts code units: one character outside the Basic Multilingual Plane is two
      code units long and passes `validateName` on its own. */
  lemma OneAstralCharacterIsLongEnough(c: char)
    requires c as int >= 0x1_0000
    ensures ValidateName(SurrogatePair(c))
  {
    TrimOfTrimmed(SurrogatePair(c));
  }

  /** The shortest addresses: one code unit in each of the three parts. */
  lemma ShortestAddress(x: CodeUnit, y: CodeUnit, z: CodeUnit)
    requires IsTokenUnit(x) && IsTokenUnit(y) && IsTokenUnit(z)
    ensures MatchEmail([x, AtSign, y, FullStop, z])
  {
    MatchEmailComplete([x], [y], [z]);
    assert [x] + [AtSign] + [y] + [FullStop] + [z] == [x, AtSign, y, FullStop, z];
  }

  /** A value with surrounding white space is trimmed before it is matched: " a@b.c\n" and
      every other one-unit address between two white-space code units is accepted. */
  lemma PaddedShortestAddress(x: CodeUnit, y: CodeUnit, z: CodeUnit, before: CodeUnit, after: CodeUnit)
    requires IsTokenUnit(x) && IsTokenUnit(y) && IsTokenUnit(z)
    requires IsWhiteSpace(before) && IsWhiteSpace(after)
    ensures ValidateEmail([before, x, AtSign, y, FullStop, z, after])
  {
    var core: JsString := [x, AtSign, y, FullStop, z];
    var s: JsString := [before, x, AtSign, y, FullStop, z, after];
    assert s == [before] + core + [after];
    TrimOf([before], core, [after]);
    assert Trim(s) == core;
    ShortestAddress(x, y, z);
  }

  /** `[^\s@]` matches a full stop, so a domain may hold several: "a@b.c.d". */
  lemma SeveralFullStopsAreAccepted()
    ensures ValidateEmail([0x61, 0x40, 0x62, 0x2E, 0x63, 0x2E, 0x64])
  {
    var s: JsString := [0x61, 0x40, 0x62, 0x2E, 0x63, 0x2E, 0x64];
    var domain: JsString := [0x62, FullStop, 0x63];
    assert IsToken(domain) by {
      assert domain[0] == 0x62 && domain[1] == FullStop && domain[2] == 0x63;
    }
    MatchEmailComplete([0x61], domain, [0x64]);
    assert [0x61] + [AtSign] + domain + [FullStop] + [0x64] == s;
    TrimOfTrimmed(s);
  }

  /** A full stop that ends the domain does not count: "a@b.". */
  lemma TrailingFullStopIsRejected()
    ensures !ValidateEmail([0x61, 0x40, 0x62, 0x2E])
  {
    var s: JsString := [0x61, 0x40, 0x62, 0x2E];
    TrimOfTrimmed(s);
    assert IndexOfAt(s) == 1;
    assert s[2..] == [0x62, 0x2E];
  }

  /** A second at sign is rejected: "a@@b.c". */
  lemma SecondAtSignIsRejected()
    ensures !ValidateEmail([0x61, 0x40, 0x40, 0x62, 0x2E, 0x63])
  {
    var s: JsString := [0x61, 0x40, 0x40, 0x62, 0x2E, 0x63];
    TrimOfTrimmed(s);
    assert IndexOfAt(s) == 1;
    assert s[2..][0] == AtSign;
  }

  /** What a field shows after it is validated: the success styling or an error message. */
  datatype Feedback = Accepted | Rejected(message: string)

  function NameFeedback(value: JsString): (f: Feedback)
    ensures f.Accepted? <==> ValidateName(value)
    ensures f.Rejected? ==> f.message == NameMessage
  {
    if ValidateName(value) then Accepted else Rejected(NameMessage)
  }

  function EmailFeedback(value: JsString): (f: Feedback)
    ensures f.Accepted? <==> ValidateEmail(value)
    ensures f.Rejected? ==> f.message == EmailMessage
  {
    if ValidateEmail(value) then Accepted else Rejected(EmailMessage)
  }

  /** The result of a click on the submit button: the feedback on both fields (both validators
      always run) and whether the form is sent (`submitForm`) rather than the button shaken. */
  datatype Click = Click(name: Feedback, email: Feedback, sent: bool)

  function SubmitClick(name: JsString, email: JsString): (c: Click)
    ensures c.sent <==> c.name.Accepted? && c.email.Accepted?
    ensures c.name == NameFeedback(name) && c.email == EmailFeedback(email)
  {
    var nameValid := ValidateName(name);
    var emailValid := ValidateEmail(email);
    Click(NameFeedback(name), EmailFeedback(email), nameValid && emailValid)
  }

  /** A form that is sent has a trimmed name of two or more code units and a trimmed address
      with exactly one at sign and a full stop strictly inside its domain. */
  lemma SentFormIsWellFormed(name: JsString, email: JsString)
    requires SubmitClick(name, email).sent
    ensures |Trim(name)| >= 2
    ensures MatchesEmailPattern(Trim(email))
    ensures var e := Trim(email);
            forall i, j :: 0 <= i < |e| && 0 <= j < |e| && e[i] == AtSign && e[j] == AtSign ==> i == j
  {
    MatchEmailIffPattern(Trim(email));
    MatchedAddressShape(Trim(email));
  }
}
