/** The contact-form validation pass of the calculator: four independent
    checks (name, phone, email, course count) whose failures are collected in
    a field-to-message map; the form is valid exactly when that map is empty. */
module Validation {
  import opened Text

  const NameRequired: string := "Name is required"
  const PhoneRequired: string := "Phone number is required"
  const PhoneInvalid: string := "Please enter a valid 10-digit phone number"
  const EmailRequired: string := "Email is required"
  const EmailInvalid: string := "Please enter a valid email address"
  const CoursesRequired: string := "Please select at least one course"

  /** The fields an error can be reported against. */
  const Fields: set<string> := {"name", "phone", "email", "courses"}

  /** `/^\d{10}$/`: exactly ten decimal digits and nothing else, so in
      particular no whitespace. */
  predicate IsTenDigits(s: string): (b: bool)
    ensures b ==> |s| == 10 && NoWhitespace(s)
  {
    |s| == 10 && forall k :: 0 <= k < |s| ==> IsDigit(s[k])
  }

  /** The class `[^\s@]`: neither whitespace nor '@'. */
  predicate IsPlain(c: char) {
    !IsWhitespace(c) && c != '@'
  }

  predicate AllPlain(s: string) {
    forall k :: 0 <= k < |s| ==> IsPlain(s[k])
  }

  /** `/^[^\s@]+@[^\s@]+\.[^\s@]+$/`: a non-empty run of plain characters,
      '@', another non-empty run, '.', and a last non-empty run. The regular
      expression backtracks over every split, so `s` matches when some choice
      of the '@' index `i` and the '.' index `j` does. A match is never
      shorter than "a@b.c" and never starts or ends with whitespace. */
  predicate EmailShape(s: string): (b: bool)
    ensures b ==> 5 <= |s| && !IsWhitespace(s[0]) && !IsWhitespace(s[|s| - 1])
  {
    exists i, j | 0 < i < |s| && i + 1 < j < |s| - 1 ::
      && s[i] == '@' && s[j] == '.'
      && AllPlain(s[..i]) && AllPlain(s[i + 1..j]) && AllPlain(s[j + 1..])
  }

  /** The index of the first `c` in `s` at or after `from`, or `|s|`. */
  function IndexOf(s: string, c: char, from: nat): (i: nat)
    requires from <= |s|
    ensures from <= i <= |s|
    ensures i < |s| ==> s[i] == c
    ensures forall k :: from <= k < i ==> s[k] != c
    decreases |s| - from
  {
    if from == |s| || s[from] == c then from else IndexOf(s, c, from + 1)
  }

  /** The email shape said without a regular expression: no whitespace
      anywhere, an '@' that is not the first character and is the only one,
      and a '.' after it that is neither right after the '@' nor last. Such
      a string has at least five characters and a '@' within it. */
  predicate EmailShapeByParts(s: string): (b: bool)
    ensures b ==> 5 <= |s| && '@' in s
  {
    var i := IndexOf(s, '@', 0);
    && NoWhitespace(s)
    && 0 < i < |s|
    && (forall k :: i < k < |s| ==> s[k] != '@')
    && (exists j :: i + 1 < j < |s| - 1 && s[j] == '.')
  }

  /** Every character of a match other than the '@' and the '.' it was
      split at is plain. */
  lemma PlainOutsideSplit(s: string, i: int, j: int)
    requires 0 < i < |s| && i + 1 < j < |s| - 1
    requires AllPlain(s[..i]) && AllPlain(s[i + 1..j]) && AllPlain(s[j + 1..])
    ensures forall k :: 0 <= k < |s| && k != i && k != j ==> IsPlain(s[k])
  {
    forall k | 0 <= k < |s| && k != i && k != j ensures IsPlain(s[k]) {
      if k < i {
        assert s[k] == s[..i][k];
      } else if k < j {
        assert s[k] == s[i + 1..j][k - i - 1];
      } else {
        assert s[k] == s[j + 1..][k - j - 1];
      }
    }
  }

  /** A match of the regular expression has the shape by parts. */
  lemma EmailShapeOnlyByParts(s: string)
    requires EmailShape(s)
    ensures EmailShapeByParts(s)
  {
    var i, j :| 0 < i < |s| && i + 1 < j < |s| - 1
      && s[i] == '@' && s[j] == '.'
      && AllPlain(s[..i]) && AllPlain(s[i + 1..j]) && AllPlain(s[j + 1..]);
    PlainOutsideSplit(s, i, j);
    assert forall k :: 0 <= k < i ==> s[k] != '@';
    assert IndexOf(s, '@', 0) == i;
  }

  /** A slice whose characters are all plain. */
  lemma AllPlainSlice(s: string, lo: int, hi: int)
    requires 0 <= lo <= hi <= |s|
    requires forall k :: lo <= k < hi ==> IsPlain(s[k])
    ensures AllPlain(s[lo..hi])
  {
    var t := s[lo..hi];
    forall k | 0 <= k < |t| ensures IsPlain(t[k]) {
      assert t[k] == s[lo + k];
    }
  }

  /** A string with the shape by parts matches the regular expression, the
      '@' and the '.' giving the split. */
  lemma EmailShapeFromParts(s: string)
    requires EmailShapeByParts(s)
    ensures EmailShape(s)
  {
    var i := IndexOf(s, '@', 0);
    var j :| i + 1 < j < |s| - 1 && s[j] == '.';
    AllPlainSlice(s, 0, i);
    AllPlainSlice(s, i + 1, j);
    AllPlainSlice(s, j + 1, |s|);
    assert s[..i] == s[0..i] && s[j + 1..] == s[j + 1..|s|];
  }

  /** The regular expression and the description by parts accept the same
      strings. */
  lemma EmailShapeIff(s: string)
    ensures EmailShape(s) <==> EmailShapeByParts(s)
  {
    if EmailShape(s) { EmailShapeOnlyByParts(s); }
    if EmailShapeByParts(s) { EmailShapeFromParts(s); }
  }

  /** `validateForm` on the form's current values, with `selectedCount`
      standing for the number of ticked course boxes. Each field's entry
      depends on that field alone and is stated on the raw input. */
  method ValidateForm(name: string, phone: string, email: string, selectedCount: nat)
    returns (isValid: bool, errors: map<string, string>)
    ensures errors.Keys <= Fields
    ensures isValid <==> errors == map[]
    ensures "name" in errors <==> AllWhitespace(name)
    ensures "name" in errors ==> errors["name"] == NameRequired
    ensures "phone" in errors <==> !IsTenDigits(RemoveWhitespace(phone))
    ensures "phone" in errors ==>
      errors["phone"] == if AllWhitespace(phone) then PhoneRequired else PhoneInvalid
    ensures "email" in errors <==> !EmailShapeByParts(Trim(email))
    ensures "email" in errors ==>
      errors["email"] == if AllWhitespace(email) then EmailRequired else EmailInvalid
    ensures "courses" in errors <==> selectedCount == 0
    ensures "courses" in errors ==> errors["courses"] == CoursesRequired
  {
    isValid := true;
    errors := map[];

    var trimmedName := Trim(name);
    if trimmedName == [] {
      errors := errors["name" := NameRequired];
      isValid := false;
    }

    var trimmedPhone := Trim(phone);
    TrimKeepsContent(phone);
    RemoveWhitespaceEmptyIff(phone);
    if trimmedPhone == [] {
      errors := errors["phone" := PhoneRequired];
      isValid := false;
    } else if !IsTenDigits(RemoveWhitespace(trimmedPhone)) {
      errors := errors["phone" := PhoneInvalid];
      isValid := false;
    }

    var trimmedEmail := Trim(email);
    EmailShapeIff(trimmedEmail);
    if trimmedEmail == [] {
      errors := errors["email" := EmailRequired];
      isValid := false;
    } else if !EmailShape(trimmedEmail) {
      errors := errors["email" := EmailInvalid];
      isValid := false;
    }

    if selectedCount == 0 {
      errors := errors["courses" := CoursesRequired];
      isValid := false;
    }
    if !isValid {
      assert "name" in errors || "phone" in errors || "email" in errors || "courses" in errors;
    }
  }

  /** A bare ten-digit number is accepted as it stands. */
  lemma TenDigitsAccepted(s: string)
    requires IsTenDigits(s)
    ensures IsTenDigits(RemoveWhitespace(s))
  {
    assert NoWhitespace(s);
    RemoveWhitespaceNoop(s);
  }

  /** "0821234567" is accepted. */
  lemma PhoneAcceptsExample()
    ensures IsTenDigits(RemoveWhitespace("0821234567"))
  {
    var s := "0821234567";
    assert IsTenDigits(s);
    TenDigitsAccepted(s);
  }

  /** Spaces between the groups do not count: "082 123 456" has nine digits
      and is rejected. */
  lemma PhoneRejectsExample()
    ensures !IsTenDigits(RemoveWhitespace("082 123 456"))
  {
    var s := "082 123 456";
    var a, b := s[..4], s[4..];
    assert s == a + b;
    RemoveWhitespaceAppend(a, b);
    RemoveWhitespaceDrops(a, 3);
    RemoveWhitespaceDrops(b, 3);
  }

  /** "a@b.com" has the email shape. */
  lemma EmailAcceptsExample()
    ensures EmailShape("a@b.com")
  {
    var s := "a@b.com";
    assert s[..1] == "a" && s[2..3] == "b" && s[4..] == "com";
    assert s[1] == '@' && s[3] == '.';
  }

  /** "a@b" has no '.' after its '@'. */
  lemma EmailRejectsNoDot()
    ensures !EmailShape("a@b")
  {
  }

  /** A second '@' is refused even when a dot follows. */
  lemma EmailRejectsSecondAt()
    ensures !EmailShape("a@b@c.com")
  {
    var s := "a@b@c.com";
    EmailShapeIff(s);
    assert IndexOf(s, '@', 0) == 1;
    assert s[3] == '@';
  }
}
