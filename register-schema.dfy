/**
 * The registration form schema of `src/app/user/register/types.ts`: non-empty
 * names and password, an APU id matching `^T[PC]\d{6}$`, and a role of
 * "student" or "teacher". Each failing field yields its own message.
 */
module RegisterSchema {

  const PasswordMessage: string := "Password must contain atleast 8 characters"
  const Roles: seq<string> := ["student", "teacher"]

  /** One position of an anchored regular expression without repetition or alternation of strings. */
  datatype CharClass = Literal(c: char) | OneOf(cs: set<char>) | Digit

  predicate ClassMatches(k: CharClass, c: char) {
    match k
    case Literal(l) => c == l
    case OneOf(cs) => c in cs
    case Digit => '0' <= c <= '9'
  }

  /** `^T[PC]\d{6}$`, one class per character (`\d` is ASCII digits without the `u` flag). */
  const ApuIdPattern: seq<CharClass> :=
    [Literal('T'), OneOf({'P', 'C'}), Digit, Digit, Digit, Digit, Digit, Digit]

  /**
   * The whole string matches the anchored pattern: one character per class,
   * nothing before the first and nothing after the last.
   */
  predicate Matches(pattern: seq<CharClass>, s: string) {
    |s| == |pattern| && forall i :: 0 <= i < |s| ==> ClassMatches(pattern[i], s[i])
  }

  predicate ValidApuId(s: string) {
    Matches(ApuIdPattern, s)
  }

  /** An APU id is accepted exactly when it is 8 characters: 'T', then 'P' or 'C', then six ASCII digits. */
  lemma ApuIdAcceptance(s: string)
    ensures ValidApuId(s) <==>
              |s| == 8 && s[0] == 'T' && (s[1] == 'P' || s[1] == 'C') && forall i :: 2 <= i < 8 ==> '0' <= s[i] <= '9'
  {
    if |s| == 8 && s[0] == 'T' && (s[1] == 'P' || s[1] == 'C') && forall i :: 2 <= i < 8 ==> '0' <= s[i] <= '9' {
      forall i | 0 <= i < |s| ensures ClassMatches(ApuIdPattern[i], s[i]) {
      }
    }
    if ValidApuId(s) {
      assert ClassMatches(ApuIdPattern[0], s[0]) && ClassMatches(ApuIdPattern[1], s[1]);
      forall i | 2 <= i < 8 ensures '0' <= s[i] <= '9' {
        assert ClassMatches(ApuIdPattern[i], s[i]);
      }
    }
  }

  /** The form as submitted; `email` is not validated in this model. */
  datatype RegisterForm = RegisterForm(
    firstName: string, lastName: string, apuId: string, email: string, password: string, role: string)

  /** A failed field and its message. */
  datatype Issue = Issue(field: string, message: string)

  function CheckField(ok: bool, field: string, message: string): (r: seq<Issue>)
    ensures r == [] <==> ok
    ensures forall x :: x in r <==> !ok && x == Issue(field, message)
  {
    if ok then [] else [Issue(field, message)]
  }

  /** The fields `registerSchema` checks, in order. */
  const CheckedFields: seq<string> := ["firstName", "lastName", "apuId", "password", "role"]

  /** The issues `registerSchema` reports: at most one per checked field, in field order. */
  function Validate(form: RegisterForm): (issues: seq<Issue>)
    ensures |issues| <= |CheckedFields|
    ensures forall k :: 0 <= k < |issues| ==> issues[k].field in CheckedFields
    ensures forall k, l :: 0 <= k < l < |issues| ==> issues[k].field != issues[l].field
  {
    var a := CheckField(|form.firstName| >= 1, "firstName", "Please enter your first name");
    var b := CheckField(|form.lastName| >= 1, "lastName", "Please enter your last name");
    var c := CheckField(ValidApuId(form.apuId), "apuId", "Please enter a valid TP number");
    var d := CheckField(|form.password| >= 1, "password", PasswordMessage);
    var e := CheckField(form.role in Roles, "role", "Please select an option");
    var issues := a + b + c + d + e;
    assert FieldGroups([a, b, c, d, e]);
    FieldsInOrder(issues, [a, b, c, d, e]);
    issues
  }

  /** The issue groups `Validate` concatenates, one per checked field. */
  predicate FieldGroups(groups: seq<seq<Issue>>) {
    && |groups| == |CheckedFields|
    && (forall g :: 0 <= g < |groups| ==> |groups[g]| <= 1)
    && (forall g, k :: 0 <= g < |groups| && 0 <= k < |groups[g]| ==> groups[g][k].field == CheckedFields[g])
  }

  /** No two checked fields share a name. */
  lemma CheckedFieldsDistinct()
    ensures forall g, h :: 0 <= g < h < |CheckedFields| ==> CheckedFields[g] != CheckedFields[h]
  {
    assert CheckedFields[0][0] == 'f' && CheckedFields[1][0] == 'l' && CheckedFields[2][0] == 'a';
    assert CheckedFields[3][0] == 'p' && CheckedFields[4][0] == 'r';
  }

  /**
   * Concatenated groups: every issue names a checked field, no two name the
   * same, and an issue for field `g` can only come from group `g`.
   */
  lemma FieldsInOrder(issues: seq<Issue>, groups: seq<seq<Issue>>)
    requires FieldGroups(groups)
    requires issues == groups[0] + groups[1] + groups[2] + groups[3] + groups[4]
    ensures |issues| <= |CheckedFields|
    ensures forall k :: 0 <= k < |issues| ==> issues[k].field in CheckedFields
    ensures forall k, l :: 0 <= k < l < |issues| ==> issues[k].field != issues[l].field
    ensures forall x: Issue, g :: 0 <= g < |groups| && x.field == CheckedFields[g] ==> (x in issues <==> x in groups[g])
  {
    CheckedFieldsDistinct();
    forall x: Issue, h | 0 <= h < |groups| && x in groups[h] ensures x.field == CheckedFields[h] {
      var k :| 0 <= k < |groups[h]| && groups[h][k] == x;
    }
  }

  /**
   * A form passes exactly when both names and the password are non-empty, the
   * APU id matches and the role is "student" or "teacher"; each field has an
   * issue exactly when it fails. The password issue, whose message asks for
   * eight characters, arises only for the empty password.
   */
  lemma ValidateSpec(form: RegisterForm)
    ensures Validate(form) == [] <==>
              form.firstName != "" && form.lastName != "" && ValidApuId(form.apuId)
              && form.password != "" && (form.role == "student" || form.role == "teacher")
    ensures Issue("firstName", "Please enter your first name") in Validate(form) <==> form.firstName == ""
    ensures Issue("lastName", "Please enter your last name") in Validate(form) <==> form.lastName == ""
    ensures Issue("apuId", "Please enter a valid TP number") in Validate(form) <==> !ValidApuId(form.apuId)
    ensures Issue("password", PasswordMessage) in Validate(form) <==> form.password == ""
    ensures Issue("role", "Please select an option") in Validate(form) <==> form.role != "student" && form.role != "teacher"
  {
    var a := CheckField(|form.firstName| >= 1, "firstName", "Please enter your first name");
    var b := CheckField(|form.lastName| >= 1, "lastName", "Please enter your last name");
    var c := CheckField(ValidApuId(form.apuId), "apuId", "Please enter a valid TP number");
    var d := CheckField(|form.password| >= 1, "password", PasswordMessage);
    var e := CheckField(form.role in Roles, "role", "Please select an option");
    assert Validate(form) == a + b + c + d + e;
    assert form.role in Roles <==> form.role == "student" || form.role == "teacher";
    var groups := [a, b, c, d, e];
    assert FieldGroups(groups);
    FieldsInOrder(Validate(form), groups);
    assert Issue("firstName", "Please enter your first name") in Validate(form) <==> !(|form.firstName| >= 1) by {
      assert groups[0] == a && CheckedFields[0] == "firstName";
    }
    assert Issue("lastName", "Please enter your last name") in Validate(form) <==> !(|form.lastName| >= 1) by {
      assert groups[1] == b && CheckedFields[1] == "lastName";
    }
    assert Issue("apuId", "Please enter a valid TP number") in Validate(form) <==> !ValidApuId(form.apuId) by {
      assert groups[2] == c && CheckedFields[2] == "apuId";
    }
    assert Issue("password", PasswordMessage) in Validate(form) <==> !(|form.password| >= 1) by {
      assert groups[3] == d && CheckedFields[3] == "password";
    }
    assert Issue("role", "Please select an option") in Validate(form) <==> form.role !in Roles by {
      assert groups[4] == e && CheckedFields[4] == "role";
    }
  }

  /** A lower-case prefix, a short id and a wrong second letter all fail the APU id pattern. */
  lemma ApuIdRejections()
    ensures !ValidApuId("tp012345") && !ValidApuId("TP01234") && !ValidApuId("TX012345")
  {
    ApuIdAcceptance("tp012345");
    ApuIdAcceptance("TP01234");
    ApuIdAcceptance("TX012345");
  }
}
