/** `validateInput` of src/web/auth/validate.go: the check of the register
    form. Every field is checked, with no early return, and each failing
    check writes its message into the caller's `RegisterMessage`; a later
    check of the same field overwrites an earlier one. */
module AuthForms {
  import opened FormValidation

  /** `messages.RegisterMessage`: the message shown beside each field of the
      register form. */
  class RegisterMessage {
    var username: string
    var email: string
    var password: string

    constructor ()
      ensures username == "" && email == "" && password == ""
    {
      username := "";
      email := "";
      password := "";
    }
  }

  /** The messages `validateInput` writes. */
  const NameMissing: string := "Must enter a valid username"
  const NameInvalid: string := "Username " + NameRule
  const PasswordMismatch: string := "Passwords don't match"
  const PasswordMissing: string := "Must enter a password"
  const EmailMissing: string := "Must enter an email address"
  const EmailInvalid: string := "Must enter a valid email address"

  /** validate.go:9-46. A blank username or email is reported with the
      message of the pattern check, which is made later; a blank password
      is reported as missing even when the two passwords differ. A field
      whose checks pass keeps its message. */
  method ValidateInput(username: string, p1: string, p2: string, email: string, msg: RegisterMessage)
      returns (valid: bool)
    modifies msg
    ensures valid <==> NameShape(username) && p1 == p2 && !Blank(p1) && !Blank(email) &&
                       exists at, dot :: EmailAt(email, at, dot)
    ensures msg.username == if NameShape(username) then old(msg.username) else NameInvalid
    ensures msg.password == if Blank(p1) then PasswordMissing
                            else if p1 != p2 then PasswordMismatch
                            else old(msg.password)
    ensures msg.email == if exists at, dot :: EmailAt(email, at, dot) then old(msg.email)
                         else EmailInvalid
  {
    FieldChecks(username, p1, email);
    valid := true;
    if TrimSpace(username) == "" {
      msg.username := NameMissing;
      valid := false;
    }
    if p1 != p2 {
      msg.password := PasswordMismatch;
      valid := false;
    }
    if TrimSpace(p1) == "" {
      msg.password := PasswordMissing;
      valid := false;
    }
    if TrimSpace(email) == "" {
      msg.email := EmailMissing;
      valid := false;
    }
    if !NamePattern(username) {
      msg.username := NameInvalid;
      valid := false;
    }
    if !EmailPattern(email) {
      msg.email := EmailInvalid;
      valid := false;
    }
  }

  /** What each check of `ValidateInput` decides. */
  lemma FieldChecks(username: string, p1: string, email: string)
    ensures TrimSpace(username) == "" ==> !NameShape(username)
    ensures NamePattern(username) <==> NameShape(username)
    ensures TrimSpace(p1) == "" <==> Blank(p1)
    ensures TrimSpace(email) == "" ==> !EmailPattern(email)
    ensures EmailPattern(email) <==> !Blank(email) && exists at, dot :: EmailAt(email, at, dot)
  {
    TrimSpaceEmpty(username);
    TrimSpaceEmpty(p1);
    TrimSpaceEmpty(email);
    NamePatternIff(username);
    EmailPatternIff(email);
    if Blank(username) {
      BlankIsNoName(username);
    }
  }
}
