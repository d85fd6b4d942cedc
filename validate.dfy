/** The form checks of src/web/validate.go, and the string predicates the
    three validators of the web layer share: `strings.TrimSpace`, the name
    pattern `^(?:[0-9a-zA-Z]+-)*[0-9a-zA-Z]+$` and the email pattern
    `.+@.+\..+`, each written out as a predicate and tied to a plainer
    description of the strings it accepts. */
module FormValidation {
  import opened GoValues

  /** `unicode.IsSpace`: the six ASCII spaces, U+0085, U+00A0 and the other
      code points of Unicode's White_Space property. */
  predicate IsSpace(c: char) {
    var n := c as int;
    (9 <= n <= 13) || n == 32 || n == 0x85 || n == 0xA0 || n == 0x1680 ||
    (0x2000 <= n <= 0x200A) || n == 0x2028 || n == 0x2029 || n == 0x202F ||
    n == 0x205F || n == 0x3000
  }

  /** The string is empty or all white space. */
  predicate Blank(s: string) {
    forall i :: 0 <= i < |s| ==> IsSpace(s[i])
  }

  /** The first position at or after `lo` that is not white space, or the
      end of the string. */
  function SpaceEnd(s: string, lo: nat): (i: nat)
    requires lo <= |s|
    ensures lo <= i <= |s| && (i < |s| ==> !IsSpace(s[i]))
    ensures forall k :: lo <= k < i ==> IsSpace(s[k])
    decreases |s| - lo
  {
    if lo < |s| && IsSpace(s[lo]) then SpaceEnd(s, lo + 1) else lo
  }

  /** The position just after the last character before `hi` that is not
      white space, or `lo` when there is none from `lo` on. */
  function ContentEnd(s: string, lo: nat, hi: nat): (j: nat)
    requires lo <= hi <= |s|
    ensures lo <= j <= hi && (j > lo ==> !IsSpace(s[j - 1]))
    ensures forall k :: j <= k < hi ==> IsSpace(s[k])
    decreases hi
  {
    if hi > lo && IsSpace(s[hi - 1]) then ContentEnd(s, lo, hi - 1) else hi
  }

  /** `t` is the part of `s` from `i` on, with only white space around it. */
  predicate Surrounded(s: string, t: string, i: int) {
    0 <= i <= |s| - |t| && t == s[i..i + |t|] &&
    (forall k :: 0 <= k < i ==> IsSpace(s[k])) && (forall k :: i + |t| <= k < |s| ==> IsSpace(s[k]))
  }

  /** `strings.TrimSpace`: the string without its leading and trailing white
      space. */
  function TrimSpace(s: string): (t: string)
    ensures t != [] ==> !IsSpace(t[0]) && !IsSpace(t[|t| - 1])
    ensures exists i :: Surrounded(s, t, i)
  {
    var lo := SpaceEnd(s, 0);
    var t := s[lo..ContentEnd(s, lo, |s|)];
    assert Surrounded(s, t, lo);
    t
  }

  /** `strings.TrimSpace(s) == ""` exactly when the string is blank. */
  lemma TrimSpaceEmpty(s: string)
    ensures TrimSpace(s) == "" <==> Blank(s)
  {
    var lo := SpaceEnd(s, 0);
    var hi := ContentEnd(s, lo, |s|);
    if lo < |s| {
      assert !IsSpace(s[lo]);
    }
    if hi > lo {
      assert !IsSpace(s[hi - 1]);
    }
  }

  // The name pattern

  /** `[0-9a-zA-Z]` */
  predicate Alnum(c: char) {
    ('0' <= c <= '9') || ('a' <= c <= 'z') || ('A' <= c <= 'Z')
  }

  predicate AllAlnum(t: string) {
    forall i :: 0 <= i < |t| ==> Alnum(t[i])
  }

  /** A match of `^(?:[0-9a-zA-Z]+-)*[0-9a-zA-Z]+$`: a run of letters and
      digits that ends the string or is followed by a hyphen and another
      match. */
  predicate NamePattern(s: string)
    decreases |s|
  {
    exists k :: 1 <= k <= |s| && AllAlnum(s[..k]) && (k == |s| || (s[k] == '-' && NamePattern(s[k + 1..])))
  }

  /** The strings the name pattern accepts, described plainly: not empty,
      only ASCII letters, digits and hyphens, beginning and ending with a
      letter or digit, and no two hyphens in a row. */
  predicate NameShape(s: string) {
    |s| >= 1 && Alnum(s[0]) && Alnum(s[|s| - 1]) &&
    (forall i :: 0 <= i < |s| ==> Alnum(s[i]) || s[i] == '-') &&
    (forall i :: 0 <= i < |s| - 1 ==> !(s[i] == '-' && s[i + 1] == '-'))
  }

  /** The length of the run of letters and digits the string starts with. */
  function AlnumRun(s: string): (r: nat)
    ensures r <= |s| && AllAlnum(s[..r]) && (r < |s| ==> !Alnum(s[r]))
  {
    if s != [] && Alnum(s[0]) then
      var r := 1 + AlnumRun(s[1..]);
      assert forall i :: 1 <= i < r ==> s[..r][i] == s[1..][..r - 1][i - 1];
      r
    else 0
  }

  /** What the pattern matches has the plain shape. */
  lemma {:induction false} PatternHasShape(s: string)
    requires NamePattern(s)
    ensures NameShape(s)
    decreases |s|
  {
    var k :| 1 <= k <= |s| && AllAlnum(s[..k]) && (k == |s| || (s[k] == '-' && NamePattern(s[k + 1..])));
    assert s[0] == s[..k][0];
    if k == |s| {
      assert s[..k] == s;
    } else {
      var rest := s[k + 1..];
      PatternHasShape(rest);
      assert s[|s| - 1] == rest[|rest| - 1];
      forall i | 0 <= i < |s| ensures Alnum(s[i]) || s[i] == '-' {
        if i < k {
          assert s[..k][i] == s[i];
        } else if i > k {
          assert rest[i - k - 1] == s[i];
        }
      }
      forall i | 0 <= i < |s| - 1 ensures !(s[i] == '-' && s[i + 1] == '-') {
        if i < k {
          assert s[..k][i] == s[i];
        } else if i == k {
          assert rest[0] == s[i + 1];
        } else {
          assert rest[i - k - 1] == s[i] && rest[i - k] == s[i + 1];
        }
      }
    }
  }

  /** Every string of the plain shape matches the pattern. */
  lemma {:induction false} ShapeHasPattern(s: string)
    requires NameShape(s)
    ensures NamePattern(s)
    decreases |s|
  {
    var k := AlnumRun(s);
    if k == |s| {
      assert s[..k] == s;
      assert AllAlnum(s[..k]) && k == |s|;
    } else {
      var rest := s[k + 1..];
      assert s[k] == '-';
      assert k + 1 < |s|;
      assert Alnum(rest[0]) by {
        assert rest[0] == s[k + 1];
      }
      assert rest[|rest| - 1] == s[|s| - 1];
      forall i | 0 <= i < |rest| ensures Alnum(rest[i]) || rest[i] == '-' {
        assert rest[i] == s[k + 1 + i];
      }
      forall i | 0 <= i < |rest| - 1 ensures !(rest[i] == '-' && rest[i + 1] == '-') {
        assert rest[i] == s[k + 1 + i] && rest[i + 1] == s[k + 2 + i];
      }
      ShapeHasPattern(rest);
      assert 1 <= k <= |s| && AllAlnum(s[..k]) && s[k] == '-' && NamePattern(s[k + 1..]);
    }
  }

  lemma NamePatternIff(s: string)
    ensures NamePattern(s) <==> NameShape(s)
  {
    if NamePattern(s) {
      PatternHasShape(s);
    }
    if NameShape(s) {
      ShapeHasPattern(s);
    }
  }

  /** No blank string is a name. */
  lemma BlankIsNoName(s: string)
    requires Blank(s)
    ensures !NamePattern(s)
  {
    NamePatternIff(s);
    if |s| >= 1 {
      assert IsSpace(s[0]);
    }
  }

  // The email pattern

  predicate NoNewline(t: string) {
    forall i :: 0 <= i < |t| ==> t[i] != '\n'
  }

  /** `.+@.+\..+` matches somewhere in the string: the string holds
      `X@Y.Z`, with `X`, `Y` and `Z` not empty and no newline in any of
      them (`.` takes any character but a newline). */
  predicate EmailPattern(s: string) {
    exists lo, at, dot, hi :: 0 <= lo < at && at + 1 < dot && dot + 1 < hi <= |s| &&
      s[at] == '@' && s[dot] == '.' && NoNewline(s[lo..hi])
  }

  /** An `@` at `at` and a `.` at `dot` with at least one character before
      the `@`, between them and after the `.`, and no newline from the
      character before the `@` to the one after the `.`. */
  predicate EmailAt(s: string, at: int, dot: int) {
    1 <= at && at + 1 < dot && dot + 2 <= |s| && s[at] == '@' && s[dot] == '.' &&
    NoNewline(s[at - 1..dot + 2])
  }

  /** The pattern needs only one character of `X` and of `Z`. */
  lemma EmailPatternIff(s: string)
    ensures EmailPattern(s) <==> exists at, dot :: EmailAt(s, at, dot)
  {
    if EmailPattern(s) {
      var lo, at, dot, hi :| 0 <= lo < at && at + 1 < dot && dot + 1 < hi <= |s| &&
        s[at] == '@' && s[dot] == '.' && NoNewline(s[lo..hi]);
      forall i | at - 1 <= i < dot + 2 ensures s[i] != '\n' {
        assert s[i] == s[lo..hi][i - lo];
      }
      assert EmailAt(s, at, dot);
    }
    if exists at, dot :: EmailAt(s, at, dot) {
      var at, dot :| EmailAt(s, at, dot);
      assert 0 <= at - 1 < at && at + 1 < dot && dot + 1 < dot + 2 <= |s| &&
        s[at] == '@' && s[dot] == '.' && NoNewline(s[at - 1..dot + 2]);
    }
  }

  // validate.go

  const NameRule: string := "must only consist of alphanumeric characters and hyphens and cannot start or end with a hyphen"

  /** validate.go:9-19. */
  function ValidateGroupName(name: string): (r: Option<string>)
    ensures r.None? <==> NameShape(name)
    ensures Blank(name) ==> r == Some("Group name cannot be empty")
    ensures !Blank(name) && !NameShape(name) ==> r == Some("Name " + NameRule)
  {
    TrimSpaceEmpty(name);
    NamePatternIff(name);
    if TrimSpace(name) == "" then
      BlankIsNoName(name);
      Some("Group name cannot be empty")
    else if !NamePattern(name) then Some("Name " + NameRule)
    else None
  }

  /** validate.go:21-29: a mismatch is reported before a blank password. */
  function ValidatePassword(password: string, confirm: string): (r: Option<string>)
    ensures r.None? <==> password == confirm && !Blank(password)
    ensures password != confirm ==> r == Some("Passwords don't match")
    ensures password == confirm && Blank(password) ==> r == Some("Password cannot be empty")
  {
    TrimSpaceEmpty(password);
    if password != confirm then Some("Passwords don't match")
    else if TrimSpace(password) == "" then Some("Password cannot be empty")
    else None
  }

  /** validate.go:31-40: the same strings as a group name are accepted. */
  function ValidateUsername(username: string): (r: Option<string>)
    ensures r.None? <==> NameShape(username)
    ensures r.None? <==> ValidateGroupName(username).None?
    ensures Blank(username) ==> r == Some("Username cannot be empty")
    ensures !Blank(username) && !NameShape(username) ==> r == Some("Username " + NameRule)
  {
    TrimSpaceEmpty(username);
    NamePatternIff(username);
    if TrimSpace(username) == "" then
      BlankIsNoName(username);
      Some("Username cannot be empty")
    else if !NamePattern(username) then Some("Username " + NameRule)
    else None
  }

  /** validate.go:42-51. */
  function ValidateEmail(email: string): (r: Option<string>)
    ensures r.None? <==> exists at, dot :: EmailAt(email, at, dot)
    ensures Blank(email) ==> r == Some("Email cannot be empty")
    ensures !Blank(email) && r.Some? ==> r == Some("Invalid email address")
  {
    TrimSpaceEmpty(email);
    EmailPatternIff(email);
    if TrimSpace(email) == "" then
      Some("Email cannot be empty")
    else if !EmailPattern(email) then Some("Invalid email address")
    else None
  }
}
