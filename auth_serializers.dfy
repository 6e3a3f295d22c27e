/** auth_/serializers.py: the display helpers and the validators of the
    registration, password-change and details-change serializers. */
module AuthSerializers {
  import opened Wrappers
  import opened Constants
  import opened AuthModels

  /** UserSerializer.get_full_name: `'{} {}'.format(first_name, last_name)`,
      the same string as `User.__str__`. */
  function FullName(u: User): (s: string)
    ensures s == u.DisplayName()
    ensures |s| == |u.firstName| + 1 + |u.lastName| && s[|u.firstName|] == ' '
  {
    u.firstName + [' '] + u.lastName
  }

  /** `dict(USER_ROLES)`: later pairs override earlier ones with the same
      code. The choice list of `common.constants` is a parameter. */
  function DictOf(choices: seq<(Role, string)>): map<Role, string>
  {
    if choices == [] then map[]
    else DictOf(choices[..|choices| - 1])[choices[|choices| - 1].0 := choices[|choices| - 1].1]
  }

  datatype LookupError = KeyError

  /** UserDetailsSerializer.get_roles: the display name of the user's role
      code; a null role, or a code missing from the choices, raises. */
  /** Every entry of `dict(choices)` comes from one of the pairs. */
  lemma {:induction false} DictOfFromPair(choices: seq<(Role, string)>, c: Role)
    requires c in DictOf(choices)
    ensures exists k :: 0 <= k < |choices| && choices[k] == (c, DictOf(choices)[c])
  {
    var last := |choices| - 1;
    if choices[last].0 != c {
      DictOfFromPair(choices[..last], c);
      var k :| 0 <= k < last && choices[..last][k] == (c, DictOf(choices[..last])[c]);
      assert choices[k] == choices[..last][k];
    }
  }

  function GetRoles(choices: seq<(Role, string)>, role: Option<Role>): (r: Result<string, LookupError>)
    ensures role.None? ==> r == Err(KeyError)
    ensures r.Ok? ==> role.Some? && exists k :: 0 <= k < |choices| && choices[k] == (role.value, r.value)
  {
    if role.Some? && role.value in DictOf(choices) then
      DictOfFromPair(choices, role.value);
      Ok(DictOf(choices)[role.value])
    else Err(KeyError)
  }

  /** The display name found is the one of the LAST pair listing that code,
      and a code listed by no pair raises. */
  lemma {:induction false} GetRolesFindsLastPair(choices: seq<(Role, string)>, role: Role)
    ensures (exists k :: 0 <= k < |choices| && choices[k].0 == role) <==> GetRoles(choices, Some(role)).Ok?
    ensures forall k :: (0 <= k < |choices| && choices[k].0 == role
                         && forall m :: k < m < |choices| ==> choices[m].0 != role)
                        ==> GetRoles(choices, Some(role)) == Ok(choices[k].1)
    ensures GetRoles(choices, None) == Err(KeyError)
  {
    if choices != [] {
      var init := choices[..|choices| - 1];
      GetRolesFindsLastPair(init, role);
      forall k | 0 <= k < |choices| - 1 && init[k].0 == role
        ensures choices[k].0 == role
      {
      }
    }
  }

  datatype ValidationError =
    | NotAllLetters
    | PasswordLengthShort
    | PasswordsNotSame
    | IncorrectPhoneFormat
    | PhoneBlank
    | PhoneTooLong
    | NoCity

  /** The letters `str.isalpha` accepts, restricted here to the Latin and
      the Russian Cyrillic alphabets. */
  predicate IsLetter(c: char)
  {
    || 'a' <= c <= 'z' || 'A' <= c <= 'Z'
    || 'А' <= c <= 'я' || c == 'Ё' || c == 'ё'
  }

  /** `str.isalpha`: non-empty and letters only. */
  function IsAlpha(s: string): (b: bool)
    ensures b <==> |s| > 0 && forall i :: 0 <= i < |s| ==> IsLetter(s[i])
  {
    if |s| == 0 then false
    else if |s| == 1 then IsLetter(s[0])
    else
      var rest := IsAlpha(s[1..]);
      assert forall i :: 1 <= i < |s| ==> s[i] == s[1..][i - 1];
      IsLetter(s[0]) && rest
  }

  /** RegistrationSerializer.validate_first_name: accepted iff non-empty and
      all letters, and then returned unchanged. */
  function ValidateFirstName(value: string): (r: Result<string, ValidationError>)
    ensures r.Ok? <==> |value| > 0 && forall i :: 0 <= i < |value| ==> IsLetter(value[i])
    ensures r.Ok? ==> r.value == value
    ensures r.Err? ==> r.error == NotAllLetters
  {
    if !IsAlpha(value) then Err(NotAllLetters) else Ok(value)
  }

  /** The validated fields of ChangePasswordSerializer. */
  datatype PasswordChange = PasswordChange(password: string, newPassword: string, newPasswordRepeat: string)

  /** ChangePasswordSerializer.validate. */
  function ValidatePasswordChange(attrs: PasswordChange): (r: Result<PasswordChange, ValidationError>)
    ensures r == Ok(attrs) <==> |attrs.newPassword| >= 8 && attrs.newPassword == attrs.newPasswordRepeat
    ensures r.Err? ==> (r.error == PasswordLengthShort <==> |attrs.newPassword| < 8)
    ensures r.Err? ==> (r.error == PasswordsNotSame <==> |attrs.newPassword| >= 8 && attrs.newPassword != attrs.newPasswordRepeat)
  {
    if |attrs.newPassword| < 8 then Err(PasswordLengthShort)
    else if attrs.newPassword != attrs.newPasswordRepeat then Err(PasswordsNotSame)
    else Ok(attrs)
  }

  /** One element of the phone pattern: a single required character class,
      or a literal character followed by `?`. */
  datatype CharClass = Digit | Literal(c: char)
  datatype Atom = One(cls: CharClass) | Optional(c: char)

  /** A pattern is a list of atoms, matched left to right. */
  datatype Pattern = End | Then(atom: Atom, rest: Pattern)

  predicate InClass(cls: CharClass, c: char)
  {
    match cls
    case Digit => '0' <= c <= '9'
    case Literal(l) => c == l
  }

  /** `[+]\d[ ]?[-]?[(]?\d{3}[)]?[ ]?[-]?\d{3}[ ]?[-]?[ ]?\d{2}[ ]?[-]?[ ]?\d{2}`
      written out atom by atom. */
  const PhoneAtoms: seq<Atom> := [
    One(Literal('+')), One(Digit), Optional(' '), Optional('-'), Optional('('),
    One(Digit), One(Digit), One(Digit), Optional(')'), Optional(' '), Optional('-'),
    One(Digit), One(Digit), One(Digit), Optional(' '), Optional('-'), Optional(' '),
    One(Digit), One(Digit), Optional(' '), Optional('-'), Optional(' '),
    One(Digit), One(Digit)]

  /** The phone pattern from its `k`-th atom on. */
  function PhoneFrom(k: nat): Pattern
    decreases |PhoneAtoms| - k
  {
    if k >= |PhoneAtoms| then End else Then(PhoneAtoms[k], PhoneFrom(k + 1))
  }

  const PhonePattern: Pattern := PhoneFrom(0)

  /** Some way of matching the pattern against a prefix of `s` exists (what
      a backtracking matcher decides at one start position). */
  predicate MatchesPrefix(p: Pattern, s: string)
  {
    match p
    case End => true
    case Then(One(cls), rest) => |s| > 0 && InClass(cls, s[0]) && MatchesPrefix(rest, s[1..])
    case Then(Optional(c), rest) => (|s| > 0 && s[0] == c && MatchesPrefix(rest, s[1..])) || MatchesPrefix(rest, s)
  }

  /** `re.search`: the pattern matches at some start position 0 .. |s|. */
  predicate Search(p: Pattern, s: string)
  {
    MatchesPrefix(p, s) || (|s| > 0 && Search(p, s[1..]))
  }

  /** ChangeDetailsSerializer.validate_phone: an empty value passes; any
      other value must contain a match of the phone pattern. */
  function ValidatePhone(value: string): (r: Result<string, ValidationError>)
    ensures value == "" ==> r == Ok(value)
    ensures value != "" ==> (r.Ok? <==> Search(PhonePattern, value))
    ensures r.Ok? ==> r.value == value
    ensures r.Err? ==> r.error == IncorrectPhoneFormat
  {
    if value != "" && !Search(PhonePattern, value) then Err(IncorrectPhoneFormat) else Ok(value)
  }

  /** The number of atoms that must consume a character. */
  function Required(p: Pattern): nat
  {
    match p
    case End => 0
    case Then(a, rest) => (if a.One? then 1 else 0) + Required(rest)
  }

  lemma {:induction false} MatchNeedsRequired(p: Pattern, s: string)
    requires MatchesPrefix(p, s)
    ensures |s| >= Required(p)
  {
    match p
    case End =>
    case Then(One(cls), rest) =>
      MatchNeedsRequired(rest, s[1..]);
    case Then(Optional(c), rest) =>
      if |s| > 0 && s[0] == c && MatchesPrefix(rest, s[1..]) {
        MatchNeedsRequired(rest, s[1..]);
      } else {
        MatchNeedsRequired(rest, s);
      }
  }

  lemma {:induction false} SearchFindsPrefix(p: Pattern, s: string)
    requires Search(p, s)
    ensures exists i :: 0 <= i <= |s| && MatchesPrefix(p, s[i..])
  {
    if MatchesPrefix(p, s) {
      assert s[0..] == s;
    } else {
      SearchFindsPrefix(p, s[1..]);
      var i :| 0 <= i <= |s[1..]| && MatchesPrefix(p, s[1..][i..]);
      assert s[1..][i..] == s[i + 1..];
    }
  }

  /** A pattern that starts with a required literal cannot be found in a
      string that does not hold that literal. */
  lemma {:induction false} SearchNeedsLeadingLiteral(l: char, rest: Pattern, s: string)
    requires l !in s
    ensures !Search(Then(One(Literal(l)), rest), s)
  {
    if |s| > 0 {
      assert l !in s[1..] by {
        forall k | 0 <= k < |s[1..]| ensures s[1..][k] != l {
          assert s[1..][k] == s[k + 1];
        }
      }
      SearchNeedsLeadingLiteral(l, rest, s[1..]);
    }
  }

  /** Twelve atoms of the phone pattern are not optional. */
  lemma PhoneRequired()
    ensures Required(PhonePattern) == 12
  {
    assert Required(PhoneFrom(24)) == 0;
    assert Required(PhoneFrom(23)) == 1;
    assert Required(PhoneFrom(22)) == 2;
    assert Required(PhoneFrom(21)) == 2;
    assert Required(PhoneFrom(20)) == 2;
    assert Required(PhoneFrom(19)) == 2;
    assert Required(PhoneFrom(18)) == 3;
    assert Required(PhoneFrom(17)) == 4;
    assert Required(PhoneFrom(16)) == 4;
    assert Required(PhoneFrom(15)) == 4;
    assert Required(PhoneFrom(14)) == 4;
    assert Required(PhoneFrom(13)) == 5;
    assert Required(PhoneFrom(12)) == 6;
    assert Required(PhoneFrom(11)) == 7;
    assert Required(PhoneFrom(10)) == 7;
    assert Required(PhoneFrom(9)) == 7;
    assert Required(PhoneFrom(8)) == 7;
    assert Required(PhoneFrom(7)) == 8;
    assert Required(PhoneFrom(6)) == 9;
    assert Required(PhoneFrom(5)) == 10;
    assert Required(PhoneFrom(4)) == 10;
    assert Required(PhoneFrom(3)) == 10;
    assert Required(PhoneFrom(2)) == 10;
    assert Required(PhoneFrom(1)) == 11;
    assert Required(PhoneFrom(0)) == 12;
  }

  /** A non-empty phone that passes holds a '+' followed by at least eleven
      more characters. */
  lemma AcceptedPhoneShape(value: string)
    requires value != "" && ValidatePhone(value).Ok?
    ensures |value| >= 12
    ensures exists i :: 0 <= i <= |value| - 12 && value[i] == '+'
  {
    SearchFindsPrefix(PhonePattern, value);
    var i :| 0 <= i <= |value| && MatchesPrefix(PhonePattern, value[i..]);
    PhoneRequired();
    MatchNeedsRequired(PhonePattern, value[i..]);
    assert value[i..][0] == '+';
  }

  /** The pattern from atom 16 on matches the matching tail of "+77011234567" (split into
      steps so that each stays small). */
  lemma PlainPhoneMatchesFrom16(s: string)
    requires s == "+77011234567"
    ensures MatchesPrefix(PhoneFrom(16), s[8..])
  {
    assert MatchesPrefix(PhoneFrom(24), s[12..]);
    assert MatchesPrefix(PhoneFrom(23), s[11..]);
    assert MatchesPrefix(PhoneFrom(22), s[10..]);
    assert MatchesPrefix(PhoneFrom(21), s[10..]);
    assert MatchesPrefix(PhoneFrom(20), s[10..]);
    assert MatchesPrefix(PhoneFrom(19), s[10..]);
    assert MatchesPrefix(PhoneFrom(18), s[9..]);
    assert MatchesPrefix(PhoneFrom(17), s[8..]);
    assert MatchesPrefix(PhoneFrom(16), s[8..]);
  }

  /** The pattern from atom 8 on matches the matching tail of "+77011234567". */
  lemma PlainPhoneMatchesFrom8(s: string)
    requires s == "+77011234567"
    ensures MatchesPrefix(PhoneFrom(8), s[5..])
  {
    PlainPhoneMatchesFrom16(s);
    assert MatchesPrefix(PhoneFrom(15), s[8..]);
    assert MatchesPrefix(PhoneFrom(14), s[8..]);
    assert MatchesPrefix(PhoneFrom(13), s[7..]);
    assert MatchesPrefix(PhoneFrom(12), s[6..]);
    assert MatchesPrefix(PhoneFrom(11), s[5..]);
    assert MatchesPrefix(PhoneFrom(10), s[5..]);
    assert MatchesPrefix(PhoneFrom(9), s[5..]);
    assert MatchesPrefix(PhoneFrom(8), s[5..]);
  }

  /** The pattern from atom 4 on matches the matching tail of "+77011234567". */
  lemma PlainPhoneMatchesFrom4(s: string)
    requires s == "+77011234567"
    ensures MatchesPrefix(PhoneFrom(4), s[2..])
  {
    PlainPhoneMatchesFrom8(s);
    assert MatchesPrefix(PhoneFrom(7), s[4..]);
    assert MatchesPrefix(PhoneFrom(6), s[3..]);
    assert MatchesPrefix(PhoneFrom(5), s[2..]);
    assert MatchesPrefix(PhoneFrom(4), s[2..]);
  }

  /** The pattern from atom 0 on matches the matching tail of "+77011234567". */
  lemma PlainPhoneMatchesFrom0(s: string)
    requires s == "+77011234567"
    ensures MatchesPrefix(PhoneFrom(0), s[0..])
  {
    PlainPhoneMatchesFrom4(s);
    assert MatchesPrefix(PhoneFrom(3), s[2..]);
    assert MatchesPrefix(PhoneFrom(2), s[2..]);
    assert MatchesPrefix(PhoneFrom(1), s[1..]);
    assert MatchesPrefix(PhoneFrom(0), s[0..]);
  }

  /** "+77011234567" passes. */
  lemma PlainPhoneAccepted()
    ensures ValidatePhone("+77011234567").Ok?
  {
    PlainPhoneMatchesFrom0("+77011234567");
    assert "+77011234567"[0..] == "+77011234567";
  }

  /** The pattern from atom 16 on matches the matching tail of "+7 (701) 123-45-67" (split into
      steps so that each stays small). */
  lemma FormattedPhoneMatchesFrom16(s: string)
    requires s == "+7 (701) 123-45-67"
    ensures MatchesPrefix(PhoneFrom(16), s[13..])
  {
    assert MatchesPrefix(PhoneFrom(24), s[18..]);
    assert MatchesPrefix(PhoneFrom(23), s[17..]);
    assert MatchesPrefix(PhoneFrom(22), s[16..]);
    assert MatchesPrefix(PhoneFrom(21), s[16..]);
    assert MatchesPrefix(PhoneFrom(20), s[15..]);
    assert MatchesPrefix(PhoneFrom(19), s[15..]);
    assert MatchesPrefix(PhoneFrom(18), s[14..]);
    assert MatchesPrefix(PhoneFrom(17), s[13..]);
    assert MatchesPrefix(PhoneFrom(16), s[13..]);
  }

  /** The pattern from atom 8 on matches the matching tail of "+7 (701) 123-45-67". */
  lemma FormattedPhoneMatchesFrom8(s: string)
    requires s == "+7 (701) 123-45-67"
    ensures MatchesPrefix(PhoneFrom(8), s[7..])
  {
    FormattedPhoneMatchesFrom16(s);
    assert MatchesPrefix(PhoneFrom(15), s[12..]);
    assert MatchesPrefix(PhoneFrom(14), s[12..]);
    assert MatchesPrefix(PhoneFrom(13), s[11..]);
    assert MatchesPrefix(PhoneFrom(12), s[10..]);
    assert MatchesPrefix(PhoneFrom(11), s[9..]);
    assert MatchesPrefix(PhoneFrom(10), s[9..]);
    assert MatchesPrefix(PhoneFrom(9), s[8..]);
    assert MatchesPrefix(PhoneFrom(8), s[7..]);
  }

  /** The pattern from atom 4 on matches the matching tail of "+7 (701) 123-45-67". */
  lemma FormattedPhoneMatchesFrom4(s: string)
    requires s == "+7 (701) 123-45-67"
    ensures MatchesPrefix(PhoneFrom(4), s[3..])
  {
    FormattedPhoneMatchesFrom8(s);
    assert MatchesPrefix(PhoneFrom(7), s[6..]);
    assert MatchesPrefix(PhoneFrom(6), s[5..]);
    assert MatchesPrefix(PhoneFrom(5), s[4..]);
    assert MatchesPrefix(PhoneFrom(4), s[3..]);
  }

  /** The pattern from atom 0 on matches the matching tail of "+7 (701) 123-45-67". */
  lemma FormattedPhoneMatchesFrom0(s: string)
    requires s == "+7 (701) 123-45-67"
    ensures MatchesPrefix(PhoneFrom(0), s[0..])
  {
    FormattedPhoneMatchesFrom4(s);
    assert MatchesPrefix(PhoneFrom(3), s[3..]);
    assert MatchesPrefix(PhoneFrom(2), s[2..]);
    assert MatchesPrefix(PhoneFrom(1), s[1..]);
    assert MatchesPrefix(PhoneFrom(0), s[0..]);
  }

  /** "+7 (701) 123-45-67" passes. */
  lemma FormattedPhoneAccepted()
    ensures ValidatePhone("+7 (701) 123-45-67").Ok?
  {
    FormattedPhoneMatchesFrom0("+7 (701) 123-45-67");
    assert "+7 (701) 123-45-67"[0..] == "+7 (701) 123-45-67";
  }

  /** The same digits without the leading '+' are refused. */
  lemma PhoneWithoutPlusRefused()
    ensures ValidatePhone("87011234567").Err?
  {
    SearchNeedsLeadingLiteral('+', PhoneFrom(1), "87011234567");
  }
  /** The `phone` field of ChangeDetailsSerializer: the CharField refuses a
      blank value and one longer than `max_length=16` before
      `validate_phone` runs, so the empty value never reaches it. */
  function PhoneField(value: string): (r: Result<string, ValidationError>)
    ensures r.Ok? <==> value != "" && |value| <= 16 && Search(PhonePattern, value)
    ensures r.Ok? ==> r.value == value
    ensures value == "" ==> r == Err(PhoneBlank)
  {
    if value == "" then Err(PhoneBlank)
    else if |value| > 16 then Err(PhoneTooLong)
    else ValidatePhone(value)
  }

  /** The formatted number that `validate_phone` accepts is two characters
      over the field's length limit, so the details form refuses it, while
      the plain number passes the whole field. */
  lemma PhoneFieldLimits()
    ensures PhoneField("+7 (701) 123-45-67") == Err(PhoneTooLong)
    ensures PhoneField("+77011234567") == Ok("+77011234567")
  {
    PlainPhoneAccepted();
  }

  /** ChangeDetailsSerializer.validate_cur_city: the key of an existing
      city, given the number of cities. */
  function ValidateCurCity(value: int, cityCount: nat): (r: Result<nat, ValidationError>)
    ensures r.Ok? <==> 0 <= value < cityCount
    ensures r.Ok? ==> r.value == value
    ensures r.Err? ==> r.error == NoCity
  {
    if 0 <= value < cityCount then Ok(value) else Err(NoCity)
  }
}
