/**
 * The user document: the role enum and its predicates, the `initials`
 * virtual, and the login counter that `updateLastLogin` maintains.
 */
module Users {
  import opened Wrappers

  datatype Role = RegularUser | FacilityOwner | Admin

  const DefaultRole: Role := RegularUser

  function RoleName(r: Role): string
  {
    match r
    case RegularUser => "user"
    case FacilityOwner => "facility_owner"
    case Admin => "admin"
  }

  /** The role enum: exactly the three names are accepted. */
  function ParseRole(name: string): (r: Option<Role>)
    ensures r.Some? ==> RoleName(r.value) == name
  {
    if name == "user" then Some(RegularUser)
    else if name == "facility_owner" then Some(FacilityOwner)
    else if name == "admin" then Some(Admin)
    else None
  }

  lemma RoleNamesRoundTrip(r: Role)
    ensures ParseRole(RoleName(r)) == Some(r)
  {
  }

  /** `split(' ')`: the segments between single spaces; empty segments are kept. */
  function Split(s: string): (r: seq<string>)
    ensures |r| >= 1
    ensures r[0] == [] <==> s == [] || s[0] == ' '
    ensures r[0] != [] ==> r[0][0] == s[0]
  {
    if s == [] then [[]]
    else if s[0] == ' ' then [[]] + Split(s[1..])
    else
      var t := Split(s[1..]);
      [[s[0]] + t[0]] + t[1..]
  }

  /** `map(name => name.charAt(0)).join('')`: an empty segment contributes nothing. */
  function FirstChars(parts: seq<string>): string
  {
    if parts == [] then []
    else (if parts[0] == [] then [] else [parts[0][0]]) + FirstChars(parts[1..])
  }

  /**
   * The reference reading of the first two steps: the characters of `s` that
   * are not spaces and stand at the start or right after a space.
   */
  function WordStarts(s: string, atStart: bool): (r: string)
    ensures forall i :: 0 <= i < |r| ==> r[i] != ' '
  {
    if s == [] then []
    else (if atStart && s[0] != ' ' then [s[0]] else []) + WordStarts(s[1..], s[0] == ' ')
  }

  /** The segments after the first: their first characters are the word starts that follow a space. */
  lemma {:induction false} LaterSegmentsStartWords(s: string)
    ensures FirstChars(Split(s)[1..]) == WordStarts(s, false)
  {
    if s != [] {
      var rest := s[1..];
      LaterSegmentsStartWords(rest);
      var t := Split(rest);
      if s[0] == ' ' {
        assert Split(s)[1..] == t;
        assert FirstChars(t) == (if t[0] == [] then [] else [t[0][0]]) + FirstChars(t[1..]);
      } else {
        assert Split(s)[1..] == t[1..];
      }
    }
  }

  lemma SplitThenFirstCharsIsWordStarts(s: string)
    ensures FirstChars(Split(s)) == WordStarts(s, true)
  {
    LaterSegmentsStartWords(s);
    var parts := Split(s);
    assert FirstChars(parts) == (if parts[0] == [] then [] else [parts[0][0]]) + FirstChars(parts[1..]);
  }

  /** `toUpperCase` on ASCII letters. */
  function Upper(c: char): (u: char)
    ensures c != ' ' ==> u != ' '
  {
    if 'a' <= c <= 'z' then (c as int - 32) as char else c
  }

  function UpperAll(s: string): (r: string)
    ensures |r| == |s|
    ensures forall i :: 0 <= i < |s| ==> r[i] == Upper(s[i])
  {
    if s == [] then [] else [Upper(s[0])] + UpperAll(s[1..])
  }

  /** `slice(0, 2)`. */
  function Take2(s: string): (r: string)
    ensures |r| == if |s| < 2 then |s| else 2
    ensures r == s[..|r|]
  {
    if |s| <= 2 then s else s[..2]
  }

  /**
   * `initials`: at most two characters, the upper-cased first letters of the
   * first two words, never a space.
   */
  function Initials(fullName: string): (r: string)
    ensures |r| <= 2
    ensures r == Take2(UpperAll(WordStarts(fullName, true)))
    ensures forall i :: 0 <= i < |r| ==> r[i] != ' '
  {
    SplitThenFirstCharsIsWordStarts(fullName);
    Take2(UpperAll(FirstChars(Split(fullName))))
  }

  lemma InitialsOfTwoWords()
    ensures Initials("jo li") == "JL"
  {
    assert WordStarts("li", true) == "l";
    assert WordStarts("jo li", true) == "jl";
  }

  /** Only the first two words count. */
  lemma InitialsOfThreeWords()
    ensures Initials("jo el li") == "JE"
  {
    assert WordStarts("li", true) == "l";
    assert WordStarts("el li", true) == "el";
    assert WordStarts("jo el li", true) == "jel";
    assert UpperAll("jel")[..2] == "JE";
  }

  /** Leading and doubled spaces produce empty segments, which contribute nothing. */
  lemma InitialsSkipEmptySegments()
    ensures Initials("  x") == "X"
    ensures Initials("") == ""
  {
    assert WordStarts("  x", true) == "x";
  }

  class User {
    var fullName: string
    var role: string
    var lastLogin: Option<int>
    var loginCount: int
    /** The instants of every login so far, in order. */
    ghost var logins: seq<int>

    /** The role is one of the enum's names, and the counter and last login reflect the logins recorded. */
    ghost predicate Valid()
      reads this
    {
      && ParseRole(role).Some?
      && loginCount == |logins|
      && lastLogin == (if logins == [] then None else Some(logins[|logins| - 1]))
    }

    constructor (fullName: string)
      ensures Valid() && this.fullName == fullName
      ensures role == RoleName(DefaultRole) && loginCount == 0 && lastLogin == None && logins == []
    {
      this.fullName := fullName;
      role := RoleName(DefaultRole);
      lastLogin := None;
      loginCount := 0;
      logins := [];
    }

    /** `updateLastLogin`: stamp the login time and count the login. */
    method UpdateLastLogin(now: int)
      requires Valid()
      modifies this
      ensures Valid()
      ensures lastLogin == Some(now) && loginCount == old(loginCount) + 1
      ensures logins == old(logins) + [now]
      ensures fullName == old(fullName) && role == old(role)
    {
      lastLogin := Some(now);
      loginCount := loginCount + 1;
      logins := logins + [now];
    }

    predicate IsAdmin()
      reads this
    {
      role == "admin"
    }

    predicate IsFacilityOwner()
      reads this
    {
      role == "facility_owner"
    }

    predicate IsUser()
      reads this
    {
      role == "user"
    }

    /** For a role the enum accepts, exactly one of the three predicates holds, and it names that role. */
    lemma ExactlyOneRole()
      requires ParseRole(role).Some?
      ensures IsAdmin() <==> ParseRole(role) == Some(Admin)
      ensures IsFacilityOwner() <==> ParseRole(role) == Some(FacilityOwner)
      ensures IsUser() <==> ParseRole(role) == Some(RegularUser)
      ensures (if IsAdmin() then 1 else 0) + (if IsFacilityOwner() then 1 else 0) + (if IsUser() then 1 else 0) == 1
    {
    }
  }
}
