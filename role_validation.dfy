/**
 * The @Role constraint: a string is valid when it is null or names one of the allowed roles,
 * ignoring case.
 */
module RoleValidation {
  import opened Common
  import opened Text
  import opened Roles

  /** The default of Role.anyOf(). */
  const DefaultAnyOf: seq<UserRole> := [Admin, User, PremiumUser]

  /** Some allowed role has a name equal to the value when case is ignored. */
  predicate AnyNameMatches(enumValues: seq<UserRole>, value: string)
    ensures AnyNameMatches(enumValues, value) <==>
      exists i :: 0 <= i < |enumValues| && EqualsIgnoreCase(enumValues[i].Name(), value)
  {
    if enumValues == [] then false
    else EqualsIgnoreCase(enumValues[0].Name(), value) || AnyNameMatches(enumValues[1..], value)
  }

  /** The validator: initialize stores the annotation's anyOf, isValid checks a value against it. */
  class RoleValidator {
    var enumValues: seq<UserRole>

    constructor ()
      ensures enumValues == []
    {
      enumValues := [];
    }

    /** Stores the roles that the annotation allows. */
    method Initialize(anyOf: seq<UserRole>)
      modifies this
      ensures enumValues == anyOf
    {
      enumValues := anyOf;
    }

    /** isValid(value, context), with None for a null value. */
    predicate IsValid(value: Option<string>)
      reads this
    {
      value == None || AnyNameMatches(enumValues, value.value)
    }
  }

  /** The lower-case forms of the three role names. */
  lemma LowerNames()
    ensures Lower(Admin.Name()) == "admin"
    ensures Lower(User.Name()) == "user"
    ensures Lower(PremiumUser.Name()) == "premium_user"
  {
  }

  /** No two role names are equal ignoring case. */
  lemma NamesDistinctIgnoringCase(r: UserRole, s: UserRole)
    requires EqualsIgnoreCase(r.Name(), s.Name())
    ensures r == s
  {
    LowerNames();
  }

  /** A null value is always valid; a non-null one iff some allowed role's name equals it ignoring case. */
  lemma IsValidCharacterised(v: RoleValidator, value: Option<string>)
    ensures value == None ==> v.IsValid(value)
    ensures value.Some? ==>
      (v.IsValid(value) <==> exists r :: r in v.enumValues && EqualsIgnoreCase(r.Name(), value.value))
  {
    if value.Some? && v.IsValid(value) {
      var i :| 0 <= i < |v.enumValues| && EqualsIgnoreCase(v.enumValues[i].Name(), value.value);
      assert v.enumValues[i] in v.enumValues;
    }
  }

  /** A role's own name, in any case, is valid exactly when the role is allowed. */
  lemma NameValidIffAllowed(v: RoleValidator, r: UserRole, value: string)
    requires EqualsIgnoreCase(value, r.Name())
    ensures v.IsValid(Some(value)) <==> r in v.enumValues
  {
    IsValidCharacterised(v, Some(value));
    if v.IsValid(Some(value)) {
      var s :| s in v.enumValues && EqualsIgnoreCase(s.Name(), value);
      NamesDistinctIgnoringCase(r, s);
    }
  }

  /** With the default anyOf, every case variant of ADMIN, USER and PREMIUM_USER is accepted. */
  lemma DefaultAcceptsEveryRole(v: RoleValidator, r: UserRole, value: string)
    requires v.enumValues == DefaultAnyOf
    requires EqualsIgnoreCase(value, r.Name())
    ensures v.IsValid(Some(value))
  {
    NameValidIffAllowed(v, r, value);
  }

  /** A value naming no role is rejected by every configuration. */
  lemma UnknownNameRejected(v: RoleValidator, value: string)
    requires forall r: UserRole :: !EqualsIgnoreCase(value, r.Name())
    ensures !v.IsValid(Some(value))
  {
    IsValidCharacterised(v, Some(value));
  }

  /** The empty string names no role, so it is rejected by every configuration. */
  lemma EmptyRejected(v: RoleValidator)
    ensures !v.IsValid(Some(""))
  {
    forall r: UserRole ensures !EqualsIgnoreCase("", r.Name()) {
      LowerNames();
    }
    UnknownNameRejected(v, "");
  }

  /** Concrete cases: "premium_user" and "Admin" pass the default, "GUEST" does not. */
  lemma DefaultExamples(v: RoleValidator)
    requires v.enumValues == DefaultAnyOf
    ensures v.IsValid(Some("premium_user")) && v.IsValid(Some("Admin")) && v.IsValid(None)
    ensures !v.IsValid(Some("GUEST"))
  {
    LowerNames();
    assert Lower("premium_user") == "premium_user";
    assert Lower("Admin") == "admin";
    DefaultAcceptsEveryRole(v, PremiumUser, "premium_user");
    DefaultAcceptsEveryRole(v, Admin, "Admin");
    assert Lower("GUEST") == "guest";
    UnknownNameRejected(v, "GUEST");
  }
}
