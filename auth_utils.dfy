/** Role normalisation and the profile-row to User mapping of
    src/utils/authUtils.ts. */
module AuthUtils {
  import opened Types
  import opened Text

  /** `normalizeUserRole(role)`: a case-insensitive match against the three
      enum values, CORPORATE for anything else (and for undefined or ""). */
  function NormalizeUserRole(role: Option<string>): (r: Role)
    ensures role.None? || role == Some("") ==> r == Corporate
    ensures role.Some? ==>
      && (r == Administrator <==> ToLowerAscii(role.value) == "administrator")
      && (r == Distributor <==> ToLowerAscii(role.value) == "distributor")
      && (r == Corporate <==> ToLowerAscii(role.value) != "administrator"
                               && ToLowerAscii(role.value) != "distributor")
  {
    if role.Some? && role.value != "" then
      var normalizedRole := ToLowerAscii(role.value);
      if normalizedRole == ToLowerAscii(RoleValue(Administrator)) then Administrator
      else if normalizedRole == ToLowerAscii(RoleValue(Distributor)) then Distributor
      else if normalizedRole == ToLowerAscii(RoleValue(Corporate)) then Corporate
      else Corporate
    else Corporate
  }

  /** The enum values are already lower case. */
  lemma RoleValueIsLower(r: Role)
    ensures ToLowerAscii(RoleValue(r)) == RoleValue(r)
  {
    ToLowerAsciiFixes(RoleValue(r));
  }

  /** Strings that agree up to ASCII case normalise to the same role. */
  lemma NormalizeIgnoresCase(s: string, t: string)
    requires ToLowerAscii(s) == ToLowerAscii(t)
    ensures NormalizeUserRole(Some(s)) == NormalizeUserRole(Some(t))
  {
  }

  /** Every enum value, in any casing, normalises to itself. */
  lemma NormalizeAnyCasing(r: Role, s: string)
    requires ToLowerAscii(s) == RoleValue(r)
    ensures NormalizeUserRole(Some(s)) == r
  {
  }

  /** Each enum value is a fixpoint, so normalisation is idempotent. */
  lemma NormalizeIdempotent(role: Option<string>)
    ensures NormalizeUserRole(Some(RoleValue(NormalizeUserRole(role)))) == NormalizeUserRole(role)
  {
    RoleValueIsLower(NormalizeUserRole(role));
  }

  /** The User built from a profile row: the requested id, the name or else the
      email, `points || 0`, `following || []`, and the role normalised. */
  function ProfileToUser(userId: string, profile: ProfileRow): (u: User)
    ensures u.id == userId && u.email == profile.email
    ensures u.name == profile.email || (profile.name == Some(u.name) && u.name != "")
    ensures profile.name.Some? && profile.name.value != "" ==> u.name == profile.name.value
    ensures u.points == (if profile.points.Some? then profile.points.value else 0)
    ensures u.following == (if profile.following.Some? then profile.following.value else [])
    ensures u.role == NormalizeUserRole(Some(profile.role))
    ensures NormalizeUserRole(Some(RoleValue(u.role))) == u.role
  {
    NormalizeIdempotent(Some(profile.role));
    var userRole := NormalizeUserRole(Some(profile.role));
    User(userId, profile.email,
         if profile.name.Some? && profile.name.value != "" then profile.name.value else profile.email,
         userRole, NumberOrZero(profile.points), profile.following.GetOr([]),
         profile.createdBy, profile.lastModifiedBy)
  }

  /** What the profile query produced. */
  datatype ProfileQuery =
    | QueryError           // the query returned an error
    | Threw                // an exception escaped the query
    | NoProfile            // no error, but no row
    | Found(row: ProfileRow)

  /** `fetchUserProfile(userId)`: a User exactly when a row was found, null
      (never an exception) otherwise. */
  function FetchUserProfile(userId: string, q: ProfileQuery): (u: Option<User>)
    ensures u.Some? <==> q.Found?
    ensures u.Some? ==> u.value.id == userId && u.value == ProfileToUser(userId, q.row)
  {
    match q
    case QueryError => None
    case Threw => None
    case NoProfile => None
    case Found(row) => Some(ProfileToUser(userId, row))
  }
}
