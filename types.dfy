/** The entities of the client (src/types/index.ts) and the rows of the
    three backend tables it reads and writes (src/integrations/supabase/types.ts),
    with the `||` defaults the code applies to nullable columns. */
module Types {

  datatype Option<+T> = None | Some(value: T) {
    /** `x || d` on a nullable column whose non-null values are never falsy (arrays). */
    function GetOr(default: T): (r: T)
      ensures Some? ==> r == value
      ensures None? ==> r == default
    {
      match this
      case Some(v) => v
      case None => default
    }
  }

  /** The three roles; `RoleValue` is the enum's string value. */
  datatype Role = Distributor | Corporate | Administrator

  function RoleValue(r: Role): string {
    match r
    case Distributor => "distributor"
    case Corporate => "corporate"
    case Administrator => "administrator"
  }

  datatype EntityType = Company | Hospital | UserRecord | Contact | Physician

  /** A comment as the client sees it (the Comment interface; timestamps left out). */
  datatype Comment = Comment(
    id: string,
    content: string,
    recordId: string,
    recordType: EntityType,
    parentId: Option<string>,
    createdBy: string,
    lastModifiedBy: string,
    upvotes: seq<string>,
    downvotes: seq<string>,
    score: int)

  /** A row of the `comments` table: the vote lists and the score are nullable. */
  datatype CommentRow = CommentRow(
    content: string,
    recordId: string,
    recordType: EntityType,
    parentId: Option<string>,
    createdBy: string,
    lastModifiedBy: string,
    upvotes: Option<seq<string>>,
    downvotes: Option<seq<string>>,
    score: Option<int>)

  /** A row of the `profiles` table: name, points and following are nullable. */
  datatype ProfileRow = ProfileRow(
    email: string,
    name: Option<string>,
    role: string,
    points: Option<int>,
    following: Option<seq<string>>,
    createdBy: Option<string>,
    lastModifiedBy: Option<string>)

  /** A user as the client sees it (the User interface; timestamps and avatar left out). */
  datatype User = User(
    id: string,
    email: string,
    name: string,
    role: Role,
    points: int,
    following: seq<string>,
    createdBy: Option<string>,
    lastModifiedBy: Option<string>)

  /** A row of `point_transactions`. */
  datatype PointTransaction = PointTransaction(userId: string, points: int, reason: string)

  /** `n || 0` on a nullable number: null and 0 both give 0. */
  function NumberOrZero(n: Option<int>): (r: int)
    ensures r == 0 <==> n.None? || n == Some(0)
    ensures r != 0 ==> n == Some(r)
  {
    if n.Some? then n.value else 0
  }

  /** `s || null` on an optional string: undefined and "" both give null. */
  function NonEmptyOrNull(s: Option<string>): (r: Option<string>)
    ensures r.None? <==> s.None? || s == Some("")
    ensures r.Some? ==> r == s
  {
    if s.Some? && s.value != "" then s else None
  }

  /** Why an operation of the comment service throws. */
  datatype Error =
    | Unauthenticated   // no session user
    | EmptyContent      // the comment text trims to ""
    | RowNotFound       // `.single()` found no row
    | WriteFailed       // an insert or update was rejected by the backend

  datatype Result<+T> = Success(value: T) | Failure(error: Error)

  datatype Outcome = Pass | Fail(error: Error)
}
