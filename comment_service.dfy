/** The comment service (src/services/commentService.ts): adding a comment,
    voting on it, crediting points to a profile with a transaction log, and
    following a record. The three backend tables are the fields of `Backend`;
    the session user and each backend failure are parameters of the methods. */
module CommentService {
  import opened Types
  import opened Seqs
  import opened Text
  import opened Votes

  // ---------------------------------------------------------------------------
  // Comments

  function UpvotesOf(row: CommentRow): seq<string> { row.upvotes.GetOr([]) }
  function DownvotesOf(row: CommentRow): seq<string> { row.downvotes.GetOr([]) }

  /** The Comment handed back to the caller after an insert or an update:
      null lists read as empty, and a consistent row yields a comment whose
      score is its list difference. */
  function ToComment(id: string, row: CommentRow): (c: Comment)
    ensures c.id == id && c.content == row.content && c.parentId == row.parentId
    ensures c.recordId == row.recordId && c.recordType == row.recordType
    ensures c.createdBy == row.createdBy && c.lastModifiedBy == row.lastModifiedBy
    ensures c.upvotes == UpvotesOf(row) && c.downvotes == DownvotesOf(row)
    ensures row.upvotes.None? ==> c.upvotes == []
    ensures row.downvotes.None? ==> c.downvotes == []
    ensures c.score == NumberOrZero(row.score)
    ensures RowConsistent(row) ==> c.score == |c.upvotes| - |c.downvotes|
  {
    Comment(id, row.content, row.recordId, row.recordType, row.parentId,
            row.createdBy, row.lastModifiedBy,
            UpvotesOf(row), DownvotesOf(row), NumberOrZero(row.score))
  }

  /** A stored comment whose score is derived from its lists, and whose lists
      are sets with no id in both. */
  ghost predicate RowConsistent(row: CommentRow) {
    && NumberOrZero(row.score) == |UpvotesOf(row)| - |DownvotesOf(row)|
    && WellFormed(UpvotesOf(row), DownvotesOf(row))
  }

  /** The row `addComment` inserts. */
  function NewCommentRow(content: string, recordId: string, recordType: EntityType,
                         parentId: Option<string>, author: string): (row: CommentRow)
    ensures RowConsistent(row) && UpvotesOf(row) == [] && DownvotesOf(row) == []
    ensures row.parentId.None? <==> parentId.None? || parentId == Some("")
    ensures row.createdBy == author && row.lastModifiedBy == author
  {
    CommentRow(content, recordId, recordType, NonEmptyOrNull(parentId), author, author,
               Some([]), Some([]), Some(0))
  }

  /** A new comment starts with no votes, score 0, no parent when the parent id
      was absent or empty, and the author as creator and last modifier. */
  lemma NewCommentIsEmpty(id: string, content: string, recordId: string, recordType: EntityType,
                          parentId: Option<string>, author: string)
    ensures var row := NewCommentRow(content, recordId, recordType, parentId, author);
      var c := ToComment(id, row);
      && RowConsistent(row)
      && c.id == id && c.content == content && c.recordId == recordId && c.recordType == recordType
      && c.upvotes == [] && c.downvotes == [] && c.score == 0
      && (c.parentId.None? <==> parentId.None? || parentId == Some(""))
      && (c.parentId.Some? ==> c.parentId == parentId)
      && c.createdBy == author && c.lastModifiedBy == author
  {
  }

  /** The row `voteOnComment` writes back: the cast's lists, the score
      recomputed from them, and the voter as last modifier. */
  function VotedRow(row: CommentRow, voter: string, direction: Direction): (r: CommentRow)
    ensures var cast := CastVote(UpvotesOf(row), DownvotesOf(row), voter, direction);
      UpvotesOf(r) == cast.upvotes && DownvotesOf(r) == cast.downvotes
    ensures NumberOrZero(r.score) == |UpvotesOf(r)| - |DownvotesOf(r)|
    ensures r.content == row.content && r.recordId == row.recordId && r.recordType == row.recordType
    ensures r.parentId == row.parentId && r.createdBy == row.createdBy && r.lastModifiedBy == voter
  {
    var cast := CastVote(UpvotesOf(row), DownvotesOf(row), voter, direction);
    row.(upvotes := Some(cast.upvotes), downvotes := Some(cast.downvotes),
         score := Some(|cast.upvotes| - |cast.downvotes|), lastModifiedBy := voter)
  }

  /** Voting keeps a consistent comment consistent, and its stored score moves
      by exactly the (never zero) point change credited to the author. */
  lemma VoteKeepsRowConsistent(row: CommentRow, voter: string, direction: Direction)
    requires RowConsistent(row)
    ensures var cast := CastVote(UpvotesOf(row), DownvotesOf(row), voter, direction);
      && RowConsistent(VotedRow(row, voter, direction))
      && NumberOrZero(VotedRow(row, voter, direction).score) == NumberOrZero(row.score) + cast.pointChange
      && cast.pointChange != 0
  {
    CastPreservesWellFormed(UpvotesOf(row), DownvotesOf(row), voter, direction);
    ScoreMovesByPointChange(UpvotesOf(row), DownvotesOf(row), voter, direction);
  }

  /** The reason logged with a vote's points: it follows the direction cast,
      not the sign of the change. */
  function ReasonFor(direction: Direction): (r: string)
    ensures r == "Upvote Received" <==> direction == Up
    ensures r == "Downvote Received" <==> direction == Down
  {
    assert "Upvote Received"[0] != "Downvote Received"[0];
    match direction
    case Up => "Upvote Received"
    case Down => "Downvote Received"
  }

  // ---------------------------------------------------------------------------
  // The points ledger

  /** `points || 0` of a profile; 0 for a user without a profile. */
  function Balance(profiles: map<string, ProfileRow>, u: string): int {
    if u in profiles then NumberOrZero(profiles[u].points) else 0
  }

  /** The sum of the logged transactions of user `u`. */
  function SumFor(transactions: seq<PointTransaction>, u: string): int {
    if transactions == [] then 0
    else (if transactions[0].userId == u then transactions[0].points else 0) + SumFor(transactions[1..], u)
  }

  lemma {:induction false} SumForAppend(transactions: seq<PointTransaction>, t: PointTransaction, u: string)
    ensures SumFor(transactions + [t], u) == SumFor(transactions, u) + (if t.userId == u then t.points else 0)
  {
    if transactions != [] {
      assert (transactions + [t])[1..] == transactions[1..] + [t];
      SumForAppend(transactions[1..], t, u);
    }
  }

  /** How far a user's balance is from the sum of their logged transactions. */
  function Drift(profiles: map<string, ProfileRow>, transactions: seq<PointTransaction>, u: string): int {
    Balance(profiles, u) - SumFor(transactions, u)
  }

  /** Every balance is the sum of its user's transactions. */
  ghost predicate LedgerConsistent(profiles: map<string, ProfileRow>, transactions: seq<PointTransaction>) {
    forall u :: Drift(profiles, transactions, u) == 0
  }

  datatype LedgerStep = LedgerStep(outcome: Outcome, profiles: map<string, ProfileRow>,
                                   transactions: seq<PointTransaction>)

  /** `updateUserPoints` on the tables: fetch the profile, write
      `(points || 0) + delta`, then log one transaction; a failed log is only
      reported on the console. */
  function PointsUpdate(profiles: map<string, ProfileRow>, transactions: seq<PointTransaction>,
                        userId: string, delta: int, reason: string, writeOk: bool, logOk: bool): (r: LedgerStep)
    ensures r.outcome == Fail(RowNotFound) <==> userId !in profiles
    ensures r.outcome.Pass? <==> userId in profiles && writeOk
    ensures r.outcome == Fail(WriteFailed) <==> userId in profiles && !writeOk
    ensures r.outcome.Fail? ==> r.profiles == profiles && r.transactions == transactions
    ensures r.outcome.Pass? ==>
      && r.profiles.Keys == profiles.Keys
      && Balance(r.profiles, userId) == Balance(profiles, userId) + delta
      && r.profiles[userId] == profiles[userId].(points := r.profiles[userId].points)
      && (forall u | u in profiles && u != userId :: r.profiles[u] == profiles[u])
    ensures r.transactions ==
      transactions + (if r.outcome.Pass? && logOk then [PointTransaction(userId, delta, reason)] else [])
  {
    if userId !in profiles then LedgerStep(Fail(RowNotFound), profiles, transactions)
    else
      var newPoints := NumberOrZero(profiles[userId].points) + delta;
      if !writeOk then LedgerStep(Fail(WriteFailed), profiles, transactions)
      else
        var profiles' := profiles[userId := profiles[userId].(points := Some(newPoints))];
        LedgerStep(Pass, profiles', if logOk then transactions + [PointTransaction(userId, delta, reason)] else transactions)
  }

  /** Crediting keeps every user's drift, except that a credit whose log
      insert failed leaves the credited user `delta` ahead of the log. */
  lemma PointsUpdateDrift(profiles: map<string, ProfileRow>, transactions: seq<PointTransaction>,
                          userId: string, delta: int, reason: string, writeOk: bool, logOk: bool, u: string)
    ensures var r := PointsUpdate(profiles, transactions, userId, delta, reason, writeOk, logOk);
      Drift(r.profiles, r.transactions, u)
        == Drift(profiles, transactions, u) + (if u == userId && r.outcome.Pass? && !logOk then delta else 0)
  {
    var r := PointsUpdate(profiles, transactions, userId, delta, reason, writeOk, logOk);
    if r.outcome.Pass? && logOk {
      SumForAppend(transactions, PointTransaction(userId, delta, reason), u);
    }
  }

  /** With the log insert succeeding, a consistent ledger stays consistent. */
  lemma PointsUpdateKeepsLedger(profiles: map<string, ProfileRow>, transactions: seq<PointTransaction>,
                                userId: string, delta: int, reason: string, writeOk: bool)
    requires LedgerConsistent(profiles, transactions)
    ensures var r := PointsUpdate(profiles, transactions, userId, delta, reason, writeOk, true);
      LedgerConsistent(r.profiles, r.transactions)
  {
    var r := PointsUpdate(profiles, transactions, userId, delta, reason, writeOk, true);
    forall u ensures Drift(r.profiles, r.transactions, u) == 0 {
      PointsUpdateDrift(profiles, transactions, userId, delta, reason, writeOk, true, u);
    }
  }

  // ---------------------------------------------------------------------------
  // Following

  /** The following list after `followRecord(recordId, follow)`. */
  function FollowList(following: seq<string>, recordId: string, follow: bool): (r: seq<string>)
    ensures forall x | x != recordId :: multiset(r)[x] == multiset(following)[x]
    ensures follow ==> recordId in r && |r| >= |following| && r[..|following|] == following
    ensures follow && recordId in following ==> r == following
    ensures !follow ==> recordId !in r
  {
    if follow then
      if recordId !in following then following + [recordId] else following
    else Without(following, recordId)
  }

  /** Following (or unfollowing) twice is the same as once. */
  lemma FollowIdempotent(following: seq<string>, recordId: string, follow: bool)
    ensures FollowList(FollowList(following, recordId, follow), recordId, follow)
         == FollowList(following, recordId, follow)
  {
    if !follow {
      WithoutAbsent(FollowList(following, recordId, follow), recordId);
    }
  }

  /** Unfollowing undoes following a record that was not followed. */
  lemma FollowThenUnfollow(following: seq<string>, recordId: string)
    requires recordId !in following
    ensures FollowList(FollowList(following, recordId, true), recordId, false) == following
  {
    AppendThenWithout(following, recordId);
  }

  /** A following list without duplicates keeps none. */
  lemma FollowKeepsNoDup(following: seq<string>, recordId: string, follow: bool)
    requires NoDup(following)
    ensures NoDup(FollowList(following, recordId, follow))
  {
    var r := FollowList(following, recordId, follow);
    forall x ensures multiset(r)[x] <= 1 {
      if x == recordId && follow && recordId !in following {
        assert r == following + [recordId];
      }
    }
  }

  // ---------------------------------------------------------------------------
  // The service over the three tables

  class Backend {
    var comments: map<string, CommentRow>
    var profiles: map<string, ProfileRow>
    var transactions: seq<PointTransaction>

    constructor (profiles0: map<string, ProfileRow>)
      ensures comments == map[] && profiles == profiles0 && transactions == []
    {
      comments, profiles, transactions := map[], profiles0, [];
    }

    /** Every stored comment is consistent. */
    ghost predicate VotesConsistent()
      reads this
    {
      forall id | id in comments :: RowConsistent(comments[id])
    }

    /** `updateUserPoints(userId, delta, reason)`. */
    method UpdateUserPoints(userId: string, delta: int, reason: string, writeOk: bool, logOk: bool)
      returns (res: Outcome)
      modifies this
      ensures comments == old(comments)
      ensures LedgerStep(res, profiles, transactions)
           == PointsUpdate(old(profiles), old(transactions), userId, delta, reason, writeOk, logOk)
    {
      if userId !in profiles {
        return Fail(RowNotFound);
      }
      var profile := profiles[userId];
      var currentPoints := NumberOrZero(profile.points);
      var newPoints := currentPoints + delta;
      if !writeOk {
        return Fail(WriteFailed);
      }
      profiles := profiles[userId := profile.(points := Some(newPoints))];
      if logOk {
        transactions := transactions + [PointTransaction(userId, delta, reason)];
      }
      res := Pass;
    }

    /** `addComment(content, recordId, recordType, parentId)` by the session
        user; `newId` is the id the backend assigns to the insert. */
    method AddComment(session: Option<string>, content: string, recordId: string, recordType: EntityType,
                      parentId: Option<string>, newId: string,
                      insertOk: bool, creditWriteOk: bool, creditLogOk: bool)
      returns (res: Result<Comment>)
      modifies this
      ensures session.None? ==> res == Failure(Unauthenticated)
      ensures session.Some? && Blank(content) ==> res == Failure(EmptyContent)
      ensures session.None? || Blank(content) || !insertOk || newId in old(comments) ==>
        comments == old(comments) && profiles == old(profiles) && transactions == old(transactions)
      ensures session.Some? && !Blank(content) && (!insertOk || newId in old(comments)) ==>
        res == Failure(WriteFailed)
      ensures session.Some? && !Blank(content) && insertOk && newId !in old(comments) ==>
        var row := NewCommentRow(content, recordId, recordType, parentId, session.value);
        var step := PointsUpdate(old(profiles), old(transactions), session.value, 1, "Add Comment",
                                 creditWriteOk, creditLogOk);
        && comments == old(comments)[newId := row]
        && profiles == step.profiles && transactions == step.transactions
        && res == (if step.outcome.Pass? then Success(ToComment(newId, row)) else Failure(step.outcome.error))
      ensures old(VotesConsistent()) ==> VotesConsistent()
    {
      TrimEmptyIffBlank(content);
      if session.None? {
        return Failure(Unauthenticated);
      }
      var user := session.value;
      if Trim(content) == [] {
        return Failure(EmptyContent);
      }
      var newComment := NewCommentRow(content, recordId, recordType, parentId, user);
      if !insertOk || newId in comments {
        return Failure(WriteFailed);
      }
      NewCommentIsEmpty(newId, content, recordId, recordType, parentId, user);
      comments := comments[newId := newComment];
      var credited := UpdateUserPoints(user, 1, "Add Comment", creditWriteOk, creditLogOk);
      if credited.Fail? {
        return Failure(credited.error);
      }
      res := Success(ToComment(newId, newComment));
    }

    /** `voteOnComment(commentId, direction)` by the session user. */
    method VoteOnComment(session: Option<string>, commentId: string, direction: Direction,
                         writeOk: bool, creditWriteOk: bool, creditLogOk: bool)
      returns (res: Result<Comment>)
      modifies this
      ensures session.None? ==> res == Failure(Unauthenticated)
      ensures session.Some? && commentId !in old(comments) ==> res == Failure(RowNotFound)
      ensures session.Some? && commentId in old(comments) && !writeOk ==> res == Failure(WriteFailed)
      ensures session.None? || commentId !in old(comments) || !writeOk ==>
        comments == old(comments) && profiles == old(profiles) && transactions == old(transactions)
      ensures session.Some? && commentId in old(comments) && writeOk ==>
        var voter := session.value;
        var row := old(comments)[commentId];
        var cast := CastVote(UpvotesOf(row), DownvotesOf(row), voter, direction);
        var updated := VotedRow(row, voter, direction);
        && comments == old(comments)[commentId := updated]
        && if row.createdBy != voter then
             var step := PointsUpdate(old(profiles), old(transactions), row.createdBy, cast.pointChange,
                                      ReasonFor(direction), creditWriteOk, creditLogOk);
             && profiles == step.profiles && transactions == step.transactions
             && res == (if step.outcome.Pass? then Success(ToComment(commentId, updated))
                        else Failure(step.outcome.error))
           else
             // a self-vote moves the score but credits nobody
             && profiles == old(profiles) && transactions == old(transactions)
             && res == Success(ToComment(commentId, updated))
      ensures old(VotesConsistent()) ==> VotesConsistent()
    {
      if session.None? {
        return Failure(Unauthenticated);
      }
      var userId := session.value;
      if commentId !in comments {
        return Failure(RowNotFound);
      }
      var comment := comments[commentId];
      var cast := CastVote(UpvotesOf(comment), DownvotesOf(comment), userId, direction);
      var newScore := |cast.upvotes| - |cast.downvotes|;
      if !writeOk {
        return Failure(WriteFailed);
      }
      if RowConsistent(comment) {
        VoteKeepsRowConsistent(comment, userId, direction);
      }
      var updated := comment.(upvotes := Some(cast.upvotes), downvotes := Some(cast.downvotes),
                              score := Some(newScore), lastModifiedBy := userId);
      assert updated == VotedRow(comment, userId, direction);
      comments := comments[commentId := updated];
      if comment.createdBy != userId && cast.pointChange != 0 {
        var credited := UpdateUserPoints(comment.createdBy, cast.pointChange,
                                         if direction == Up then "Upvote Received" else "Downvote Received",
                                         creditWriteOk, creditLogOk);
        if credited.Fail? {
          return Failure(credited.error);
        }
      }
      res := Success(ToComment(commentId, updated));
    }

    /** `followRecord(recordId, follow)` by the session user. */
    method FollowRecord(session: Option<string>, recordId: string, follow: bool, writeOk: bool)
      returns (res: Outcome)
      modifies this
      ensures comments == old(comments) && transactions == old(transactions)
      ensures session.None? ==> res == Fail(Unauthenticated)
      ensures session.Some? && session.value !in old(profiles) ==> res == Fail(RowNotFound)
      ensures session.Some? && session.value in old(profiles) && !writeOk ==> res == Fail(WriteFailed)
      ensures res.Fail? ==> profiles == old(profiles)
      ensures session.Some? && session.value in old(profiles) && writeOk ==>
        var profile := old(profiles)[session.value];
        && res == Pass
        && profiles == old(profiles)[session.value :=
             profile.(following := Some(FollowList(profile.following.GetOr([]), recordId, follow)))]
    {
      if session.None? {
        return Fail(Unauthenticated);
      }
      var userId := session.value;
      if userId !in profiles {
        return Fail(RowNotFound);
      }
      var profile := profiles[userId];
      var following := profile.following.GetOr([]);
      if follow {
        if recordId !in following {
          following := following + [recordId];
        }
      } else {
        following := Without(following, recordId);
      }
      if !writeOk {
        return Fail(WriteFailed);
      }
      profiles := profiles[userId := profile.(following := Some(following))];
      res := Pass;
    }
  }

  /** The profiles and the comment row of the scenario below. */
  function ProfileA(points: Option<int>): ProfileRow {
    ProfileRow("a@example.com", None, "corporate", points, None, None, None)
  }

  function ProfileB(): ProfileRow {
    ProfileRow("b@example.com", None, "corporate", None, None, None, None)
  }

  function ScenarioRow(up: seq<string>, down: seq<string>, score: int, modifiedBy: string): CommentRow {
    CommentRow("First!", "rec", Company, None, "A", modifiedBy, Some(up), Some(down), Some(score))
  }

  /** Author A comments, then B upvotes the comment and swaps to a
      downvote, with every backend call succeeding: the lists and scores
      after each vote, the log, and A's balance (+1, +1, then -2). */
  method VoteSwapScenario() returns (first: Result<Comment>, second: Result<Comment>,
                                     log: seq<PointTransaction>, balanceA: int)
    ensures first.Success? && first.value.upvotes == ["B"] && first.value.downvotes == []
    ensures first.value.score == 1
    ensures second.Success? && second.value.upvotes == [] && second.value.downvotes == ["B"]
    ensures second.value.score == -1
    ensures log == [PointTransaction("A", 1, "Add Comment"), PointTransaction("A", 1, "Upvote Received"),
                    PointTransaction("A", -2, "Downvote Received")]
    ensures balanceA == 0
  {
    var backend := new Backend(map["A" := ProfileA(None), "B" := ProfileB()]);
    ScenarioComment(backend);
    first := ScenarioUpvote(backend);
    second := ScenarioSwap(backend);
    log := backend.transactions;
    balanceA := Balance(backend.profiles, "A");
  }

  method ScenarioComment(backend: Backend)
    requires backend.comments == map[] && backend.transactions == []
    requires backend.profiles == map["A" := ProfileA(None), "B" := ProfileB()]
    modifies backend
    ensures backend.comments == map["c1" := ScenarioRow([], [], 0, "A")]
    ensures backend.profiles == map["A" := ProfileA(Some(1)), "B" := ProfileB()]
    ensures backend.transactions == [PointTransaction("A", 1, "Add Comment")]
  {
    assert !Blank("First!") by {
      assert !IsJsWhitespace("First!"[0]);
    }
    var added := backend.AddComment(Some("A"), "First!", "rec", Company, None, "c1", true, true, true);
  }

  method ScenarioUpvote(backend: Backend) returns (res: Result<Comment>)
    requires backend.comments == map["c1" := ScenarioRow([], [], 0, "A")]
    requires backend.profiles == map["A" := ProfileA(Some(1)), "B" := ProfileB()]
    requires backend.transactions == [PointTransaction("A", 1, "Add Comment")]
    modifies backend
    ensures res == Success(ToComment("c1", ScenarioRow(["B"], [], 1, "B")))
    ensures backend.comments == map["c1" := ScenarioRow(["B"], [], 1, "B")]
    ensures backend.profiles == map["A" := ProfileA(Some(2)), "B" := ProfileB()]
    ensures backend.transactions == [PointTransaction("A", 1, "Add Comment"), PointTransaction("A", 1, "Upvote Received")]
  {
    var row := ScenarioRow([], [], 0, "A");
    assert UpvotesOf(row) == [] && DownvotesOf(row) == [] && row.createdBy != "B";
    assert CastVote([], [], "B", Up) == Cast(["B"], [], 1);
    assert VotedRow(ScenarioRow([], [], 0, "A"), "B", Up) == ScenarioRow(["B"], [], 1, "B");
    assert PointsUpdate(backend.profiles, backend.transactions, "A", 1, ReasonFor(Up), true, true)
        == LedgerStep(Pass, map["A" := ProfileA(Some(2)), "B" := ProfileB()],
                      backend.transactions + [PointTransaction("A", 1, "Upvote Received")]);
    res := backend.VoteOnComment(Some("B"), "c1", Up, true, true, true);
  }

  method ScenarioSwap(backend: Backend) returns (res: Result<Comment>)
    requires backend.comments == map["c1" := ScenarioRow(["B"], [], 1, "B")]
    requires backend.profiles == map["A" := ProfileA(Some(2)), "B" := ProfileB()]
    requires backend.transactions == [PointTransaction("A", 1, "Add Comment"), PointTransaction("A", 1, "Upvote Received")]
    modifies backend
    ensures res == Success(ToComment("c1", ScenarioRow([], ["B"], -1, "B")))
    ensures backend.profiles == map["A" := ProfileA(Some(0)), "B" := ProfileB()]
    ensures backend.transactions == [PointTransaction("A", 1, "Add Comment"), PointTransaction("A", 1, "Upvote Received"),
                                     PointTransaction("A", -2, "Downvote Received")]
  {
    assert Without(["B"], "B") == [] by {
      AppendThenWithout([], "B");
    }
    assert CastVote(["B"], [], "B", Down) == Cast([], ["B"], -2);
    assert VotedRow(ScenarioRow(["B"], [], 1, "B"), "B", Down) == ScenarioRow([], ["B"], -1, "B");
    assert PointsUpdate(backend.profiles, backend.transactions, "A", -2, ReasonFor(Down), true, true)
        == LedgerStep(Pass, map["A" := ProfileA(Some(0)), "B" := ProfileB()],
                      backend.transactions + [PointTransaction("A", -2, "Downvote Received")]);
    res := backend.VoteOnComment(Some("B"), "c1", Down, true, true, true);
  }
}
