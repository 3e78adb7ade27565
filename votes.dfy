/** The vote-list computation of `voteOnComment`
    (src/services/commentService.ts:75-119): one voter casts Up or Down on a
    comment's two voter lists; the same direction again withdraws the vote,
    the opposite direction swaps it. */
module Votes {
  import opened Seqs

  datatype Direction = Up | Down

  /** The two new lists and the signed point change `pointChange`. */
  datatype Cast = Cast(upvotes: seq<string>, downvotes: seq<string>, pointChange: int)

  function CastVote(upvotes: seq<string>, downvotes: seq<string>, voter: string, direction: Direction): (c: Cast)
    ensures c.pointChange in {-2, -1, 1, 2}
    // every other user's membership is untouched, occurrence for occurrence
    ensures forall u | u != voter ::
      multiset(c.upvotes)[u] == multiset(upvotes)[u] && multiset(c.downvotes)[u] == multiset(downvotes)[u]
    // the voter ends up in the list of the direction cast iff they were not in it before
    ensures direction == Up ==> (voter in c.upvotes <==> voter !in upvotes)
    ensures direction == Down ==> (voter in c.downvotes <==> voter !in downvotes)
  {
    var hasUpvoted := voter in upvotes;
    var hasDownvoted := voter in downvotes;
    match direction
    case Up =>
      if hasUpvoted then Cast(Without(upvotes, voter), downvotes, -1)
      else if hasDownvoted then Cast(upvotes + [voter], Without(downvotes, voter), 1 + 1)
      else Cast(upvotes + [voter], downvotes, 1)
    case Down =>
      if hasDownvoted then Cast(upvotes, Without(downvotes, voter), 1)
      else if hasUpvoted then Cast(Without(upvotes, voter), downvotes + [voter], -1 - 1)
      else Cast(upvotes, downvotes + [voter], -1)
  }

  /** Where one voter stands on one comment. */
  datatype Standing = NoVote | Upvoted | Downvoted

  function StandingOf(upvotes: seq<string>, downvotes: seq<string>, voter: string): Standing
    requires !(voter in upvotes && voter in downvotes)
  {
    if voter in upvotes then Upvoted else if voter in downvotes then Downvoted else NoVote
  }

  /** The transition table: the new standing ... */
  function Next(s: Standing, d: Direction): Standing {
    match (s, d)
    case (NoVote, Up) => Upvoted
    case (Upvoted, Up) => NoVote
    case (Downvoted, Up) => Upvoted
    case (NoVote, Down) => Downvoted
    case (Downvoted, Down) => NoVote
    case (Upvoted, Down) => Downvoted
  }

  /** ... and the score change it causes. */
  function Delta(s: Standing, d: Direction): int {
    match (s, d)
    case (NoVote, Up) => 1
    case (Upvoted, Up) => -1
    case (Downvoted, Up) => 2
    case (NoVote, Down) => -1
    case (Downvoted, Down) => 1
    case (Upvoted, Down) => -2
  }

  /** A voter in at most one list moves along the table, stays in at most one
      list, and `pointChange` is the table's delta. */
  lemma CastFollowsTable(upvotes: seq<string>, downvotes: seq<string>, voter: string, d: Direction)
    requires !(voter in upvotes && voter in downvotes)
    ensures var c := CastVote(upvotes, downvotes, voter, d);
      && !(voter in c.upvotes && voter in c.downvotes)
      && StandingOf(c.upvotes, c.downvotes, voter) == Next(StandingOf(upvotes, downvotes, voter), d)
      && c.pointChange == Delta(StandingOf(upvotes, downvotes, voter), d)
  {
  }

  /** The score `|upvotes| - |downvotes|` moves by exactly `pointChange` when
      the voter occurred at most once in each list. */
  lemma ScoreMovesByPointChange(upvotes: seq<string>, downvotes: seq<string>, voter: string, d: Direction)
    requires multiset(upvotes)[voter] <= 1 && multiset(downvotes)[voter] <= 1
    ensures var c := CastVote(upvotes, downvotes, voter, d);
      |c.upvotes| - |c.downvotes| == |upvotes| - |downvotes| + c.pointChange
  {
  }

  /** The lists hold sets of user ids and no id is in both. */
  ghost predicate WellFormed(upvotes: seq<string>, downvotes: seq<string>) {
    && NoDup(upvotes) && NoDup(downvotes)
    && forall u :: !(u in upvotes && u in downvotes)
  }

  /** Casting a vote keeps the lists well formed. */
  lemma CastPreservesWellFormed(upvotes: seq<string>, downvotes: seq<string>, voter: string, d: Direction)
    requires WellFormed(upvotes, downvotes)
    ensures var c := CastVote(upvotes, downvotes, voter, d);
      WellFormed(c.upvotes, c.downvotes)
  {
    var c := CastVote(upvotes, downvotes, voter, d);
    CastFollowsTable(upvotes, downvotes, voter, d);
    assert multiset(c.upvotes)[voter] <= 1 by {
      if voter in c.upvotes {
        assert d == Up ==> c.upvotes == upvotes + [voter];
      }
    }
    assert multiset(c.downvotes)[voter] <= 1 by {
      if voter in c.downvotes {
        assert d == Down ==> c.downvotes == downvotes + [voter];
      }
    }
    forall u ensures !(u in c.upvotes && u in c.downvotes) {
      if u != voter {
        assert u in c.upvotes <==> u in upvotes;
        assert u in c.downvotes <==> u in downvotes;
      }
    }
  }

  /** Casting the same direction twice from no vote restores both lists
      exactly, and the two point changes cancel. */
  lemma {:induction false} CastTwiceRestores(upvotes: seq<string>, downvotes: seq<string>, voter: string, d: Direction)
    requires voter !in upvotes && voter !in downvotes
    ensures var c1 := CastVote(upvotes, downvotes, voter, d);
      var c2 := CastVote(c1.upvotes, c1.downvotes, voter, d);
      c2.upvotes == upvotes && c2.downvotes == downvotes && c1.pointChange + c2.pointChange == 0
  {
    if d == Up {
      AppendThenWithout(upvotes, voter);
    } else {
      AppendThenWithout(downvotes, voter);
    }
  }

  /** Casting the same direction twice returns a voter to where they stood,
      except that an opposite vote is first swapped and then withdrawn. */
  lemma CastTwiceStanding(upvotes: seq<string>, downvotes: seq<string>, voter: string, d: Direction)
    requires !(voter in upvotes && voter in downvotes)
    ensures var c1 := CastVote(upvotes, downvotes, voter, d);
      var c2 := CastVote(c1.upvotes, c1.downvotes, voter, d);
      var s := StandingOf(upvotes, downvotes, voter);
      && !(voter in c1.upvotes && voter in c1.downvotes)
      && StandingOf(c2.upvotes, c2.downvotes, voter)
         == (if s == (if d == Up then Downvoted else Upvoted) then NoVote else s)
  {
    var c1 := CastVote(upvotes, downvotes, voter, d);
    CastFollowsTable(upvotes, downvotes, voter, d);
    CastFollowsTable(c1.upvotes, c1.downvotes, voter, d);
  }

  /** Up then Down from no vote: the voter ends downvoted, the up list is
      restored, and the two point changes (+1, then the swap's -2) net -1. */
  lemma UpThenDown(upvotes: seq<string>, downvotes: seq<string>, voter: string)
    requires voter !in upvotes && voter !in downvotes
    ensures var c1 := CastVote(upvotes, downvotes, voter, Up);
      var c2 := CastVote(c1.upvotes, c1.downvotes, voter, Down);
      && c2.upvotes == upvotes && c2.downvotes == downvotes + [voter]
      && c1.pointChange == 1 && c2.pointChange == -2
      && StandingOf(c2.upvotes, c2.downvotes, voter) == Downvoted
  {
    AppendThenWithout(upvotes, voter);
  }
}
