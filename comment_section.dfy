/** The comment thread view (src/components/common/CommentSection.tsx): how
    a flat list of comments is grouped into roots with one level of replies,
    which controls each rendered comment shows, the composer's state, and the
    relative-time label. */
module CommentSection {
  import opened Types
  import opened Seqs
  import opened Text

  // ---------------------------------------------------------------------------
  // Grouping

  /** `!comment.parentId`: no parent id, or an empty one. */
  predicate IsRoot(c: Comment) {
    c.parentId.None? || c.parentId == Some("")
  }

  /** `comment => comment.parentId === parentId`. */
  function IsReplyTo(parentId: string): Comment -> bool {
    (c: Comment) => c.parentId == Some(parentId)
  }

  /** The comments without a parent. */
  function RootComments(comments: seq<Comment>): (r: seq<Comment>)
    ensures |r| <= |comments|
    ensures forall c :: c in r <==> c in comments && IsRoot(c)
  {
    Filter(comments, IsRoot)
  }

  /** The comments whose parent id is `parentId`. */
  function CommentReplies(comments: seq<Comment>, parentId: string): (r: seq<Comment>)
    ensures |r| <= |comments|
    ensures forall c :: c in r <==> c in comments && c.parentId == Some(parentId)
  {
    Filter(comments, IsReplyTo(parentId))
  }

  /** The roots are exactly the comments without a parent, in input order. */
  lemma RootsInInputOrder(a: seq<Comment>, b: seq<Comment>)
    ensures forall c :: c in RootComments(a + b) <==> c in a + b && IsRoot(c)
    ensures RootComments(a + b) == RootComments(a) + RootComments(b)
  {
    FilterAppend(a, b, IsRoot);
  }

  /** The replies of `p` are exactly the comments whose parent id is `p`, in input order. */
  lemma RepliesInInputOrder(a: seq<Comment>, b: seq<Comment>, p: string)
    ensures forall c :: c in CommentReplies(a + b, p) <==> c in a + b && c.parentId == Some(p)
    ensures CommentReplies(a + b, p) == CommentReplies(a, p) + CommentReplies(b, p)
  {
    FilterAppend(a, b, IsReplyTo(p));
  }

  /** The count in the header: every comment, displayed or not. */
  function HeaderCount(comments: seq<Comment>): (n: nat)
    ensures n == |comments|
    ensures n >= |RootComments(comments)|
  {
    |comments|
  }

  // ---------------------------------------------------------------------------
  // What is rendered

  /** One rendered CommentItem: the comment and its depth. */
  datatype Item = Item(comment: Comment, depth: nat)

  /** Replies are rendered at the given depth with an empty reply list of their own. */
  function AtDepth(comments: seq<Comment>, depth: nat): (r: seq<Item>)
    ensures |r| == |comments|
    ensures forall i | 0 <= i < |r| :: r[i] == Item(comments[i], depth)
  {
    if comments == [] then [] else [Item(comments[0], depth)] + AtDepth(comments[1..], depth)
  }

  /** Each root at depth 0 followed by its replies at depth 1. */
  function RenderThreads(roots: seq<Comment>, comments: seq<Comment>): (r: seq<Item>)
    ensures |r| >= |roots|
    ensures forall rt | rt in roots :: Item(rt, 0) in r
  {
    if roots == [] then []
    else [Item(roots[0], 0)] + AtDepth(CommentReplies(comments, roots[0].id), 1)
         + RenderThreads(roots[1..], comments)
  }

  /** The comment list the section renders. */
  function RenderedComments(comments: seq<Comment>): (r: seq<Item>)
    ensures forall c | c in comments && IsRoot(c) :: Item(c, 0) in r
    ensures forall it | it in r :: it.comment in comments && it.depth <= 1
    // the roots in input order, each followed by exactly its replies
    ensures TopLevel(r) == RootComments(comments)
    ensures ThreadLayout(r, comments)
  {
    ThreadDepths(RootComments(comments), comments);
    ThreadsInRootOrder(RootComments(comments), comments);
    ThreadsLayout(RootComments(comments), comments);
    RenderThreads(RootComments(comments), comments)
  }

  /** A comment is displayed when it is a root or a reply to a root in the list. */
  ghost predicate Displayed(comments: seq<Comment>, c: Comment) {
    IsRoot(c) || exists r | r in comments && IsRoot(r) :: c.parentId == Some(r.id)
  }

  function CountId(comments: seq<Comment>, x: string): nat {
    if comments == [] then 0 else (if comments[0].id == x then 1 else 0) + CountId(comments[1..], x)
  }

  function CountItems(items: seq<Item>, x: string): nat {
    if items == [] then 0 else (if items[0].comment.id == x then 1 else 0) + CountItems(items[1..], x)
  }

  /** Comment ids are unique and non-empty (the backend assigns UUIDs). */
  ghost predicate ProperIds(comments: seq<Comment>) {
    (forall x :: CountId(comments, x) <= 1) && forall c | c in comments :: c.id != ""
  }

  lemma {:induction false} CountItemsAppend(a: seq<Item>, b: seq<Item>, x: string)
    ensures CountItems(a + b, x) == CountItems(a, x) + CountItems(b, x)
  {
    if a != [] {
      assert (a + b)[0] == a[0];
      assert (a + b)[1..] == a[1..] + b;
      CountItemsAppend(a[1..], b, x);
    } else {
      assert a + b == b;
    }
  }

  lemma {:induction false} CountAtDepth(comments: seq<Comment>, depth: nat, x: string)
    ensures CountItems(AtDepth(comments, depth), x) == CountId(comments, x)
  {
    if comments != [] {
      CountItemsAppend([Item(comments[0], depth)], AtDepth(comments[1..], depth), x);
      CountAtDepth(comments[1..], depth, x);
    }
  }

  lemma {:induction false} CountIdPositive(comments: seq<Comment>, c: Comment)
    requires c in comments
    ensures CountId(comments, c.id) >= 1
  {
    if comments[0] != c {
      CountIdPositive(comments[1..], c);
    }
  }

  lemma {:induction false} CountIdAppend(a: seq<Comment>, b: seq<Comment>, x: string)
    ensures CountId(a + b, x) == CountId(a, x) + CountId(b, x)
  {
    if a != [] {
      assert (a + b)[0] == a[0];
      assert (a + b)[1..] == a[1..] + b;
      CountIdAppend(a[1..], b, x);
    } else {
      assert a + b == b;
    }
  }

  lemma {:induction false} CountIdFilter(comments: seq<Comment>, keep: Comment -> bool, x: string)
    ensures CountId(Filter(comments, keep), x) <= CountId(comments, x)
  {
    if comments != [] {
      var head := if keep(comments[0]) then [comments[0]] else [];
      CountIdAppend(head, Filter(comments[1..], keep), x);
      CountIdFilter(comments[1..], keep, x);
    }
  }

  /** With unique ids, two comments of the list with the same id are the same comment. */
  lemma {:induction false} SameIdSameComment(comments: seq<Comment>, a: Comment, b: Comment)
    requires forall x :: CountId(comments, x) <= 1
    requires a in comments && b in comments && a.id == b.id
    ensures a == b
  {
    assert CountId(comments, a.id) == (if comments[0].id == a.id then 1 else 0) + CountId(comments[1..], a.id);
    if comments[0] == a {
      if b != a {
        CountIdPositive(comments[1..], b);
      }
    } else if comments[0] == b {
      CountIdPositive(comments[1..], a);
    } else {
      forall x ensures CountId(comments[1..], x) <= 1 {
        assert CountId(comments, x) == (if comments[0].id == x then 1 else 0) + CountId(comments[1..], x);
      }
      SameIdSameComment(comments[1..], a, b);
    }
  }

  /** With unique ids, a filter keeps a comment's id once if it keeps the comment, else never. */
  lemma {:induction false} CountIdFilterUnique(comments: seq<Comment>, keep: Comment -> bool, c: Comment)
    requires forall x :: CountId(comments, x) <= 1
    requires c in comments
    ensures CountId(Filter(comments, keep), c.id) == if keep(c) then 1 else 0
  {
    var rest := comments[1..];
    assert CountId(comments, c.id) == (if comments[0].id == c.id then 1 else 0) + CountId(rest, c.id);
    var head := if keep(comments[0]) then [comments[0]] else [];
    CountIdAppend(head, Filter(rest, keep), c.id);
    if comments[0] == c {
      CountIdFilter(rest, keep, c.id);
    } else {
      CountIdPositive(rest, c);
      forall x ensures CountId(rest, x) <= 1 {
        assert CountId(comments, x) == (if comments[0].id == x then 1 else 0) + CountId(rest, x);
      }
      CountIdFilterUnique(rest, keep, c);
    }
  }

  /** How often a comment appears in the thread of one root. */
  lemma ThreadCount(r0: Comment, comments: seq<Comment>, c: Comment)
    requires ProperIds(comments) && c in comments && r0 in comments && IsRoot(r0)
    ensures CountItems([Item(r0, 0)] + AtDepth(CommentReplies(comments, r0.id), 1), c.id)
         == if c == r0 || c.parentId == Some(r0.id) then 1 else 0
  {
    var replies := CommentReplies(comments, r0.id);
    CountItemsAppend([Item(r0, 0)], AtDepth(replies, 1), c.id);
    CountAtDepth(replies, 1, c.id);
    CountIdFilterUnique(comments, IsReplyTo(r0.id), c);
    if r0.id == c.id {
      SameIdSameComment(comments, r0, c);
    }
  }

  /** How often a comment appears in the threads of the roots `roots`. */
  lemma {:induction false} ThreadsCount(roots: seq<Comment>, comments: seq<Comment>, c: Comment)
    requires ProperIds(comments) && c in comments
    requires forall r | r in roots :: r in comments && IsRoot(r)
    requires forall x :: CountId(roots, x) <= 1
    ensures CountItems(RenderThreads(roots, comments), c.id)
         == if c in roots || exists r | r in roots :: c.parentId == Some(r.id) then 1 else 0
  {
    if roots != [] {
      var r0, rest := roots[0], roots[1..];
      var thread := [Item(r0, 0)] + AtDepth(CommentReplies(comments, r0.id), 1);
      CountItemsAppend(thread, RenderThreads(rest, comments), c.id);
      ThreadCount(r0, comments, c);
      UniqueIdsTail(roots);
      ThreadsCount(rest, comments, c);
      if r0 == c || c.parentId == Some(r0.id) {
        InOneThreadOnly(r0, rest, comments, c);
      }
    }
  }

  /** Dropping the head of a list with unique ids keeps them unique and
      removes the head's id. */
  lemma UniqueIdsTail(comments: seq<Comment>)
    requires comments != [] && forall x :: CountId(comments, x) <= 1
    ensures forall x :: CountId(comments[1..], x) <= 1
    ensures CountId(comments[1..], comments[0].id) == 0
  {
    assert CountId(comments, comments[0].id) == 1 + CountId(comments[1..], comments[0].id);
    forall x ensures CountId(comments[1..], x) <= 1 {
      assert CountId(comments, x) == (if comments[0].id == x then 1 else 0) + CountId(comments[1..], x);
    }
  }

  /** A comment shown in the thread of `r0` is not shown in a later thread. */
  lemma InOneThreadOnly(r0: Comment, rest: seq<Comment>, comments: seq<Comment>, c: Comment)
    requires ProperIds(comments) && r0 in comments && IsRoot(r0)
    requires forall r | r in rest :: r in comments && IsRoot(r)
    requires CountId(rest, r0.id) == 0
    requires r0 == c || c.parentId == Some(r0.id)
    ensures !(c in rest || exists r | r in rest :: c.parentId == Some(r.id))
  {
    if r0 == c && c in rest {
      CountIdPositive(rest, c);
    }
    forall r | r in rest ensures c.parentId != Some(r.id) {
      if r0 != c && c.parentId == Some(r.id) {
        SameIdSameComment(comments, r0, r);
        CountIdPositive(rest, r);
      }
    }
  }

  /** With unique non-empty ids, every comment of the list is rendered exactly
      once if it is a root or a reply to a root, and never otherwise: a reply
      to a reply, or to a comment not in the list, is not shown. */
  lemma RenderedOnce(comments: seq<Comment>, c: Comment)
    requires ProperIds(comments) && c in comments
    ensures CountItems(RenderedComments(comments), c.id) == if Displayed(comments, c) then 1 else 0
  {
    var roots := RootComments(comments);
    forall x ensures CountId(roots, x) <= 1 {
      CountIdFilter(comments, IsRoot, x);
    }
    ThreadsCount(roots, comments, c);
  }

  /** Roots render at depth 0 and replies at depth 1, so every rendered
      comment shows its Reply button. */
  lemma {:induction false} ThreadDepths(roots: seq<Comment>, comments: seq<Comment>)
    ensures forall it | it in RenderThreads(roots, comments) ::
      && it.comment in roots + comments
      && (it.depth == 0 ==> it.comment in roots)
      && (it.depth == 1 ==> exists r | r in roots :: it.comment.parentId == Some(r.id))
      && it.depth <= 1 && ShowReplyButton(it.depth)
  {
    if roots != [] {
      ThreadDepths(roots[1..], comments);
      var replies := CommentReplies(comments, roots[0].id);
      AtDepthItems(replies, 1);
    }
  }

  lemma {:induction false} AtDepthItems(comments: seq<Comment>, depth: nat)
    ensures forall it | it in AtDepth(comments, depth) :: it.comment in comments && it.depth == depth
  {
    if comments != [] {
      AtDepthItems(comments[1..], depth);
    }
  }

  // ---------------------------------------------------------------------------
  // The layout of the rendered list

  /** The comments of the depth-0 items, in order. */
  function TopLevel(items: seq<Item>): seq<Comment> {
    if items == [] then []
    else (if items[0].depth == 0 then [items[0].comment] else []) + TopLevel(items[1..])
  }

  /** The item at `j` is followed by `replies` at depth 1, and then by the
      next depth-0 item or the end of the list. */
  predicate BlockAfter(items: seq<Item>, j: nat, replies: seq<Comment>) {
    && j + 1 + |replies| <= |items|
    && items[j + 1..j + 1 + |replies|] == AtDepth(replies, 1)
    && (j + 1 + |replies| == |items| || items[j + 1 + |replies|].depth == 0)
  }

  /** A laid-out thread list: it starts at depth 0, and every depth-0 item is
      followed by exactly the replies to its comment. */
  ghost predicate ThreadLayout(items: seq<Item>, comments: seq<Comment>) {
    && (items != [] ==> items[0].depth == 0)
    && forall j {:trigger IsTop(items, j)} | 0 <= j < |items| && IsTop(items, j) ::
         BlockAfter(items, j, CommentReplies(comments, items[j].comment.id))
  }

  /** The item at `j` is a root's. */
  predicate IsTop(items: seq<Item>, j: nat)
    requires j < |items|
  {
    items[j].depth == 0
  }

  lemma {:induction false} TopLevelAppend(a: seq<Item>, b: seq<Item>)
    ensures TopLevel(a + b) == TopLevel(a) + TopLevel(b)
  {
    if a == [] {
      assert a + b == b;
    } else {
      var ab := a + b;
      assert ab[0] == a[0];
      assert ab[1..] == a[1..] + b;
      TopLevelAppend(a[1..], b);
      if a[0].depth == 0 {
        assert TopLevel(ab) == [a[0].comment] + TopLevel(a[1..] + b);
        assert TopLevel(a) == [a[0].comment] + TopLevel(a[1..]);
      } else {
        assert TopLevel(ab) == TopLevel(a[1..] + b);
        assert TopLevel(a) == TopLevel(a[1..]);
      }
    }
  }

  lemma {:induction false} TopLevelOfReplies(replies: seq<Comment>)
    ensures TopLevel(AtDepth(replies, 1)) == []
  {
    if replies != [] {
      TopLevelOfReplies(replies[1..]);
    }
  }

  /** A block keeps its shape when more items are put in front. */
  lemma BlockShift(prefix: seq<Item>, rest: seq<Item>, j: nat, replies: seq<Comment>)
    requires BlockAfter(rest, j, replies)
    ensures BlockAfter(prefix + rest, |prefix| + j, replies)
  {
    var k := |prefix| + j;
    var n := |replies|;
    assert (prefix + rest)[k + 1..k + 1 + n] == rest[j + 1..j + 1 + n];
    if j + 1 + n < |rest| {
      assert (prefix + rest)[k + 1 + n] == rest[j + 1 + n];
    }
  }

  /** The threads appear in the order of the roots. */
  lemma {:induction false} ThreadsInRootOrder(roots: seq<Comment>, comments: seq<Comment>)
    ensures TopLevel(RenderThreads(roots, comments)) == roots
  {
    if roots != [] {
      var head := [Item(roots[0], 0)];
      var replies := CommentReplies(comments, roots[0].id);
      var block := AtDepth(replies, 1);
      var rest := RenderThreads(roots[1..], comments);
      assert RenderThreads(roots, comments) == head + block + rest;
      ThreadsInRootOrder(roots[1..], comments);
      TopLevelAppend(head + block, rest);
      TopLevelAppend(head, block);
      TopLevelOfReplies(replies);
      assert TopLevel(head) == [roots[0]];
    }
  }

  /** Below each root item come exactly that root's replies, in input order,
      at depth 1, and the list starts with a root. */
  lemma {:induction false} ThreadsLayout(roots: seq<Comment>, comments: seq<Comment>)
    ensures ThreadLayout(RenderThreads(roots, comments), comments)
  {
    if roots != [] {
      ThreadsLayout(roots[1..], comments);
      ThreadLayoutCons(roots[0], RenderThreads(roots[1..], comments), comments);
    }
  }

  /** Putting a root and its replies in front of a laid-out list keeps it laid out. */
  lemma ThreadLayoutCons(root: Comment, rest: seq<Item>, comments: seq<Comment>)
    requires ThreadLayout(rest, comments)
    ensures ThreadLayout([Item(root, 0)] + AtDepth(CommentReplies(comments, root.id), 1) + rest, comments)
  {
    var head := [Item(root, 0)];
    var replies := CommentReplies(comments, root.id);
    var block := AtDepth(replies, 1);
    var r := head + block + rest;
    forall j | 0 <= j < |r| && IsTop(r, j)
      ensures BlockAfter(r, j, CommentReplies(comments, r[j].comment.id))
    {
      if j == 0 {
        assert r[0] == Item(root, 0);
        FirstBlock(head, block, rest, replies);
      } else if j <= |block| {
        ReplyIsNotTop(head, block, rest, replies, j);
      } else {
        var j' := j - 1 - |block|;
        assert IsTop(rest, j');
        TailBlock(head, block, rest, j', CommentReplies(comments, rest[j'].comment.id));
      }
    }
  }

  lemma ReplyIsNotTop(head: seq<Item>, block: seq<Item>, rest: seq<Item>, replies: seq<Comment>, j: nat)
    requires |head| == 1 && block == AtDepth(replies, 1) && 1 <= j <= |block|
    ensures (head + block + rest)[j].depth == 1
  {
    assert (head + block + rest)[j] == block[j - 1];
  }

  lemma TailBlock(head: seq<Item>, block: seq<Item>, rest: seq<Item>, j: nat, replies: seq<Comment>)
    requires |head| == 1 && BlockAfter(rest, j, replies)
    ensures (head + block + rest)[1 + |block| + j] == rest[j]
    ensures BlockAfter(head + block + rest, 1 + |block| + j, replies)
  {
    assert head + block + rest == (head + block) + rest;
    BlockShift(head + block, rest, j, replies);
  }

  lemma FirstBlock(head: seq<Item>, block: seq<Item>, rest: seq<Item>, replies: seq<Comment>)
    requires |head| == 1 && block == AtDepth(replies, 1)
    requires rest != [] ==> rest[0].depth == 0
    ensures BlockAfter(head + block + rest, 0, replies)
  {
    var r := head + block + rest;
    assert r[1..1 + |replies|] == block;
    if rest != [] {
      assert r[1 + |replies|] == rest[0];
    }
  }

  /** Comments 1, 2 and 3 replying to 1, and 4 replying to 2 (any ids, as
      long as 1 and 2 are non-empty and distinct): 1 is the only root, its
      replies are 2 then 3, the list renders as 1 at depth 0 followed by 2
      and 3 at depth 1, and 4, a reply to a reply, is not displayed although
      the header counts it. */
  lemma GroupingExample(c1: Comment, c2: Comment, c3: Comment, c4: Comment)
    requires c1.id != "" && c2.id != "" && c1.id != c2.id
    requires c1.parentId.None? && c2.parentId == Some(c1.id) && c3.parentId == Some(c1.id)
    requires c4.parentId == Some(c2.id)
    ensures var cs := [c1, c2, c3, c4];
      && RootComments(cs) == [c1]
      && CommentReplies(cs, c1.id) == [c2, c3]
      && RenderedComments(cs) == [Item(c1, 0), Item(c2, 1), Item(c3, 1)]
      && HeaderCount(cs) == 4
      && !Displayed(cs, c4)
  {
    var cs := [c1, c2, c3, c4];
    GroupSampleRoots(c1, c2, c3, c4);
    GroupSampleReplies(c1, c2, c3, c4);
    assert AtDepth([c2, c3], 1) == [Item(c2, 1), Item(c3, 1)] by {
      assert [c2, c3][1..] == [c3];
      assert [c3][1..] == [];
      assert AtDepth([c3], 1) == [Item(c3, 1)] + AtDepth([], 1);
    }
    assert [c1][1..] == [];
    assert RenderThreads([c1], cs) == [Item(c1, 0)] + AtDepth([c2, c3], 1) + RenderThreads([], cs);
  }

  lemma GroupSampleRoots(c1: Comment, c2: Comment, c3: Comment, c4: Comment)
    requires c1.id != "" && c2.id != ""
    requires c1.parentId.None? && c2.parentId == Some(c1.id) && c3.parentId == Some(c1.id)
    requires c4.parentId == Some(c2.id)
    ensures RootComments([c1, c2, c3, c4]) == [c1]
  {
    FilterFour(c1, c2, c3, c4, IsRoot);
  }

  lemma GroupSampleReplies(c1: Comment, c2: Comment, c3: Comment, c4: Comment)
    requires c1.id != c2.id
    requires c1.parentId.None? && c2.parentId == Some(c1.id) && c3.parentId == Some(c1.id)
    requires c4.parentId == Some(c2.id)
    ensures CommentReplies([c1, c2, c3, c4], c1.id) == [c2, c3]
  {
    FilterFour(c1, c2, c3, c4, IsReplyTo(c1.id));
  }

  // ---------------------------------------------------------------------------
  // The controls of one CommentItem

  const MaxDepth: nat := 4

  /** The Reply button shows below the maximum depth: on every root and reply. */
  function ShowReplyButton(depth: nat): (b: bool)
    ensures b <==> depth < 4
  {
    depth < MaxDepth
  }

  /** `user && comment.upvotes.includes(user.id)`. */
  function HasVotedUp(user: Option<string>, c: Comment): (b: bool)
    ensures b ==> user.Some?
    ensures user.Some? ==> (b <==> user.value in c.upvotes)
  {
    user.Some? && user.value in c.upvotes
  }

  /** `user && comment.downvotes.includes(user.id)`. */
  function HasVotedDown(user: Option<string>, c: Comment): (b: bool)
    ensures b ==> user.Some?
    ensures user.Some? ==> (b <==> user.value in c.downvotes)
  {
    user.Some? && user.value in c.downvotes
  }

  /** Nobody is highlighted without a session, and on a comment with no id
      in both lists at most one arrow is highlighted. */
  lemma VoteHighlight(user: Option<string>, c: Comment)
    ensures user.None? ==> !HasVotedUp(user, c) && !HasVotedDown(user, c)
    ensures (forall u :: !(u in c.upvotes && u in c.downvotes)) ==> !(HasVotedUp(user, c) && HasVotedDown(user, c))
  {
  }

  // ---------------------------------------------------------------------------
  // The composer

  /** What `handleSubmitComment` would send (it only logs it). */
  datatype Draft = Draft(content: string, recordId: string, recordType: EntityType, parentId: Option<string>)

  class Composer {
    var newComment: string
    var replyTo: Option<string>

    constructor ()
      ensures newComment == "" && replyTo == None
      ensures !Replying()
    {
      newComment, replyTo := "", None;
    }

    /** The "Replying to comment" banner and the "Reply" label show when `replyTo` is truthy. */
    function Replying(): (r: bool)
      reads this
      ensures r ==> replyTo.Some?
      ensures replyTo.Some? ==> (r <==> replyTo.value != "")
    {
      replyTo.Some? && replyTo.value != ""
    }

    /** The text area's `onChange`. */
    method SetNewComment(text: string)
      modifies this
      ensures newComment == text && replyTo == old(replyTo)
    {
      newComment := text;
    }

    /** `handleReply(commentId)`. */
    method HandleReply(commentId: string)
      modifies this
      ensures replyTo == Some(commentId) && newComment == old(newComment)
    {
      replyTo := Some(commentId);
    }

    /** The Cancel button of the banner. */
    method CancelReply()
      modifies this
      ensures replyTo == None && newComment == old(newComment)
      ensures !Replying()
    {
      replyTo := None;
    }

    /** `handleSubmitComment()`: blank text or no session leaves everything as
        it was; otherwise the draft goes out and the form resets. */
    method HandleSubmitComment(user: Option<string>, recordId: string, recordType: EntityType)
      returns (sent: Option<Draft>)
      modifies this
      ensures Blank(old(newComment)) || user.None? ==>
        sent == None && newComment == old(newComment) && replyTo == old(replyTo)
      ensures !Blank(old(newComment)) && user.Some? ==>
        && sent == Some(Draft(old(newComment), recordId, recordType, old(replyTo)))
        && newComment == "" && replyTo == None
    {
      TrimEmptyIffBlank(newComment);
      if Trim(newComment) == [] || user.None? {
        return None;
      }
      sent := Some(Draft(newComment, recordId, recordType, replyTo));
      newComment := "";
      replyTo := None;
    }
  }

  // ---------------------------------------------------------------------------
  // The relative-time label

  /** `Math.round(a / d)`: the nearest integer, halves rounded up. */
  function RoundDiv(a: int, d: int): (q: int)
    requires d > 0
    ensures 2 * d * q <= 2 * a + d < 2 * d * (q + 1)
  {
    (2 * a + d) / (2 * d)
  }

  lemma RoundDivBelow(a: int, d: int, k: int)
    requires d > 0
    ensures RoundDiv(a, d) < k <==> 2 * a + d < 2 * d * k
  {
    var q := RoundDiv(a, d);
    if q < k {
      MulMono(2 * d, q + 1, k);
    } else {
      MulMono(2 * d, k, q);
    }
  }

  lemma MulMono(m: int, x: int, y: int)
    requires m >= 0 && x <= y
    ensures m * x <= m * y
  {
    assert m * y == m * x + m * (y - x);
  }

  datatype RelativeTime = SecondsAgo(n: int) | MinutesAgo(n: int) | HoursAgo(n: int) | DaysAgo(n: int) | OnDate

  /** `formatRelativeTime` for a difference `now - date` of `diffMs`
      milliseconds: each unit's number stays below the next unit's size, and
      from minutes on is at least 1. */
  function FormatRelativeTime(diffMs: int): (t: RelativeTime)
    ensures t.SecondsAgo? ==> t.n < 60 && (diffMs >= 0 ==> t.n >= 0)
    ensures t.MinutesAgo? ==> 1 <= t.n < 60
    ensures t.HoursAgo? ==> 1 <= t.n < 24
    ensures t.DaysAgo? ==> 1 <= t.n < 30
    // the number shown, as the window of differences that display it
    ensures t.SecondsAgo? ==> t.n == RoundDiv(diffMs, 1000)
    ensures t.MinutesAgo? ==> 60_000 * t.n - 30_500 <= diffMs < 60_000 * t.n + 29_500
    ensures t.HoursAgo? ==> 3_600_000 * t.n - 1_830_500 <= diffMs < 3_600_000 * t.n + 1_769_500
    ensures t.DaysAgo? ==> 86_400_000 * t.n - 45_030_500 <= diffMs < 86_400_000 * t.n + 41_369_500
  {
    var diffSec := RoundDiv(diffMs, 1000);
    var diffMin := RoundDiv(diffSec, 60);
    var diffHour := RoundDiv(diffMin, 60);
    var diffDay := RoundDiv(diffHour, 24);
    ChainWindows(diffMs);
    if diffSec < 60 then SecondsAgo(diffSec)
    else if diffMin < 60 then MinutesAgo(diffMin)
    else if diffHour < 24 then HoursAgo(diffHour)
    else if diffDay < 30 then DaysAgo(diffDay)
    else OnDate
  }

  /** The millisecond window of each rounded quantity of the chain. */
  lemma ChainWindows(ms: int)
    ensures var m := RoundDiv(RoundDiv(ms, 1000), 60);
      60_000 * m - 30_500 <= ms < 60_000 * m + 29_500
    ensures var h := RoundDiv(RoundDiv(RoundDiv(ms, 1000), 60), 60);
      3_600_000 * h - 1_830_500 <= ms < 3_600_000 * h + 1_769_500
    ensures var d := RoundDiv(RoundDiv(RoundDiv(RoundDiv(ms, 1000), 60), 60), 24);
      86_400_000 * d - 45_030_500 <= ms < 86_400_000 * d + 41_369_500
  {
    var sec := RoundDiv(ms, 1000);
    var m := RoundDiv(sec, 60);
    var h := RoundDiv(m, 60);
    WindowsFromRounding(ms, sec, m, h, RoundDiv(h, 24));
  }

  /** Each rounding step puts its input within half a unit of the result;
      chained, the steps give windows in milliseconds. */
  lemma WindowsFromRounding(ms: int, sec: int, m: int, h: int, d: int)
    requires 2000 * sec <= 2 * ms + 1000 < 2000 * (sec + 1)
    requires 120 * m <= 2 * sec + 60 < 120 * (m + 1)
    requires 120 * h <= 2 * m + 60 < 120 * (h + 1)
    requires 48 * d <= 2 * h + 24 < 48 * (d + 1)
    ensures 60_000 * m - 30_500 <= ms < 60_000 * m + 29_500
    ensures 3_600_000 * h - 1_830_500 <= ms < 3_600_000 * h + 1_769_500
    ensures 86_400_000 * d - 45_030_500 <= ms < 86_400_000 * d + 41_369_500
  {
    assert 60 * m - 30 <= sec <= 60 * m + 29;
    assert 60 * h - 30 <= m <= 60 * h + 29;
    assert 24 * d - 12 <= h <= 24 * d + 11;
  }

  /** The roundings are chained, not taken from the milliseconds: 89.5 s
      shows "2 minutes ago", where rounding 89 500 ms to minutes directly
      would give 1. */
  lemma ChainedRoundingExample()
    ensures FormatRelativeTime(89_500) == MinutesAgo(2)
    ensures RoundDiv(89_500, 60_000) == 1
  {
  }

  /** The unit chosen by the chain of roundings, as plain millisecond thresholds. */
  lemma FormatRelativeTimeBuckets(diffMs: int)
    ensures var t := FormatRelativeTime(diffMs);
      && (t.SecondsAgo? <==> diffMs < 59_500)
      && (t.MinutesAgo? <==> 59_500 <= diffMs < 3_569_500)
      && (t.HoursAgo? <==> 3_569_500 <= diffMs < 84_569_500)
      && (t.DaysAgo? <==> 84_569_500 <= diffMs < 2_546_969_500)
      && (t.OnDate? <==> 2_546_969_500 <= diffMs)
  {
    var diffSec := RoundDiv(diffMs, 1000);
    var diffMin := RoundDiv(diffSec, 60);
    var diffHour := RoundDiv(diffMin, 60);
    var diffDay := RoundDiv(diffHour, 24);
    RoundDivBelow(diffMs, 1000, 60);
    RoundDivBelow(diffMs, 1000, 0);
    RoundDivBelow(diffMs, 1000, 3570);
    RoundDivBelow(diffMs, 1000, 84570);
    RoundDivBelow(diffMs, 1000, 2546970);
    RoundDivBelow(diffSec, 60, 1);
    RoundDivBelow(diffSec, 60, 60);
    RoundDivBelow(diffSec, 60, 1410);
    RoundDivBelow(diffSec, 60, 42450);
    RoundDivBelow(diffMin, 60, 1);
    RoundDivBelow(diffMin, 60, 24);
    RoundDivBelow(diffMin, 60, 708);
    RoundDivBelow(diffHour, 24, 1);
    RoundDivBelow(diffHour, 24, 30);
  }
}
