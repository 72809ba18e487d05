/** The per-post and per-comment transitions behind the handlers of
    App.tsx: the submission gate, reports and their thresholds, reactions,
    comments, inquiries and the admin status changes. Each handler applies
    one of these to the posts whose id matches (`UpdatePosts`). */
module Moderation {
  import opened Types
  import opened Text
  import opened Seqs
  import opened Sorting

  /** Reports at which a post is banned. */
  const PostBanThreshold: nat := 5
  /** Reports at which a comment is hidden. */
  const CommentHideThreshold: nat := 3

  // ---------------------------------------------------------------------
  // Submission gate

  /** `text` contains one of `words`, both lower-cased. */
  function CheckBannedWords(words: seq<string>, text: string): (r: bool)
    ensures r <==> exists i :: 0 <= i < |words| && Contains(Lower(text), Lower(words[i]))
  {
    if words == [] then false
    else
      var rest := CheckBannedWords(words[1..], text);
      assert rest <==> exists i :: 1 <= i < |words| && Contains(Lower(text), Lower(words[i])) by {
        if rest {
          var i :| 0 <= i < |words[1..]| && Contains(Lower(text), Lower(words[1..][i]));
          assert words[1..][i] == words[i + 1];
        }
        if exists i :: 1 <= i < |words| && Contains(Lower(text), Lower(words[i])) {
          var i :| 1 <= i < |words| && Contains(Lower(text), Lower(words[i]));
          assert words[1..][i - 1] == words[i];
        }
      }
      Contains(Lower(text), Lower(words[0])) || rest
  }

  /** Some blacklist entry, of either type, holds exactly `phone`. */
  function IsUserBlocked(blacklist: seq<BlacklistItem>, phone: string): (r: bool)
    ensures r <==> exists i :: 0 <= i < |blacklist| && blacklist[i].value == phone
  {
    if blacklist == [] then false
    else
      var rest := IsUserBlocked(blacklist[1..], phone);
      assert rest ==> exists i :: 0 <= i < |blacklist| && blacklist[i].value == phone by {
        if rest {
          var i :| 0 <= i < |blacklist[1..]| && blacklist[1..][i].value == phone;
          assert blacklist[i + 1] == blacklist[1..][i];
        }
      }
      assert (exists i :: 1 <= i < |blacklist| && blacklist[i].value == phone) ==> rest by {
        if exists i :: 1 <= i < |blacklist| && blacklist[i].value == phone {
          var i :| 1 <= i < |blacklist| && blacklist[i].value == phone;
          assert blacklist[1..][i - 1] == blacklist[i];
        }
      }
      blacklist[0].value == phone || rest
  }

  /** Why a submission was turned away, or that it was let in. */
  datatype Admission = Admitted | Blocked | BannedContent

  /** The blacklist check, then the banned-word check on the Korean title
      and description. */
  function Gate(blacklist: seq<BlacklistItem>, words: seq<string>, post: Post): (r: Admission)
    ensures r == Blocked <==> exists i :: 0 <= i < |blacklist| && blacklist[i].value == post.phoneNumber
    ensures r == BannedContent <==>
              && (forall i :: 0 <= i < |blacklist| ==> blacklist[i].value != post.phoneNumber)
              && (CheckBannedWords(words, post.titleKR) || CheckBannedWords(words, post.descriptionKR))
  {
    if IsUserBlocked(blacklist, post.phoneNumber) then Blocked
    else if CheckBannedWords(words, post.titleKR) || CheckBannedWords(words, post.descriptionKR) then BannedContent
    else Admitted
  }

  /** A blacklisted phone is refused as Blocked whatever the text says, and
      a post is admitted only when its phone is not blacklisted and neither
      Korean field contains a banned word. */
  lemma GateOrder(blacklist: seq<BlacklistItem>, words: seq<string>, post: Post)
    ensures (exists i :: 0 <= i < |blacklist| && blacklist[i].value == post.phoneNumber)
            ==> Gate(blacklist, words, post) == Blocked
    ensures Gate(blacklist, words, post) == Admitted <==>
              && (forall i :: 0 <= i < |blacklist| ==> blacklist[i].value != post.phoneNumber)
              && (forall i :: 0 <= i < |words| ==>
                    !Contains(Lower(post.titleKR), Lower(words[i])) &&
                    !Contains(Lower(post.descriptionKR), Lower(words[i])))
  {
  }

  /** Only the Korean fields are checked: the Chinese title and
      description never change the verdict. */
  lemma GateIgnoresChineseText(blacklist: seq<BlacklistItem>, words: seq<string>, post: Post, titleCN: string, descriptionCN: string)
    ensures Gate(blacklist, words, post.(titleCN := titleCN, descriptionCN := descriptionCN))
         == Gate(blacklist, words, post)
  {
  }

  /** The post as stored once admitted: a partnership proposal is put in
      `pending`, any other post keeps the status it came with. */
  function Admit(post: Post): (r: Post)
    ensures r.status == Pending <==> post.postType == Partnership || post.status == Pending
    ensures post.postType != Partnership ==> r == post
    ensures r.(status := post.status) == post
  {
    if post.postType == Partnership then post.(status := Pending) else post
  }

  // ---------------------------------------------------------------------
  // Reports

  /** One report on a post: the counter rises by one and the post is banned
      once it reaches the threshold. */
  function ReportPost(p: Post): (r: Post)
    ensures r.reportCount == p.reportCount + 1
    ensures r.status == Banned <==> r.reportCount >= PostBanThreshold || p.status == Banned
    ensures r.reportCount < PostBanThreshold ==> r.status == p.status
    ensures r.(reportCount := p.reportCount, status := p.status) == p
  {
    var n := p.reportCount + 1;
    p.(reportCount := n, status := if n >= PostBanThreshold then Banned else p.status)
  }

  /** `n` reports in a row on one post. */
  function ReportPostTimes(p: Post, n: nat): Post {
    if n == 0 then p else ReportPost(ReportPostTimes(p, n - 1))
  }

  /** After `n` reports the counter has grown by exactly `n`; the post is
      banned iff some report took the counter to the threshold, and then it
      stays banned; nothing else about the post changes. */
  lemma {:induction false} RepeatedPostReports(p: Post, n: nat)
    ensures ReportPostTimes(p, n).reportCount == p.reportCount + n
    ensures ReportPostTimes(p, n).status
         == if n > 0 && p.reportCount + n >= PostBanThreshold then Banned else p.status
    ensures ReportPostTimes(p, n).(reportCount := p.reportCount, status := p.status) == p
  {
    if n > 0 {
      RepeatedPostReports(p, n - 1);
    }
  }

  /** One report on a comment: hidden once it reaches the threshold. */
  function ReportComment(c: Comment): (r: Comment)
    ensures r.reportCount == c.reportCount + 1
    ensures r.status == Hidden <==> r.reportCount >= CommentHideThreshold || c.status == Hidden
    ensures r.(reportCount := c.reportCount, status := c.status) == c
  {
    var n := c.reportCount + 1;
    c.(reportCount := n, status := if n >= CommentHideThreshold then Hidden else c.status)
  }

  /** `n` reports in a row on one comment. */
  function ReportCommentTimes(c: Comment, n: nat): Comment {
    if n == 0 then c else ReportComment(ReportCommentTimes(c, n - 1))
  }

  /** After `n` reports a comment is hidden iff some report took its counter
      to the threshold (or it was hidden already). */
  lemma {:induction false} RepeatedCommentReports(c: Comment, n: nat)
    ensures ReportCommentTimes(c, n).reportCount == c.reportCount + n
    ensures ReportCommentTimes(c, n).status
         == if n > 0 && c.reportCount + n >= CommentHideThreshold then CommentStatus.Hidden else c.status
  {
    if n > 0 {
      RepeatedCommentReports(c, n - 1);
    }
  }

  /** `comments.map(c => c.id === id ? f(c) : c)`. */
  function UpdateComments(cs: seq<Comment>, id: string, f: Comment -> Comment): (r: seq<Comment>)
    ensures |r| == |cs|
    ensures forall i :: 0 <= i < |cs| && cs[i].id != id ==> r[i] == cs[i]
    ensures forall i :: 0 <= i < |cs| && cs[i].id == id ==> r[i] == f(cs[i])
  {
    seq(|cs|, i requires 0 <= i < |cs| => if cs[i].id == id then f(cs[i]) else cs[i])
  }

  /** A report on comment `commentId` of `p`: only that comment changes, the
      order of the comments and the post itself stay as they were. */
  function ReportCommentIn(p: Post, commentId: string): (r: Post)
    ensures |r.comments| == |p.comments|
    ensures forall i :: 0 <= i < |p.comments| ==>
              r.comments[i] == if p.comments[i].id == commentId then ReportComment(p.comments[i]) else p.comments[i]
    ensures r.(comments := p.comments) == p
  {
    p.(comments := UpdateComments(p.comments, commentId, ReportComment))
  }

  // ---------------------------------------------------------------------
  // Reactions and views

  datatype Reaction = Like | Dislike

  /** A like or a dislike: exactly the matching counter grows by one. */
  function React(p: Post, kind: Reaction): (r: Post)
    ensures kind == Like ==> r.likes == p.likes + 1 && r.dislikes == p.dislikes
    ensures kind == Dislike ==> r.dislikes == p.dislikes + 1 && r.likes == p.likes
    ensures r.(likes := p.likes, dislikes := p.dislikes) == p
  {
    p.(likes := if kind == Like then p.likes + 1 else p.likes,
       dislikes := if kind == Dislike then p.dislikes + 1 else p.dislikes)
  }

  function IncrementView(p: Post): (r: Post)
    ensures r.views == p.views + 1
    ensures r.(views := p.views) == p
  {
    p.(views := p.views + 1)
  }

  // ---------------------------------------------------------------------
  // Comments and inquiries

  /** Comments are shown most-liked first. */
  function LikesRank(c: Comment): Rank {
    Rank(c.likes, 0)
  }

  /** `comments.sort((a, b) => b.likes - a.likes)`. */
  function SortByLikes(cs: seq<Comment>): (r: seq<Comment>)
    ensures multiset(r) == multiset(cs)
    ensures SortedBy(r, LikesRank)
  {
    SortByRank(cs, LikesRank)
  }

  /** A freshly posted comment: no likes, no reports, shown. */
  function NewComment(id: string, nickname: string, content: string, today: int): Comment {
    Comment(id, nickname, content, 0, 0, CommentStatus.Active, today)
  }

  /** `c` put in front of the comments, then the comments re-sorted by likes:
      the result holds the old comments and `c`, most-liked first, and equally
      liked comments keep the order they had with `c` in front. */
  function AddComment(p: Post, c: Comment): (r: Post)
    ensures |r.comments| == |p.comments| + 1
    ensures multiset(r.comments) == multiset(p.comments) + multiset{c}
    ensures SortedBy(r.comments, LikesRank)
    ensures r.(comments := p.comments) == p
  {
    assert multiset([c] + p.comments) == multiset(p.comments) + multiset{c};
    p.(comments := SortByLikes([c] + p.comments))
  }

  /** Equally liked comments keep the order they had with the new comment
      in front: the sort after an addition is stable. */
  lemma AddCommentKeepsTiesInOrder(p: Post, c: Comment, likes: nat)
    ensures Filter(AddComment(p, c).comments, HasRank(LikesRank, Rank(likes, 0)))
         == Filter([c] + p.comments, HasRank(LikesRank, Rank(likes, 0)))
  {
    SortStable([c] + p.comments, LikesRank, Rank(likes, 0));
  }

  function LikeComment(c: Comment): (r: Comment)
    ensures r.likes == c.likes + 1
    ensures r.(likes := c.likes) == c
  {
    c.(likes := c.likes + 1)
  }

  /** A like on comment `commentId`: the comments are those of `p` with that
      one's likes raised by one, re-sorted most-liked first. */
  function LikeCommentIn(p: Post, commentId: string): (r: Post)
    ensures |r.comments| == |p.comments|
    ensures multiset(r.comments) == multiset(UpdateComments(p.comments, commentId, LikeComment))
    ensures SortedBy(r.comments, LikesRank)
    ensures r.(comments := p.comments) == p
  {
    p.(comments := SortByLikes(UpdateComments(p.comments, commentId, LikeComment)))
  }

  /** Liking a comment that `p` does not hold only re-sorts its comments,
      which leaves comments that were already in order untouched. */
  lemma LikeUnknownComment(p: Post, commentId: string)
    requires forall i :: 0 <= i < |p.comments| ==> p.comments[i].id != commentId
    requires SortedBy(p.comments, LikesRank)
    ensures LikeCommentIn(p, commentId) == p
  {
    assert UpdateComments(p.comments, commentId, LikeComment) == p.comments;
    SortKeepsSorted(p.comments, LikesRank);
  }

  /** An inquiry is appended after the ones already there (none if the post
      had no list yet). */
  function AddInquiry(p: Post, q: InquiryMessage): (r: Post)
    ensures r.inquiries.Some?
    ensures var before := p.inquiries.GetOr([]);
            |r.inquiries.value| == |before| + 1 && r.inquiries.value[..|before|] == before
            && r.inquiries.value[|before|] == q
    ensures r.(inquiries := p.inquiries) == p
  {
    p.(inquiries := Some(p.inquiries.GetOr([]) + [q]))
  }

  /** The admin's comment deletion: every comment with that id goes, the
      others stay in order. */
  function DeleteComment(p: Post, commentId: string): (r: Post)
    ensures forall i :: 0 <= i < |r.comments| ==> r.comments[i].id != commentId
    ensures forall i :: 0 <= i < |p.comments| && p.comments[i].id != commentId ==> p.comments[i] in r.comments
    ensures multiset(r.comments) <= multiset(p.comments)
    ensures forall i :: 0 <= i < |p.comments| ==>
              multiset(r.comments)[p.comments[i]]
              == if p.comments[i].id == commentId then 0 else multiset(p.comments)[p.comments[i]]
    ensures r.(comments := p.comments) == p
  {
    FilterMultiplicity(p.comments, (c: Comment) => c.id != commentId);
    p.(comments := Filter(p.comments, (c: Comment) => c.id != commentId))
  }

  /** Deletion goes comment by comment, so the comments that stay keep the
      order they had: deleting from two runs of comments is deleting from
      each run, and a single comment stays exactly when its id differs. */
  lemma DeleteCommentKeepsOrder(p: Post, a: seq<Comment>, b: seq<Comment>, commentId: string)
    ensures DeleteComment(p.(comments := a + b), commentId).comments
         == DeleteComment(p.(comments := a), commentId).comments + DeleteComment(p.(comments := b), commentId).comments
    ensures |a| == 1 ==> DeleteComment(p.(comments := a), commentId).comments == if a[0].id == commentId then [] else a
  {
    FilterAppend(a, b, (c: Comment) => c.id != commentId);
    if |a| == 1 {
      assert a[1..] == [];
    }
  }

  // ---------------------------------------------------------------------
  // The comment invariant

  /** A post's comments are in most-liked-first order and every comment
      that reached the report threshold is hidden. */
  predicate WellModerated(cs: seq<Comment>) {
    && SortedBy(cs, LikesRank)
    && forall i :: 0 <= i < |cs| && cs[i].reportCount >= CommentHideThreshold ==> cs[i].status == CommentStatus.Hidden
  }

  /** Adding a comment below the threshold keeps the invariant. */
  lemma AddCommentKeepsModeration(p: Post, c: Comment)
    requires WellModerated(p.comments)
    requires c.reportCount < CommentHideThreshold
    ensures WellModerated(AddComment(p, c).comments)
  {
    var r := AddComment(p, c).comments;
    forall i | 0 <= i < |r| && r[i].reportCount >= CommentHideThreshold
      ensures r[i].status == CommentStatus.Hidden
    {
      assert r[i] in multiset(r);
      if r[i] != c {
        assert r[i] in multiset(p.comments);
        var k :| 0 <= k < |p.comments| && p.comments[k] == r[i];
      }
    }
  }

  /** Liking a comment keeps the invariant. */
  lemma LikeCommentKeepsModeration(p: Post, commentId: string)
    requires WellModerated(p.comments)
    ensures WellModerated(LikeCommentIn(p, commentId).comments)
  {
    var liked := UpdateComments(p.comments, commentId, LikeComment);
    var r := LikeCommentIn(p, commentId).comments;
    forall i | 0 <= i < |r| && r[i].reportCount >= CommentHideThreshold
      ensures r[i].status == CommentStatus.Hidden
    {
      assert r[i] in multiset(liked);
      var k :| 0 <= k < |liked| && liked[k] == r[i];
      assert liked[k].reportCount == p.comments[k].reportCount && liked[k].status == p.comments[k].status;
    }
  }

  /** Reporting a comment keeps the invariant: the likes, and so the order,
      do not change, and the reported comment is hidden at the threshold. */
  lemma ReportCommentKeepsModeration(p: Post, commentId: string)
    requires WellModerated(p.comments)
    ensures WellModerated(ReportCommentIn(p, commentId).comments)
  {
    var r := ReportCommentIn(p, commentId).comments;
    assert forall i :: 0 <= i < |r| ==> LikesRank(r[i]) == LikesRank(p.comments[i]);
  }

  /** Deleting a comment keeps the invariant. */
  lemma DeleteCommentKeepsModeration(p: Post, commentId: string)
    requires WellModerated(p.comments)
    ensures WellModerated(DeleteComment(p, commentId).comments)
  {
    FilterKeepsSorted(p.comments, (c: Comment) => c.id != commentId, LikesRank);
    var r := DeleteComment(p, commentId).comments;
    forall i | 0 <= i < |r| && r[i].reportCount >= CommentHideThreshold
      ensures r[i].status == CommentStatus.Hidden
    {
      var k :| 0 <= k < |p.comments| && p.comments[k] == r[i];
    }
  }

  // ---------------------------------------------------------------------
  // Admin status changes

  /** Approval sets `active` whatever the status was. */
  function Approve(p: Post): (r: Post)
    ensures r.status == PostStatus.Active
    ensures r.(status := p.status) == p
  {
    p.(status := PostStatus.Active)
  }

  /** Rejection sets `rejected` whatever the status was. */
  function Reject(p: Post): (r: Post)
    ensures r.status == Rejected
    ensures r.(status := p.status) == p
  {
    p.(status := Rejected)
  }

  /** Approval is not guarded: it takes even a banned post back to active. */
  lemma ApproveLiftsBan(p: Post)
    requires p.status == Banned
    ensures Approve(p).status == PostStatus.Active && Approve(p).reportCount == p.reportCount
  {
  }

  /** The premium grant: the flag is set and the expiry day recorded. */
  function SetPremium(p: Post, until: int): (r: Post)
    ensures r.isPremium && r.premiumUntil == Some(until)
    ensures r.(isPremium := p.isPremium, premiumUntil := p.premiumUntil) == p
  {
    p.(isPremium := true, premiumUntil := Some(until))
  }

  /** The flags the admin can toggle. */
  datatype Flag = Urgent | Ad | Premium

  /** `{...p, [field]: !p[field]}`. */
  function ToggleFlag(p: Post, flag: Flag): (r: Post)
    ensures flag == Urgent ==> r.isUrgent == !p.isUrgent && r.isAd == p.isAd && r.isPremium == p.isPremium
    ensures flag == Ad ==> r.isAd == !p.isAd && r.isUrgent == p.isUrgent && r.isPremium == p.isPremium
    ensures flag == Premium ==> r.isPremium == !p.isPremium && r.isUrgent == p.isUrgent && r.isAd == p.isAd
    ensures r.(isUrgent := p.isUrgent, isAd := p.isAd, isPremium := p.isPremium) == p
  {
    match flag
    case Urgent => p.(isUrgent := !p.isUrgent)
    case Ad => p.(isAd := !p.isAd)
    case Premium => p.(isPremium := !p.isPremium)
  }

  /** Toggling the same flag twice restores the post. */
  lemma ToggleTwice(p: Post, flag: Flag)
    ensures ToggleFlag(ToggleFlag(p, flag), flag) == p
  {
  }

  // ---------------------------------------------------------------------
  // The post list

  /** `posts.map(p => p.id === id ? f(p) : p)`. */
  function UpdatePosts(posts: seq<Post>, id: string, f: Post -> Post): (r: seq<Post>)
    ensures |r| == |posts|
    ensures forall i :: 0 <= i < |posts| && posts[i].id != id ==> r[i] == posts[i]
    ensures forall i :: 0 <= i < |posts| && posts[i].id == id ==> r[i] == f(posts[i])
  {
    seq(|posts|, i requires 0 <= i < |posts| => if posts[i].id == id then f(posts[i]) else posts[i])
  }

  /** A handler given an id no post has leaves the list as it is. */
  lemma UpdateUnknownId(posts: seq<Post>, id: string, f: Post -> Post)
    requires forall i :: 0 <= i < |posts| ==> posts[i].id != id
    ensures UpdatePosts(posts, id, f) == posts
  {
  }

  /** `posts.filter(p => p.id !== id)`. */
  function DeletePost(posts: seq<Post>, id: string): (r: seq<Post>)
    ensures forall i :: 0 <= i < |r| ==> r[i].id != id
    ensures forall i :: 0 <= i < |posts| && posts[i].id != id ==> posts[i] in r
    ensures multiset(r) <= multiset(posts)
    ensures forall i :: 0 <= i < |posts| ==>
              multiset(r)[posts[i]] == if posts[i].id == id then 0 else multiset(posts)[posts[i]]
  {
    FilterMultiplicity(posts, (p: Post) => p.id != id);
    Filter(posts, (p: Post) => p.id != id)
  }

  /** Deletion goes post by post, so the posts that stay keep the order they
      had: deleting from two runs of posts is deleting from each run, and a
      single post stays exactly when its id differs. */
  lemma DeletePostKeepsOrder(a: seq<Post>, b: seq<Post>, id: string)
    ensures DeletePost(a + b, id) == DeletePost(a, id) + DeletePost(b, id)
    ensures |a| == 1 ==> DeletePost(a, id) == if a[0].id == id then [] else a
  {
    FilterAppend(a, b, (p: Post) => p.id != id);
    if |a| == 1 {
      assert a[1..] == [];
    }
  }
}
