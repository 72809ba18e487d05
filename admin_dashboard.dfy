/** The admin dashboard (AdminDashboard.tsx): its counters, the Views Top 5
    list (which sorts the application's own post list in place), the
    partnership tab with its guarded buttons, the comment table and the
    block form. */
module AdminDashboard {
  import opened Types
  import opened Seqs
  import opened Sorting
  import opened Moderation
  import opened App

  function IsPending(p: Post): bool {
    p.status == Pending
  }

  function IsPremium(p: Post): bool {
    p.isPremium
  }

  function IsPartnership(p: Post): bool {
    p.postType == Partnership
  }

  function CreatedOn(day: int): Post -> bool {
    (p: Post) => p.createdAt == day
  }

  /** "Pending Partners": the posts in `pending`, of any type. */
  function PendingCount(posts: seq<Post>): (n: nat)
    ensures n <= |posts|
    ensures n == 0 <==> forall i :: 0 <= i < |posts| ==> posts[i].status != Pending
  {
    Count(posts, IsPending)
  }

  /** `premiumActiveCount`: the posts flagged premium, whether or not their
      premium period has passed. */
  function PremiumActiveCount(posts: seq<Post>): (n: nat)
    ensures n <= |posts|
    ensures n == 0 <==> forall i :: 0 <= i < |posts| ==> !posts[i].isPremium
  {
    Count(posts, IsPremium)
  }

  /** `stats.newToday`: the posts created on `today`. */
  function NewToday(posts: seq<Post>, today: int): (n: nat)
    ensures n <= |posts|
    ensures n == 0 <==> forall i :: 0 <= i < |posts| ==> posts[i].createdAt != today
  {
    Count(posts, CreatedOn(today))
  }

  /** The premium counter ignores the recorded expiry day. */
  lemma PremiumCountIgnoresExpiry(posts: seq<Post>, id: string, until: int)
    requires forall i :: 0 <= i < |posts| && posts[i].id == id ==> posts[i].isPremium
    ensures PremiumActiveCount(UpdatePosts(posts, id, PremiumSetter(until))) == PremiumActiveCount(posts)
  {
    CountPointwise(UpdatePosts(posts, id, PremiumSetter(until)), posts, IsPremium);
  }

  /** The posts with id `id` that are pending. */
  function PendingWithId(id: string): Post -> bool {
    (p: Post) => p.id == id && p.status == Pending
  }

  /** A transition that takes every post it touches out of `pending`
      lowers the pending count by the pending posts with that id. */
  lemma {:induction false} LeavingPendingLowersCount(posts: seq<Post>, id: string, f: Post -> Post)
    requires forall i :: 0 <= i < |posts| && posts[i].id == id ==> f(posts[i]).status != Pending
    ensures Count(UpdatePosts(posts, id, f), IsPending) == Count(posts, IsPending) - Count(posts, PendingWithId(id))
  {
    if posts != [] {
      var updated := UpdatePosts(posts, id, f);
      assert updated[1..] == UpdatePosts(posts[1..], id, f);
      LeavingPendingLowersCount(posts[1..], id, f);
      CountCons(posts, IsPending);
      CountCons(posts, PendingWithId(id));
      CountCons(updated, IsPending);
    }
  }

  /** Approving or rejecting takes exactly the pending posts with that id off
      the pending counter. */
  lemma DecisionLowersPending(posts: seq<Post>, id: string)
    ensures PendingCount(UpdatePosts(posts, id, Approve)) == PendingCount(posts) - Count(posts, PendingWithId(id))
    ensures PendingCount(UpdatePosts(posts, id, Reject)) == PendingCount(posts) - Count(posts, PendingWithId(id))
  {
    LeavingPendingLowersCount(posts, id, Approve);
    LeavingPendingLowersCount(posts, id, Reject);
  }

  /** The views ranking. */
  function ViewsRank(p: Post): Rank {
    Rank(p.views, 0)
  }

  /** "Views Top 5": `posts.sort(byViews).slice(0, 5)`. The sort runs on the
      application's own array, so the stored post list is left in
      most-viewed-first order as a side effect. */
  method ViewsTopFive(portal: Portal) returns (top: seq<Post>)
    modifies portal
    ensures portal.posts == SortByRank(old(portal.posts), ViewsRank)
    ensures top == TopN(old(portal.posts), ViewsRank, 5)
    ensures portal.blacklist == old(portal.blacklist) && portal.markers == old(portal.markers)
    ensures old(portal.Valid()) ==> portal.Valid()
  {
    ghost var before := portal.posts;
    portal.posts := SortByRank(portal.posts, ViewsRank);
    top := Take(portal.posts, 5);
    if AllWellModerated(before) {
      forall i | 0 <= i < |portal.posts| ensures WellModerated(portal.posts[i].comments) {
        assert portal.posts[i] in multiset(before);
      }
    }
  }

  /** The list is at most five posts, most viewed first, and no post left
      out has more views than one shown. */
  lemma ViewsTopFiveIsTop(posts: seq<Post>)
    ensures var top := TopN(posts, ViewsRank, 5);
            && |top| <= 5
            && (forall i, j :: 0 <= i < j < |top| ==> top[i].views >= top[j].views)
            && (forall x, y :: x in top && y in multiset(posts) - multiset(top) ==> x.views >= y.views)
  {
    TopNByMajor(posts, ViewsRank, 5);
  }

  /** The partnership tab: exactly the partnership posts, each as often as
      it is stored. */
  function PartnershipPosts(posts: seq<Post>): (r: seq<Post>)
    ensures forall i :: 0 <= i < |r| ==> r[i].postType == Partnership && r[i] in posts
    ensures forall i :: 0 <= i < |posts| && posts[i].postType == Partnership ==> posts[i] in r
    ensures forall i :: 0 <= i < |posts| ==>
              multiset(r)[posts[i]] == if posts[i].postType == Partnership then multiset(posts)[posts[i]] else 0
  {
    FilterMultiplicity(posts, IsPartnership);
    Filter(posts, IsPartnership)
  }

  /** The tab is built post by post, so it lists the partnership posts in
      stored order. */
  lemma PartnershipTabKeepsOrder(a: seq<Post>, b: seq<Post>)
    ensures PartnershipPosts(a + b) == PartnershipPosts(a) + PartnershipPosts(b)
    ensures |a| == 1 ==> PartnershipPosts(a) == if a[0].postType == Partnership then a else []
  {
    FilterAppend(a, b, IsPartnership);
    if |a| == 1 {
      assert a[1..] == [];
    }
  }

  /** Approve and reject are offered only on the partnership tab, for a
      pending post. */
  predicate ShowDecisionButtons(p: Post) {
    p.postType == Partnership && p.status == Pending
  }

  /** "Set Premium (7d)" is offered only on the partnership tab, for an
      active post not yet premium. */
  predicate ShowSetPremium(p: Post) {
    p.postType == Partnership && !p.isPremium && p.status == PostStatus.Active
  }

  /** A partnership post has the decision buttons exactly while the pending
      counter counts it; a pending post of any other type is counted but
      has no buttons. Through the dashboard's buttons a banned post is never
      approved, and every button disappears once used. */
  lemma ButtonsGuardTheirActions(p: Post, until: int)
    ensures ShowDecisionButtons(p) <==> p.postType == Partnership && PendingCount([p]) == 1
    ensures p.postType != Partnership ==> !ShowDecisionButtons(p) && !ShowSetPremium(p)
    ensures p.postType != Partnership && p.status == Pending ==> PendingCount([p]) == 1 && !ShowDecisionButtons(p)
    ensures p.status == Banned ==> !ShowDecisionButtons(p) && !ShowSetPremium(p)
    ensures ShowDecisionButtons(p) ==> !ShowDecisionButtons(Approve(p)) && !ShowDecisionButtons(Reject(p))
    ensures ShowDecisionButtons(p) ==> ShowSetPremium(Approve(p)) == !p.isPremium
    ensures !ShowSetPremium(SetPremium(p, until))
  {
    CountCons([p], IsPending);
    assert [p][1..] == [];
  }

  /** One row of the comment table: the comment and its post's id and Korean
      title. */
  datatype CommentRow = CommentRow(comment: Comment, postId: string, postTitle: string)

  function CommentCount(p: Post): nat {
    |p.comments|
  }

  /** The rows for one post's comments, in order. */
  function RowsOf(p: Post): (r: seq<CommentRow>)
    ensures |r| == |p.comments|
    ensures forall j :: 0 <= j < |r| ==> r[j] == CommentRow(p.comments[j], p.id, p.titleKR)
  {
    seq(|p.comments|, j requires 0 <= j < |p.comments| => CommentRow(p.comments[j], p.id, p.titleKR))
  }

  /** `posts.flatMap(p => p.comments.map(c => ({...c, postId, postTitle})))`:
      every comment of every post, hidden ones included, post by post. */
  function AllComments(posts: seq<Post>): (r: seq<CommentRow>)
    ensures |r| == Sum(posts, CommentCount)
    ensures forall i, j :: 0 <= i < |posts| && 0 <= j < |posts[i].comments| ==>
              CommentRow(posts[i].comments[j], posts[i].id, posts[i].titleKR) in r
  {
    if posts == [] then []
    else
      var rest := AllComments(posts[1..]);
      var r := RowsOf(posts[0]) + rest;
      assert forall i, j :: 0 <= i < |posts| && 0 <= j < |posts[i].comments| ==>
               CommentRow(posts[i].comments[j], posts[i].id, posts[i].titleKR) in r by {
        forall i, j | 0 <= i < |posts| && 0 <= j < |posts[i].comments|
          ensures CommentRow(posts[i].comments[j], posts[i].id, posts[i].titleKR) in r
        {
          if i == 0 {
            assert r[j] == RowsOf(posts[0])[j];
          } else {
            assert posts[i] == posts[1..][i - 1];
          }
        }
      }
      r
  }

  /** The table is built post by post: the rows of two runs of posts are the
      two tables joined, and a single post gives its own rows, in comment
      order. */
  lemma {:induction false} AllCommentsKeepsOrder(a: seq<Post>, b: seq<Post>)
    ensures AllComments(a + b) == AllComments(a) + AllComments(b)
    ensures |a| == 1 ==> AllComments(a) == RowsOf(a[0])
  {
    if a == [] {
      assert a + b == b;
    } else {
      assert (a + b)[1..] == a[1..] + b;
      AllCommentsKeepsOrder(a[1..], b);
      if |a| == 1 {
        assert a[1..] == [];
      }
    }
  }

  /** Row `k` of the table lies in the first post's rows or in the rest. */
  lemma AllCommentsAt(posts: seq<Post>, k: nat)
    requires k < |AllComments(posts)|
    ensures posts != []
    ensures k < |posts[0].comments| ==> AllComments(posts)[k] == RowsOf(posts[0])[k]
    ensures k >= |posts[0].comments| ==>
              k - |posts[0].comments| < |AllComments(posts[1..])| &&
              AllComments(posts)[k] == AllComments(posts[1..])[k - |posts[0].comments|]
  {
  }

  /** Every row names a post of the list and one of that post's comments. */
  lemma {:induction false} CommentRowsComeFromPosts(posts: seq<Post>, k: nat)
    requires k < |AllComments(posts)|
    ensures exists i, j :: 0 <= i < |posts| && 0 <= j < |posts[i].comments| &&
              AllComments(posts)[k] == CommentRow(posts[i].comments[j], posts[i].id, posts[i].titleKR)
  {
    AllCommentsAt(posts, k);
    var n := |posts[0].comments|;
    if k < n {
      assert AllComments(posts)[k] == CommentRow(posts[0].comments[k], posts[0].id, posts[0].titleKR);
    } else {
      var rest := posts[1..];
      CommentRowsComeFromPosts(rest, k - n);
      var i, j :| 0 <= i < |rest| && 0 <= j < |rest[i].comments| &&
                  AllComments(rest)[k - n] == CommentRow(rest[i].comments[j], rest[i].id, rest[i].titleKR);
      assert rest[i] == posts[i + 1];
    }
  }

  /** The blacklist tab's input box. */
  class BlockForm {
    var blockVal: string

    constructor ()
      ensures blockVal == ""
    {
      blockVal := "";
    }

    /** BLOCK: hands the typed value (even an empty one) to the blacklist
        handler with the reason "Manual Block", then clears the box. */
    method Block() returns (value: string, reason: string)
      modifies this
      ensures value == old(blockVal) && reason == "Manual Block"
      ensures blockVal == ""
    {
      value, reason := blockVal, "Manual Block";
      blockVal := "";
    }
  }
}
