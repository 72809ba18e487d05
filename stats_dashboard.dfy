/** The statistics panel (StatsDashboard.tsx): totals over all posts, the
    per-category counts and the five most-liked posts. Every input is read,
    nothing is changed: the top list sorts a copy. */
module StatsDashboard {
  import opened Types
  import opened Seqs
  import opened Sorting
  import opened Moderation
  import opened App
  import opened AdminDashboard

  function LikesOf(p: Post): nat {
    p.likes
  }

  function ViewsOf(p: Post): nat {
    p.views
  }

  /** `totalLikes`. A missing counter would count as 0; here every post has one. */
  function TotalLikes(posts: seq<Post>): (n: nat)
    ensures forall i :: 0 <= i < |posts| ==> posts[i].likes <= n
    ensures n == 0 <==> forall i :: 0 <= i < |posts| ==> posts[i].likes == 0
  {
    SumZero(posts, LikesOf);
    forall i | 0 <= i < |posts| ensures posts[i].likes <= Sum(posts, LikesOf) {
      SumBoundsTerm(posts, LikesOf, i);
    }
    Sum(posts, LikesOf)
  }

  /** `totalViews`. */
  function TotalViews(posts: seq<Post>): (n: nat)
    ensures forall i :: 0 <= i < |posts| ==> posts[i].views <= n
    ensures n == 0 <==> forall i :: 0 <= i < |posts| ==> posts[i].views == 0
  {
    SumZero(posts, ViewsOf);
    forall i | 0 <= i < |posts| ensures posts[i].views <= Sum(posts, ViewsOf) {
      SumBoundsTerm(posts, ViewsOf, i);
    }
    Sum(posts, ViewsOf)
  }

  /** `totalComments`: every comment, hidden ones included, so it equals the
      number of rows of the admin comment table. */
  function TotalComments(posts: seq<Post>): (n: nat)
    ensures n == |AllComments(posts)|
  {
    Sum(posts, CommentCount)
  }

  function HasId(id: string): Post -> bool {
    (p: Post) => p.id == id
  }

  /** A transition that raises a counter by one on the posts with `id` raises
      the total by the number of those posts. */
  lemma {:induction false} BumpRaisesSum(posts: seq<Post>, id: string, f: Post -> Post, counter: Post -> nat)
    requires forall i :: 0 <= i < |posts| && posts[i].id == id ==> counter(f(posts[i])) == counter(posts[i]) + 1
    ensures Sum(UpdatePosts(posts, id, f), counter) == Sum(posts, counter) + Count(posts, HasId(id))
  {
    if posts != [] {
      var updated := UpdatePosts(posts, id, f);
      assert updated[1..] == UpdatePosts(posts[1..], id, f);
      BumpRaisesSum(posts[1..], id, f, counter);
      CountCons(posts, HasId(id));
    }
  }

  /** A counted like raises the total likes, and a view the total views, by
      one for each post with that id. */
  lemma TotalsFollowHandlers(posts: seq<Post>, id: string)
    ensures TotalLikes(UpdatePosts(posts, id, Reactor(Like))) == TotalLikes(posts) + Count(posts, HasId(id))
    ensures TotalViews(UpdatePosts(posts, id, IncrementView)) == TotalViews(posts) + Count(posts, HasId(id))
  {
    BumpRaisesSum(posts, id, Reactor(Like), LikesOf);
    BumpRaisesSum(posts, id, IncrementView, ViewsOf);
  }

  function OfType(c: CategoryType): Post -> bool {
    (p: Post) => p.postType == c
  }

  /** The number of posts of category `c`. */
  function CategoryCount(posts: seq<Post>, c: CategoryType): nat {
    Count(posts, OfType(c))
  }

  /** One step of the `reduce`: the entry for `c` created at 0 if absent,
      then raised by one. */
  function Bump(acc: map<CategoryType, nat>, c: CategoryType): map<CategoryType, nat> {
    acc[c := (if c in acc then acc[c] else 0) + 1]
  }

  /** `categoryStats`: an entry for each category that occurs, holding the
      number of posts of that category. */
  function CategoryStats(posts: seq<Post>): (m: map<CategoryType, nat>)
    ensures forall c :: c in m <==> CategoryCount(posts, c) > 0
    ensures forall c :: c in m ==> m[c] == CategoryCount(posts, c)
    decreases |posts|
  {
    if posts == [] then map[]
    else
      var init := posts[..|posts| - 1];
      var last := posts[|posts| - 1];
      var m := CategoryStats(init);
      forall c ensures CategoryCount(posts, c) == CategoryCount(init, c) + (if last.postType == c then 1 else 0) {
        CategoryCountSnoc(posts, c);
      }
      Bump(m, last.postType)
  }

  /** Adding a post at the end adds one to its own category's count. */
  lemma CategoryCountSnoc(posts: seq<Post>, c: CategoryType)
    requires posts != []
    ensures CategoryCount(posts, c)
         == CategoryCount(posts[..|posts| - 1], c) + (if posts[|posts| - 1].postType == c then 1 else 0)
  {
    var init := posts[..|posts| - 1];
    var last := posts[|posts| - 1];
    assert posts == init + [last];
    FilterAppend(init, [last], OfType(c));
    assert [last][1..] == [];
  }

  /** A category has an entry exactly when some post is of that category. */
  lemma CategoryStatsKeys(posts: seq<Post>, c: CategoryType)
    ensures c in CategoryStats(posts) <==> exists i :: 0 <= i < |posts| && posts[i].postType == c
  {
    if c !in CategoryStats(posts) {
      assert forall i :: 0 <= i < |posts| ==> !OfType(c)(posts[i]);
    } else {
      assert exists i :: 0 <= i < |posts| && OfType(c)(posts[i]);
    }
  }

  /** How many times `c` occurs in `cats`. */
  function Occurrences(cats: seq<CategoryType>, c: CategoryType): nat {
    if cats == [] then 0 else (if cats[0] == c then 1 else 0) + Occurrences(cats[1..], c)
  }

  /** The category counts of `posts` for each category of `cats`, added up. */
  function CountsOver(posts: seq<Post>, cats: seq<CategoryType>): nat {
    if cats == [] then 0 else CategoryCount(posts, cats[0]) + CountsOver(posts, cats[1..])
  }

  /** Taking the first post off: each category of `cats` loses it once for
      every time its category occurs there. */
  lemma {:induction false} CountsOverCons(posts: seq<Post>, cats: seq<CategoryType>)
    requires posts != []
    ensures CountsOver(posts, cats) == CountsOver(posts[1..], cats) + Occurrences(cats, posts[0].postType)
  {
    if cats != [] {
      CountsOverCons(posts, cats[1..]);
      CountCons(posts, OfType(cats[0]));
    }
  }

  /** A category listed once occurs once. */
  lemma {:induction false} OccursOnce(cats: seq<CategoryType>, c: CategoryType)
    requires c in cats
    requires forall i, j :: 0 <= i < j < |cats| ==> cats[i] != cats[j]
    ensures Occurrences(cats, c) == 1
  {
    if cats[0] == c {
      assert Occurrences(cats[1..], c) == 0 by {
        NotListedNone(cats[1..], c);
      }
    } else {
      OccursOnce(cats[1..], c);
    }
  }

  /** A category not listed does not occur. */
  lemma {:induction false} NotListedNone(cats: seq<CategoryType>, c: CategoryType)
    requires c !in cats
    ensures Occurrences(cats, c) == 0
  {
    if cats != [] {
      NotListedNone(cats[1..], c);
    }
  }

  /** Over a list naming each category once, the counts add up to the number
      of posts. */
  lemma {:induction false} CountsOverAll(posts: seq<Post>, cats: seq<CategoryType>)
    requires forall c: CategoryType :: c in cats
    requires forall i, j :: 0 <= i < j < |cats| ==> cats[i] != cats[j]
    ensures CountsOver(posts, cats) == |posts|
  {
    if posts == [] {
      ZeroCounts(cats);
    } else {
      CountsOverCons(posts, cats);
      OccursOnce(cats, posts[0].postType);
      CountsOverAll(posts[1..], cats);
    }
  }

  /** With no posts every count is zero. */
  lemma {:induction false} ZeroCounts(cats: seq<CategoryType>)
    ensures CountsOver([], cats) == 0
  {
    if cats != [] {
      ZeroCounts(cats[1..]);
    }
  }

  /** The entries of `categoryStats`, with an absent category read as 0,
      add up to the number of posts. */
  lemma CategoryStatsSumToTotal(posts: seq<Post>)
    ensures CountsOver(posts, AllCategories) == |posts|
    ensures forall c :: CategoryCount(posts, c) == (var m := CategoryStats(posts); if c in m then m[c] else 0)
  {
    CategoriesAreNine();
    CountsOverAll(posts, AllCategories);
  }

  /** The likes ranking. */
  function PostLikesRank(p: Post): Rank {
    Rank(p.likes, 0)
  }

  /** `topPosts`: a copy sorted by likes, cut to five. */
  function TopPosts(posts: seq<Post>): (r: seq<Post>)
    ensures |r| == if |posts| < 5 then |posts| else 5
    ensures multiset(r) <= multiset(posts)
  {
    TopN(posts, PostLikesRank, 5)
  }

  /** The top list has min(5, |posts|) posts, most liked first, all from the
      list, and no post left out has more likes than one shown. */
  lemma TopPostsAreTop(posts: seq<Post>)
    ensures var top := TopPosts(posts);
            && |top| == (if |posts| < 5 then |posts| else 5)
            && (forall i, j :: 0 <= i < j < |top| ==> top[i].likes >= top[j].likes)
            && multiset(top) <= multiset(posts)
            && (forall x, y :: x in top && y in multiset(posts) - multiset(top) ==> x.likes >= y.likes)
  {
    TopNByMajor(posts, PostLikesRank, 5);
  }

  /** Posts with equal likes keep their stored order in the sorted copy. */
  lemma TopPostsKeepTiesInOrder(posts: seq<Post>, likes: nat)
    ensures Filter(SortByRank(posts, PostLikesRank), HasRank(PostLikesRank, Rank(likes, 0)))
         == Filter(posts, HasRank(PostLikesRank, Rank(likes, 0)))
  {
    SortStable(posts, PostLikesRank, Rank(likes, 0));
  }
}
