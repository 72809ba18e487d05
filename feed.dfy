/** Feed composition (`filteredPosts` in App.tsx): the posts of the active
    tab that match the search text and the region and that the viewer may
    see, premium posts first and newest first within each group. */
module Feed {
  import opened Types
  import opened Text
  import opened Seqs
  import opened Sorting

  /** What the viewer has selected. */
  datatype View = View(
    tab: CategoryType,
    query: string,
    region: string,
    isAdminLoggedIn: bool,
    isAdminMode: bool)

  /** The lower-cased query occurs in the lower-cased Korean title, Chinese
      title or (non-empty) shop name. */
  predicate MatchesSearch(p: Post, query: string) {
    var q := Lower(query);
    || Contains(Lower(p.titleKR), q)
    || Contains(Lower(p.titleCN), q)
    || (p.shopName.Some? && p.shopName.value != "" && Contains(Lower(p.shopName.value), q))
  }

  /** No region selected, or exactly the post's location. */
  predicate MatchesRegion(p: Post, region: string) {
    region == "" || p.location == region
  }

  /** An admin in admin mode sees every status; everyone else only `active`. */
  predicate IsVisible(p: Post, v: View) {
    (v.isAdminLoggedIn && v.isAdminMode) || p.status == PostStatus.Active
  }

  /** All four conditions of the filter. */
  predicate Shown(p: Post, v: View) {
    p.postType == v.tab && MatchesSearch(p, v.query) && MatchesRegion(p, v.region) && IsVisible(p, v)
  }

  function ShownIn(v: View): Post -> bool {
    p => Shown(p, v)
  }

  /** Premium first, then the later creation day first. */
  function FeedRank(p: Post): Rank {
    Rank(if p.isPremium then 1 else 0, p.createdAt)
  }

  /** The feed: exactly the posts passing the filter, each as often as in
      `posts`, premium before non-premium and newest first within each. */
  function FilteredPosts(posts: seq<Post>, v: View): (r: seq<Post>)
    ensures forall i :: 0 <= i < |r| ==> Shown(r[i], v) && r[i] in posts
    ensures forall i :: 0 <= i < |posts| && Shown(posts[i], v) ==> posts[i] in r
    ensures multiset(r) == multiset(Filter(posts, ShownIn(v)))
    ensures forall i, j :: 0 <= i < j < |r| && r[j].isPremium ==> r[i].isPremium
    ensures forall i, j :: 0 <= i < j < |r| && r[i].isPremium == r[j].isPremium ==> r[i].createdAt >= r[j].createdAt
  {
    var kept := Filter(posts, ShownIn(v));
    var r := SortByRank(kept, FeedRank);
    PermutationMembers(r, kept);
    PermutationMembers(kept, r);
    forall i | 0 <= i < |r| ensures r[i] in posts {
      var k :| 0 <= k < |kept| && kept[k] == r[i];
    }
    forall i | 0 <= i < |posts| && Shown(posts[i], v) ensures posts[i] in r {
      assert ShownIn(v)(posts[i]);
      var k :| 0 <= k < |kept| && kept[k] == posts[i];
    }
    FeedRankOrder(r);
    r
  }

  /** Sorted by the feed rank means premium first, then newest first. */
  lemma FeedRankOrder(r: seq<Post>)
    requires SortedBy(r, FeedRank)
    ensures forall i, j :: 0 <= i < j < |r| && r[j].isPremium ==> r[i].isPremium
    ensures forall i, j :: 0 <= i < j < |r| && r[i].isPremium == r[j].isPremium ==> r[i].createdAt >= r[j].createdAt
  {
    assert forall i, j :: 0 <= i < j < |r| ==> AtLeast(FeedRank(r[i]), FeedRank(r[j]));
  }

  /** Posts that tie on both keys keep the order they have in `posts`. */
  lemma FeedKeepsTiesInOrder(posts: seq<Post>, v: View, premium: bool, day: int)
    ensures
      var k := Rank(if premium then 1 else 0, day);
      Filter(FilteredPosts(posts, v), HasRank(FeedRank, k)) == Filter(Filter(posts, ShownIn(v)), HasRank(FeedRank, k))
  {
    SortStable(Filter(posts, ShownIn(v)), FeedRank, Rank(if premium then 1 else 0, day));
  }

  /** A post can only be in the feed of its own category. */
  lemma OtherTabExcludes(posts: seq<Post>, v: View, p: Post)
    requires p.postType != v.tab
    ensures p !in FilteredPosts(posts, v)
  {
  }

  /** A post that is not `active` is missing from the public feed and, if it
      matches, present in the admin feed. */
  lemma AdminBranchKeepsUnpublished(posts: seq<Post>, v: View, p: Post)
    requires p in posts && p.status != PostStatus.Active
    requires p.postType == v.tab && MatchesSearch(p, v.query) && MatchesRegion(p, v.region)
    ensures p !in FilteredPosts(posts, v.(isAdminMode := false))
    ensures p in FilteredPosts(posts, v.(isAdminLoggedIn := true, isAdminMode := true))
  {
    var i :| 0 <= i < |posts| && posts[i] == p;
  }

  // ---------------------------------------------------------------------
  // Worked scenarios

  /** A sample listing used by the scenarios below. */
  function Sample(id: string, postType: CategoryType, location: string, premium: bool, day: int, status: PostStatus): Post {
    Post(id, postType, "title", "title", "label", location, None, None, None, NoDetails,
         "desc", "desc", "138-0000-0000", None, day, day + 30, false, premium, false, status,
         0, 0, 0, 0, [], None, None)
  }

  /** Premium on day 1, plain on day 3, premium on day 2: the feed is the
      day-2 premium post, the day-1 premium post, then the plain one. */
  lemma PremiumFirstThenNewest()
    ensures
      var p1 := Sample("p1", Business, "x", true, 1, PostStatus.Active);
      var p2 := Sample("p2", Business, "x", false, 3, PostStatus.Active);
      var p3 := Sample("p3", Business, "x", true, 2, PostStatus.Active);
      FilteredPosts([p1, p2, p3], View(Business, "", "", false, false)) == [p3, p1, p2]
  {
    var p1 := Sample("p1", Business, "x", true, 1, PostStatus.Active);
    var p2 := Sample("p2", Business, "x", false, 3, PostStatus.Active);
    var p3 := Sample("p3", Business, "x", true, 2, PostStatus.Active);
    var v := View(Business, "", "", false, false);
    ContainsEmpty("title");
    assert Lower("") == "" && Lower("title") == "title";
    assert Shown(p1, v) && Shown(p2, v) && Shown(p3, v);
    FilterKeepsAll([p1, p2, p3], ShownIn(v));
    SortThree(p1, p2, p3, FeedRank);
  }

  /** Three elements whose ranks order them third, first, second (a step of
      the scenario above, not a property of the feed). */
  lemma SortThree<T>(a: T, b: T, c: T, rank: T -> Rank)
    requires AtLeast(rank(a), rank(b)) && !AtLeast(rank(a), rank(c)) && !AtLeast(rank(b), rank(c))
    ensures SortByRank([a, b, c], rank) == [c, a, b]
  {
    SortUnfold([a, b, c], rank);
    assert [a, b, c][1..] == [b, c];
    SortTwo(b, c, rank);
    InsertSecond(a, c, b, rank);
  }

  /** Sorting a non-empty sequence inserts its head into its sorted tail. */
  lemma SortUnfold<T>(s: seq<T>, rank: T -> Rank)
    requires s != []
    ensures SortByRank(s, rank) == Insert(s[0], SortByRank(s[1..], rank), rank)
  {
  }

  /** An element between the two of a pair goes between them. */
  lemma InsertSecond<T>(x: T, first: T, second: T, rank: T -> Rank)
    requires !AtLeast(rank(x), rank(first)) && AtLeast(rank(x), rank(second))
    ensures Insert(x, [first, second], rank) == [first, x, second]
  {
    assert [first, second][0] == first && [first, second][1..] == [second];
    InsertPast(x, [first, second], rank);
    InsertFront(x, [second], rank);
  }

  /** Two elements whose ranks order them second, first. */
  lemma SortTwo<T>(b: T, c: T, rank: T -> Rank)
    requires !AtLeast(rank(b), rank(c))
    ensures SortByRank([b, c], rank) == [c, b]
  {
    SortUnfold([c], rank);
    assert [c][1..] == [];
    InsertFront(c, [], rank);
    SortUnfold([b, c], rank);
    assert [b, c][1..] == [c];
    InsertPast(b, [c], rank);
    InsertFront(b, [], rank);
  }

  /** An active part-time post in Yanji: not in the recruitment feed, in the
      part-time feed for Yanji, not in the part-time feed for Hunchun. */
  lemma TabAndRegionScenario()
    ensures
      var p := Sample("p", PartTime, "연길 (延吉)", false, 1, PostStatus.Active);
      && FilteredPosts([p], View(Recruitment, "", "", false, false)) == []
      && FilteredPosts([p], View(PartTime, "", "연길 (延吉)", false, false)) == [p]
      && FilteredPosts([p], View(PartTime, "", "훈춘 (珲春)", false, false)) == []
  {
    var p := Sample("p", PartTime, "연길 (延吉)", false, 1, PostStatus.Active);
    ContainsEmpty("title");
    assert Lower("") == "" && Lower("title") == "title";
    assert [p][1..] == [];
    assert Shown(p, View(PartTime, "", "연길 (延吉)", false, false));
    assert !Shown(p, View(PartTime, "", "훈춘 (珲春)", false, false));
  }
}
