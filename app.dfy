/** The state App.tsx keeps (the post list, the blacklist and the markers it
    leaves in local storage) and the handlers that change it. Each handler
    applies one transition of `Moderation` to the posts whose id matches. */
module App {
  import opened Types
  import opened Seqs
  import opened Sorting
  import opened Moderation

  /** The local-storage keys the handlers set: `reacted_<post>_<kind>` and
      `comment_liked_<comment>`. */
  datatype Marker = Reacted(postId: string, kind: Reaction) | CommentLiked(commentId: string)

  // ---------------------------------------------------------------------
  // The handlers' transitions, one post at a time

  function Reactor(kind: Reaction): Post -> Post {
    p => React(p, kind)
  }

  function CommentAdder(c: Comment): Post -> Post {
    p => AddComment(p, c)
  }

  function CommentLiker(commentId: string): Post -> Post {
    p => LikeCommentIn(p, commentId)
  }

  function CommentReporter(commentId: string): Post -> Post {
    p => ReportCommentIn(p, commentId)
  }

  function CommentRemover(commentId: string): Post -> Post {
    p => DeleteComment(p, commentId)
  }

  function InquiryAdder(q: InquiryMessage): Post -> Post {
    p => AddInquiry(p, q)
  }

  function PremiumSetter(until: int): Post -> Post {
    p => SetPremium(p, until)
  }

  function FlagToggler(flag: Flag): Post -> Post {
    p => ToggleFlag(p, flag)
  }

  // ---------------------------------------------------------------------
  // One reaction per browser

  /** `handleReact`: the reaction counts unless this browser already made it
      on this post; either way the marker is set afterwards. */
  function ReactStep(posts: seq<Post>, markers: set<Marker>, postId: string, kind: Reaction): (r: (seq<Post>, set<Marker>))
    ensures Reacted(postId, kind) in markers ==> r.0 == posts
    ensures Reacted(postId, kind) !in markers ==> r.0 == UpdatePosts(posts, postId, Reactor(kind))
    ensures r.1 == markers + {Reacted(postId, kind)}
  {
    if Reacted(postId, kind) in markers then (posts, markers)
    else (UpdatePosts(posts, postId, Reactor(kind)), markers + {Reacted(postId, kind)})
  }

  /** Reacting the same way twice is reacting once. */
  lemma ReactTwiceIsOnce(posts: seq<Post>, markers: set<Marker>, postId: string, kind: Reaction)
    ensures var once := ReactStep(posts, markers, postId, kind);
            ReactStep(once.0, once.1, postId, kind) == once
  {
  }

  /** The counter of the reaction goes up by one on the post's first reaction
      of that kind from this browser, and not at all after that; the other
      counter never moves. */
  lemma ReactCountsOnce(posts: seq<Post>, markers: set<Marker>, postId: string, kind: Reaction, i: nat)
    requires i < |posts| && posts[i].id == postId
    ensures var after := ReactStep(posts, markers, postId, kind).0[i];
            var bump := if Reacted(postId, kind) in markers then 0 else 1;
            && after.likes == posts[i].likes + (if kind == Like then bump else 0)
            && after.dislikes == posts[i].dislikes + (if kind == Dislike then bump else 0)
            && after.(likes := posts[i].likes, dislikes := posts[i].dislikes) == posts[i]
  {
  }

  /** A like and a dislike are independent: from no markers, liking then
      disliking a post raises both counters by one. */
  lemma LikeThenDislike(posts: seq<Post>, postId: string, i: nat)
    requires i < |posts| && posts[i].id == postId
    ensures var liked := ReactStep(posts, {}, postId, Like);
            var both := ReactStep(liked.0, liked.1, postId, Dislike);
            both.0[i].likes == posts[i].likes + 1 && both.0[i].dislikes == posts[i].dislikes + 1
  {
    var liked := ReactStep(posts, {}, postId, Like);
    assert liked.0[i] == React(posts[i], Like);
    assert Reacted(postId, Dislike) !in liked.1;
  }

  /** `handleCommentLike`: the like counts unless this browser already liked
      a comment with that id (in any post); the marker is set either way. */
  function CommentLikeStep(posts: seq<Post>, markers: set<Marker>, postId: string, commentId: string): (r: (seq<Post>, set<Marker>))
    ensures CommentLiked(commentId) in markers ==> r.0 == posts
    ensures CommentLiked(commentId) !in markers ==> r.0 == UpdatePosts(posts, postId, CommentLiker(commentId))
    ensures r.1 == markers + {CommentLiked(commentId)}
  {
    if CommentLiked(commentId) in markers then (posts, markers)
    else (UpdatePosts(posts, postId, CommentLiker(commentId)), markers + {CommentLiked(commentId)})
  }

  /** Once a comment id is liked, liking it again, in the same post or any
      other, changes nothing. */
  lemma CommentLikedOnce(posts: seq<Post>, markers: set<Marker>, postId: string, otherPostId: string, commentId: string)
    ensures var once := CommentLikeStep(posts, markers, postId, commentId);
            CommentLikeStep(once.0, once.1, otherPostId, commentId) == once
  {
  }

  // ---------------------------------------------------------------------
  // The comment invariant over the whole list

  /** Every post's comments are most-liked first, and every comment at the
      hiding threshold is hidden. */
  predicate AllWellModerated(posts: seq<Post>) {
    forall i :: 0 <= i < |posts| ==> WellModerated(posts[i].comments)
  }

  /** The comment handlers keep the invariant: a new comment starts with no
      reports, likes re-sort, reports hide at the threshold, deletion keeps
      the rest in order. */
  lemma {:induction false} CommentHandlersKeepModeration(posts: seq<Post>, postId: string, commentId: string, c: Comment)
    requires AllWellModerated(posts)
    requires c.reportCount < CommentHideThreshold
    ensures AllWellModerated(UpdatePosts(posts, postId, CommentAdder(c)))
    ensures AllWellModerated(UpdatePosts(posts, postId, CommentLiker(commentId)))
    ensures AllWellModerated(UpdatePosts(posts, postId, CommentReporter(commentId)))
    ensures AllWellModerated(UpdatePosts(posts, postId, CommentRemover(commentId)))
  {
    forall i | 0 <= i < |posts| && posts[i].id == postId
      ensures WellModerated(AddComment(posts[i], c).comments)
      ensures WellModerated(LikeCommentIn(posts[i], commentId).comments)
      ensures WellModerated(ReportCommentIn(posts[i], commentId).comments)
      ensures WellModerated(DeleteComment(posts[i], commentId).comments)
    {
      AddCommentKeepsModeration(posts[i], c);
      LikeCommentKeepsModeration(posts[i], commentId);
      ReportCommentKeepsModeration(posts[i], commentId);
      DeleteCommentKeepsModeration(posts[i], commentId);
    }
  }

  /** A transition that leaves each post's comments as they are keeps the
      invariant. */
  lemma UpdateKeepsModeration(posts: seq<Post>, id: string, f: Post -> Post)
    requires AllWellModerated(posts)
    requires forall i :: 0 <= i < |posts| ==> f(posts[i]).comments == posts[i].comments
    ensures AllWellModerated(UpdatePosts(posts, id, f))
  {
  }

  /** The handlers that do not touch comments keep the invariant. */
  lemma PostHandlersKeepModeration(posts: seq<Post>, id: string, kind: Reaction, q: InquiryMessage, until: int, flag: Flag)
    requires AllWellModerated(posts)
    ensures AllWellModerated(UpdatePosts(posts, id, ReportPost))
    ensures AllWellModerated(UpdatePosts(posts, id, Reactor(kind)))
    ensures AllWellModerated(UpdatePosts(posts, id, IncrementView))
    ensures AllWellModerated(UpdatePosts(posts, id, InquiryAdder(q)))
    ensures AllWellModerated(UpdatePosts(posts, id, Approve))
    ensures AllWellModerated(UpdatePosts(posts, id, Reject))
    ensures AllWellModerated(UpdatePosts(posts, id, PremiumSetter(until)))
    ensures AllWellModerated(UpdatePosts(posts, id, FlagToggler(flag)))
    ensures AllWellModerated(DeletePost(posts, id))
  {
    UpdateKeepsModeration(posts, id, ReportPost);
    UpdateKeepsModeration(posts, id, Reactor(kind));
    UpdateKeepsModeration(posts, id, IncrementView);
    UpdateKeepsModeration(posts, id, InquiryAdder(q));
    UpdateKeepsModeration(posts, id, Approve);
    UpdateKeepsModeration(posts, id, Reject);
    UpdateKeepsModeration(posts, id, PremiumSetter(until));
    UpdateKeepsModeration(posts, id, FlagToggler(flag));
    var r := DeletePost(posts, id);
    forall i | 0 <= i < |r| ensures WellModerated(r[i].comments) {
      var k :| 0 <= k < |posts| && posts[k] == r[i];
    }
  }

  /** A submitted post whose own comments are in order keeps the invariant. */
  lemma AddPostKeepsModeration(posts: seq<Post>, post: Post)
    requires AllWellModerated(posts) && WellModerated(post.comments)
    ensures AllWellModerated([Admit(post)] + posts)
  {
    assert forall i :: 1 <= i < |posts| + 1 ==> ([Admit(post)] + posts)[i] == posts[i - 1];
  }

  // ---------------------------------------------------------------------
  // The application state

  class Portal {
    /** The banned-word list the submission gate checks against. */
    const bannedWords: seq<string>
    var posts: seq<Post>
    var blacklist: seq<BlacklistItem>
    var markers: set<Marker>

    /** The comment invariant; every handler keeps it. */
    ghost predicate Valid()
      reads this
    {
      AllWellModerated(posts)
    }

    /** The state as loaded from storage (or the seed list, whose posts have
        no comments yet): a list these handlers produced, so its comments
        already meet the invariant. */
    constructor (bannedWords: seq<string>, posts: seq<Post>, blacklist: seq<BlacklistItem>, markers: set<Marker>)
      requires AllWellModerated(posts)
      ensures Valid()
      ensures this.bannedWords == bannedWords && this.posts == posts
      ensures this.blacklist == blacklist && this.markers == markers
    {
      this.bannedWords := bannedWords;
      this.posts := posts;
      this.blacklist := blacklist;
      this.markers := markers;
    }

    /** `handleAddPost`: refused if the phone is blacklisted, then if a banned
        word is in the Korean title or description; otherwise put in front,
        partnership proposals as `pending`. */
    method HandleAddPost(post: Post) returns (outcome: Admission)
      modifies this
      ensures outcome == Gate(old(blacklist), bannedWords, post)
      ensures outcome == Admitted ==> posts == [Admit(post)] + old(posts)
      ensures outcome != Admitted ==> posts == old(posts)
      ensures blacklist == old(blacklist) && markers == old(markers)
      ensures old(Valid()) && WellModerated(post.comments) ==> Valid()
    {
      outcome := Gate(blacklist, bannedWords, post);
      if outcome == Admitted {
        if Valid() && WellModerated(post.comments) {
          AddPostKeepsModeration(posts, post);
        }
        posts := [Admit(post)] + posts;
      }
    }

    /** `handleAddComment`: refused if the content holds a banned word;
        otherwise the new comment goes into the post and its comments are
        re-sorted by likes. */
    method HandleAddComment(postId: string, commentId: string, nickname: string, content: string, today: int) returns (accepted: bool)
      modifies this
      ensures accepted <==> !CheckBannedWords(bannedWords, content)
      ensures posts == if accepted then UpdatePosts(old(posts), postId, CommentAdder(NewComment(commentId, nickname, content, today)))
                       else old(posts)
      ensures blacklist == old(blacklist) && markers == old(markers)
      ensures old(Valid()) ==> Valid()
    {
      accepted := !CheckBannedWords(bannedWords, content);
      if accepted {
        var c := NewComment(commentId, nickname, content, today);
        if Valid() {
          CommentHandlersKeepModeration(posts, postId, commentId, c);
        }
        posts := UpdatePosts(posts, postId, CommentAdder(c));
      }
    }

    /** `handleCommentLike`. */
    method HandleCommentLike(postId: string, commentId: string)
      modifies this
      ensures (posts, markers) == CommentLikeStep(old(posts), old(markers), postId, commentId)
      ensures blacklist == old(blacklist)
      ensures old(Valid()) ==> Valid()
    {
      if CommentLiked(commentId) !in markers {
        if Valid() {
          CommentHandlersKeepModeration(posts, postId, commentId, NewComment("", "", "", 0));
        }
        posts := UpdatePosts(posts, postId, CommentLiker(commentId));
        markers := markers + {CommentLiked(commentId)};
      }
    }

    /** `handleReportPost`. */
    method HandleReportPost(postId: string)
      modifies this
      ensures posts == UpdatePosts(old(posts), postId, ReportPost)
      ensures blacklist == old(blacklist) && markers == old(markers)
      ensures old(Valid()) ==> Valid()
    {
      if Valid() {
        PostHandlersKeepModeration(posts, postId, Like, InquiryMessage("", "", "", 0), 0, Urgent);
      }
      posts := UpdatePosts(posts, postId, ReportPost);
    }

    /** `handleReportComment`. */
    method HandleReportComment(postId: string, commentId: string)
      modifies this
      ensures posts == UpdatePosts(old(posts), postId, CommentReporter(commentId))
      ensures blacklist == old(blacklist) && markers == old(markers)
      ensures old(Valid()) ==> Valid()
    {
      if Valid() {
        CommentHandlersKeepModeration(posts, postId, commentId, NewComment("", "", "", 0));
      }
      posts := UpdatePosts(posts, postId, CommentReporter(commentId));
    }

    /** `handleReact`. */
    method HandleReact(postId: string, kind: Reaction)
      modifies this
      ensures (posts, markers) == ReactStep(old(posts), old(markers), postId, kind)
      ensures blacklist == old(blacklist)
      ensures old(Valid()) ==> Valid()
    {
      if Reacted(postId, kind) !in markers {
        if Valid() {
          PostHandlersKeepModeration(posts, postId, kind, InquiryMessage("", "", "", 0), 0, Urgent);
        }
        posts := UpdatePosts(posts, postId, Reactor(kind));
        markers := markers + {Reacted(postId, kind)};
      }
    }

    /** `handleAddInquiry`: refused if the message holds a banned word;
        otherwise appended to the post's inquiries. */
    method HandleAddInquiry(postId: string, inquiryId: string, senderName: string, message: string, today: int) returns (accepted: bool)
      modifies this
      ensures accepted <==> !CheckBannedWords(bannedWords, message)
      ensures posts == if accepted then UpdatePosts(old(posts), postId, InquiryAdder(InquiryMessage(inquiryId, senderName, message, today)))
                       else old(posts)
      ensures blacklist == old(blacklist) && markers == old(markers)
      ensures old(Valid()) ==> Valid()
    {
      accepted := !CheckBannedWords(bannedWords, message);
      if accepted {
        var q := InquiryMessage(inquiryId, senderName, message, today);
        if Valid() {
          PostHandlersKeepModeration(posts, postId, Like, q, 0, Urgent);
        }
        posts := UpdatePosts(posts, postId, InquiryAdder(q));
      }
    }

    /** `incrementView`. */
    method IncrementViewOf(postId: string)
      modifies this
      ensures posts == UpdatePosts(old(posts), postId, IncrementView)
      ensures blacklist == old(blacklist) && markers == old(markers)
      ensures old(Valid()) ==> Valid()
    {
      if Valid() {
        PostHandlersKeepModeration(posts, postId, Like, InquiryMessage("", "", "", 0), 0, Urgent);
      }
      posts := UpdatePosts(posts, postId, IncrementView);
    }

    /** `handleApprovePartnership`. */
    method HandleApprovePartnership(id: string)
      modifies this
      ensures posts == UpdatePosts(old(posts), id, Approve)
      ensures blacklist == old(blacklist) && markers == old(markers)
      ensures old(Valid()) ==> Valid()
    {
      if Valid() {
        PostHandlersKeepModeration(posts, id, Like, InquiryMessage("", "", "", 0), 0, Urgent);
      }
      posts := UpdatePosts(posts, id, Approve);
    }

    /** `handleRejectPartnership`. */
    method HandleRejectPartnership(id: string)
      modifies this
      ensures posts == UpdatePosts(old(posts), id, Reject)
      ensures blacklist == old(blacklist) && markers == old(markers)
      ensures old(Valid()) ==> Valid()
    {
      if Valid() {
        PostHandlersKeepModeration(posts, id, Like, InquiryMessage("", "", "", 0), 0, Urgent);
      }
      posts := UpdatePosts(posts, id, Reject);
    }

    /** `handleSetPremium`: premium until `days` days after `today`. */
    method HandleSetPremium(id: string, days: int, today: int)
      modifies this
      ensures posts == UpdatePosts(old(posts), id, PremiumSetter(today + days))
      ensures blacklist == old(blacklist) && markers == old(markers)
      ensures old(Valid()) ==> Valid()
    {
      if Valid() {
        PostHandlersKeepModeration(posts, id, Like, InquiryMessage("", "", "", 0), today + days, Urgent);
      }
      posts := UpdatePosts(posts, id, PremiumSetter(today + days));
    }

    /** `onDeletePost`. */
    method OnDeletePost(id: string)
      modifies this
      ensures posts == DeletePost(old(posts), id)
      ensures blacklist == old(blacklist) && markers == old(markers)
      ensures old(Valid()) ==> Valid()
    {
      if Valid() {
        PostHandlersKeepModeration(posts, id, Like, InquiryMessage("", "", "", 0), 0, Urgent);
      }
      posts := DeletePost(posts, id);
    }

    /** `onToggleStatus`. */
    method OnToggleStatus(id: string, flag: Flag)
      modifies this
      ensures posts == UpdatePosts(old(posts), id, FlagToggler(flag))
      ensures blacklist == old(blacklist) && markers == old(markers)
      ensures old(Valid()) ==> Valid()
    {
      if Valid() {
        PostHandlersKeepModeration(posts, id, Like, InquiryMessage("", "", "", 0), 0, flag);
      }
      posts := UpdatePosts(posts, id, FlagToggler(flag));
    }

    /** `onAddBlacklist`: a phone block appended, with no expiry. */
    method OnAddBlacklist(itemId: string, value: string, reason: string, today: int)
      modifies this
      ensures blacklist == old(blacklist) + [BlacklistItem(itemId, Phone, value, reason, today, None)]
      ensures posts == old(posts) && markers == old(markers)
    {
      blacklist := blacklist + [BlacklistItem(itemId, Phone, value, reason, today, None)];
    }

    /** `onDeleteComment`. */
    method OnDeleteComment(postId: string, commentId: string)
      modifies this
      ensures posts == UpdatePosts(old(posts), postId, CommentRemover(commentId))
      ensures blacklist == old(blacklist) && markers == old(markers)
      ensures old(Valid()) ==> Valid()
    {
      if Valid() {
        CommentHandlersKeepModeration(posts, postId, commentId, NewComment("", "", "", 0));
      }
      posts := UpdatePosts(posts, postId, CommentRemover(commentId));
    }
  }

  /** After an admin blocks a phone, every later submission with that phone
      is refused as blocked. */
  lemma BlockedAfterBlacklisting(blacklist: seq<BlacklistItem>, words: seq<string>, itemId: string, reason: string, today: int, post: Post)
    ensures Gate(blacklist + [BlacklistItem(itemId, Phone, post.phoneNumber, reason, today, None)], words, post) == Blocked
  {
    var b := blacklist + [BlacklistItem(itemId, Phone, post.phoneNumber, reason, today, None)];
    GateOrder(b, words, post);
    assert b[|blacklist|].value == post.phoneNumber;
  }
}
