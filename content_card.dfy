/** One listing card (ContentCard.tsx): the comment counter and list, which
    show only `active` comments, and the comment and inquiry composers, which
    refuse blank text and fill in an anonymous nickname. */
module ContentCard {
  import opened Types
  import opened Text
  import opened Seqs
  import opened Sorting
  import opened Moderation
  import opened Feed

  function IsShown(c: Comment): bool {
    c.status == CommentStatus.Active
  }

  /** The number on the comment button: the active comments only. */
  function ActiveCommentCount(cs: seq<Comment>): (n: nat)
    ensures n <= |cs|
    ensures n == 0 <==> forall i :: 0 <= i < |cs| ==> cs[i].status == CommentStatus.Hidden
  {
    Count(cs, IsShown)
  }

  /** What the open comment pane shows. */
  datatype CommentPane = EmptyState | Listing(shown: seq<Comment>)

  /** The active comments in their stored order, or the empty-state text when
      there are none. */
  function Pane(cs: seq<Comment>): (r: CommentPane)
    ensures r == EmptyState <==> forall i :: 0 <= i < |cs| ==> cs[i].status == CommentStatus.Hidden
    ensures r.Listing? ==> |r.shown| == ActiveCommentCount(cs) > 0
    ensures r.Listing? ==> forall i :: 0 <= i < |r.shown| ==> r.shown[i].status == CommentStatus.Active && r.shown[i] in cs
    ensures r.Listing? ==> forall i :: 0 <= i < |cs| && cs[i].status == CommentStatus.Active ==> cs[i] in r.shown
    ensures r.Listing? ==> forall i :: 0 <= i < |cs| ==>
              multiset(r.shown)[cs[i]] == if cs[i].status == CommentStatus.Active then multiset(cs)[cs[i]] else 0
  {
    FilterMultiplicity(cs, IsShown);
    if ActiveCommentCount(cs) > 0 then Listing(Filter(cs, IsShown)) else EmptyState
  }

  /** The pane lists comment by comment, so the shown comments keep their
      stored order: the listing of two runs of comments is the two listings
      joined. */
  lemma PaneKeepsOrder(a: seq<Comment>, b: seq<Comment>)
    ensures Pane(a + b).Listing? ==>
              Pane(a + b).shown == Filter(a, IsShown) + Filter(b, IsShown)
  {
    FilterAppend(a, b, IsShown);
  }

  /** A single comment is listed on its own iff it is active. */
  lemma PaneOfOne(c: Comment)
    ensures c.status == CommentStatus.Active ==> Pane([c]) == Listing([c])
    ensures c.status == CommentStatus.Hidden ==> Pane([c]) == EmptyState
  {
    assert [c][1..] == [];
  }

  /** Comments stored most-liked first, as moderation keeps them, are
      listed most-liked first. */
  lemma PaneMostLikedFirst(cs: seq<Comment>)
    requires WellModerated(cs)
    ensures Pane(cs).Listing? ==> SortedBy(Pane(cs).shown, LikesRank)
  {
    FilterKeepsSorted(cs, IsShown, LikesRank);
  }

  /** A new comment adds one to the counter, wherever the re-sort puts it. */
  lemma CountAfterNewComment(p: Post, c: Comment)
    requires c.status == CommentStatus.Active
    ensures ActiveCommentCount(AddComment(p, c).comments) == ActiveCommentCount(p.comments) + 1
  {
    CountPermutation(AddComment(p, c).comments, [c] + p.comments, IsShown);
    assert ([c] + p.comments)[1..] == p.comments;
  }

  /** Liking a comment never changes the counter. */
  lemma CountAfterLike(p: Post, commentId: string)
    ensures ActiveCommentCount(LikeCommentIn(p, commentId).comments) == ActiveCommentCount(p.comments)
  {
    var liked := UpdateComments(p.comments, commentId, LikeComment);
    CountPermutation(LikeCommentIn(p, commentId).comments, liked, IsShown);
    CountPointwise(liked, p.comments, IsShown);
  }

  /** A report takes one off the counter exactly when it hides an active
      comment, which happens at the third report. */
  lemma CountAfterReport(p: Post, commentId: string, i: nat)
    requires i < |p.comments| && p.comments[i].id == commentId
    requires forall j :: 0 <= j < |p.comments| && j != i ==> p.comments[j].id != commentId
    ensures ActiveCommentCount(ReportCommentIn(p, commentId).comments)
         == ActiveCommentCount(p.comments)
            - (if p.comments[i].status == CommentStatus.Active && p.comments[i].reportCount + 1 >= CommentHideThreshold then 1 else 0)
  {
    var cs := p.comments;
    var r := ReportCommentIn(p, commentId).comments;
    assert cs == cs[..i] + [cs[i]] + cs[i + 1..];
    assert r == r[..i] + [r[i]] + r[i + 1..];
    CountPointwise(r[..i], cs[..i], IsShown);
    CountPointwise(r[i + 1..], cs[i + 1..], IsShown);
    FilterAppend(cs[..i] + [cs[i]], cs[i + 1..], IsShown);
    FilterAppend(cs[..i], [cs[i]], IsShown);
    FilterAppend(r[..i] + [r[i]], r[i + 1..], IsShown);
    FilterAppend(r[..i], [r[i]], IsShown);
  }

  /** Comment `c` is active and the report about to be made is its third
      or later, so the report hides it. */
  function HiddenByReport(commentId: string): Comment -> bool {
    (c: Comment) => c.id == commentId && c.status == CommentStatus.Active && c.reportCount + 1 >= CommentHideThreshold
  }

  /** A report reaches every comment with that id, so the counter drops by
      the number of matching active comments whose new count reaches the
      threshold, however many comments share the id. */
  lemma {:induction false} CountAfterReports(cs: seq<Comment>, commentId: string)
    ensures ActiveCommentCount(UpdateComments(cs, commentId, ReportComment))
         == ActiveCommentCount(cs) - Count(cs, HiddenByReport(commentId))
  {
    if cs != [] {
      var r := UpdateComments(cs, commentId, ReportComment);
      assert r[1..] == UpdateComments(cs[1..], commentId, ReportComment);
      CountAfterReports(cs[1..], commentId);
      CountCons(cs, IsShown);
      CountCons(cs, HiddenByReport(commentId));
      CountCons(r, IsShown);
    }
  }

  /** `name || (lang === 'KR' ? '익명' : '匿名')`: only the empty name is
      replaced, so the handler never receives an empty name. */
  function NicknameOrDefault(name: string, lang: Language): (r: string)
    ensures r != ""
    ensures name != "" ==> r == name
    ensures name == "" ==> r == if lang == KR then "익명" else "匿名"
  {
    if name != "" then name else if lang == KR then "익명" else "匿名"
  }

  /** The arguments of `onAddComment`. */
  datatype CommentCall = CommentCall(postId: string, nickname: string, content: string)

  /** The arguments of `onAddInquiry`. */
  datatype InquiryCall = InquiryCall(postId: string, senderName: string, message: string)

  /** The comment form under one card. */
  class CommentComposer {
    const postId: string
    var nickname: string
    var text: string

    constructor (postId: string)
      ensures this.postId == postId && nickname == "" && text == ""
    {
      this.postId := postId;
      nickname := "";
      text := "";
    }

    /** `handleCommentSubmit`: blank text is dropped with nothing changed;
        otherwise the handler is called and the text box cleared, the
        nickname kept. */
    method Submit(lang: Language) returns (call: Option<CommentCall>)
      modifies this
      ensures IsBlank(old(text)) ==> call == None && text == old(text)
      ensures !IsBlank(old(text)) ==>
                call == Some(CommentCall(postId, NicknameOrDefault(old(nickname), lang), old(text))) && text == ""
      ensures nickname == old(nickname)
    {
      if IsBlank(text) {
        call := None;
      } else {
        call := Some(CommentCall(postId, NicknameOrDefault(nickname, lang), text));
        text := "";
      }
    }
  }

  /** Only partnership cards have the inquiry button. */
  predicate InquiryButtonShown(p: Post) {
    p.postType == Partnership
  }

  /** The inquiry form is on screen when it was opened and the card is a
      partnership card. */
  predicate InquiryFormShown(p: Post, isOpen: bool) {
    isOpen && p.postType == Partnership
  }

  /** Whatever the toggle did, the inquiry form is never on screen without
      the button. In the public feed a card with the button is an approved
      partnership on the partnership tab, and a proposal just submitted is
      not there at all, since it is stored as pending. */
  lemma InquiriesOnlyForApprovedPartners(posts: seq<Post>, v: View, p: Post, isOpen: bool)
    ensures InquiryFormShown(p, isOpen) ==> InquiryButtonShown(p)
    ensures !(v.isAdminLoggedIn && v.isAdminMode) && p in FilteredPosts(posts, v) && InquiryButtonShown(p)
            ==> p.status == PostStatus.Active && v.tab == Partnership
    ensures !(v.isAdminLoggedIn && v.isAdminMode) && p.postType == Partnership
            ==> Admit(p) !in FilteredPosts(posts, v)
  {
  }

  /** A comment posted through the card is counted at once and keeps the
      post's comments well moderated, wherever the re-sort puts it. */
  lemma PostedCommentIsCounted(p: Post, id: string, nickname: string, content: string, today: int)
    ensures ActiveCommentCount(AddComment(p, NewComment(id, nickname, content, today)).comments)
         == ActiveCommentCount(p.comments) + 1
    ensures WellModerated(p.comments) ==> WellModerated(AddComment(p, NewComment(id, nickname, content, today)).comments)
  {
    var c := NewComment(id, nickname, content, today);
    CountAfterNewComment(p, c);
    if WellModerated(p.comments) {
      AddCommentKeepsModeration(p, c);
    }
  }

  /** The inquiry form of a partnership card. */
  class InquiryComposer {
    const postId: string
    var name: string
    var text: string
    var isOpen: bool

    constructor (postId: string)
      ensures this.postId == postId && name == "" && text == "" && !isOpen
    {
      this.postId := postId;
      name := "";
      text := "";
      isOpen := false;
    }

    /** The inquiry button toggles the form. */
    method Toggle()
      modifies this
      ensures isOpen == !old(isOpen)
      ensures name == old(name) && text == old(text)
    {
      isOpen := !isOpen;
    }

    /** `handleInquirySubmit`: blank text is dropped with nothing changed;
        otherwise the handler is called, the text cleared and the form
        closed. */
    method Submit(lang: Language) returns (call: Option<InquiryCall>)
      modifies this
      ensures IsBlank(old(text)) ==> call == None && text == old(text) && isOpen == old(isOpen)
      ensures !IsBlank(old(text)) ==>
                && call == Some(InquiryCall(postId, NicknameOrDefault(old(name), lang), old(text)))
                && text == "" && !isOpen
      ensures name == old(name)
    {
      if IsBlank(text) {
        call := None;
      } else {
        call := Some(InquiryCall(postId, NicknameOrDefault(name, lang), text));
        text := "";
        isOpen := false;
      }
    }
  }

  /** Whitespace-only text never reaches a handler. */
  lemma WhitespaceNeverSubmitted(text: string)
    requires AllWhitespace(text)
    ensures IsBlank(text)
  {
    BlankIffAllWhitespace(text);
  }
}
