/**
 * The interaction state of one `PostCard`: the like button, the comment box
 * and the delete action. Every handler awaits one server action, so each is
 * split at its `await` into a `Begin…` method (everything up to the call) and
 * a `Complete…` method (the continuation, given how the call ended). Each
 * state setter is taken as an immediate field update.
 */
module PostCard {
  import opened Wrappers
  import opened LikeToggle
  import JsText

  /** How an awaited server action ended: it returned a result, or it threw. */
  datatype Outcome = Returned(success: bool) | Threw

  /** A server action issued by the card. */
  datatype RemoteCall =
    | ToggleLike(postId: string)
    | CreateComment(postId: string, content: string)
    | DeletePost(postId: string)

  /** A toast shown by the card. */
  datatype Toast = CommentPosted | CommentFailed | PostDeleted | DeleteFailed

  class CardState {
    const post: Post
    const dbUserId: Option<string>
    var hasLiked: bool
    var optimisticLikes: int
    var isLiking: bool
    var newComment: string
    var isCommenting: bool
    var isDeleting: bool
    /** The server actions issued so far, oldest first. */
    var calls: seq<RemoteCall>
    /** The toasts shown so far, oldest first. */
    var toasts: seq<Toast>

    /** The like state derived from the props, both at mount and on rollback. */
    function Mount(): LikeView {
      MountView(post, dbUserId)
    }

    function View(): LikeView
      reads this
    {
      LikeView(hasLiked, optimisticLikes)
    }

    predicate Valid()
      reads this
    {
      Consistent(Mount(), View())
    }

    /** Mounting the card: the like state comes from the post, everything else is idle and empty. */
    constructor (post: Post, dbUserId: Option<string>)
      ensures this.post == post && this.dbUserId == dbUserId
      ensures hasLiked <==> exists i :: 0 <= i < |post.likes| && dbUserId == Some(post.likes[i].userId)
      ensures optimisticLikes == post.likeCount
      ensures !isLiking && !isCommenting && !isDeleting && newComment == ""
      ensures calls == [] && toasts == []
      ensures Valid()
    {
      this.post := post;
      this.dbUserId := dbUserId;
      hasLiked := SomeLikeBy(post.likes, dbUserId);
      optimisticLikes := post.likeCount;
      isLiking := false;
      newComment := "";
      isCommenting := false;
      isDeleting := false;
      calls := [];
      toasts := [];
    }

    /**
     * `handleLike` up to `await toggleLike(post.id)`. While a toggle is in
     * flight a click changes nothing and calls nothing; otherwise the flag
     * is raised, the view flips optimistically (the step's sign read from
     * the heart before the flip) and one `toggleLike` is issued.
     */
    method BeginLike() returns (started: bool)
      requires Valid()
      modifies this
      ensures Valid()
      ensures started == !old(isLiking)
      ensures !started ==> unchanged(this)
      ensures started ==> isLiking && View() == Flip(old(View()))
      ensures started ==> calls == old(calls) + [ToggleLike(post.id)]
      ensures started ==> newComment == old(newComment) && isCommenting == old(isCommenting)
                          && isDeleting == old(isDeleting) && toasts == old(toasts)
    {
      if isLiking {
        return false;
      }
      FlipKeepsConsistent(Mount(), View());
      var wasLiked := hasLiked;
      isLiking := true;
      hasLiked := !hasLiked;
      optimisticLikes := optimisticLikes + (if wasLiked then -1 else 1);
      calls := calls + [ToggleLike(post.id)];
      started := true;
    }

    /**
     * The rest of `handleLike`. Whatever `toggleLike` returns, even a failure
     * result, the optimistic view is kept; only a throw resets the view, and
     * it resets to the mount state, not to the state before the click. The
     * flag is lowered in every case and no toast is shown.
     */
    method CompleteLike(outcome: Outcome)
      requires Valid() && isLiking
      modifies this
      ensures Valid() && !isLiking
      ensures outcome.Returned? ==> View() == old(View())
      ensures outcome.Threw? ==> View() == Mount()
      ensures newComment == old(newComment) && isCommenting == old(isCommenting)
      ensures isDeleting == old(isDeleting) && calls == old(calls) && toasts == old(toasts)
    {
      if outcome.Threw? {
        optimisticLikes := post.likeCount;
        hasLiked := SomeLikeBy(post.likes, dbUserId);
      }
      isLiking := false;
    }

    /** Typing in the comment box replaces the draft, also while a comment is being posted. */
    method EditComment(text: string)
      requires Valid()
      modifies this`newComment
      ensures Valid() && newComment == text
    {
      newComment := text;
    }

    /**
     * `handleAddComment` up to `await createComment(post.id, newComment)`.
     * A draft that trims to nothing, or a comment already being posted, makes
     * it return at once with no call; otherwise the flag is raised and the
     * untrimmed draft is sent. Nothing is shown optimistically.
     */
    method BeginComment() returns (started: bool)
      requires Valid()
      modifies this
      ensures Valid()
      ensures started == (JsText.Trim(old(newComment)) != "" && !old(isCommenting))
      ensures !started ==> unchanged(this)
      ensures started ==> isCommenting && calls == old(calls) + [CreateComment(post.id, old(newComment))]
      ensures started ==> newComment == old(newComment) && toasts == old(toasts) && isDeleting == old(isDeleting)
                          && View() == old(View()) && isLiking == old(isLiking)
    {
      if JsText.Trim(newComment) == "" || isCommenting {
        return false;
      }
      isCommenting := true;
      calls := calls + [CreateComment(post.id, newComment)];
      started := true;
    }

    /**
     * The rest of `handleAddComment`. Only a successful result clears the
     * draft (whatever it holds by then) with a success toast; a throw keeps
     * the draft with an error toast; a non-success result keeps the draft and
     * shows nothing. The flag is lowered in every case.
     */
    method CompleteComment(outcome: Outcome)
      requires Valid() && isCommenting
      modifies this
      ensures Valid()
      ensures !isCommenting
      ensures newComment == if outcome == Returned(true) then "" else old(newComment)
      ensures toasts == old(toasts) + match outcome
                                      case Returned(ok) => if ok then [CommentPosted] else []
                                      case Threw => [CommentFailed]
      ensures View() == old(View()) && isLiking == old(isLiking)
      ensures isDeleting == old(isDeleting) && calls == old(calls)
    {
      match outcome {
        case Returned(ok) =>
          if ok {
            toasts := toasts + [CommentPosted];
            newComment := "";
          }
        case Threw =>
          toasts := toasts + [CommentFailed];
      }
      isCommenting := false;
    }

    /**
     * `handleDeletePost` up to `await deletePost(post.id)`: nothing while a
     * delete is in flight, otherwise the flag is raised and one call issued.
     */
    method BeginDelete() returns (started: bool)
      requires Valid()
      modifies this
      ensures Valid()
      ensures started == !old(isDeleting)
      ensures !started ==> unchanged(this)
      ensures started ==> isDeleting && calls == old(calls) + [DeletePost(post.id)]
      ensures started ==> newComment == old(newComment) && isCommenting == old(isCommenting)
                          && View() == old(View()) && isLiking == old(isLiking) && toasts == old(toasts)
    {
      if isDeleting {
        return false;
      }
      isDeleting := true;
      calls := calls + [DeletePost(post.id)];
      started := true;
    }

    /**
     * The rest of `handleDeletePost`. A non-success result is rethrown, so
     * it ends exactly like a throw: an error toast. A success shows a success
     * toast. The flag is lowered in every case; the card changes nothing else.
     */
    method CompleteDelete(outcome: Outcome)
      requires Valid() && isDeleting
      modifies this
      ensures Valid()
      ensures !isDeleting
      ensures toasts == old(toasts) + [if outcome == Returned(true) then PostDeleted else DeleteFailed]
      ensures View() == old(View()) && isLiking == old(isLiking)
      ensures newComment == old(newComment) && isCommenting == old(isCommenting) && calls == old(calls)
    {
      if outcome == Returned(true) {
        toasts := toasts + [PostDeleted];
      } else {
        toasts := toasts + [DeleteFailed];
      }
      isDeleting := false;
    }
  }

  /**
   * A viewer who has not liked a post with 5 likes: a failed like shows
   * (false, 5) again, a confirmed like shows (true, 6) and a click while it
   * is in flight is dropped. A failed unlike afterwards shows (false, 5),
   * not the (true, 6) seen before that click, though the server holds the like.
   */
  method LikeScenario(id: string)
  {
    var post := Post(id, [], 5);
    var card := new CardState(post, Some("viewer"));
    assert card.View() == LikeView(false, 5);

    var started := card.BeginLike();
    card.CompleteLike(Threw);
    assert card.View() == LikeView(false, 5);

    started := card.BeginLike();
    assert started && card.View() == LikeView(true, 6);
    started := card.BeginLike();
    assert !started && card.View() == LikeView(true, 6) && |card.calls| == 2;
    card.CompleteLike(Returned(true));
    assert card.View() == LikeView(true, 6) && !card.isLiking;

    started := card.BeginLike();
    card.CompleteLike(Threw);
    assert card.View() == LikeView(false, 5) != LikeView(true, 6);
  }
}
