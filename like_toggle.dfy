/**
 * The pure half of the like button of `PostCard`: how the initial like state
 * is derived from the post, the optimistic prediction applied on a click, and
 * what those two promise together.
 */
module LikeToggle {
  import opened Wrappers

  /** One element of `post.likes`: who liked the post. */
  datatype Like = Like(userId: string)

  /** The fields of a post the like button reads; `likeCount` is `post._count.likes`. */
  datatype Post = Post(id: string, likes: seq<Like>, likeCount: nat)

  /** What the button shows: the heart (`hasLiked`) and the number beside it (`optimisticLikes`). */
  datatype LikeView = LikeView(hasLiked: bool, likes: int)

  /**
   * `likes.some((like) => like.userId === dbUserId)`. A signed-out viewer
   * (`dbUserId` null) matches no like, since a user id is always a string.
   */
  function SomeLikeBy(likes: seq<Like>, dbUserId: Option<string>): (r: bool)
    ensures r <==> exists i :: 0 <= i < |likes| && dbUserId == Some(likes[i].userId)
  {
    if likes == [] then false
    else dbUserId == Some(likes[0].userId) || SomeLikeBy(likes[1..], dbUserId)
  }

  /**
   * The state the button starts from when the card mounts, and the state a
   * failed toggle is reset to: liked iff the viewer is among the likers,
   * showing the post's stored like count.
   */
  function MountView(post: Post, dbUserId: Option<string>): (v: LikeView)
    ensures v.hasLiked <==> exists i :: 0 <= i < |post.likes| && dbUserId == Some(post.likes[i].userId)
    ensures v.likes == post.likeCount
  {
    LikeView(SomeLikeBy(post.likes, dbUserId), post.likeCount)
  }

  /**
   * The optimistic prediction of a click: the heart flips and the count moves
   * one step, down if the heart was on before the click and up if it was off.
   */
  function Flip(v: LikeView): (r: LikeView)
    ensures r.hasLiked != v.hasLiked
    ensures r.likes - v.likes == (if v.hasLiked then -1 else 1)
  {
    LikeView(!v.hasLiked, v.likes + (if v.hasLiked then -1 else 1))
  }

  /** The count the button shows for a given heart, relative to the state at mount. */
  function CountFor(mount: LikeView, hasLiked: bool): int {
    if hasLiked == mount.hasLiked then mount.likes
    else if mount.hasLiked then mount.likes - 1
    else mount.likes + 1
  }

  /** The invariant of the button: the count is determined by the heart. */
  predicate Consistent(mount: LikeView, v: LikeView) {
    v.likes == CountFor(mount, v.hasLiked)
  }

  /** Flipping twice is no change: a successful like followed by a successful unlike restores the view. */
  lemma FlipTwice(v: LikeView)
    ensures Flip(Flip(v)) == v
  {
  }

  /** The optimistic prediction keeps the invariant. */
  lemma FlipKeepsConsistent(mount: LikeView, v: LikeView)
    requires Consistent(mount, v)
    ensures Consistent(mount, Flip(v))
  {
  }

  /**
   * However often the viewer clicks, the count shown stays within one of the
   * stored count, and it differs from it exactly when the heart differs.
   */
  lemma ConsistentWithinOne(mount: LikeView, v: LikeView)
    requires Consistent(mount, v)
    ensures mount.likes - 1 <= v.likes <= mount.likes + 1
    ensures v.likes == mount.likes <==> v.hasLiked == mount.hasLiked
  {
  }

  /**
   * A failed toggle resets to the mount state. That equals the state just
   * before the click exactly when the heart then was as at mount, i.e. when
   * no net toggle has been confirmed since the card mounted.
   */
  lemma RollbackIsSnapshotIff(mount: LikeView, pre: LikeView)
    requires Consistent(mount, pre)
    ensures mount == pre <==> pre.hasLiked == mount.hasLiked
  {
  }

  /** The view after `n` clicks each confirmed by the server. */
  function Toggled(v: LikeView, n: nat): LikeView {
    if n == 0 then v else Flip(Toggled(v, n - 1))
  }

  /** `n` confirmed clicks amount to one click when `n` is odd and to none when it is even. */
  lemma {:induction false} ToggledParity(v: LikeView, n: nat)
    ensures Toggled(v, n) == if n % 2 == 0 then v else Flip(v)
  {
    if n > 0 {
      ToggledParity(v, n - 1);
      FlipTwice(v);
    }
  }

  /**
   * The post as the server stores it: one like per user at most, and
   * `_count.likes` counting the likes.
   */
  predicate Stored(post: Post) {
    post.likeCount == |post.likes| && DistinctLikers(post.likes)
  }

  /** No user appears twice among the likes. */
  predicate DistinctLikers(likes: seq<Like>) {
    likes == [] || (!SomeLikeBy(likes[1..], Some(likes[0].userId)) && DistinctLikers(likes[1..]))
  }

  /** A user has liked a concatenation iff they have liked one of its parts. */
  lemma {:induction false} SomeLikeByConcat(a: seq<Like>, b: seq<Like>)
    ensures forall u :: SomeLikeBy(a + b, u) == (SomeLikeBy(a, u) || SomeLikeBy(b, u))
  {
    if a == [] {
      assert a + b == b;
    } else {
      assert (a + b)[1..] == a[1..] + b;
      SomeLikeByConcat(a[1..], b);
    }
  }

  /** The likes with every like by `user` removed; the likes of other users stay. */
  function WithoutLikeBy(likes: seq<Like>, user: string): (r: seq<Like>)
    ensures !SomeLikeBy(r, Some(user))
    ensures forall v :: v != user ==> (SomeLikeBy(r, Some(v)) <==> SomeLikeBy(likes, Some(v)))
  {
    if likes == [] then []
    else
      var head := if likes[0].userId == user then [] else [likes[0]];
      var rest := WithoutLikeBy(likes[1..], user);
      SomeLikeByConcat(head, rest);
      head + rest
  }

  /** Removing the viewer's like keeps one like per user and removes exactly one like when there was one. */
  lemma {:induction false} WithoutLikeByStored(likes: seq<Like>, user: string)
    requires DistinctLikers(likes)
    ensures DistinctLikers(WithoutLikeBy(likes, user))
    ensures |WithoutLikeBy(likes, user)| == |likes| - (if SomeLikeBy(likes, Some(user)) then 1 else 0)
  {
    if likes != [] {
      WithoutLikeByStored(likes[1..], user);
      var rest := WithoutLikeBy(likes[1..], user);
      if likes[0].userId == user {
        assert WithoutLikeBy(likes, user) == rest;
      } else {
        var r := WithoutLikeBy(likes, user);
        assert r == [likes[0]] + rest && r[1..] == rest;
      }
    }
  }

  /** Adding a like for a user who has none keeps one like per user. */
  lemma {:induction false} AddLikeStored(likes: seq<Like>, user: string)
    requires DistinctLikers(likes) && !SomeLikeBy(likes, Some(user))
    ensures DistinctLikers(likes + [Like(user)])
    ensures SomeLikeBy(likes + [Like(user)], Some(user))
  {
    SomeLikeByConcat(likes, [Like(user)]);
    if likes != [] {
      AddLikeStored(likes[1..], user);
      assert (likes + [Like(user)])[1..] == likes[1..] + [Like(user)];
      SomeLikeByConcat(likes[1..], [Like(user)]);
    }
  }

  /**
   * What `toggleLike` is expected to do on the server: remove the viewer's
   * like if there is one, add one otherwise, and recount.
   */
  function ServerToggle(post: Post, user: string): Post {
    var likes := if SomeLikeBy(post.likes, Some(user)) then WithoutLikeBy(post.likes, user)
                 else post.likes + [Like(user)];
    post.(likes := likes, likeCount := |likes|)
  }

  /** One server toggle keeps the stored shape and moves the derived view exactly as the optimistic flip predicts. */
  lemma ServerToggleIsFlip(post: Post, user: string)
    requires Stored(post)
    ensures Stored(ServerToggle(post, user))
    ensures MountView(ServerToggle(post, user), Some(user)) == Flip(MountView(post, Some(user)))
  {
    if SomeLikeBy(post.likes, Some(user)) {
      WithoutLikeByStored(post.likes, user);
    } else {
      AddLikeStored(post.likes, user);
    }
  }

  /** The post after the viewer's `n` toggles, when no one else likes or unlikes it meanwhile. */
  function ServerToggled(post: Post, user: string, n: nat): Post {
    if n == 0 then post else ServerToggle(ServerToggled(post, user, n - 1), user)
  }

  /**
   * Confirmed optimistic toggles do not drift: after `n` of them the card
   * shows what a fresh mount on the stored post would show.
   */
  lemma {:induction false} ToggledMatchesServer(post: Post, user: string, n: nat)
    requires Stored(post)
    ensures Stored(ServerToggled(post, user, n))
    ensures Toggled(MountView(post, Some(user)), n) == MountView(ServerToggled(post, user, n), Some(user))
  {
    if n > 0 {
      ToggledMatchesServer(post, user, n - 1);
      ServerToggleIsFlip(ServerToggled(post, user, n - 1), user);
    }
  }
}
