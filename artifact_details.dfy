/** The like / dislike bookkeeping of the artifact detail page
    (src/pages/ArtifactDetails.jsx): two flags in component state, the
    `likedArtifacts` and `dislikedArtifacts` id lists in local storage, and the
    artifact's displayed `likeCount`. */
module ArtifactDetails {
  import opened Wrappers

  const LoginToLike := "Please login to like artifacts"
  const LoginToDislike := "Please login to dislike artifacts"
  const LikeFailed := "Failed to update like status"
  const DislikeFailed := "Failed to update dislike status"
  const LikedOk := "Artifact liked successfully!"
  const DislikedOk := "Artifact disliked"

  /** The server's answer to a `PATCH /artifacts/{id}/like` or `/dislike`.
      `Failed` is a request that throws before `success` is known: the fetch
      itself, `response.json()` on a malformed body, or reading `data.success`
      of an ok reply whose body is the JSON `null`. */
  datatype Reply = Failed | Answered(ok: bool, success: bool)

  /** The handler changes state only for an ok response whose `data.success` is truthy. */
  predicate Accepted(r: Reply) { r.Answered? && r.ok && r.success }

  /** A toast shown by a handler. */
  datatype Notice = Error(text: string) | Success(text: string)

  /** `artifact.likeCount || 0`: an absent count (or 0) reads as 0. */
  function Count(c: Option<int>): int
  {
    match c
    case None => 0
    case Some(n) => n
  }

  // ---------------------------------------------------------------------------
  // Removing an id from a stored list: `list.filter(artifactId => artifactId !== id)`
  // ---------------------------------------------------------------------------

  /** The list with every occurrence of `id` removed. */
  function Without(s: seq<string>, id: string): (r: seq<string>)
    ensures |r| <= |s|
    ensures forall x :: x in r <==> x in s && x != id
  {
    if s == [] then []
    else
      assert forall x :: x in s <==> x == s[0] || x in s[1..];
      (if s[0] == id then [] else [s[0]]) + Without(s[1..], id)
  }

  /** `t` is `s` with some elements left out, the rest in their original order. */
  predicate IsSubsequence(t: seq<string>, s: seq<string>)
    decreases |s|
  {
    t == [] || (s != [] && if t[0] == s[0] then IsSubsequence(t[1..], s[1..]) else IsSubsequence(t, s[1..]))
  }

  /** Filtering keeps the remaining ids in their original order. */
  lemma {:induction false} WithoutIsSubsequence(s: seq<string>, id: string)
    ensures IsSubsequence(Without(s, id), s)
  {
    if s != [] {
      WithoutIsSubsequence(s[1..], id);
      var r := Without(s, id);
      if s[0] != id {
        assert r[0] == s[0] && r[1..] == Without(s[1..], id);
      } else {
        assert r == Without(s[1..], id);
        if r != [] {
          assert r[0] in s[1..];
          assert r[0] != s[0];
        }
      }
    }
  }

  /** Filtering keeps every other id exactly as often as it occurred. */
  lemma {:induction false} WithoutKeepsOthers(s: seq<string>, id: string, x: string)
    requires x != id
    ensures multiset(Without(s, id))[x] == multiset(s)[x]
    ensures multiset(Without(s, id))[id] == 0
  {
    if s != [] {
      WithoutKeepsOthers(s[1..], id, x);
      assert s == [s[0]] + s[1..];
      assert multiset(s) == multiset([s[0]]) + multiset(s[1..]);
    }
  }

  /** A list that does not hold `id` is written back unchanged. */
  lemma {:induction false} WithoutAbsent(s: seq<string>, id: string)
    requires id !in s
    ensures Without(s, id) == s
  {
    if s != [] {
      assert id !in s[1..];
      WithoutAbsent(s[1..], id);
    }
  }

  // ---------------------------------------------------------------------------
  // The page's reaction state and its two transitions, as values
  // ---------------------------------------------------------------------------

  /** The state the two handlers read and write. */
  datatype Reactions = Reactions(
    hasLiked: bool,
    hasDisliked: bool,
    liked: seq<string>,      // local storage 'likedArtifacts'
    disliked: seq<string>,   // local storage 'dislikedArtifacts'
    likeCount: Option<int>)  // artifact.likeCount, None while absent

  /** The three states the buttons show. */
  datatype Mode = Neutral | LikedMode | DislikedMode

  predicate Exclusive(v: Reactions) { !(v.hasLiked && v.hasDisliked) }

  function ModeOf(v: Reactions): Mode
    requires Exclusive(v)
  {
    if v.hasLiked then LikedMode else if v.hasDisliked then DislikedMode else Neutral
  }

  /** The flags agree with the stored lists for this page's `id`, as the mount
      effect sets them. */
  predicate Consistent(v: Reactions, id: string)
  {
    v.hasLiked == (id in v.liked) && v.hasDisliked == (id in v.disliked)
  }

  /** The state after the mount effect reads both lists. */
  function Mounted(id: string, liked: seq<string>, disliked: seq<string>, likeCount: Option<int>): (v: Reactions)
    ensures Consistent(v, id)
    ensures v.liked == liked && v.disliked == disliked && v.likeCount == likeCount
  {
    Reactions(id in liked, id in disliked, liked, disliked, likeCount)
  }

  /** `handleLike`'s effect on the state. */
  function Liked(v: Reactions, id: string, signedIn: bool, reply: Reply): Reactions
  {
    if !signedIn || v.hasLiked || !Accepted(reply) then v
    else Reactions(
      true,
      false,
      v.liked + [id],
      if v.hasDisliked then Without(v.disliked, id) else v.disliked,
      Some(Count(v.likeCount) + if v.hasDisliked then 2 else 1))
  }

  /** `handleLike`'s toast. */
  function LikeNotice(v: Reactions, signedIn: bool, reply: Reply): Option<Notice>
  {
    if !signedIn then Some(Error(LoginToLike))
    else if v.hasLiked then None
    else if !reply.Answered? || !reply.ok then Some(Error(LikeFailed))
    else if reply.success then Some(Success(LikedOk))
    else None
  }

  /** `handleDislike` proceeds only from the liked (and not disliked) state. */
  predicate DislikeEnabled(v: Reactions) { !v.hasDisliked && v.hasLiked }

  /** `handleDislike`'s effect on the state. */
  function Disliked(v: Reactions, id: string, signedIn: bool, reply: Reply): Reactions
  {
    if !signedIn || !DislikeEnabled(v) || !Accepted(reply) then v
    else Reactions(
      false,
      true,
      Without(v.liked, id),
      v.disliked + [id],
      Some(if Count(v.likeCount) - 1 > 0 then Count(v.likeCount) - 1 else 0))
  }

  /** `handleDislike`'s toast. */
  function DislikeNotice(v: Reactions, signedIn: bool, reply: Reply): Option<Notice>
  {
    if !signedIn then Some(Error(LoginToDislike))
    else if !DislikeEnabled(v) then None
    else if !reply.Answered? || !reply.ok then Some(Error(DislikeFailed))
    else if reply.success then Some(Success(DislikedOk))
    else None
  }

  /** Liking an already liked artifact changes nothing and shows nothing. */
  lemma LikeWhenLikedIsNoop(v: Reactions, id: string, signedIn: bool, reply: Reply)
    requires v.hasLiked
    ensures Liked(v, id, signedIn, reply) == v
    ensures signedIn ==> LikeNotice(v, signedIn, reply).None?
  {
  }

  /** Disliking changes nothing unless the artifact is liked and not disliked. */
  lemma DislikeOnlyFromLiked(v: Reactions, id: string, signedIn: bool, reply: Reply)
    ensures Disliked(v, id, signedIn, reply) != v ==> v.hasLiked && !v.hasDisliked
  {
  }

  /** A request that fails, an error status or `success: false` leaves flags,
      lists and count as they were. */
  lemma RejectedReplyChangesNothing(v: Reactions, id: string, signedIn: bool, reply: Reply)
    requires !Accepted(reply)
    ensures Liked(v, id, signedIn, reply) == v
    ensures Disliked(v, id, signedIn, reply) == v
  {
  }

  /** A successful like: liked and not disliked, `id` appended to the liked list,
      removed from the disliked list when it was disliked, and the count raised
      by 1 from neutral and by 2 from disliked. */
  lemma SuccessfulLike(v: Reactions, id: string, reply: Reply)
    requires !v.hasLiked && Accepted(reply)
    ensures var w := Liked(v, id, true, reply);
      && w.hasLiked && !w.hasDisliked
      && w.liked == v.liked + [id]
      && (v.hasDisliked ==> id !in w.disliked && IsSubsequence(w.disliked, v.disliked))
      && (v.hasDisliked ==> forall x :: x != id ==> multiset(w.disliked)[x] == multiset(v.disliked)[x])
      && (!v.hasDisliked ==> w.disliked == v.disliked)
      && Count(w.likeCount) == Count(v.likeCount) + (if v.hasDisliked then 2 else 1)
  {
    WithoutIsSubsequence(v.disliked, id);
    forall x | x != id
      ensures multiset(Without(v.disliked, id))[x] == multiset(v.disliked)[x]
    {
      WithoutKeepsOthers(v.disliked, id, x);
    }
  }

  /** A successful dislike: every occurrence of `id` leaves the liked list, the
      others stay in order, `id` is appended to the disliked list, and the count
      drops by one but never below zero. */
  lemma SuccessfulDislike(v: Reactions, id: string, reply: Reply)
    requires DislikeEnabled(v) && Accepted(reply)
    ensures var w := Disliked(v, id, true, reply);
      && !w.hasLiked && w.hasDisliked
      && id !in w.liked && IsSubsequence(w.liked, v.liked)
      && (forall x :: x != id ==> multiset(w.liked)[x] == multiset(v.liked)[x])
      && w.disliked == v.disliked + [id]
      && Count(w.likeCount) >= 0
      && Count(w.likeCount) == (if Count(v.likeCount) >= 1 then Count(v.likeCount) - 1 else 0)
  {
    WithoutIsSubsequence(v.liked, id);
    forall x | x != id
      ensures multiset(Without(v.liked, id))[x] == multiset(v.liked)[x]
    {
      WithoutKeepsOthers(v.liked, id, x);
    }
  }

  /** Both handlers keep the flags in agreement with the stored lists. */
  lemma HandlersKeepConsistent(v: Reactions, id: string, signedIn: bool, reply: Reply)
    requires Consistent(v, id)
    ensures Consistent(Liked(v, id, signedIn, reply), id)
    ensures Consistent(Disliked(v, id, signedIn, reply), id)
  {
  }

  /** The transition table of the three states: like moves neutral and disliked
      to liked, dislike moves liked to disliked, and every other step, or a
      rejected reply, stays put. */
  lemma Transitions(v: Reactions, id: string, reply: Reply)
    requires Exclusive(v)
    ensures Exclusive(Liked(v, id, true, reply)) && Exclusive(Disliked(v, id, true, reply))
    ensures ModeOf(Liked(v, id, true, reply)) == if Accepted(reply) then LikedMode else ModeOf(v)
    ensures ModeOf(Disliked(v, id, true, reply))
            == if Accepted(reply) && ModeOf(v) == LikedMode then DislikedMode else ModeOf(v)
  {
  }

  /** A second like after a successful one is a no-op: liking is idempotent. */
  lemma LikeIdempotent(v: Reactions, id: string, r1: Reply, r2: Reply)
    ensures var w := Liked(v, id, true, r1);
      Accepted(r1) ==> Liked(w, id, true, r2) == w
  {
  }

  /** The local count is not restored by a like, dislike, like cycle: from a
      neutral count n it ends at n + 2, because a dislike from liked takes one
      away while a like from disliked adds two. */
  lemma LikeDislikeLikeCount(v: Reactions, id: string, reply: Reply)
    requires !v.hasLiked && !v.hasDisliked
    requires Count(v.likeCount) >= 0 && Accepted(reply)
    ensures var w := Liked(Disliked(Liked(v, id, true, reply), id, true, reply), id, true, reply);
      Count(w.likeCount) == Count(v.likeCount) + 2
  {
  }

  /** The page's reaction state for artifact `id`. Every handler runs as one
      atomic step; the flags are component state and the two lists stand for
      the local storage entries of the same name. */
  class ArtifactReactions {
    const id: string
    var hasLiked: bool
    var hasDisliked: bool
    var likedArtifacts: seq<string>
    var dislikedArtifacts: seq<string>
    var likeCount: Option<int>

    function View(): Reactions
      reads this
    {
      Reactions(hasLiked, hasDisliked, likedArtifacts, dislikedArtifacts, likeCount)
    }

    /** The mount effect: both flags are read from the stored lists. */
    constructor (id: string, liked: seq<string>, disliked: seq<string>, likeCount: Option<int>)
      ensures this.id == id
      ensures View() == Mounted(id, liked, disliked, likeCount)
    {
      this.id := id;
      hasLiked := id in liked;
      hasDisliked := id in disliked;
      likedArtifacts := liked;
      dislikedArtifacts := disliked;
      this.likeCount := likeCount;
    }

    /** `handleLike`. `signedIn` is whether a user is present; `reply` is the
        server's answer to the like request. */
    method HandleLike(signedIn: bool, reply: Reply) returns (notice: Option<Notice>)
      modifies this
      ensures View() == Liked(old(View()), id, signedIn, reply)
      ensures notice == LikeNotice(old(View()), signedIn, reply)
      ensures Consistent(old(View()), id) ==> Consistent(View(), id)
    {
      if Consistent(View(), id) {
        HandlersKeepConsistent(View(), id, signedIn, reply);
      }
      if !signedIn {
        return Some(Error(LoginToLike));
      }
      if hasLiked {
        return None;
      }
      if !reply.Answered? || !reply.ok {
        return Some(Error(LikeFailed));
      }
      notice := None;
      if reply.success {
        var wasDisliked := hasDisliked;
        if hasDisliked {
          dislikedArtifacts := Without(dislikedArtifacts, id);
          hasDisliked := false;
        }
        likedArtifacts := likedArtifacts + [id];
        hasLiked := true;
        likeCount := Some(Count(likeCount) + if wasDisliked then 2 else 1);
        notice := Some(Success(LikedOk));
      }
    }

    /** `handleDislike`. */
    method HandleDislike(signedIn: bool, reply: Reply) returns (notice: Option<Notice>)
      modifies this
      ensures View() == Disliked(old(View()), id, signedIn, reply)
      ensures notice == DislikeNotice(old(View()), signedIn, reply)
      ensures Consistent(old(View()), id) ==> Consistent(View(), id)
    {
      if Consistent(View(), id) {
        HandlersKeepConsistent(View(), id, signedIn, reply);
      }
      if !signedIn {
        return Some(Error(LoginToDislike));
      }
      if hasDisliked || (!hasLiked && !hasDisliked) {
        return None;
      }
      if !reply.Answered? || !reply.ok {
        return Some(Error(DislikeFailed));
      }
      notice := None;
      if reply.success {
        likedArtifacts := Without(likedArtifacts, id);
        hasLiked := false;
        dislikedArtifacts := dislikedArtifacts + [id];
        hasDisliked := true;
        var lowered := Count(likeCount) - 1;
        likeCount := Some(if 0 > lowered then 0 else lowered);
        notice := Some(Success(DislikedOk));
      }
    }
  }
}
