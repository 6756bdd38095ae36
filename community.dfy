/** The community gallery: the optimistic like toggle and the `liked` flag. */
module Community {
  import opened Base
  import opened ClientCreation

  /** `likes.filter(uid => uid !== user)`: every occurrence of `user` goes,
      every other id keeps its occurrences, in their original order. */
  function Without(likes: seq<UserId>, user: UserId): (r: seq<UserId>)
    ensures r == Filter(likes, v => v != user)
    ensures user !in r
    ensures forall v :: v != user ==> Count(r, v) == Count(likes, v)
    ensures |r| == |likes| - Count(likes, user)
  {
    var keep := v => v != user;
    var r := Filter(likes, keep);
    FilterCount(likes, keep, user);
    CountPositiveIff(r, user);
    forall v | v != user ensures Count(r, v) == Count(likes, v) {
      FilterCount(likes, keep, v);
    }
    WithoutLength(likes, user);
    r
  }

  lemma {:induction false} WithoutLength(likes: seq<UserId>, user: UserId)
    ensures |Filter(likes, v => v != user)| == |likes| - Count(likes, user)
  {
    if likes != [] {
      WithoutLength(likes[1..], user);
    }
  }

  /** The new `likes` of the toggled item: unlike removes every occurrence of
      the user, like appends the user at the end. */
  function ToggledLikes(likes: seq<UserId>, user: UserId): (r: seq<UserId>)
    ensures user in r <==> user !in likes
    ensures user !in likes ==> r == likes + [user]
    ensures user in likes ==> |r| < |likes|
    ensures forall v :: v != user ==> (v in r <==> v in likes)
  {
    if user in likes then
      CountPositiveIff(likes, user);
      var r := Without(likes, user);
      forall v | v != user ensures v in r <==> v in likes {
        CountPositiveIff(likes, v);
        CountPositiveIff(r, v);
      }
      r
    else likes + [user]
  }

  /** Liking and then unliking restores the exact list. */
  lemma ToggleTwiceFromUnliked(likes: seq<UserId>, user: UserId)
    requires user !in likes
    ensures ToggledLikes(ToggledLikes(likes, user), user) == likes
  {
    var keep := v => v != user;
    FilterAppend(likes, [user], keep);
    FilterAll(likes, keep);
    assert Filter([user], keep) == [];
  }

  /** Unliking and then liking restores membership of every id ... */
  lemma ToggleTwiceFromLiked(likes: seq<UserId>, user: UserId, v: UserId)
    requires user in likes
    ensures v in ToggledLikes(ToggledLikes(likes, user), user) <==> v in likes
  {
  }

  /** ... but not the list itself: the user moves to the end. */
  lemma ToggleTwiceReorders()
    ensures ToggledLikes(ToggledLikes(["a", "b"], "a"), "a") == ["b", "a"]
  {
    assert "a" in ["a", "b"];
    assert Without(["a", "b"], "a") == ["b"] by {
      assert ["a", "b"][1..] == ["b"];
      assert ["b"][1..] == [];
    }
  }

  /** The callback given to `prev.map`: an item whose id matches gets its
      `likes` toggled and keeps every other field; reading `likes.includes`
      on an item without a `likes` array throws, modelled as None. */
  function ToggleItem(item: Creation, id: int, user: UserId): (r: Option<Creation>)
    ensures item.id != id ==> r == Some(item)
    ensures item.id == id ==> (r.Some? <==> item.likes.Some?)
    ensures item.id == id && r.Some? ==>
              r.value == item.(likes := Some(ToggledLikes(item.likes.value, user)))
  {
    if item.id != id then Some(item)
    else match item.likes
      case None => None
      case Some(l) => Some(item.(likes := Some(ToggledLikes(l, user))))
  }

  /** The state update of `toggleLike(id)`: the new gallery, or None when the
      update throws (and the gallery is left as it was). */
  function ToggleLike(images: seq<Creation>, id: int, user: UserId): (r: Option<seq<Creation>>)
    ensures r.Some? <==> forall i :: 0 <= i < |images| && images[i].id == id ==> images[i].likes.Some?
    ensures r.Some? ==> |r.value| == |images|
    ensures r.Some? ==> forall i :: 0 <= i < |images| ==> ToggleItem(images[i], id, user) == Some(r.value[i])
  {
    if images == [] then Some([])
    else
      match ToggleItem(images[0], id, user)
      case None => None
      case Some(head) =>
        match ToggleLike(images[1..], id, user)
        case None => None
        case Some(tail) => Some([head] + tail)
  }

  /** `item.likes?.includes(user?.id)`: whether the heart is shown filled. */
  predicate Liked(item: Creation, user: UserId)
    ensures Liked(item, user) <==> item.likes.Some? && Count(item.likes.value, user) > 0
    ensures Liked(item, user) ==> LikeCount(item) > 0
  {
    if item.likes.Some? then
      CountPositiveIff(item.likes.value, user);
      user in item.likes.value
    else false
  }

  /** What a toggle does to the gallery: same length and order, items with
      other ids untouched, the matching items' like flag flipped, their other
      fields kept, and their like count up by one, or down by the number of
      times the user occurred. */
  lemma ToggleLikeEffect(images: seq<Creation>, id: int, user: UserId, i: int)
    requires ToggleLike(images, id, user).Some?
    requires 0 <= i < |images|
    ensures var after := ToggleLike(images, id, user).value;
      && |after| == |images|
      && (images[i].id != id ==> after[i] == images[i])
      && (images[i].id == id ==>
            && after[i] == images[i].(likes := after[i].likes)
            && (Liked(after[i], user) <==> !Liked(images[i], user))
            && (!Liked(images[i], user) ==> LikeCount(after[i]) == LikeCount(images[i]) + 1)
            && (Liked(images[i], user) ==>
                  LikeCount(after[i]) == LikeCount(images[i]) - Count(images[i].likes.value, user)))
  {
    var after := ToggleLike(images, id, user).value;
    assert ToggleItem(images[i], id, user) == Some(after[i]);
  }
}
