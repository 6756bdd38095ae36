/** A creation as the client pages receive it from the user endpoints
    (`get-creations`, `get-published-creations`): the stored row plus the
    array of user ids that liked it, which may be missing. */
module ClientCreation {
  import opened Base

  type UserId = string

  datatype Creation = Creation(
    id: int,
    userId: UserId,
    prompt: string,
    content: string,
    kind: string,
    publish: bool,
    likes: Option<seq<UserId>>)

  /** `c.likes?.length || 0`: the number of likes shown for a creation. */
  function LikeCount(c: Creation): (n: nat)
    ensures c.likes.None? ==> n == 0
    ensures c.likes.Some? ==> n == |c.likes.value|
  {
    match c.likes
    case None => 0
    case Some(l) => |l|
  }
}
