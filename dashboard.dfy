/** The dashboard: total likes over the user's creations, the creation
    count and the plan label. */
module Dashboard {
  import opened Base
  import opened ClientCreation

  /** Reference definition: the sum of the like counts of all creations. */
  function SumLikes(cs: seq<Creation>): nat
  {
    if cs == [] then 0 else LikeCount(cs[0]) + SumLikes(cs[1..])
  }

  /** `cs.reduce((sum, c) => sum + (c.likes?.length || 0), sum)`: a left fold. */
  function ReduceLikes(sum: nat, cs: seq<Creation>): (total: nat)
    decreases |cs|
    ensures cs == [] ==> total == sum
    ensures cs != [] ==> total >= sum + LikeCount(cs[0])
  {
    if cs == [] then sum else ReduceLikes(sum + LikeCount(cs[0]), cs[1..])
  }

  /** The left fold `reduce` computes is the sum, offset by its start value. */
  lemma {:induction false} ReduceIsSum(sum: nat, cs: seq<Creation>)
    ensures ReduceLikes(sum, cs) == sum + SumLikes(cs)
    decreases |cs|
  {
    if cs != [] {
      ReduceIsSum(sum + LikeCount(cs[0]), cs[1..]);
    }
  }

  /** `likeCount`, the reduce started at 0. */
  function TotalLikes(cs: seq<Creation>): (n: nat)
    ensures n == SumLikes(cs)
    ensures cs == [] ==> n == 0
  {
    ReduceIsSum(0, cs);
    ReduceLikes(0, cs)
  }

  lemma {:induction false} SumLikesAppend(a: seq<Creation>, b: seq<Creation>)
    ensures SumLikes(a + b) == SumLikes(a) + SumLikes(b)
  {
    if a == [] {
      assert a + b == b;
    } else {
      assert (a + b)[1..] == a[1..] + b;
      SumLikesAppend(a[1..], b);
    }
  }

  /** Total likes are additive over concatenation of creation lists. */
  lemma TotalLikesAppend(a: seq<Creation>, b: seq<Creation>)
    ensures TotalLikes(a + b) == TotalLikes(a) + TotalLikes(b)
  {
    SumLikesAppend(a, b);
  }

  /** Every creation contributes its own like count to the total. */
  lemma {:induction false} TotalLikesCovers(cs: seq<Creation>, i: int)
    requires 0 <= i < |cs|
    ensures LikeCount(cs[i]) <= TotalLikes(cs)
  {
    if i > 0 {
      TotalLikesCovers(cs[1..], i - 1);
    }
  }

  /** The dashboard's two pieces of fetched state. */
  datatype DashboardState = DashboardState(creations: seq<Creation>, totalLikes: nat)

  /** The answer of `get-creations`: a JSON body, or a thrown request. */
  datatype Reply =
    | Answered(success: bool, creations: seq<Creation>, message: string)
    | Threw(message: string)

  /** `getDashboardData` once the reply is in: both fields are replaced
      only on `data.success`. */
  function Receive(s: DashboardState, reply: Reply): (t: DashboardState)
    ensures reply.Answered? && reply.success ==>
              t.creations == reply.creations && t.totalLikes == SumLikes(reply.creations)
    ensures !(reply.Answered? && reply.success) ==> t == s
  {
    if reply.Answered? && reply.success then
      DashboardState(reply.creations, TotalLikes(reply.creations))
    else s
  }

  /** `user?.publicMetadata?.plan === "premium"`, with every missing link
      of the chain read as an absent plan. */
  predicate IsPremium(plan: Option<string>)
    ensures plan.None? ==> !IsPremium(plan)
    ensures IsPremium(plan) ==> plan.Some? && plan.value == "premium"
    ensures plan == Some("Premium") ==> !IsPremium(plan)
  {
    plan == Some("premium")
  }

  /** The "Active Plan" label. */
  function PlanLabel(plan: Option<string>): (shown: string)
    ensures shown == "Premium" <==> IsPremium(plan)
    ensures shown == "Free" <==> !IsPremium(plan)
  {
    if IsPremium(plan) then "Premium" else "Free"
  }
}
