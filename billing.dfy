/** Plan checks of `packages/rpc/src/types/billing.ts`: the ordering of plans
    by their place in the plan hierarchy, the free-plan test, and which error
    `requireFeature` and `requireUsageWithinLimit` raise. The hierarchy and
    the feature tables they consult are parameters. */
module Billing {
  import opened Common
  import Text

  /** `PLAN_IDS.FREE`. */
  const Free: string := "free"

  /** `Array.prototype.indexOf`: the first index of `p`, or -1. */
  function IndexOf(hierarchy: seq<string>, p: string): (r: int)
    ensures -1 <= r < |hierarchy|
    ensures r == -1 <==> p !in hierarchy
    ensures r >= 0 ==> hierarchy[r] == p && p !in hierarchy[..r]
  {
    if |hierarchy| == 0 then -1
    else if hierarchy[0] == p then 0
    else
      var k := IndexOf(hierarchy[1..], p);
      assert hierarchy[1..] == hierarchy[..|hierarchy|][1..];
      if k == -1 then -1
      else
        assert hierarchy[..k + 1] == [hierarchy[0]] + hierarchy[1..][..k];
        k + 1
  }

  /** `!x` on an optional string: absent and "" are falsy. */
  predicate Missing(x: Option<string>)
  {
    x.None? || x.value == ""
  }

  /** `hasPlan(currentPlan, requiredPlan)`. */
  predicate HasPlan(hierarchy: seq<string>, currentPlan: Option<string>, requiredPlan: string)
  {
    if Missing(currentPlan) then requiredPlan == Free
    else
      var currentIndex, requiredIndex := IndexOf(hierarchy, currentPlan.value), IndexOf(hierarchy, requiredPlan);
      if currentIndex == -1 then false
      else currentIndex >= requiredIndex
  }

  /** The three cases of `hasPlan`: without a plan only FREE is held; a plan
      outside the hierarchy holds nothing; a known plan holds every plan
      at or below its place, and any plan outside the hierarchy. */
  lemma HasPlanCases(hierarchy: seq<string>, currentPlan: Option<string>, requiredPlan: string)
    ensures Missing(currentPlan) ==> (HasPlan(hierarchy, currentPlan, requiredPlan) <==> requiredPlan == Free)
    ensures !Missing(currentPlan) && currentPlan.value !in hierarchy ==> !HasPlan(hierarchy, currentPlan, requiredPlan)
    ensures !Missing(currentPlan) && currentPlan.value in hierarchy && requiredPlan in hierarchy ==>
      (HasPlan(hierarchy, currentPlan, requiredPlan) <==>
       exists i, j :: 0 <= j <= i < |hierarchy| && hierarchy[i] == currentPlan.value && hierarchy[j] == requiredPlan &&
         currentPlan.value !in hierarchy[..i] && requiredPlan !in hierarchy[..j])
    ensures !Missing(currentPlan) && currentPlan.value in hierarchy && requiredPlan !in hierarchy ==>
      HasPlan(hierarchy, currentPlan, requiredPlan)
  {
    if !Missing(currentPlan) && currentPlan.value in hierarchy && requiredPlan in hierarchy {
      var i, j := IndexOf(hierarchy, currentPlan.value), IndexOf(hierarchy, requiredPlan);
      if exists i', j' :: (0 <= j' <= i' < |hierarchy| && hierarchy[i'] == currentPlan.value && hierarchy[j'] == requiredPlan &&
         currentPlan.value !in hierarchy[..i'] && requiredPlan !in hierarchy[..j']) {
        var i', j' :| 0 <= j' <= i' < |hierarchy| && hierarchy[i'] == currentPlan.value && hierarchy[j'] == requiredPlan &&
          currentPlan.value !in hierarchy[..i'] && requiredPlan !in hierarchy[..j'];
        FirstIndexUnique(hierarchy, currentPlan.value, i, i');
        FirstIndexUnique(hierarchy, requiredPlan, j, j');
      }
    }
  }

  /** Two first indices of the same plan coincide. */
  lemma FirstIndexUnique(hierarchy: seq<string>, p: string, i: int, j: int)
    requires 0 <= i < |hierarchy| && hierarchy[i] == p && p !in hierarchy[..i]
    requires 0 <= j < |hierarchy| && hierarchy[j] == p && p !in hierarchy[..j]
    ensures i == j
  {
    assert forall k :: 0 <= k < j ==> hierarchy[..j][k] == hierarchy[k];
    assert forall k :: 0 <= k < i ==> hierarchy[..i][k] == hierarchy[k];
  }

  /** Every plan of the hierarchy holds itself. */
  lemma HasPlanReflexive(hierarchy: seq<string>, p: string)
    requires p in hierarchy && p != ""
    ensures HasPlan(hierarchy, Some(p), p)
  {
  }

  /** Holding a plan is transitive along the hierarchy. */
  lemma HasPlanTransitive(hierarchy: seq<string>, a: string, b: string, c: string)
    requires a != "" && b != ""
    requires HasPlan(hierarchy, Some(a), b) && HasPlan(hierarchy, Some(b), c)
    ensures HasPlan(hierarchy, Some(a), c)
  {
  }

  /** In a hierarchy without repeats, a plan holds exactly the plans listed
      at or before it. */
  lemma HasPlanMonotone(hierarchy: seq<string>, i: int, j: int)
    requires forall x, y :: 0 <= x < y < |hierarchy| ==> hierarchy[x] != hierarchy[y]
    requires 0 <= i < |hierarchy| && 0 <= j < |hierarchy| && hierarchy[i] != ""
    ensures HasPlan(hierarchy, Some(hierarchy[i]), hierarchy[j]) <==> j <= i
  {
    NoRepeatIndex(hierarchy, i);
    NoRepeatIndex(hierarchy, j);
  }

  lemma NoRepeatIndex(hierarchy: seq<string>, i: int)
    requires forall x, y :: 0 <= x < y < |hierarchy| ==> hierarchy[x] != hierarchy[y]
    requires 0 <= i < |hierarchy|
    ensures IndexOf(hierarchy, hierarchy[i]) == i
  {
    var k := IndexOf(hierarchy, hierarchy[i]);
    assert forall x :: 0 <= x < i ==> hierarchy[..i][x] == hierarchy[x];
    FirstIndexUnique(hierarchy, hierarchy[i], k, i);
  }

  /** `isFreePlan(planId)`: no plan, or "free" in any case. */
  predicate IsFreePlan(planId: Option<string>)
  {
    Missing(planId) || Text.Lower(planId.value) == Free
  }

  /** The free-plan test ignores case, and agrees with `hasPlan` on a
      missing plan: such a user holds exactly the free plan. */
  lemma IsFreePlanMeaning(hierarchy: seq<string>, planId: Option<string>)
    ensures planId.Some? ==> (IsFreePlan(planId) <==> IsFreePlan(Some(Text.Lower(planId.value))))
    ensures IsFreePlan(Some(Free)) && IsFreePlan(Some("FREE")) && IsFreePlan(Some("Free"))
    ensures Missing(planId) ==> (IsFreePlan(planId) && HasPlan(hierarchy, planId, Free) &&
      forall p :: p != Free ==> !HasPlan(hierarchy, planId, p))
  {
    if planId.Some? {
      Text.LowerIdempotent(planId.value);
      assert Text.Lower(planId.value) == "" <==> planId.value == "";
    }
    assert Text.Lower("FREE") == Free;
    assert Text.Lower("Free") == Free;
  }

  // ---------------------------------------------------------------------
  // Errors

  /** A `FeatureLimit`: `false` when the plan lacks the feature. */
  datatype Limit = Disabled | Amount(n: nat) | Unlimited

  /** The two `ORPCError`s these checks throw, with their data. */
  datatype BillingError =
    | FeatureUnavailable(message: string, feature: string, requiredPlan: Option<string>)
    | PlanLimitExceeded(message: string, limit: Limit, current: int, nextPlan: Option<string>)

  function Code(e: BillingError): string
  {
    if e.FeatureUnavailable? then "FEATURE_UNAVAILABLE" else "PLAN_LIMIT_EXCEEDED"
  }

  /** The plan and feature tables, as seen by these checks. */
  datatype PlanTables = PlanTables(
    isFeatureAvailable: (Option<string>, string) -> bool,
    planFeatureLimit: (Option<string>, string) -> Limit,
    isWithinLimit: (Option<string>, string, int) -> bool,
    nextPlanForFeature: (Option<string>, string) -> Option<string>)

  function LimitText(limit: Limit): string
  {
    match limit
    case Disabled => "false"
    case Amount(n) => Text.NatToString(n)
    case Unlimited => "unlimited"
  }

  function Unavailable(feature: string, nextPlan: Option<string>): BillingError
  {
    FeatureUnavailable(
      if !Missing(nextPlan) then "This feature requires " + nextPlan.value + " plan or higher"
      else "This feature is not available on your current plan",
      feature, nextPlan)
  }

  /** What `requireFeature` throws, or `None`. */
  function RequireFeature(tables: PlanTables, planId: Option<string>, feature: string): Option<BillingError>
  {
    if tables.isFeatureAvailable(planId, feature) then None
    else Some(Unavailable(feature, tables.nextPlanForFeature(planId, feature)))
  }

  /** What `requireUsageWithinLimit` throws, or `None`. */
  function RequireUsageWithinLimit(tables: PlanTables, planId: Option<string>, feature: string, currentUsage: int)
    : Option<BillingError>
  {
    if tables.isWithinLimit(planId, feature, currentUsage) then None
    else
      var limit, nextPlan := tables.planFeatureLimit(planId, feature), tables.nextPlanForFeature(planId, feature);
      if limit == Disabled then Some(Unavailable(feature, nextPlan))
      else Some(PlanLimitExceeded(LimitMessage(limit, nextPlan), limit, currentUsage, nextPlan))
  }

  function LimitMessage(limit: Limit, nextPlan: Option<string>): string
  {
    "Limit of " + LimitText(limit) + LimitTail(nextPlan)
  }

  function LimitTail(nextPlan: Option<string>): (r: string)
    ensures |r| > 0 && r[0] == ' '
  {
    if !Missing(nextPlan) then " reached. Upgrade to " + nextPlan.value + " for more." else " reached"
  }

  /** `requireFeature` throws exactly when the feature is unavailable, and
      then FEATURE_UNAVAILABLE naming the feature and the next plan. */
  lemma RequireFeatureMeaning(tables: PlanTables, planId: Option<string>, feature: string)
    ensures var r := RequireFeature(tables, planId, feature);
      (r.None? <==> tables.isFeatureAvailable(planId, feature)) &&
      (r.Some? ==> Code(r.value) == "FEATURE_UNAVAILABLE" && r.value.feature == feature &&
                   r.value.requiredPlan == tables.nextPlanForFeature(planId, feature))
  {
  }

  /** `requireUsageWithinLimit` throws exactly when usage is over the limit:
      FEATURE_UNAVAILABLE when the plan lacks the feature, otherwise
      PLAN_LIMIT_EXCEEDED carrying the limit and the usage. */
  lemma RequireUsageMeaning(tables: PlanTables, planId: Option<string>, feature: string, currentUsage: int)
    ensures var r := RequireUsageWithinLimit(tables, planId, feature, currentUsage);
      var limit := tables.planFeatureLimit(planId, feature);
      (r.None? <==> tables.isWithinLimit(planId, feature, currentUsage)) &&
      (r.Some? && limit == Disabled ==> Code(r.value) == "FEATURE_UNAVAILABLE" && r.value.feature == feature) &&
      (r.Some? && limit != Disabled ==> (Code(r.value) == "PLAN_LIMIT_EXCEEDED" && r.value.limit == limit &&
         r.value.message == LimitMessage(limit, tables.nextPlanForFeature(planId, feature)) &&
         r.value.current == currentUsage && r.value.nextPlan == tables.nextPlanForFeature(planId, feature)))
  {
  }

  /** Over the limit of a feature the plan lacks, `requireUsageWithinLimit`
      raises the very error `requireFeature` raises. */
  lemma DisabledLimitIsUnavailableFeature(tables: PlanTables, planId: Option<string>, feature: string, currentUsage: int)
    requires !tables.isWithinLimit(planId, feature, currentUsage)
    requires tables.planFeatureLimit(planId, feature) == Disabled
    requires !tables.isFeatureAvailable(planId, feature)
    ensures RequireUsageWithinLimit(tables, planId, feature, currentUsage) == RequireFeature(tables, planId, feature)
  {
  }

  /** The PLAN_LIMIT_EXCEEDED message states a numeric limit: the digits
      after "Limit of " read back as the limit. */
  lemma LimitMessageReadsBack(n: nat, nextPlan: Option<string>)
    ensures var m := LimitMessage(Amount(n), nextPlan);
      Text.StartsWith(m, "Limit of ") && Text.DigitsValue(m[9..][..Text.DigitRun(m[9..])]) == n
  {
    var rest := LimitTail(nextPlan);
    Text.ReadBackNat(n, rest);
    var p, tail := "Limit of ", Text.NatToString(n) + rest;
    assert LimitMessage(Amount(n), nextPlan) == p + tail;
    assert |p| == 9;
    PrefixedReadBack(p, tail);
  }

  /** What follows a prefix is what was put after it. */
  lemma PrefixedReadBack(p: string, tail: string)
    ensures Text.StartsWith(p + tail, p) && (p + tail)[|p|..] == tail
  {
    assert (p + tail)[..|p|] == p;
  }
}
