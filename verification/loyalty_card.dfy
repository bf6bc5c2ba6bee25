/** The client's loyalty card: a fixed list of rewards with point
    thresholds, the next reward still out of reach, the points missing for
    it and which rewards can be redeemed. */
module LoyaltyCard {
  import opened Options

  datatype Reward = Reward(
    id: string,
    title: string,
    description: string,
    pointsRequired: int,
    discount: string,
    available: bool)

  /** The rewards the card offers, cheapest first. */
  const Rewards: seq<Reward> := [
    Reward("1", "Desconto de 10%", "10% de desconto em qualquer serviço", 50, "10%", true),
    Reward("2", "Corte Grátis", "Um corte clássico gratuito", 150, "R$ 45", true),
    Reward("3", "Combo Premium", "Corte + Barba com 30% de desconto", 200, "30%", false),
    Reward("4", "Mês VIP", "Serviços ilimitados por um mês", 500, "Unlimited", false)
  ]

  predicate SortedByThreshold(rs: seq<Reward>) {
    forall i, j :: 0 <= i < j < |rs| ==> rs[i].pointsRequired <= rs[j].pointsRequired
  }

  predicate PositiveThresholds(rs: seq<Reward>) {
    forall i :: 0 <= i < |rs| ==> rs[i].pointsRequired > 0
  }

  /** The card's own list is sorted, strictly, with positive thresholds. */
  lemma RewardsWellOrdered()
    ensures SortedByThreshold(Rewards)
    ensures forall i, j :: 0 <= i < j < |Rewards| ==> Rewards[i].pointsRequired < Rewards[j].pointsRequired
    ensures PositiveThresholds(Rewards)
  {
  }

  /** `rewards.find(r => r.pointsRequired > points)`: the first reward, in
      list order, that the points do not reach yet. */
  function NextReward(rs: seq<Reward>, points: int): (r: Option<Reward>)
    ensures r.None? <==> forall i :: 0 <= i < |rs| ==> rs[i].pointsRequired <= points
    ensures r.Some? ==> exists i :: 0 <= i < |rs| && rs[i] == r.value && r.value.pointsRequired > points
                         && forall j :: 0 <= j < i ==> rs[j].pointsRequired <= points
  {
    if rs == [] then None
    else if rs[0].pointsRequired > points then Some(rs[0])
    else
      var r := NextReward(rs[1..], points);
      if r.Some? then
        var i :| 0 <= i < |rs[1..]| && rs[1..][i] == r.value && r.value.pointsRequired > points
                 && forall j :: 0 <= j < i ==> rs[1..][j].pointsRequired <= points;
        assert rs[i + 1] == r.value;
        r
      else
        r
  }

  /** `pointsToNextReward`: what is missing for the next reward, or 0 when
      every reward is within reach. */
  function PointsToNext(rs: seq<Reward>, points: int): (n: int)
    ensures n > 0 <==> NextReward(rs, points).Some?
    ensures NextReward(rs, points).Some? ==> points + n == NextReward(rs, points).value.pointsRequired
    ensures NextReward(rs, points).None? ==> n == 0
  {
    match NextReward(rs, points)
    case Some(next) => next.pointsRequired - points
    case None => 0
  }

  /** `progressPercentage`: how far the points are towards the next reward,
      or full when there is none. */
  function Progress(rs: seq<Reward>, points: int): (pct: real)
    requires PositiveThresholds(rs)
    ensures NextReward(rs, points).None? ==> pct == 100.0
    ensures NextReward(rs, points).Some? ==>
              pct * NextReward(rs, points).value.pointsRequired as real == 100.0 * points as real
    ensures NextReward(rs, points).Some? && points >= 0 ==> 0.0 <= pct < 100.0
  {
    match NextReward(rs, points)
    case Some(next) =>
      var frac := points as real / next.pointsRequired as real;
      assert points >= 0 ==> 0.0 <= frac < 1.0 by {
        if points >= 0 {
          RatioBelowOne(points as real, next.pointsRequired as real);
        }
      }
      PercentOfWhole(points as real, next.pointsRequired as real);
      frac * 100.0
    case None => 100.0
  }

  /** While the next reward stays the same, more points never show less
      progress. */
  lemma ProgressGrows(rs: seq<Reward>, p: int, q: int)
    requires PositiveThresholds(rs)
    requires p <= q
    requires NextReward(rs, p).Some? && NextReward(rs, q) == NextReward(rs, p)
    ensures Progress(rs, p) <= Progress(rs, q)
  {
    var next := NextReward(rs, p).value;
    var d := next.pointsRequired as real;
    assert d > 0.0 by {
      var k :| 0 <= k < |rs| && rs[k] == next;
    }
    assert Progress(rs, p) == (p as real / d) * 100.0;
    assert Progress(rs, q) == (q as real / d) * 100.0;
    DivideKeepsOrder(p as real, q as real, d);
  }

  /** Dividing by a positive number keeps the order. */
  lemma DivideKeepsOrder(a: real, b: real, d: real)
    requires a <= b && d > 0.0
    ensures a / d <= b / d
  {
    assert b / d - a / d == (b - a) / d;
  }

  /** The percentage a part is of a whole, times the whole, is a hundred
      times the part. */
  lemma PercentOfWhole(p: real, d: real)
    requires d > 0.0
    ensures ((p / d) * 100.0) * d == 100.0 * p
  {
    assert (p / d) * d == p;
  }

  /** A part smaller than the whole is a fraction below one. */
  lemma RatioBelowOne(p: real, d: real)
    requires 0.0 <= p < d
    ensures 0.0 <= p / d < 1.0
  {
    assert (p / d) * d == p;
  }

  /** `canRedeem`: the points reach the reward's threshold. */
  predicate CanRedeem(r: Reward, points: int) {
    points >= r.pointsRequired
  }

  /** The redeem button is enabled only for a reachable reward that is also
      marked available. */
  predicate RedeemEnabled(r: Reward, points: int) {
    !(!CanRedeem(r, points) || !r.available)
  }

  /** The redeem button's caption. */
  function ButtonLabel(r: Reward, points: int): (s: string)
    ensures s == "Resgatar" <==> CanRedeem(r, points)
    ensures !CanRedeem(r, points) ==> s == "Indisponível"
    ensures RedeemEnabled(r, points) ==> s == "Resgatar"
  {
    if CanRedeem(r, points) then "Resgatar" else "Indisponível"
  }

  /** On a sorted list the next reward has the smallest threshold above the
      points. */
  lemma NextIsCheapestUnreached(rs: seq<Reward>, points: int)
    requires SortedByThreshold(rs)
    requires NextReward(rs, points).Some?
    ensures forall i :: 0 <= i < |rs| && rs[i].pointsRequired > points ==>
              NextReward(rs, points).value.pointsRequired <= rs[i].pointsRequired
  {
    var next := NextReward(rs, points).value;
    var k :| 0 <= k < |rs| && rs[k] == next && next.pointsRequired > points
             && forall j :: 0 <= j < k ==> rs[j].pointsRequired <= points;
    forall i | 0 <= i < |rs| && rs[i].pointsRequired > points
      ensures next.pointsRequired <= rs[i].pointsRequired
    {
      assert k <= i;
    }
  }

  /** On a sorted list a reward can be redeemed exactly when its threshold
      lies below the next reward's; every reward can when there is no next
      one. */
  lemma RedeemableBelowNext(rs: seq<Reward>, points: int)
    requires SortedByThreshold(rs)
    ensures NextReward(rs, points).None? ==> forall i :: 0 <= i < |rs| ==> CanRedeem(rs[i], points)
    ensures NextReward(rs, points).Some? ==>
              forall i :: 0 <= i < |rs| ==>
                (CanRedeem(rs[i], points) <==> rs[i].pointsRequired < NextReward(rs, points).value.pointsRequired)
  {
    if NextReward(rs, points).Some? {
      NextIsCheapestUnreached(rs, points);
    }
  }

  /** More points never bring an earlier threshold as the next reward. */
  lemma NextRewardMonotone(rs: seq<Reward>, p: int, q: int)
    requires SortedByThreshold(rs)
    requires p <= q
    requires NextReward(rs, q).Some?
    ensures NextReward(rs, p).Some?
    ensures NextReward(rs, p).value.pointsRequired <= NextReward(rs, q).value.pointsRequired
  {
    var nq := NextReward(rs, q).value;
    var k :| 0 <= k < |rs| && rs[k] == nq && nq.pointsRequired > q;
    assert rs[k].pointsRequired > p;
    NextIsCheapestUnreached(rs, p);
  }

  /** More points never take a redeemable reward, or an enabled button,
      away. */
  lemma RedeemMonotone(r: Reward, p: int, q: int)
    requires p <= q
    ensures CanRedeem(r, p) ==> CanRedeem(r, q)
    ensures RedeemEnabled(r, p) ==> RedeemEnabled(r, q)
  {
  }

  /** With the card's rewards, 180 points are 20 short of "Combo Premium"
      while "Corte Grátis" can be redeemed; 250 points reach "Combo Premium"
      but its button stays disabled because it is not available. */
  lemma CardAtSomePoints()
    ensures NextReward(Rewards, 180) == Some(Rewards[2]) && PointsToNext(Rewards, 180) == 20
    ensures RedeemEnabled(Rewards[1], 180)
    ensures CanRedeem(Rewards[2], 250) && !RedeemEnabled(Rewards[2], 250)
    ensures NextReward(Rewards, 500).None? && Progress(Rewards, 500) == 100.0
  {
    RewardsWellOrdered();
  }
}
