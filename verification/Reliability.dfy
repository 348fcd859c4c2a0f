/** A peer's history score: recency-weighted successes minus failures through a sigmoid. */
module Reliability {
  import opened Basics

  const TAU := 30 * 24 * 3600 * 1_000_000_000
  const COUNT_CAP := 20.0
  const GLOBAL_INFLUENCE := 0.5
  const SIGMOID_SCALE := 5.0
  const LAST_RESORT_THRESHOLD := 0.25

  datatype Counters = Counters(successes: int, lastSuccess: Option<int>, fails: int, lastFail: Option<int>)

  /** History with the wanted artist, and with everyone. */
  datatype Peer = Peer(artist: Counters, overall: Counters)

  /** What is used of the exponential function. */
  ghost predicate IsExp(exp: real -> real) {
    exp(0.0) == 1.0 && (forall x :: exp(x) > 0.0) && (forall x, y :: x < y ==> exp(x) < exp(y))
  }

  /** How much a count of that age still weighs. */
  function Weight(age: int, exp: real -> real): real {
    exp(-(age as real / TAU as real))
  }

  function DecayedCount(count: int, at: Option<int>, now: int, exp: real -> real): real {
    if count <= 0 || at.None? then 0.0
    else
      var age := if now - at.value < 0 then 0 else now - at.value;
      (if count as real < COUNT_CAP then count as real else COUNT_CAP) * Weight(age, exp)
  }

  function DecayedNet(c: Counters, now: int, exp: real -> real): real {
    DecayedCount(c.successes, c.lastSuccess, now, exp) - DecayedCount(c.fails, c.lastFail, now, exp)
  }

  function Net(p: Peer, now: int, exp: real -> real): real {
    DecayedNet(p.artist, now, exp) + GLOBAL_INFLUENCE * DecayedNet(p.overall, now, exp)
  }

  function Sigmoid(net: real, exp: real -> real): real
    requires IsExp(exp)
  {
    1.0 / (1.0 + exp(-net / SIGMOID_SCALE))
  }

  function HistoryScore(p: Peer, now: int, exp: real -> real): real
    requires IsExp(exp)
  {
    Sigmoid(Net(p, now, exp), exp)
  }

  predicate LastResort(p: Peer, now: int, exp: real -> real)
    requires IsExp(exp)
  {
    HistoryScore(p, now, exp) <= LAST_RESORT_THRESHOLD
  }

  lemma WeightFades(elder: int, young: int, exp: real -> real)
    requires IsExp(exp) && 0 <= young <= elder
    ensures 0.0 < Weight(elder, exp) <= Weight(young, exp) <= 1.0
  {
    assert -(elder as real / TAU as real) <= -(young as real / TAU as real) <= 0.0;
  }

  lemma NotNegative(a: real, b: real)
    requires a >= 0.0 && b >= 0.0
    ensures a * b >= 0.0
  {
  }

  lemma Faded(m: real, x: real, y: real)
    requires 0.0 <= m <= COUNT_CAP && 0.0 <= x <= y <= 1.0
    ensures 0.0 <= m * x <= m * y <= COUNT_CAP
  {
    NotNegative(m, x);
    NotNegative(m, y - x);
    NotNegative(m, 1.0 - y);
    assert m * y == m * x + m * (y - x);
    assert m == m * y + m * (1.0 - y);
  }

  /** A count fades with age, between its capped value and zero. */
  lemma CountFades(count: int, at: Option<int>, t: int, u: int, exp: real -> real)
    requires IsExp(exp) && t <= u
    ensures 0.0 <= DecayedCount(count, at, u, exp) <= DecayedCount(count, at, t, exp) <= 20.0
  {
    hide IsExp, Weight;
    if count > 0 && at.Some? {
      var elder, young := if u - at.value < 0 then 0 else u - at.value, if t - at.value < 0 then 0 else t - at.value;
      var m := if count as real < COUNT_CAP then count as real else COUNT_CAP;
      WeightFades(elder, young, exp);
      Faded(m, Weight(elder, exp), Weight(young, exp));
      assert DecayedCount(count, at, u, exp) == m * Weight(elder, exp);
      assert DecayedCount(count, at, t, exp) == m * Weight(young, exp);
    }
  }

  function Capped(count: int): real {
    if count <= 0 then 0.0 else if count < 20 then count as real else 20.0
  }

  /** A count is whole as long as it is not in the past, and down to 1/e after thirty days. */
  lemma CountAges(count: int, at: int, now: int, exp: real -> real)
    requires IsExp(exp)
    ensures now <= at ==> DecayedCount(count, Some(at), now, exp) == Capped(count)
    ensures now == at + 30 * 24 * 3600 * 1_000_000_000 ==>
              DecayedCount(count, Some(at), now, exp) == Capped(count) * exp(-1.0)
  {
  }

  /** The score lies strictly between 0 and 1, and grows with the net history. */
  lemma SigmoidGrows(a: real, b: real, exp: real -> real)
    requires IsExp(exp) && a <= b
    ensures 0.0 < Sigmoid(a, exp) <= Sigmoid(b, exp) < 1.0
    ensures a < b ==> Sigmoid(a, exp) < Sigmoid(b, exp)
  {
    var x, y := 1.0 + exp(-a / SIGMOID_SCALE), 1.0 + exp(-b / SIGMOID_SCALE);
    assert -b / SIGMOID_SCALE <= -a / SIGMOID_SCALE;
    assert 1.0 < y <= x;
    Reciprocals(x, y);
    Reciprocals(y, 1.0);
  }

  lemma Reciprocals(x: real, y: real)
    requires 0.0 < y <= x
    ensures 0.0 < 1.0 / x <= 1.0 / y
    ensures y < x ==> 1.0 / x < 1.0 / y
  {
    var r, s := 1.0 / x, 1.0 / y;
    assert r * x == 1.0 && s * y == 1.0;
    assert s * (x - y) >= 0.0 && (y < x ==> s * (x - y) > 0.0);
    assert (s - r) * x == s * (x - y);
  }

  /** Last resort exactly when failures outweigh successes enough to drive the odds to three to one. */
  lemma LastResortIff(p: Peer, now: int, exp: real -> real)
    requires IsExp(exp)
    ensures LastResort(p, now, exp) <==> exp(-Net(p, now, exp) / 5.0) >= 3.0
    ensures LastResort(p, now, exp) ==> Net(p, now, exp) < 0.0
  {
    var net := Net(p, now, exp);
    var e := exp(-net / SIGMOID_SCALE);
    assert 1.0 / (1.0 + 3.0) == 0.25;
    if e >= 3.0 {
      Reciprocals(1.0 + e, 4.0);
    } else {
      Reciprocals(4.0, 1.0 + e);
    }
    if net >= 0.0 {
      assert -net / SIGMOID_SCALE <= 0.0;
    }
  }

  /** A peer nobody has tried scores a neutral half and is never last resort. */
  lemma UntriedIsNeutral(p: Peer, now: int, exp: real -> real)
    requires IsExp(exp)
    requires forall c | c in [p.artist, p.overall] ::
      (c.successes <= 0 || c.lastSuccess.None?) && (c.fails <= 0 || c.lastFail.None?)
    ensures HistoryScore(p, now, exp) == 0.5 && !LastResort(p, now, exp)
  {
    assert [p.artist, p.overall][0] == p.artist && [p.artist, p.overall][1] == p.overall;
    assert Net(p, now, exp) == 0.0;
  }

  /** With no successes to fade, a ruined record only heals: once out of the last-resort tier, out for good. */
  lemma FailuresHeal(p: Peer, t: int, u: int, exp: real -> real)
    requires IsExp(exp) && t <= u
    requires p.artist.successes <= 0 && p.overall.successes <= 0
    ensures HistoryScore(p, t, exp) <= HistoryScore(p, u, exp)
    ensures LastResort(p, u, exp) ==> LastResort(p, t, exp)
  {
    CountFades(p.artist.fails, p.artist.lastFail, t, u, exp);
    CountFades(p.overall.fails, p.overall.lastFail, t, u, exp);
    SigmoidGrows(Net(p, t, exp), Net(p, u, exp), exp);
  }

  /** A fresh record counts in full with the artist and by half with everyone. */
  lemma FreshRecord(p: Peer, now: int, exp: real -> real)
    requires IsExp(exp)
    requires forall at | at in [p.artist.lastSuccess, p.artist.lastFail, p.overall.lastSuccess, p.overall.lastFail] ::
               at == Some(now)
    ensures HistoryScore(p, now, exp)
         == 1.0 / (1.0 + exp((Capped(p.artist.fails) - Capped(p.artist.successes)
                              + (Capped(p.overall.fails) - Capped(p.overall.successes)) / 2.0) / 5.0))
  {
    var ats := [p.artist.lastSuccess, p.artist.lastFail, p.overall.lastSuccess, p.overall.lastFail];
    assert ats[0] in ats && ats[1] in ats && ats[2] in ats && ats[3] in ats;
    CountAges(p.artist.successes, now, now, exp);
    CountAges(p.artist.fails, now, now, exp);
    CountAges(p.overall.successes, now, now, exp);
    CountAges(p.overall.fails, now, now, exp);
    var net := Capped(p.artist.fails) - Capped(p.artist.successes)
               + (Capped(p.overall.fails) - Capped(p.overall.successes)) / 2.0;
    assert -Net(p, now, exp) == net;
  }

  /** No record is worse than that of twenty fresh failures; without the artist's, than ten of them. */
  lemma WorstScore(p: Peer, now: int, exp: real -> real)
    requires IsExp(exp)
    ensures HistoryScore(p, now, exp) >= 1.0 / (1.0 + exp(6.0))
    ensures p.artist.fails <= 0 && p.artist.successes <= 0 ==> HistoryScore(p, now, exp) >= 1.0 / (1.0 + exp(2.0))
  {
    CountFades(p.artist.successes, p.artist.lastSuccess, now, now, exp);
    CountFades(p.artist.fails, p.artist.lastFail, now, now, exp);
    CountFades(p.overall.successes, p.overall.lastSuccess, now, now, exp);
    CountFades(p.overall.fails, p.overall.lastFail, now, now, exp);
    SigmoidGrows(-30.0, Net(p, now, exp), exp);
    if p.artist.fails <= 0 && p.artist.successes <= 0 {
      SigmoidGrows(-10.0, Net(p, now, exp), exp);
    }
  }
}
