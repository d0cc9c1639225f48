/**
 * The per-product countdowns (`productReleaseTimes`): for every loaded product whose
 * release time is still ahead, its time remaining, keyed by product id.
 */
module ReleaseTimes {
  import opened Countdown
  import opened Feed

  predicate Upcoming(p: Product, now: int) {
    p.releaseTime.Some? && p.releaseTime.value > now
  }

  /** One iteration of the page's forEach over products. */
  function WithCountdown(m: map<int, Remaining>, p: Product, now: int): map<int, Remaining> {
    if Upcoming(p, now) then m[p.id := CalculateTimeRemaining(p.releaseTime.value, now)] else m
  }

  /** The map left by the forEach over `ps`, starting from `m`. */
  function Countdowns(m: map<int, Remaining>, ps: seq<Product>, now: int): (r: map<int, Remaining>)
    ensures m.Keys <= r.Keys
    decreases |ps|
  {
    if ps == [] then m else Countdowns(WithCountdown(m, ps[0], now), ps[1..], now)
  }

  /** The ids of the products of `ps` that are not yet released at `now`. */
  function UpcomingIds(ps: seq<Product>, now: int): set<int> {
    set i | 0 <= i < |ps| && Upcoming(ps[i], now) :: ps[i].id
  }

  predicate DistinctIds(ps: seq<Product>) {
    forall i, j :: 0 <= i < j < |ps| ==> ps[i].id != ps[j].id
  }

  /** The forEach of lines 76-81, 180-185 and 228-233, filling `base` in place. */
  method FillCountdowns(base: map<int, Remaining>, ps: seq<Product>, now: int)
    returns (m: map<int, Remaining>)
    ensures m == Countdowns(base, ps, now)
  {
    m := base;
    var i := 0;
    while i < |ps|
      invariant 0 <= i <= |ps|
      invariant Countdowns(m, ps[i..], now) == Countdowns(base, ps, now)
    {
      var product := ps[i];
      assert ps[i..][1..] == ps[i + 1..];
      if product.releaseTime.Some? && product.releaseTime.value > now {
        m := m[product.id := CalculateTimeRemaining(product.releaseTime.value, now)];
      }
      i := i + 1;
    }
  }

  /** The keys after the forEach: those already there plus every upcoming product's id. */
  lemma {:induction false} CountdownKeys(m: map<int, Remaining>, ps: seq<Product>, now: int)
    ensures Countdowns(m, ps, now).Keys == m.Keys + UpcomingIds(ps, now)
    decreases |ps|
  {
    if ps != [] {
      CountdownKeys(WithCountdown(m, ps[0], now), ps[1..], now);
      var rest := UpcomingIds(ps[1..], now);
      assert UpcomingIds(ps, now) == (if Upcoming(ps[0], now) then {ps[0].id} else {}) + rest by {
        forall id | id in UpcomingIds(ps, now)
          ensures id in (if Upcoming(ps[0], now) then {ps[0].id} else {}) + rest
        {
          var i :| 0 <= i < |ps| && Upcoming(ps[i], now) && ps[i].id == id;
          if i > 0 {
            assert ps[1..][i - 1] == ps[i];
          }
        }
        forall id | id in rest ensures id in UpcomingIds(ps, now) {
          var i :| 0 <= i < |ps[1..]| && Upcoming(ps[1..][i], now) && ps[1..][i].id == id;
          assert ps[i + 1] == ps[1..][i];
        }
      }
    }
  }

  /**
   * With distinct ids, each upcoming product's entry is its own time remaining, and an
   * entry of `m` for an id no upcoming product has is kept as it was.
   */
  lemma {:induction false} CountdownValues(m: map<int, Remaining>, ps: seq<Product>, now: int)
    requires DistinctIds(ps)
    ensures var r := Countdowns(m, ps, now);
      (forall i :: 0 <= i < |ps| && Upcoming(ps[i], now) ==>
         ps[i].id in r && r[ps[i].id] == CalculateTimeRemaining(ps[i].releaseTime.value, now)) &&
      (forall id :: id in m && id !in UpcomingIds(ps, now) ==> id in r && r[id] == m[id])
    decreases |ps|
  {
    if ps != [] {
      var m1 := WithCountdown(m, ps[0], now);
      var tail := ps[1..];
      assert DistinctIds(tail) by {
        forall i, j | 0 <= i < j < |tail| ensures tail[i].id != tail[j].id {
          assert tail[i] == ps[i + 1] && tail[j] == ps[j + 1];
        }
      }
      CountdownValues(m1, tail, now);
      var r := Countdowns(m, ps, now);
      assert r == Countdowns(m1, tail, now);
      forall i | 0 <= i < |ps| && Upcoming(ps[i], now)
        ensures ps[i].id in r && r[ps[i].id] == CalculateTimeRemaining(ps[i].releaseTime.value, now)
      {
        if i == 0 {
          assert ps[0].id !in UpcomingIds(tail, now);
        } else {
          assert tail[i - 1] == ps[i];
        }
      }
      forall id | id in m && id !in UpcomingIds(ps, now) ensures id in r && r[id] == m[id] {
        assert id != ps[0].id || !Upcoming(ps[0], now);
        assert id !in UpcomingIds(tail, now);
      }
    }
  }

  /**
   * The map rebuilt on every tick, from nothing: its keys are exactly the ids of the
   * loaded products not yet released.
   */
  lemma TickKeys(ps: seq<Product>, now: int)
    ensures Countdowns(map[], ps, now).Keys == UpcomingIds(ps, now)
  {
    CountdownKeys(map[], ps, now);
  }
}
