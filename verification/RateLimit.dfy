/** The in-process rate limiter (internal/httpapi/server.go): one fixed window shared
    by all users, reset by whichever request comes first after a minute. */
module RateLimit {

  const MINUTE: nat := 60_000_000_000

  function Key(user: string, kind: string): string { user + "|" + kind }

  /** Users and kinds do not run into each other: kinds have no bar. */
  lemma KeyInjective(u: string, k: string, v: string, l: string)
    requires '|' !in k && '|' !in l && Key(u, k) == Key(v, l)
    ensures u == v && k == l
  {
    var s, t := Key(u, k), Key(v, l);
    assert s[|u|] == '|' && t[|v|] == '|';
    assert forall i :: |u| < i < |s| ==> s[i] != '|';
    assert forall i :: |v| < i < |t| ==> t[i] != '|';
    assert |u| == |v|;
    assert s[..|u|] == u && t[..|v|] == v && s[|u| + 1..] == k && t[|v| + 1..] == l;
  }

  datatype Limiter = Limiter(window: int, counts: map<string, nat>)

  datatype Request = Request(now: int, key: string, limit: int)

  function Count(s: Limiter, key: string): nat { if key in s.counts then s.counts[key] else 0 }

  function Rolled(s: Limiter, now: int): Limiter {
    if now - s.window >= MINUTE then Limiter(now, map[]) else s
  }

  predicate Allowed(s: Limiter, r: Request) {
    Count(Rolled(s, r.now), r.key) < r.limit
  }

  function After(s: Limiter, r: Request): Limiter {
    var t := Rolled(s, r.now);
    if Allowed(s, r) then t.(counts := t.counts[r.key := Count(t, r.key) + 1]) else t
  }

  function Run(s: Limiter, rs: seq<Request>): Limiter {
    if rs == [] then s else After(Run(s, rs[..|rs| - 1]), rs[|rs| - 1])
  }

  /** Clocks do not run backwards. */
  ghost predicate Monotone(rs: seq<Request>) {
    forall i, j :: 0 <= i < j < |rs| ==> rs[i].now <= rs[j].now
  }

  /** The key's limit does not change over the run. */
  ghost predicate Fixed(rs: seq<Request>, key: string, limit: nat) {
    forall i :: 0 <= i < |rs| && rs[i].key == key ==> rs[i].limit == limit
  }

  // ---------------------------------------------------------------- one window

  /** How many of the key's requests were let through in the window started at v. */
  function Through(s: Limiter, rs: seq<Request>, key: string, v: int): nat {
    if rs == [] then 0
    else
      var before, r := Run(s, rs[..|rs| - 1]), rs[|rs| - 1];
      Through(s, rs[..|rs| - 1], key, v) +
      if r.key == key && Allowed(before, r) && Rolled(before, r.now).window == v then 1 else 0
  }

  /** The counter is the number let through in the window, no window has more than
      the limit, and no window has started after the current one. */
  lemma {:induction false} WindowsBounded(s: Limiter, rs: seq<Request>, key: string, limit: nat)
    requires s.counts == map[] && Fixed(rs, key, limit)
    ensures Through(s, rs, key, Run(s, rs).window) == Count(Run(s, rs), key)
    ensures forall v :: Through(s, rs, key, v) <= limit && (v > Run(s, rs).window ==> Through(s, rs, key, v) == 0)
  {
    if rs != [] {
      var init, r := rs[..|rs| - 1], rs[|rs| - 1];
      WindowsBounded(s, init, key, limit);
      var before, after := Run(s, init), Run(s, rs);
      assert Rolled(before, r.now).window == after.window >= before.window;
      forall v ensures Through(s, rs, key, v) <= limit && (v > after.window ==> Through(s, rs, key, v) == 0) {
        assert v > after.window ==> v > before.window;
      }
    }
  }

  // ----------------------------------------------------------------- any minute

  /** How many of the key's requests were let through. */
  function Passed(s: Limiter, rs: seq<Request>, key: string): nat
    decreases |rs|
  {
    if rs == [] then 0
    else (if rs[0].key == key && Allowed(s, rs[0]) then 1 else 0) + Passed(After(s, rs[0]), rs[1..], key)
  }

  /** What a span of a minute from `from` can still let through: a stale window will
      be replaced at once, a window begun by then can be replaced once, a later one
      not at all. */
  function Allowance(s: Limiter, key: string, limit: nat, from: int): int {
    if s.window + MINUTE <= from then 2 * limit
    else if s.window <= from then 2 * limit - Count(s, key)
    else limit - Count(s, key)
  }

  lemma AllowanceStep(s: Limiter, r: Request, key: string, limit: nat, from: int)
    requires from <= r.now <= from + MINUTE && Count(s, key) <= limit && (r.key == key ==> r.limit == limit)
    ensures Count(After(s, r), key) <= limit
    ensures Allowance(After(s, r), key, limit, from) + (if r.key == key && Allowed(s, r) then 1 else 0) <=
            Allowance(s, key, limit, from)
  {
  }

  /** A span of at most a minute lets through at most twice the limit, from any state
      the limiter can be in. */
  lemma {:induction false} MinuteBounded(s: Limiter, rs: seq<Request>, key: string, limit: nat, from: int)
    requires Count(s, key) <= limit && Fixed(rs, key, limit)
    requires forall i :: 0 <= i < |rs| ==> from <= rs[i].now <= from + MINUTE
    ensures Passed(s, rs, key) <= Allowance(s, key, limit, from) <= 2 * limit
    decreases |rs|
  {
    if rs != [] {
      AllowanceStep(s, rs[0], key, limit, from);
      MinuteBounded(After(s, rs[0]), rs[1..], key, limit, from);
    }
  }

  lemma {:induction false} CountsBounded(s: Limiter, rs: seq<Request>, key: string, limit: nat)
    requires Count(s, key) <= limit && Fixed(rs, key, limit)
    ensures Count(Run(s, rs), key) <= limit
  {
    if rs != [] { CountsBounded(s, rs[..|rs| - 1], key, limit); }
  }

  /** Over any run with a monotone clock, whoever's requests reset the window: the
      requests i to j - 1, when they span at most a minute, let at most twice the
      limit of one key through. */
  lemma AnySpanBounded(s: Limiter, rs: seq<Request>, key: string, limit: nat, i: nat, j: nat)
    requires s.counts == map[] && Monotone(rs) && Fixed(rs, key, limit)
    requires i < j <= |rs| && rs[j - 1].now - rs[i].now <= MINUTE
    ensures Passed(Run(s, rs[..i]), rs[i..j], key) <= 2 * limit
  {
    CountsBounded(s, rs[..i], key, limit);
    MinuteBounded(Run(s, rs[..i]), rs[i..j], key, limit, rs[i].now);
  }

  function Burst(r: Request, n: nat): seq<Request> { seq(n, i => r) }

  /** A window with room for n lets n equal requests through and counts them. */
  lemma {:induction false} BurstPasses(s: Limiter, r: Request, n: nat, rest: seq<Request>)
    requires r.now - s.window < MINUTE && Count(s, r.key) + n <= r.limit
    ensures exists counts :: Passed(s, Burst(r, n) + rest, r.key) == n + Passed(Limiter(s.window, counts), rest, r.key)
    decreases n
  {
    var rs := Burst(r, n) + rest;
    if n == 0 {
      assert rs == rest;
      assert Passed(s, rs, r.key) == 0 + Passed(Limiter(s.window, s.counts), rest, r.key);
    } else {
      assert rs[0] == r && rs[1..] == Burst(r, n - 1) + rest;
      BurstPasses(After(s, r), r, n - 1, rest);
      var counts :| Passed(After(s, r), rs[1..], r.key) == n - 1 + Passed(Limiter(s.window, counts), rest, r.key);
      assert Passed(s, rs, r.key) == n + Passed(Limiter(s.window, counts), rest, r.key);
    }
  }

  /** Twice the limit is reached, for every key and limit and whenever the window
      began: as many as the limit in the last nanosecond of the window, and as
      many again in the next one, which reset it. */
  lemma TwiceIsReached(window: int, key: string, limit: nat)
    ensures var late := Burst(Request(window + MINUTE - 1, key, limit), limit);
            var rs := late + Burst(Request(window + MINUTE, key, limit), limit);
            Passed(Limiter(window, map[]), rs, key) == 2 * limit
  {
    var s, early, late := Limiter(window, map[]), Request(window + MINUTE - 1, key, limit), Request(window + MINUTE, key, limit);
    BurstPasses(s, early, limit, Burst(late, limit));
    var counts :| Passed(s, Burst(early, limit) + Burst(late, limit), key) ==
                  limit + Passed(Limiter(window, counts), Burst(late, limit), key);
    ResetPasses(Limiter(window, counts), late);
  }

  /** The first request after a window resets it, and the limit passes anew. */
  lemma ResetPasses(s: Limiter, r: Request)
    requires r.now - s.window >= MINUTE && r.limit >= 0
    ensures Passed(s, Burst(r, r.limit), r.key) == r.limit
  {
    var rs := Burst(r, r.limit);
    if r.limit > 0 {
      BurstPasses(Limiter(r.now, map[]), r, r.limit, []);
      assert rs + [] == rs;
      assert Passed(s, rs, r.key) == Passed(Limiter(r.now, map[]), rs, r.key);
    }
  }

  // ------------------------------------------------------------- the algorithm

  class Quota {
    var rpmWindow: int
    var rpmCounts: map<string, nat>

    constructor ()
      ensures rpmCounts == map[]
    {
      rpmWindow, rpmCounts := 0, map[];
    }

    ghost function View(): Limiter
      reads this
    {
      Limiter(rpmWindow, rpmCounts)
    }

    /** allowRPM, in process. */
    method AllowRPM(now: int, user: string, kind: string, limit: int) returns (ok: bool)
      modifies this
      ensures var r := Request(now, Key(user, kind), limit);
              ok == Allowed(old(View()), r) && View() == After(old(View()), r)
    {
      if now - rpmWindow >= MINUTE {
        rpmWindow, rpmCounts := now, map[];
      }
      var key := Key(user, kind);
      var count := if key in rpmCounts then rpmCounts[key] else 0;
      if count >= limit { return false; }
      rpmCounts := rpmCounts[key := count + 1];
      ok := true;
    }
  }
}
