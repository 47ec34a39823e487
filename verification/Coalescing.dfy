/** Request coalescing: one loader per key, bounded followers, and an exact follower total. */
module Coalescing {

  type Key = string
  type Thread = nat

  datatype Flight = Flight(key: Key, followers: int, done: bool)

  datatype Phase = Out | Leading(flight: nat) | Following(flight: nat)

  /** All flights ever started, those open for joining, and the registry's follower total. */
  datatype Registry = Registry(flights: seq<Flight>, open: map<Key, nat>, followers: int, phases: map<Thread, Phase>)

  /** A caller joins with the follower limits of its own origin and service; the registry is shared. */
  datatype Step = Join(t: Thread, key: Key, queue: nat, total: nat) | Leave(t: Thread) | Finish(t: Thread)

  /** Upper bounds of the limits that callers bring: per key, and for the whole registry. */
  datatype Limits = Limits(queue: Key -> nat, total: nat)

  predicate Within(lim: Limits, step: Step) {
    step.Join? ==> step.queue <= lim.queue(step.key) && step.total <= lim.total
  }

  function PhaseOf(r: Registry, t: Thread): Phase {
    if t in r.phases then r.phases[t] else Out
  }

  predicate Enabled(r: Registry, step: Step) {
    match step
    case Join(t, _, _, _) => PhaseOf(r, t).Out?
    case Leave(t) => PhaseOf(r, t).Following? && PhaseOf(r, t).flight < |r.flights|
    case Finish(t) => PhaseOf(r, t).Leading? && PhaseOf(r, t).flight < |r.flights|
  }

  /** A leader starts the flight of a free key; others follow it or are shed at their own limits. */
  function Joined(r: Registry, t: Thread, key: Key, queue: nat, total: nat): Registry {
    if key !in r.open then
      r.(flights := r.flights + [Flight(key, 0, false)], open := r.open[key := |r.flights|],
         phases := r.phases[t := Leading(|r.flights|)])
    else
      var f := r.open[key];
      if f >= |r.flights| || r.flights[f].followers >= queue || r.followers >= total then r
      else
        r.(flights := r.flights[f := r.flights[f].(followers := r.flights[f].followers + 1)],
           followers := r.followers + 1, phases := r.phases[t := Following(f)])
  }

  /** A follower gets the result, fails, times out or sees the shutdown: in every case it is uncounted. */
  function Left(r: Registry, t: Thread, f: nat): Registry
    requires f < |r.flights|
  {
    r.(flights := r.flights[f := r.flights[f].(followers := r.flights[f].followers - 1)],
       followers := r.followers - 1, phases := r.phases[t := Out])
  }

  function Finished(r: Registry, t: Thread, f: nat): Registry
    requires f < |r.flights|
  {
    var key := r.flights[f].key;
    r.(flights := r.flights[f := r.flights[f].(done := true)],
       open := if key in r.open && r.open[key] == f then r.open - {key} else r.open,
       phases := r.phases[t := Out])
  }

  function Next(r: Registry, step: Step): Registry
    requires Enabled(r, step)
  {
    match step
    case Join(t, key, queue, total) => Joined(r, t, key, queue, total)
    case Leave(t) => Left(r, t, PhaseOf(r, t).flight)
    case Finish(t) => Finished(r, t, PhaseOf(r, t).flight)
  }

  // ----- The invariant -----

  /** Followers of all flights, finished ones included. */
  function Total(flights: seq<Flight>): int {
    if flights == [] then 0 else Total(flights[..|flights| - 1]) + flights[|flights| - 1].followers
  }

  function FollowersOf(phases: map<Thread, Phase>, f: nat): set<Thread> {
    set t | t in phases && phases[t] == Following(f)
  }

  ghost predicate FlightOk(lim: Limits, r: Registry, f: nat)
    requires f < |r.flights|
  {
    r.flights[f].followers == |FollowersOf(r.phases, f)| && r.flights[f].followers <= lim.queue(r.flights[f].key)
  }

  ghost predicate OpenOk(r: Registry, k: Key)
    requires k in r.open
  {
    r.open[k] < |r.flights| && r.flights[r.open[k]].key == k && !r.flights[r.open[k]].done
  }

  /** A leader's flight is unfinished, open under its key, and led by nobody else. */
  ghost predicate LeaderOk(r: Registry, t: Thread)
    requires t in r.phases && r.phases[t].Leading?
  {
    var f := r.phases[t].flight;
    && f < |r.flights| && !r.flights[f].done && r.flights[f].key in r.open && r.open[r.flights[f].key] == f
    && forall u | u in r.phases && r.phases[u] == Leading(f) :: u == t
  }

  ghost predicate Counted(lim: Limits, r: Registry) {
    && r.followers == Total(r.flights) && r.followers <= lim.total
    && (forall f | 0 <= f < |r.flights| :: FlightOk(lim, r, f))
    && (forall t | t in r.phases && r.phases[t].Following? :: r.phases[t].flight < |r.flights|)
  }

  ghost predicate Led(r: Registry) {
    && (forall k | k in r.open :: OpenOk(r, k))
    && (forall t | t in r.phases && r.phases[t].Leading? :: LeaderOk(r, t))
  }

  lemma {:induction false} TotalUpdate(flights: seq<Flight>, f: nat, g: Flight)
    requires f < |flights|
    ensures Total(flights[f := g]) == Total(flights) - flights[f].followers + g.followers
  {
    var n := |flights| - 1;
    if f < n {
      TotalUpdate(flights[..n], f, g);
      assert flights[f := g][..n] == flights[..n][f := g];
    } else {
      assert flights[f := g][..n] == flights[..n];
    }
  }

  lemma FollowersMove(phases: map<Thread, Phase>, t: Thread, p: Phase, f: nat)
    ensures |FollowersOf(phases[t := p], f)|
         == |FollowersOf(phases, f)| - (if t in phases && phases[t] == Following(f) then 1 else 0) + (if p == Following(f) then 1 else 0)
  {
    var was := FollowersOf(phases, f);
    assert FollowersOf(phases[t := p], f) == (was - {t}) + (if p == Following(f) then {t} else {});
    assert t in was <==> t in phases && phases[t] == Following(f);
  }

  lemma FollowKeeps(lim: Limits, r: Registry, t: Thread, f: nat, change: int, p: Phase)
    requires Counted(lim, r) && f < |r.flights|
    requires (change == 1 && PhaseOf(r, t).Out? && p == Following(f)) || (change == -1 && PhaseOf(r, t) == Following(f) && p == Out)
    requires change == 1 ==> r.flights[f].followers < lim.queue(r.flights[f].key) && r.followers < lim.total
    ensures Counted(lim, r.(flights := r.flights[f := r.flights[f].(followers := r.flights[f].followers + change)],
                            followers := r.followers + change, phases := r.phases[t := p]))
  {
    var g := r.flights[f].(followers := r.flights[f].followers + change);
    var s := r.(flights := r.flights[f := g], followers := r.followers + change, phases := r.phases[t := p]);
    TotalUpdate(r.flights, f, g);
    forall i | 0 <= i < |s.flights| ensures FlightOk(lim, s, i) {
      assert FlightOk(lim, r, i);
      FollowersMove(r.phases, t, p, i);
    }
  }

  lemma LeadKeeps(lim: Limits, r: Registry, t: Thread, key: Key)
    requires Counted(lim, r) && PhaseOf(r, t).Out?
    ensures var n := |r.flights|;
      Counted(lim, r.(flights := r.flights + [Flight(key, 0, false)], open := r.open[key := n], phases := r.phases[t := Leading(n)]))
  {
    var n := |r.flights|;
    var s := r.(flights := r.flights + [Flight(key, 0, false)], open := r.open[key := n], phases := r.phases[t := Leading(n)]);
    assert s.flights[..n] == r.flights;
    forall i | 0 <= i < |s.flights| ensures FlightOk(lim, s, i) {
      FollowersMove(r.phases, t, Leading(n), i);
      if i < n {
        assert FlightOk(lim, r, i);
      } else {
        assert FollowersOf(r.phases, n) == {};
      }
    }
  }

  lemma FinishCounted(lim: Limits, r: Registry, t: Thread, f: nat)
    requires Counted(lim, r) && f < |r.flights| && PhaseOf(r, t) == Leading(f)
    ensures Counted(lim, Finished(r, t, f))
  {
    var s := Finished(r, t, f);
    TotalUpdate(r.flights, f, r.flights[f].(done := true));
    forall i | 0 <= i < |s.flights| ensures FlightOk(lim, s, i) {
      assert FlightOk(lim, r, i);
      FollowersMove(r.phases, t, Out, i);
    }
  }

  // ----- One leader per key -----

  lemma LeadLed(r: Registry, t: Thread, key: Key)
    requires Led(r) && PhaseOf(r, t).Out? && key !in r.open
    ensures var n := |r.flights|;
      Led(r.(flights := r.flights + [Flight(key, 0, false)], open := r.open[key := n], phases := r.phases[t := Leading(n)]))
  {
    var n := |r.flights|;
    var s := r.(flights := r.flights + [Flight(key, 0, false)], open := r.open[key := n], phases := r.phases[t := Leading(n)]);
    forall k | k in s.open ensures OpenOk(s, k) {
      if k != key { assert OpenOk(r, k); }
    }
    forall u | u in s.phases && s.phases[u].Leading? ensures LeaderOk(s, u) {
      if u != t { assert LeaderOk(r, u); }
      forall v | v in s.phases && s.phases[v] == s.phases[u] ensures v == u {
        if v != t { assert LeaderOk(r, v); }
      }
    }
  }

  /** Changing follower counts, or who follows, leaves the leaders alone. */
  lemma FollowLed(r: Registry, t: Thread, f: nat, g: Flight, n: int, p: Phase)
    requires Led(r) && f < |r.flights| && g.key == r.flights[f].key && g.done == r.flights[f].done
    requires !PhaseOf(r, t).Leading? && !p.Leading?
    ensures Led(r.(flights := r.flights[f := g], followers := n, phases := r.phases[t := p]))
  {
    var s := r.(flights := r.flights[f := g], followers := n, phases := r.phases[t := p]);
    forall k | k in s.open ensures OpenOk(s, k) { assert OpenOk(r, k); }
    forall u | u in s.phases && s.phases[u].Leading? ensures LeaderOk(s, u) {
      assert u != t;
      assert LeaderOk(r, u);
    }
  }

  lemma FinishLed(r: Registry, t: Thread, f: nat)
    requires Led(r) && f < |r.flights| && PhaseOf(r, t) == Leading(f)
    ensures Led(Finished(r, t, f))
  {
    var s := Finished(r, t, f);
    assert LeaderOk(r, t);
    forall k | k in s.open ensures OpenOk(s, k) { assert OpenOk(r, k); }
    forall u | u in s.phases && s.phases[u].Leading? ensures LeaderOk(s, u) {
      assert u != t;
      assert LeaderOk(r, u);
    }
  }

  lemma NextKeeps(lim: Limits, r: Registry, step: Step)
    requires Counted(lim, r) && Led(r) && Enabled(r, step) && Within(lim, step)
    ensures Counted(lim, Next(r, step)) && Led(Next(r, step))
  {
    match step
    case Join(t, key, queue, total) => JoinKeeps(lim, r, t, key, queue, total);
    case Leave(t) =>
      var f := PhaseOf(r, t).flight;
      FollowKeeps(lim, r, t, f, -1, Out);
      FollowLed(r, t, f, r.flights[f].(followers := r.flights[f].followers - 1), r.followers - 1, Out);
    case Finish(t) =>
      FinishCounted(lim, r, t, PhaseOf(r, t).flight);
      FinishLed(r, t, PhaseOf(r, t).flight);
  }

  lemma JoinKeeps(lim: Limits, r: Registry, t: Thread, key: Key, queue: nat, total: nat)
    requires Counted(lim, r) && Led(r) && PhaseOf(r, t).Out? && queue <= lim.queue(key) && total <= lim.total
    ensures Counted(lim, Joined(r, t, key, queue, total)) && Led(Joined(r, t, key, queue, total))
  {
    if key !in r.open {
      LeadKeeps(lim, r, t, key);
      LeadLed(r, t, key);
    } else {
      assert OpenOk(r, key);
      var f := r.open[key];
      if r.flights[f].followers < queue && r.followers < total {
        FollowKeeps(lim, r, t, f, 1, Following(f));
        FollowLed(r, t, f, r.flights[f].(followers := r.flights[f].followers + 1), r.followers + 1, Following(f));
      }
    }
  }

  // ----- Runs -----

  ghost predicate IsRun(rs: seq<Registry>, steps: seq<Step>) {
    && |rs| == |steps| + 1 && rs[0] == Registry([], map[], 0, map[])
    && forall i | 0 <= i < |steps| :: Enabled(rs[i], steps[i]) && rs[i + 1] == Next(rs[i], steps[i])
  }

  /**
   The total is the sum over all flights, at every point of every interleaving, and neither
   a flight nor the total has more followers than the widest limit that a caller has brought.
   */
  lemma {:induction false} FollowersExact(lim: Limits, rs: seq<Registry>, steps: seq<Step>, n: nat)
    requires IsRun(rs, steps) && n <= |steps| && forall i | 0 <= i < n :: Within(lim, steps[i])
    ensures Counted(lim, rs[n]) && Led(rs[n])
  {
    if n > 0 {
      FollowersExact(lim, rs, steps, n - 1);
      NextKeeps(lim, rs[n - 1], steps[n - 1]);
    }
  }

  /** Limits that admit every caller of the run, for each key the widest. */
  function Widest(steps: seq<Step>): Limits {
    if steps == [] then Limits((k: Key) => 0, 0)
    else
      var w, s := Widest(steps[..|steps| - 1]), steps[|steps| - 1];
      if !s.Join? then w
      else Limits((k: Key) => if k == s.key && w.queue(k) < s.queue then s.queue else w.queue(k),
                  if w.total < s.total then s.total else w.total)
  }

  lemma {:induction false} WidestAdmits(steps: seq<Step>)
    ensures forall i | 0 <= i < |steps| :: Within(Widest(steps), steps[i])
  {
    if steps != [] {
      var init := steps[..|steps| - 1];
      WidestAdmits(init);
      forall i | 0 <= i < |steps| ensures Within(Widest(steps), steps[i]) {
        if i < |init| { assert Within(Widest(init), init[i]); }
      }
    }
  }

  /** At most one loader per key runs. */
  lemma OneLoaderPerKey(rs: seq<Registry>, steps: seq<Step>, n: nat, t: Thread, u: Thread)
    requires IsRun(rs, steps) && n <= |steps|
    requires PhaseOf(rs[n], t).Leading? && PhaseOf(rs[n], u).Leading?
    ensures PhaseOf(rs[n], t).flight < |rs[n].flights| && PhaseOf(rs[n], u).flight < |rs[n].flights|
    ensures rs[n].flights[PhaseOf(rs[n], t).flight].key == rs[n].flights[PhaseOf(rs[n], u).flight].key ==> t == u
  {
    WidestAdmits(steps);
    FollowersExact(Widest(steps), rs, steps, n);
    assert LeaderOk(rs[n], t) && LeaderOk(rs[n], u);
  }

  datatype Role = Leader(flight: nat) | Follower(flight: nat) | Shed

  /** The registry updated in place; each method is one stretch under its lock. */
  class FlightRegistry {
    var flights: seq<Flight>
    var open: map<Key, nat>
    var followers: int

    constructor ()
      ensures State(map[]) == Registry([], map[], 0, map[])
    {
      flights, open, followers := [], map[], 0;
    }

    /** The registry's fields, with the threads' phases alongside. */
    function State(phases: map<Thread, Phase>): Registry
      reads this
    {
      Registry(flights, open, followers, phases)
    }

    /** `queue` and `total` are the limits of the caller's origin and service. */
    method Enter(t: Thread, key: Key, queue: nat, total: nat, ghost phases: map<Thread, Phase>) returns (role: Role)
      requires key in open ==> open[key] < |flights|
      modifies this
      ensures State(Joined(old(State(phases)), t, key, queue, total).phases) == Joined(old(State(phases)), t, key, queue, total)
      ensures role == if key !in old(open) then Leader(|old(flights)|)
                      else if old(flights)[old(open)[key]].followers < queue && old(followers) < total then Follower(old(open)[key])
                      else Shed
      ensures role.Leader? ==> flights == old(flights) + [Flight(key, 0, false)] && open == old(open)[key := role.flight]
      ensures role.Follower? ==> followers == old(followers) + 1 && flights[role.flight].followers == old(flights)[role.flight].followers + 1
      ensures role.Shed? ==> flights == old(flights) && open == old(open) && followers == old(followers)
    {
      if key !in open {
        role := Leader(|flights|);
        open := open[key := |flights|];
        flights := flights + [Flight(key, 0, false)];
        return;
      }
      var f := open[key];
      if flights[f].followers >= queue || followers >= total {
        return Shed;
      }
      flights := flights[f := flights[f].(followers := flights[f].followers + 1)];
      followers := followers + 1;
      role := Follower(f);
    }

    method Depart(t: Thread, f: nat, ghost phases: map<Thread, Phase>)
      requires f < |flights|
      modifies this
      ensures State(phases[t := Out]) == Left(old(State(phases)), t, f)
    {
      flights := flights[f := flights[f].(followers := flights[f].followers - 1)];
      followers := followers - 1;
    }

    /** The leader is done: the key is free unless another flight has taken it. */
    method Complete(t: Thread, f: nat, ghost phases: map<Thread, Phase>)
      requires f < |flights|
      modifies this
      ensures State(phases[t := Out]) == Finished(old(State(phases)), t, f)
    {
      var key := flights[f].key;
      if key in open && open[key] == f {
        open := open - {key};
      }
      flights := flights[f := flights[f].(done := true)];
    }
  }
}
