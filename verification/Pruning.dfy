/**
 Pruning keeps every channel's subscription graph a forest.

 Any server may drop a channel it has no users for and at most one other server
 in, whenever a say, a leave or a logout reaches it; the leave it sends travels
 for a while. Between joins, in every interleaving and for every channel at
 once, the servers that list each other mutually still form a forest in which
 any two surviving servers are as connected as they were.
*/
module Pruning {
  import opened Addresses
  import opened Graphs
  import opened Protocol

  // Neither sends nor delivers a join, nor gives up on a server that sends none.
  predicate Quiet(step: Step) {
    !step.ClientJoin? && !step.Heartbeat? && !step.ServerTimeout? && (step.Deliver? ==> !step.msg.body.Join?)
  }

  function Leaving(c: Cluster, chan: string, v: Addr, u: Addr): nat {
    c.net[Msg(v, u, chan, Leave)]
  }

  // ------------------------- what one quiet step does to one channel's graph

  ghost predicate Untouched(c: Cluster, c': Cluster, chan: string) {
    && Listing(c', chan) == Listing(c, chan)
    && (forall v, u :: Leaving(c', chan, v, u) == Leaving(c, chan, v, u))
  }

  ghost predicate Dropped(c: Cluster, c': Cluster, chan: string, n: Addr) {
    var g := Listing(c, chan);
    && n in g && |g[n]| <= 1
    && Listing(c', chan) == g - {n}
    && (forall v, u :: Leaving(c', chan, v, u) == Leaving(c, chan, v, u) + if v == n && u in g[n] then 1 else 0)
  }

  ghost predicate Unlisted(c: Cluster, c': Cluster, chan: string, n: Addr, from: Addr) {
    var g := Listing(c, chan);
    && Leaving(c, chan, from, n) > 0
    && Listing(c', chan) == (if n in g then g[n := g[n] - {from}] else g)
    && (forall v, u :: Leaving(c', chan, v, u) == Leaving(c, chan, v, u) - if v == from && u == n then 1 else 0)
  }

  ghost predicate SameLists(sv: Server, sv1: Server) {
    && sv1.channels.Keys == sv.channels.Keys
    && (forall c :: c in sv.channels ==> sv1.channels[c].servers == sv.channels[c].servers)
  }

  lemma PrunedShape(c: Cluster, n: Addr, sv1: Server, c': Cluster, chan: string)
    requires n in c.servers && SameLists(c.servers[n], sv1)
    requires c'.servers == c.servers[n := Pruned(n, sv1).server]
    requires forall v, u ::
      Leaving(c', chan, v, u) == Leaving(c, chan, v, u) +
        if Msg(v, u, chan, Leave) in LeaveMsgs(n, sv1.channels) then 1 else 0
    ensures Untouched(c, c', chan) || Dropped(c, c', chan, n)
  {
    var g := Listing(c, chan);
    ListingUpdate(c, n, Pruned(n, sv1).server, c', chan);
    if n in g && Prunable(sv1.channels[chan]) {
      assert Dropped(c, c', chan, n);
    } else {
      assert Listing(c', chan) == g;
      assert Untouched(c, c', chan);
    }
  }

  lemma PruneStepShape(c: Cluster, n: Addr, sv1: Server, says: set<Msg>, popped: multiset<Msg>, c': Cluster,
                       chan: string)
    requires n in c.servers && SameLists(c.servers[n], sv1)
    requires c'.servers == c.servers[n := Pruned(n, sv1).server]
    requires forall m :: m in popped || m in says ==> !m.body.Leave?
    requires c'.net == c.net - popped + multiset(says + LeaveMsgs(n, sv1.channels))
    ensures Untouched(c, c', chan) || Dropped(c, c', chan, n)
  {
    forall v, u ensures Leaving(c', chan, v, u) ==
        Leaving(c, chan, v, u) + if Msg(v, u, chan, Leave) in LeaveMsgs(n, sv1.channels) then 1 else 0 {
      var m := Msg(v, u, chan, Leave);
      Posted(c.net - popped, says + LeaveMsgs(n, sv1.channels), m);
      assert m !in says && m !in popped;
    }
    PrunedShape(c, n, sv1, c', chan);
  }

  lemma LeaveShape(c: Cluster, m: Msg, c': Cluster, chan: string)
    requires m.body.Leave? && Allowed(c, Deliver(m)) && c' == After(c, Deliver(m))
    ensures if m.chan == chan then Unlisted(c, c', chan, m.dst, m.src) else Untouched(c, c', chan)
  {
    ListingUpdate(c, m.dst, OnLeave(c.servers[m.dst], m.src, m.chan).server, c', chan);
    forall v, u ensures Leaving(c', chan, v, u) ==
        Leaving(c, chan, v, u) - if m == Msg(v, u, chan, Leave) then 1 else 0 {
      Posted(c.net - multiset{m}, {}, Msg(v, u, chan, Leave));
    }
    if m.chan != chan {
      assert Listing(c', chan) == Listing(c, chan);
    }
  }

  lemma QuietShape(c: Cluster, step: Step, chan: string)
    requires WellFormed(c) && Allowed(c, step) && Quiet(step)
    ensures
      var c', n := After(c, step), Site(step);
      || Untouched(c, c', chan)
      || Dropped(c, c', chan, n)
      || (step.Deliver? && step.msg.body.Leave? && Unlisted(c, c', chan, n, step.msg.src))
  {
    var n := Site(step);
    var sv := c.servers[n];
    var c' := After(c, step);
    match step
    case Login(_, u) =>
      LoginShape(c, step, chan);
    case ClientSay(_, _, _, _, _) =>
      LoginShape(c, step, chan);
    case UserTimeout(_, _) =>
      LoginShape(c, step, chan);
    case Logout(_, a) =>
      var sv1 := if LoggedIn(sv, a) then
          sv.(users := sv.users - {UserAt(sv, a)}, channels := Forget(sv.channels, {UserAt(sv, a)}))
        else sv;
      assert {} + LeaveMsgs(n, sv1.channels) == LeaveMsgs(n, sv1.channels);
      assert c.net - multiset{} == c.net;
      PruneStepShape(c, n, sv1, {}, multiset{}, c', chan);
    case ClientLeave(_, a, d) =>
      var sv1 := if d in sv.channels then
          var ch := sv.channels[d];
          sv.(channels := sv.channels[d := ch.(users := ch.users - {UserAt(sv, a)})])
        else sv;
      assert {} + LeaveMsgs(n, sv1.channels) == LeaveMsgs(n, sv1.channels);
      assert c.net - multiset{} == c.net;
      PruneStepShape(c, n, sv1, {}, multiset{}, c', chan);
    case Deliver(m) =>
      if m.body.Leave? {
        LeaveShape(c, m, c', chan);
      } else {
        assert WellFormedServer(c, n);
        var says := Broadcast(n, sv.channels[m.chan].servers - {m.src}, m.chan, m.body);
        PruneStepShape(c, n, sv, says, multiset{m}, c', chan);
      }
  }

  lemma LoginShape(c: Cluster, step: Step, chan: string)
    requires Allowed(c, step) && (step.Login? || step.ClientSay? || step.UserTimeout?)
    ensures Untouched(c, After(c, step), chan)
  {
    var n := Site(step);
    var c' := After(c, step);
    ListingUpdate(c, n, EffectOf(c, step).server, c', chan);
    assert Listing(c', chan) == Listing(c, chan);
    forall v, u ensures Leaving(c', chan, v, u) == Leaving(c, chan, v, u) {
      Posted(c.net, EffectOf(c, step).msgs, Msg(v, u, chan, Leave));
    }
  }

  // -------------------------------------------------------- the invariant

  // A listed server that no longer holds the channel has a leave on its way;
  // only such servers have; and no join is in flight.
  ghost predicate Tidy(c: Cluster, chan: string) {
    var g := Listing(c, chan);
    && (forall u, v {:trigger Edge(g, u, v)} :: Edge(g, u, v) ==>
          if v in g then Edge(g, v, u) else Leaving(c, chan, v, u) > 0)
    && (forall v, u {:trigger Leaving(c, chan, v, u)} :: Leaving(c, chan, v, u) > 0 ==> v !in g)
  }

  // The servers that list each other.
  function Core(c: Cluster, chan: string): Graph {
    var g := Listing(c, chan);
    map u | u in g :: set v | v in g[u] && v in g
  }

  lemma CoreSymmetric(c: Cluster, chan: string)
    requires Tidy(c, chan)
    ensures Symmetric(Core(c, chan))
  {
    var g := Listing(c, chan);
    forall u, v | Edge(Core(c, chan), u, v) ensures Edge(Core(c, chan), v, u) {
      assert Edge(g, u, v);
    }
  }

  lemma QuietKeepsTidy(c: Cluster, step: Step, chan: string)
    requires WellFormed(c) && Allowed(c, step) && Quiet(step) && Tidy(c, chan)
    ensures Tidy(After(c, step), chan)
    ensures Subgraph(Core(After(c, step), chan), Core(c, chan))
  {
    hide Allowed, After, WellFormed, Quiet;
    var c', n := After(c, step), Site(step);
    var g, g' := Listing(c, chan), Listing(c', chan);
    QuietShape(c, step, chan);
    forall u, v | Edge(g', u, v)
      ensures if v in g' then Edge(g', v, u) else Leaving(c', chan, v, u) > 0
    {
      assert Edge(g, u, v);
      if v == n && Dropped(c, c', chan, n) {
        assert Edge(g, n, u);
      }
    }
    forall v, u | Leaving(c', chan, v, u) > 0 ensures v !in g' {
      if Leaving(c, chan, v, u) > 0 {
        assert v !in g;
      }
    }
    forall u, v | Edge(Core(c', chan), u, v) ensures Edge(Core(c, chan), u, v) {
      assert Edge(g', u, v);
    }
  }

  lemma UnlistedKeepsCore(c: Cluster, c': Cluster, chan: string, n: Addr, from: Addr)
    requires Tidy(c, chan) && Unlisted(c, c', chan, n, from)
    ensures Core(c', chan) == Core(c, chan)
  {
    var g, g' := Listing(c, chan), Listing(c', chan);
    assert from !in g && g'.Keys == g.Keys;
    forall u | u in g ensures Core(c', chan)[u] == Core(c, chan)[u] {
    }
  }

  lemma DroppedCore(c: Cluster, c': Cluster, chan: string, n: Addr)
    requires Dropped(c, c', chan, n)
    ensures |Core(c, chan)[n]| <= 1
    ensures forall u, v :: Edge(Core(c, chan), u, v) && u != n && v != n ==> Edge(Core(c', chan), u, v)
  {
    assert Core(c, chan)[n] <= Listing(c, chan)[n];
    SubsetSize(Core(c, chan)[n], Listing(c, chan)[n]);
  }

  // No step separates two servers that both still hold the channel.
  lemma QuietKeepsConnected(c: Cluster, step: Step, chan: string, x: Addr, y: Addr)
    requires WellFormed(c) && Allowed(c, step) && Quiet(step) && Tidy(c, chan)
    requires x in Listing(After(c, step), chan) && y in Listing(After(c, step), chan)
    requires Reaches(Core(c, chan), x, y)
    ensures Reaches(Core(After(c, step), chan), x, y)
  {
    var c', n := After(c, step), Site(step);
    QuietShape(c, step, chan);
    CoreSymmetric(c, chan);
    if Dropped(c, c', chan, n) {
      DroppedCore(c, c', chan, n);
      RemoveLeaves(Core(c, chan), Core(c', chan), {n}, x, y);
    } else if !Untouched(c, c', chan) {
      UnlistedKeepsCore(c, c', chan, n, step.msg.src);
    }
  }

  // ------------------------------------------------------------- whole runs

  // Every channel's lists are mutual, form a forest, and nothing is in flight.
  ghost predicate Settled(c: Cluster) {
    && WellFormed(c) && Drained(c)
    && (forall chan {:trigger Listing(c, chan)} :: Symmetric(Listing(c, chan)))
  }

  ghost predicate Forests(c: Cluster) {
    forall chan {:trigger Listing(c, chan)} :: Acyclic(Listing(c, chan))
  }

  lemma SettledTidy(c: Cluster, chan: string)
    requires Settled(c)
    ensures Tidy(c, chan) && Core(c, chan) == Listing(c, chan)
  {
    var g := Listing(c, chan);
    forall u, v | Edge(g, u, v) ensures v in g {
      assert Edge(g, v, u);
    }
    forall u | u in g ensures Core(c, chan)[u] == g[u] {
      forall v | v in g[u] ensures v in g {
        assert Edge(g, u, v);
      }
    }
  }

  ghost predicate AllQuiet(steps: seq<Step>) {
    forall i :: 0 <= i < |steps| ==> Quiet(steps[i])
  }

  lemma {:induction false} RunKeepsTidy(c: Cluster, steps: seq<Step>, chan: string)
    requires Settled(c) && Run(c, steps) && AllQuiet(steps)
    ensures WellFormed(End(c, steps)) && Tidy(End(c, steps), chan)
    ensures Subgraph(Core(End(c, steps), chan), Listing(c, chan))
    decreases |steps|
  {
    if steps == [] {
      SettledTidy(c, chan);
    } else {
      var n := |steps| - 1;
      var mid := End(c, steps[..n]);
      RunKeepsTidy(c, steps[..n], chan);
      RunKeepsWellFormed(c, steps);
      QuietKeepsTidy(mid, steps[n], chan);
      forall u, v | Edge(Core(End(c, steps), chan), u, v) ensures Edge(Listing(c, chan), u, v) {
        assert Edge(Core(mid, chan), u, v);
      }
    }
  }

  lemma {:induction false} RunKeepsConnected(c: Cluster, steps: seq<Step>, chan: string, x: Addr, y: Addr)
    requires Settled(c) && Run(c, steps) && AllQuiet(steps)
    requires Holds(End(c, steps), x, chan) && Holds(End(c, steps), y, chan)
    requires Reaches(Listing(c, chan), x, y)
    ensures Reaches(Core(End(c, steps), chan), x, y)
    decreases |steps|
  {
    if steps == [] {
      SettledTidy(c, chan);
    } else {
      var n := |steps| - 1;
      var mid := End(c, steps[..n]);
      RunKeepsTidy(c, steps[..n], chan);
      QuietShape(mid, steps[n], chan);
      assert x in Listing(After(mid, steps[n]), chan) && y in Listing(After(mid, steps[n]), chan);
      assert x in Listing(mid, chan) && y in Listing(mid, chan);
      RunKeepsConnected(c, steps[..n], chan, x, y);
      QuietKeepsConnected(mid, steps[n], chan, x, y);
    }
  }

  /** Any run of says, leaves, logouts, logins and their deliveries, however
      interleaved, that starts settled with forests and drains, ends settled
      with forests; and two servers that still hold a channel are connected in
      it exactly when they were. */
  lemma PruningKeepsForests(c: Cluster, steps: seq<Step>)
    requires Settled(c) && Forests(c) && Run(c, steps) && AllQuiet(steps) && Drained(End(c, steps))
    ensures Settled(End(c, steps)) && Forests(End(c, steps))
    ensures forall chan, x, y :: Holds(End(c, steps), x, chan) && Holds(End(c, steps), y, chan) ==>
      (Reaches(Listing(End(c, steps), chan), x, y) <==> Reaches(Listing(c, chan), x, y))
  {
    var c' := End(c, steps);
    forall chan ensures Symmetric(Listing(c', chan)) && Acyclic(Listing(c', chan)) {
      DrainedCore(c, steps, chan);
      SubgraphAcyclic(Listing(c', chan), Listing(c, chan));
    }
    RunKeepsWellFormed(c, steps);
    forall chan, x, y | Holds(c', x, chan) && Holds(c', y, chan)
      ensures Reaches(Listing(c', chan), x, y) <==> Reaches(Listing(c, chan), x, y)
    {
      DrainedCore(c, steps, chan);
      if Reaches(Listing(c, chan), x, y) {
        RunKeepsConnected(c, steps, chan, x, y);
      }
      if Reaches(Listing(c', chan), x, y) {
        SubgraphReaches(Listing(c', chan), Listing(c, chan), x, y);
      }
    }
  }

  lemma DrainedCore(c: Cluster, steps: seq<Step>, chan: string)
    requires Settled(c) && Run(c, steps) && AllQuiet(steps) && Drained(End(c, steps))
    ensures Core(End(c, steps), chan) == Listing(End(c, steps), chan)
    ensures Symmetric(Listing(End(c, steps), chan))
    ensures Subgraph(Listing(End(c, steps), chan), Listing(c, chan))
  {
    hide Allowed, After, Run, End, Settled, WellFormed;
    var c' := End(c, steps);
    var g := Listing(c', chan);
    RunKeepsTidy(c, steps, chan);
    CoreSymmetric(c', chan);
    forall u | u in g ensures Core(c', chan)[u] == g[u] {
      forall v | v in g[u] ensures v in g {
        assert Edge(g, u, v);
      }
    }
  }
}
