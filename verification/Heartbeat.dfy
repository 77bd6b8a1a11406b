/**
 The periodic joins repair one-sided listings.

 A server that comes back to a channel is listed by its neighbours before it
 lists them. Once every server has sent its periodic joins and they have drained,
 a server lists exactly those it listed before and those that listed it.
*/
module Heartbeat {
  import opened Addresses
  import opened Graphs
  import opened Protocol
  import opened JoinFlood

  predicate Beating(step: Step) {
    step.Heartbeat? || (step.Deliver? && step.msg.body.Join?)
  }

  ghost predicate AllBeating(steps: seq<Step>) {
    forall i :: 0 <= i < |steps| ==> Beating(steps[i])
  }

  // The symmetric closure of a graph whose listed servers are all in it.
  function Mutual(g: Graph): Graph {
    map u | u in g :: g[u] + set v | v in g && u in g[v]
  }

  lemma MutualSymmetric(g: Graph)
    requires forall u, v :: Edge(g, u, v) ==> v in g
    ensures Symmetric(Mutual(g))
    ensures forall u, v :: Edge(Mutual(g), u, v) <==> Edge(g, u, v) || Edge(g, v, u)
  {
    forall u, v ensures Edge(Mutual(g), u, v) <==> Edge(g, u, v) || Edge(g, v, u) {
      assert Edge(g, v, u) ==> u in g && v in g;
      assert Edge(g, u, v) ==> u in g && v in g;
    }
  }

  // ------------------------------------------------------------- invariant

  // Lists only grow, towards the closure; a server that has sent its joins is
  // listed by, or on its way to, everyone it listed.
  ghost predicate Repairing(g0: Graph, c: Cluster, chan: string, sent: set<Addr>) {
    var g := Listing(c, chan);
    && g.Keys == g0.Keys && Subgraph(g0, g) && Subgraph(g, Mutual(g0))
    && (forall s, t {:trigger c.net[Msg(s, t, chan, Join)]} ::
          c.net[Msg(s, t, chan, Join)] > 0 ==> Edge(Mutual(g0), t, s))
    && (forall s, t {:trigger Edge(g0, s, t)} :: Edge(g0, s, t) && s in sent ==>
          Edge(g, t, s) || c.net[Msg(s, t, chan, Join)] > 0)
  }

  // Server `n` has sent a join to everyone it lists.
  ghost predicate Beat(c: Cluster, n: Addr, c': Cluster, chan: string) {
    var g := Listing(c, chan);
    && Listing(c', chan) == g
    && (forall s, t {:trigger c'.net[Msg(s, t, chan, Join)]} ::
          c'.net[Msg(s, t, chan, Join)] == c.net[Msg(s, t, chan, Join)] + if s == n && Edge(g, s, t) then 1 else 0)
  }

  lemma BeatShape(c: Cluster, step: Step, chan: string)
    requires step.Heartbeat? && Allowed(c, step)
    ensures Beat(c, step.at, After(c, step), chan)
  {
    var e := EffectOf(c, step);
    ListingUpdate(c, step.at, e.server, After(c, step), chan);
    assert Listing(After(c, step), chan) == Listing(c, chan);
    forall s, t ensures Msg(s, t, chan, Join) in e.msgs <==> s == step.at && Edge(Listing(c, chan), s, t) {
    }
    forall s, t ensures After(c, step).net[Msg(s, t, chan, Join)] ==
        c.net[Msg(s, t, chan, Join)] + if Msg(s, t, chan, Join) in e.msgs then 1 else 0 {
      Posted(c.net, e.msgs, Msg(s, t, chan, Join));
    }
  }

  lemma BeatKeepsRepairing(g0: Graph, c: Cluster, n: Addr, c': Cluster, chan: string, sent: set<Addr>)
    requires Beat(c, n, c', chan) && Repairing(g0, c, chan, sent)
    requires forall u, v :: Edge(g0, u, v) ==> v in g0
    ensures Repairing(g0, c', chan, sent + {n})
  {
    MutualSymmetric(g0);
    forall s, t | c'.net[Msg(s, t, chan, Join)] > 0 ensures Edge(Mutual(g0), t, s) {
      if Edge(Listing(c, chan), s, t) {
        assert Edge(Mutual(g0), s, t);
      }
    }
    forall s, t | Edge(g0, s, t) && s in sent + {n}
      ensures Edge(Listing(c', chan), t, s) || c'.net[Msg(s, t, chan, Join)] > 0
    {
      assert Edge(Listing(c, chan), s, t);
    }
  }

  lemma ArrivalKeepsRepairing(g0: Graph, c: Cluster, m: Msg, c': Cluster, chan: string, sent: set<Addr>)
    requires Enabled(c, Deliver(m)) && m == Msg(m.src, m.dst, chan, Join) && Joined(c, Deliver(m), c', chan)
    requires Repairing(g0, c, chan, sent)
    ensures Repairing(g0, c', chan, sent)
  {
    var g, g' := Listing(c, chan), Listing(c', chan);
    assert c.net[Msg(m.src, m.dst, chan, Join)] > 0;
    assert Edge(Mutual(g0), m.dst, m.src);
    forall u, v ensures Edge(g', u, v) <==> Edge(g, u, v) || (u == m.dst && v == m.src) {
    }
    forall s, t | c'.net[Msg(s, t, chan, Join)] > 0 ensures Edge(Mutual(g0), t, s) {
      assert c.net[Msg(s, t, chan, Join)] > 0;
    }
    forall s, t | Edge(g0, s, t) && s in sent ensures Edge(g', t, s) || c'.net[Msg(s, t, chan, Join)] > 0 {
      assert Edge(g, t, s) || c.net[Msg(s, t, chan, Join)] > 0;
    }
  }

  function Beats(steps: seq<Step>): set<Addr> {
    if steps == [] then {}
    else
      var last := steps[|steps| - 1];
      Beats(steps[..|steps| - 1]) + if last.Heartbeat? then {last.at} else {}
  }

  lemma StepKeepsRepairing(g0: Graph, c: Cluster, step: Step, chan: string, sent: set<Addr>)
    requires Repairing(g0, c, chan, sent) && Allowed(c, step)
    requires Beating(step)
    requires forall u, v :: Edge(g0, u, v) ==> v in g0
    ensures Repairing(g0, After(c, step), chan, sent + if step.Heartbeat? then {step.at} else {})
  {
    if step.Heartbeat? {
      BeatShape(c, step, chan);
      BeatKeepsRepairing(g0, c, step.at, After(c, step), chan, sent);
    } else {
      JoinShape(c, step, chan);
      if step.msg.chan == chan {
        ArrivalKeepsRepairing(g0, c, step.msg, After(c, step), chan, sent);
      }
      assert sent + {} == sent;
    }
  }

  lemma {:induction false} RunKeepsRepairing(g0: Graph, c: Cluster, steps: seq<Step>, chan: string)
    requires Repairing(g0, c, chan, {}) && Run(c, steps) && AllBeating(steps)
    requires forall u, v :: Edge(g0, u, v) ==> v in g0
    ensures Repairing(g0, End(c, steps), chan, Beats(steps))
    decreases |steps|
  {
    hide Repairing, Allowed, After;
    if steps != [] {
      var n := |steps| - 1;
      RunKeepsRepairing(g0, c, steps[..n], chan);
      StepKeepsRepairing(g0, End(c, steps[..n]), steps[n], chan, Beats(steps[..n]));
    }
  }

  // Only servers that hold a channel are listed in it.
  ghost predicate ListsHolders(c: Cluster) {
    forall chan, u, v {:trigger Edge(Listing(c, chan), u, v)} ::
      Edge(Listing(c, chan), u, v) ==> v in Listing(c, chan)
  }

  /** When every listed server holds its channel, one periodic join from every
      server, sent and delivered in any order, turns each channel's listing into
      exactly its symmetric closure. */
  lemma HeartbeatSymmetrizes(c: Cluster, steps: seq<Step>, chan: string)
    requires WellFormed(c) && Drained(c) && ListsHolders(c)
    requires Run(c, steps) && AllBeating(steps) && c.servers.Keys <= Beats(steps) && Drained(End(c, steps))
    ensures Listing(End(c, steps), chan) == Mutual(Listing(c, chan))
    ensures Symmetric(Listing(End(c, steps), chan))
  {
    hide Allowed, After, WellFormed, Run, End;
    var g0, c' := Listing(c, chan), End(c, steps);
    var g := Listing(c', chan);
    MutualSymmetric(g0);
    RunKeepsRepairing(g0, c, steps, chan);
    forall u | u in g0 ensures g[u] == Mutual(g0)[u] {
      forall v | v in Mutual(g0)[u] ensures v in g[u] {
        assert Edge(Mutual(g0), u, v);
        if Edge(g0, u, v) {
          assert Edge(g, u, v);
        } else {
          assert Edge(g0, v, u) && c'.net[Msg(v, u, chan, Join)] == 0;
        }
      }
      forall v | v in g[u] ensures v in Mutual(g0)[u] {
        assert Edge(g, u, v);
      }
    }
    assert g == Mutual(g0);
  }
}
