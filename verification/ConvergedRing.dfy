/** What the nodes can rely on once the protocol has converged: lookups, tables of places, and successor lists. */
module ConvergedRing {
  import opened Keys
  import opened ChordProtocol
  import opened ChordInvariant
  import opened ChordNode
  import Stabilization = ChordStabilization
  import Lists = SuccessorLists

  /** The nodes of the network are the members of the state, with these successors. */
  ghost predicate Shows(net: map<string, ChordClient>, s: State)
    reads net.Values
  {
    && Members(net) == s.members == s.succ.Keys
    && forall a | a in net ::
        |net[a].successor| > 0 && Value(net[a].successor[0].id) == s.succ[Value(net[a].identifier)]
  }

  /** The protocol's ideal ring is the one that lookups need, and no other. */
  lemma IdealForLookups(s: State, net: map<string, ChordClient>)
    requires Shows(net, s)
    ensures Ideal(net) <==> forall n | n in s.members :: IsNext(s.members, n, s.succ[n])
  {
    hide Value, IsNext;
    forall a | a in net ensures Value(net[a].identifier) in s.members {
      assert Value(net[a].identifier) in Members(net);
    }
    if Ideal(net) {
      forall n | n in s.members ensures IsNext(s.members, n, s.succ[n]) {
        var a :| a in net && Value(net[a].identifier) == n;
      }
    }
  }

  /** And it is the one that successor lists need. */
  lemma IdealForLists(c: int, s: State, r: nat, lists: map<int, seq<int>>)
    requires Inv(c, s) && s.succ.Keys == s.members && Stabilization.Ideal(s) && r > 0
    requires lists.Keys == s.members && forall n | n in lists :: |lists[n]| == r && lists[n][0] == s.succ[n]
    ensures Lists.Ring(s.members, r, lists)
  {
    hide IsNext, PredsOk, StabsOk, GreetsOk, JoinsOk;
  }

  /** After enough epochs, every lookup on the network finds the first member at or after the hash. */
  lemma LookupsAfterConvergence(
        c: int, run: seq<State>, bounds: seq<nat>, net: map<string, ChordClient>, hash: Key, f: Finger, b: string)
    requires Stabilization.Steady(c, run) && bounds != [] && bounds[0] < |run|
    requires forall i | 0 < i < |bounds| :: Stabilization.Epoch(run, bounds[i - 1], bounds[i])
    requires |bounds| > 2 * |run[0].members| * |run[0].members| + 1
    requires Shows(net, run[|run| - 1]) && ValidNet(net) && ChordClient.Answers(net, hash, f) && b in net
    ensures Names(net, f)
    ensures Distance(Value(hash), Value(f.id)) <= Distance(Value(hash), Value(net[b].identifier))
  {
    hide Stabilization.Steady, Stabilization.Epoch, Stabilization.Mutual;
    hide ValidNet, ChordClient.Answers, Names, Distance, Value, Ideal, IsNext, Shows;
    Stabilization.Converges(c, run, bounds);
    IdealForLookups(run[|run| - 1], net);
    IdealAnswer(net, hash, f, b);
  }
}
