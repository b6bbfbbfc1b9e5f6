/** The nodes at which files belong are those that lookups name, so that moving files ends at these. */
module LookupPlaces {
  import opened Keys
  import opened ChordNode
  import opened Migration
  import Lists = SuccessorLists
  import Contents = MigrationContents

  // ----- every lookup has an answer

  lemma {:induction false} AnswerExists(net: map<string, ChordClient>, a: string, hash: Key) returns (f: Finger)
    requires ValidNet(net) && a in net
    ensures ChordClient.Answers(net, hash, f)
    decreases Remaining(Value(hash), Value(net[a].identifier))
  {
    hide KeyInBetweenExclusive, KeyInBetweenRightInclusive, Value, Remaining, Names;
    assert net[a].WellFormed(net);
    f := net[a].successor[0];
    if !KeyInBetweenRightInclusive(net[a].identifier, f.id, hash) {
      MustHop(net[a].identifier, f.id, hash);
      HopFacts(net[a].identifier, hash, f.id);
      NamedIs(net, f);
      f := AnswerExists(net, f.address, hash);
    }
  }

  lemma NamedIs(net: map<string, ChordClient>, f: Finger)
    requires Names(net, f)
    ensures f.address in net && net[f.address].identifier == f.id
  {
  }

  lemma PlaceExists(net: map<string, ChordClient>, hash: Key, tab: seq<Finger>) returns (more: seq<Finger>)
    requires ValidNet(net) && net.Keys != {} && |tab| % 2 == 0
    requires forall j | 0 <= j < |tab| / 2 :: Places(net, hash, tab, j)
    ensures |more| == |tab| + 2 && forall j | 0 <= j < |more| / 2 :: Places(net, hash, more, j)
  {
    hide KeyToLook, ChordClient.Answers, Names, ValidNet;
    var a :| a in net.Keys;
    var key := KeyToLook(|tab| / 2 * 100, hash);
    var f := AnswerExists(net, a, key);
    AnswerNames(net, key, f);
    NamedNode(net, f);
    var two := [f, net[f.address].successor[0]];
    more := tab + two;
    forall j | 0 <= j < |more| / 2 ensures Places(net, hash, more, j) {
      if j < |tab| / 2 {
        OtherPlaces(net, hash, tab, two, j);
      } else {
        assert more[2 * j] == f && more[2 * j + 1] == two[1];
      }
    }
  }

  /** On every network, each file has a table of places. */
  lemma TableExists(net: map<string, ChordClient>, hash: Key) returns (tab: seq<Finger>)
    requires ValidNet(net) && net.Keys != {}
    ensures IsLookup(net, hash, tab)
  {
    hide Places, ValidNet;
    tab := PlaceExists(net, hash, []);
    tab := PlaceExists(net, hash, tab);
    tab := PlaceExists(net, hash, tab);
  }

  // ----- the places of files

  ghost predicate PlacesOf(net: map<string, ChordClient>, hash: Key, ids: seq<int>)
    reads net.Values`successor
  {
    exists tab :: IsLookup(net, hash, tab) && ids == Lists.Ids(tab)
  }

  /** `dest` gives for each file, by its hash, the nodes that some lookup of it names. */
  ghost predicate DestOf(net: map<string, ChordClient>, hashOf: string -> Key, dest: string -> seq<int>)
    reads net.Values`successor
  {
    forall name :: PlacesOf(net, hashOf(name), dest(name))
  }

  /** On an ideal ring these are the nodes that every lookup names. */
  lemma DestIsLookup(
        net: map<string, ChordClient>, hashOf: string -> Key, dest: string -> seq<int>, name: string, tab: seq<Finger>)
    requires ValidNet(net) && Ideal(net) && DestOf(net, hashOf, dest) && IsLookup(net, hashOf(name), tab)
    ensures dest(name) == Lists.Ids(tab)
  {
    hide ValidNet, Ideal, IsLookup;
    assert PlacesOf(net, hashOf(name), dest(name));
    var other: seq<Finger> :| IsLookup(net, hashOf(name), other) && dest(name) == Lists.Ids(other);
    LookupsAgree(net, hashOf(name), tab, other);
  }

  lemma PlacesAreNodes(net: map<string, ChordClient>, hash: Key, ids: seq<int>)
    requires ValidNet(net) && PlacesOf(net, hash, ids)
    ensures |ids| == 6 && forall d | d in ids :: d in Members(net)
  {
    hide KeyToLook, ChordClient.Answers, ValidNet, Value;
    var tab: seq<Finger> :| IsLookup(net, hash, tab) && ids == Lists.Ids(tab);
    forall k | 0 <= k < 6 ensures ids[k] in Members(net) {
      var j := k / 2;
      assert Places(net, hash, tab, j) && (k == 2 * j || k == 2 * j + 1);
      FirstNamed(net, tab[2 * j].address);
    }
  }

  lemma FirstNamed(net: map<string, ChordClient>, a: string)
    requires ValidNet(net) && a in net
    ensures |net[a].successor| > 0 && Names(net, net[a].successor[0])
  {
    assert net[a].WellFormed(net);
  }

  /** Any state at rest, with a directory for each node, is one that files can start to move from. */
  lemma StartIsOk<D>(net: map<string, ChordClient>, hashOf: string -> Key, dest: string -> seq<int>, s: State<D>)
    requires ValidNet(net) && DestOf(net, hashOf, dest) && s.files.Keys == s.loops.Keys == Members(net) &&
        Contents.AtRest(s)
    ensures Inv(dest, s)
  {
    hide ValidNet, Members, PlacesOf;
    forall name ensures dest(name) != [] && forall d | d in dest(name) :: d in s.files {
      assert PlacesOf(net, hashOf(name), dest(name));
      PlacesAreNodes(net, hashOf(name), dest(name));
    }
  }

  /**
   * On a fixed ideal ring, once every node has made a whole pass, in whatever interleaving, the holders of each file
   * that some node had are exactly the nodes in the table that a lookup of it returns, whoever makes it.
   */
  lemma HoldersAreLookups<D(!new)>(net: map<string, ChordClient>, hashOf: string -> Key, dest: string -> seq<int>,
                                   run: seq<State<D>>, n: int, name: string, tab: seq<Finger>)
    requires ValidNet(net) && Ideal(net) && DestOf(net, hashOf, dest) && IsLookup(net, hashOf(name), tab)
    requires run != [] && run[0].files.Keys == run[0].loops.Keys == Members(net) && Contents.AtRest(run[0])
    requires forall i | 0 < i < |run| :: Next(dest, run[i - 1], run[i])
    requires n in Members(net) && forall m | m in Members(net) :: MadePass(run, m)
    ensures Has(run[|run| - 1].files, n, name) <==> n in Lists.Ids(tab) && Held(run[0].files, name)
  {
    hide ValidNet, Ideal, IsLookup, DestOf, Members, Next, MadePass, Contents.AtRest, Inv, Has, Lists.Ids;
    StartIsOk(net, hashOf, dest, run[0]);
    DestIsLookup(net, hashOf, dest, name, tab);
    AfterPasses(dest, run, n, name);
  }
}
