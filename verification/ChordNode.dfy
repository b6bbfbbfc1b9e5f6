/** A node of the ring: lookups that hop from node to node, and the updates of the node's own tables. */
module ChordNode {
  import opened Options
  import opened Keys

  /** An empty address marks an unused entry. */
  datatype Finger = Finger(id: Key, address: string)

  // ----- hops on the circle

  /** How far a lookup of h still is once it is at n. */
  function Remaining(h: int, n: int): nat { Distance(n, h - 1) }

  /** If h is not between a node and its successor, the successor is between the node and h. */
  lemma SuccessorQualifies(n: int, s: int, h: int)
    requires 0 <= n < CIRCLE && 0 <= s < CIRCLE && 0 <= h < CIRCLE
    requires !Between(n, s, h) && h != s
    ensures Between(n, h, s)
  {
    DistanceIs(n, s);
    DistanceIs(n, h);
  }

  /** Every node strictly between n and h is closer to h. */
  lemma HopIsCloser(n: int, h: int, k: int)
    requires 0 <= n < CIRCLE && 0 <= k < CIRCLE && 0 <= h < CIRCLE
    requires Between(n, h, k)
    ensures Remaining(h, k) < Remaining(h, n) && k != n
  {
    hide Distance;
    DistanceIs(n, h);
    DistanceIs(n, k);
    RemainingIs(h, n);
    RemainingIs(h, k);
  }

  lemma RemainingIs(h: int, n: int)
    requires 0 <= n < CIRCLE && 0 <= h < CIRCLE
    ensures Remaining(h, n) == if h > n then h - n - 1 else h - n - 1 + CIRCLE
  {
  }

  /** With no member between m and s, and h in (m, s], no member is nearer after h than s. */
  lemma FirstAfter(m: int, s: int, h: int, x: int)
    requires 0 <= m < CIRCLE && 0 <= s < CIRCLE && 0 <= h < CIRCLE && 0 <= x < CIRCLE
    requires (Between(m, s, h) || h == s) && !Between(m, s, x)
    ensures Distance(h, s) <= Distance(h, x)
  {
    hide Distance;
    DistanceIs(m, s);
    DistanceIs(m, h);
    DistanceIs(m, x);
    DistanceIs(h, s);
    DistanceIs(h, x);
  }

  // ----- which of the known nodes is chosen

  predicate Qualifies(e: Finger, self: Key, hash: Key) {
    e.address != "" && KeyInBetweenExclusive(self, hash, e.id)
  }

  /** The last entry of a table that names a node strictly between this one and the hash. */
  function LastBetween(table: seq<Finger>, self: Key, hash: Key): (r: Option<Finger>)
    ensures r.Some? ==> r.value in table && Qualifies(r.value, self, hash)
  {
    if table == [] then None
    else
      var e := table[|table| - 1];
      if Qualifies(e, self, hash) then Some(e) else LastBetween(table[..|table| - 1], self, hash)
  }

  /** The final choice, by the identifiers as numbers. */
  function Preferred(f: Option<Finger>, s: Option<Finger>): Option<Finger> {
    if f.None? then s else if s.None? || CompareKeys(f.value.id, s.value.id) then f else s
  }

  lemma LastBetweenStep(table: seq<Finger>, i: nat, self: Key, hash: Key)
    requires i < |table|
    ensures LastBetween(table[..i + 1], self, hash) ==
      if table[i].address != "" && KeyInBetweenExclusive(self, hash, table[i].id) then Some(table[i])
      else LastBetween(table[..i], self, hash)
    ensures LastBetween(table[..0], self, hash) == None
  {
    hide KeyInBetweenExclusive;
    assert table[..i + 1][..i] == table[..i];
  }

  class ChordClient {
    const identifier: Key
    const myAddress: string
    const numSucc: nat
    var fingerTable: seq<Finger>
    var successor: seq<Finger>
    var predecessor: Option<Finger>
    var next: int

    constructor (identifier: Key, myAddress: string, numSucc: nat)
      requires numSucc > 0
      ensures this.identifier == identifier && this.myAddress == myAddress && this.numSucc == numSucc && next == -1 &&
          predecessor == None
      ensures |successor| == numSucc && successor[0] == Finger(identifier, myAddress)
      ensures forall i | 1 <= i < numSucc :: successor[i].address == ""
      ensures |fingerTable| == 160 && forall i | 0 <= i < 160 :: fingerTable[i].address == ""
    {
      this.identifier, this.myAddress, this.numSucc, this.next, this.predecessor :=
          identifier, myAddress, numSucc, -1, None;
      var nothing := Finger(seq(20, _ => 0), "");
      successor := [Finger(identifier, myAddress)] + seq(numSucc - 1, _ => nothing);
      fingerTable := seq(160, _ => nothing);
    }

    /** The tables have their sizes, and name only nodes of the network. */
    ghost predicate WellFormed(net: map<string, ChordClient>)
      reads this
    {
      && numSucc > 0 && |successor| == numSucc && |fingerTable| == 160 && next < 160
      && successor[0].address != ""
      && (forall i | 0 <= i < |successor| && successor[i].address != "" :: Names(net, successor[i]))
      && (forall i | 0 <= i < |fingerTable| && fingerTable[i].address != "" :: Names(net, fingerTable[i]))
    }

    /**
     * Of the last qualifying finger below the cursor and the last qualifying successor, the one whose identifier is the
     * greater number; if only one table has a qualifying entry, that one, and otherwise this node.
     */
    method FindClosestPrecedingNode(hash: Key, ghost net: map<string, ChordClient>) returns (address: string)
      requires WellFormed(net)
      ensures
        var below := if next < 0 then 0 else next;
        var chosen :=
          Preferred(LastBetween(fingerTable[..below], identifier, hash), LastBetween(successor, identifier, hash));
        address == if chosen.Some? then chosen.value.address else myAddress
      ensures address == myAddress ||
        (address in net && net[address].myAddress == address &&
            KeyInBetweenExclusive(identifier, hash, net[address].identifier))
      ensures KeyInBetweenExclusive(identifier, hash, successor[0].id) ==>
        address in net && net[address].myAddress == address &&
            KeyInBetweenExclusive(identifier, hash, net[address].identifier)
    {
      hide KeyInBetweenExclusive, CompareKeys;
      var maxFingerTable: Option<Finger> := None;
      var maxSuccessorList: Option<Finger> := None;
      ghost var below := if next < 0 then 0 else next;
      var i := next - 1;
      while i >= 0
        invariant i < below <= 160 && (below > 0 ==> -1 <= i)
        invariant maxFingerTable == None
        invariant LastBetween(fingerTable[..below], identifier, hash) ==
            LastBetween(fingerTable[..if i < 0 then 0 else i + 1], identifier, hash)
        decreases i
      {
        LastBetweenStep(fingerTable, i, identifier, hash);
        if fingerTable[i].address != "" {
          if KeyInBetweenExclusive(identifier, hash, fingerTable[i].id) {
            maxFingerTable := Some(fingerTable[i]);
            break;
          }
        }
        i := i - 1;
      }
      assert maxFingerTable == LastBetween(fingerTable[..below], identifier, hash);
      i := numSucc - 1;
      assert successor[..numSucc] == successor;
      while i >= 0
        invariant -1 <= i < numSucc
        invariant maxSuccessorList == None
        invariant i < 0 ==> !KeyInBetweenExclusive(identifier, hash, successor[0].id)
        invariant LastBetween(successor, identifier, hash) == LastBetween(successor[..i + 1], identifier, hash)
        decreases i
      {
        LastBetweenStep(successor, i, identifier, hash);
        if successor[i].address != "" {
          if KeyInBetweenExclusive(identifier, hash, successor[i].id) {
            maxSuccessorList := Some(successor[i]);
            break;
          }
        }
        i := i - 1;
      }
      assert maxSuccessorList == LastBetween(successor, identifier, hash);
      if maxFingerTable.None? && maxSuccessorList.None? {
        return myAddress;
      } else {
        if maxFingerTable.None? {
          return maxSuccessorList.value.address;
        }
        if maxSuccessorList.None? {
          return maxFingerTable.value.address;
        }
        if CompareKeys(maxFingerTable.value.id, maxSuccessorList.value.id) {
          return maxFingerTable.value.address;
        } else {
          return maxSuccessorList.value.address;
        }
      }
    }

    /** Where a lookup of `hash` may end: the successor of the node before the hash. */
    static ghost predicate Answers(net: map<string, ChordClient>, hash: Key, f: Finger)
      reads net.Values`successor
    {
      exists a :: a in net && |net[a].successor| > 0 && f == net[a].successor[0] &&
          KeyInBetweenRightInclusive(net[a].identifier, f.id, hash)
    }

    /** Looks up the successor of a hash, asking other nodes where needed. Every hop is closer to the hash. */
    method FindSuccessor(net: map<string, ChordClient>, hash: Key) returns (f: Finger)
      requires ValidNet(net) && myAddress in net && net[myAddress] == this
      ensures Answers(net, hash, f)
      decreases Remaining(Value(hash), Value(identifier)), 1
    {
      hide KeyInBetweenExclusive, CompareKeys, Value, Distance;
      f := successor[0];
      if !KeyInBetweenRightInclusive(identifier, f.id, hash) {
        MustHop(identifier, f.id, hash);
        var closest := FindClosestPrecedingNode(hash, net);
        HopFacts(identifier, hash, net[closest].identifier);
        var r := net[closest].ReqFindSuccessor(net, identifier, hash);
        f := r.value;
      }
    }

    /** The request's handler. `None` is the fatal exit for a node that asked itself. */
    method ReqFindSuccessor(net: map<string, ChordClient>, myId: Key, hash: Key) returns (r: Option<Finger>)
      requires ValidNet(net) && myAddress in net && net[myAddress] == this
      ensures r == None <==> SameKey(myId, identifier)
      ensures r.Some? ==> Answers(net, hash, r.value)
      decreases Remaining(Value(hash), Value(identifier)), 2
    {
      if SameKey(myId, identifier) {
        return None;
      }
      var f := FindSuccessor(net, hash);
      r := Some(f);
    }

    /** The nodes where a file should be: for each of three keys, the successor of the key and that node's successor. */
    method Lookup(net: map<string, ChordClient>, fileNameHash: Key) returns (tab: seq<Finger>)
      requires ValidNet(net) && myAddress in net && net[myAddress] == this
      ensures IsLookup(net, fileNameHash, tab)
    {
      hide KeyToLook, Answers, Names, ValidNet;
      tab := [];
      for i := 0 to 3
        invariant |tab| == 2 * i && forall j | 0 <= j < i :: Places(net, fileNameHash, tab, j)
      {
        var node := FindSuccessor(net, KeyToLook(i * 100, fileNameHash));
        AnswerNames(net, KeyToLook(i * 100, fileNameHash), node);
        NamedNode(net, node);
        var successors := net[node.address].successor;
        forall j | 0 <= j < i ensures Places(net, fileNameHash, tab + [node, successors[0]], j) {
          OtherPlaces(net, fileNameHash, tab, [node, successors[0]], j);
        }
        tab := tab + [node, successors[0]];
      }
    }

    method MoveCursor(net: map<string, ChordClient>)
      requires ValidNet(net) && myAddress in net && net[myAddress] == this && -1 <= next
      modifies this`next
      ensures ValidNet(net) && next == (old(next) + 1) % 160 && |fingerTable| == 160
    {
      hide Names;
      assert WellFormed(net);
      next := next + 1;
      if next > 159 {
        next := 0;
      }
      forall a | a in net ensures net[a].myAddress == a && net[a].WellFormed(net) {
      }
    }

    method RecordFinger(net: map<string, ChordClient>, f: Finger)
      requires ValidNet(net) && myAddress in net && net[myAddress] == this && 0 <= next < 160 && Names(net, f)
      modifies this`fingerTable
      ensures ValidNet(net) && Updated(old(fingerTable), next, f, fingerTable)
    {
      hide Names;
      assert WellFormed(net);
      fingerTable := fingerTable[next := f];
      forall a | a in net ensures net[a].myAddress == a && net[a].WellFormed(net) {
      }
    }

    /** Looks up the next power of two away from this node, and records the answer in the finger table. */
    method FixFinger(net: map<string, ChordClient>)
      requires ValidNet(net) && myAddress in net && net[myAddress] == this && -1 <= next
      modifies this`next, this`fingerTable
      ensures ValidNet(net) && next == (old(next) + 1) % 160
      ensures exists f ::
          Updated(old(fingerTable), next, f, fingerTable) && Answers(net, KeyToLook(next, identifier), f)
    {
      hide KeyToLook, Answers, Names, WellFormed, ValidNet;
      MoveCursor(net);
      var newHash := KeyToLook(next, identifier);
      var tmpResult := FindSuccessor(net, newHash);
      AnswerNames(net, newHash, tmpResult);
      RecordFinger(net, tmpResult);
    }

    /** The turns that fill the table when a node starts. Wherever the cursor is, all fingers become answers. */
    method FixFingers(net: map<string, ChordClient>)
      requires ValidNet(net) && myAddress in net && net[myAddress] == this && -1 <= next
      modifies this`next, this`fingerTable
      ensures ValidNet(net) && 0 <= next < 160 && (next - old(next)) % 160 == 0
      ensures Filled(net, this)
    {
      hide KeyToLook, Answers, Names, WellFormed, ValidNet, FilledUpTo, Updated;
      ghost var start := next;
      MaySize(net, this);
      NoneFilled(net, identifier, fingerTable, start);
      for turn := 0 to 160
        invariant ValidNet(net) && -1 <= next && (turn > 0 ==> 0 <= next < 160)
        invariant (next + 1) % 160 == (start + turn + 1) % 160
        invariant FilledUpTo(net, identifier, fingerTable, start, turn)
      {
        ghost var was := fingerTable;
        FixFinger(net);
        ghost var f :| Updated(was, next, f, fingerTable) && Answers(net, KeyToLook(next, identifier), f);
        OneMoreFilled(net, identifier, was, start, turn, next, f, fingerTable);
      }
      AllFilled(net, this, start);
      EndOfTurns(start, next);
    }

    /** A node says that it may be this one's predecessor. */
    method Notify(maybePredecessor: Finger) returns (result: bool)
      modifies this`predecessor
      ensures result ==
          Accepts(old(predecessor).Some?, if old(predecessor).Some? then Value(old(predecessor).value.id) else 0,
                                Value(identifier), Value(maybePredecessor.id))
      ensures predecessor == if result then Some(maybePredecessor) else old(predecessor)
    {
      hide KeyInBetweenExclusive, Value, Between;
      CompareIsNumeric(identifier, maybePredecessor.id);
      if SameKey(identifier, maybePredecessor.id) {
        return false;
      }
      result := false;
      if predecessor.Some? {
        CompareIsNumeric(maybePredecessor.id, predecessor.value.id);
        BetweenOnCircle(predecessor.value.id, identifier, maybePredecessor.id);
      }
      if predecessor.None? || SameKey(maybePredecessor.id, predecessor.value.id)
         || KeyInBetweenExclusive(predecessor.value.id, identifier, maybePredecessor.id) {
        predecessor := Some(maybePredecessor);
        result := true;
      }
    }

    // ----- successor lists

    function Itself(): Finger { Finger(identifier, myAddress) }

    /** This node is in the network, each node of which has a list. */
    ghost predicate Listed(net: map<string, ChordClient>)
      reads this, net.Values
    {
      && numSucc > 0 && |successor| == numSucc && myAddress in net && net[myAddress] == this
      && forall a | a in net :: net[a].myAddress == a && |net[a].successor| > 0
    }

    /** The list that the node answers which `own` has first; for this node itself, `own`. */
    ghost function Asked(net: map<string, ChordClient>, own: seq<Finger>): seq<Finger>
      requires own != [] && own[0].address in net
      reads net.Values
    {
      if own[0].address == myAddress then own else net[own[0].address].successor
    }

    /** Looks for the first successor that still answers, if the first one does not. */
    method CheckSuccessor(net: map<string, ChordClient>, alive: set<string>) returns (panicked: bool)
      requires Listed(net) && myAddress in alive && alive <= net.Keys
      modifies this`successor
      ensures |successor| == numSucc
      ensures old(successor[0].address) in alive ==> !panicked && successor == old(successor)
      ensures old(successor[0].address) !in alive ==>
        var own := old(successor)[0 := FirstAlive(old(successor), alive, Itself())];
        && own[0].address in alive && panicked == (|old(Asked(net, own))| > numSucc)
        && (!panicked ==> successor == Shifted(own, old(Asked(net, own))))
      decreases if successor[0].address in alive then 0 else 1, 0
    {
      panicked := false;
      if successor[0].address !in alive {
        var firstWorking := 0;
        while firstWorking < |successor|
          invariant 0 <= firstWorking <= |successor| && successor == old(successor)
          invariant FirstAlive(successor[firstWorking..], alive, Itself()) == FirstAlive(successor, alive, Itself())
        {
          if successor[firstWorking].address != "" && successor[firstWorking].address in alive {
            break;
          }
          assert successor[firstWorking..][1..] == successor[firstWorking + 1..];
          firstWorking := firstWorking + 1;
        }
        if firstWorking == |successor| {
          successor := successor[0 := Itself()];
        } else {
          successor := successor[0 := successor[firstWorking]];
        }
        panicked := UpdateSuccessorList(net, alive);
      }
    }

    /** Takes over the successor's list, one place later. With a longer list than its own, the node panics. */
    method UpdateSuccessorList(net: map<string, ChordClient>, alive: set<string>) returns (panicked: bool)
      requires Listed(net) && myAddress in alive && alive <= net.Keys
      modifies this`successor
      ensures |successor| == numSucc
      ensures
        var was := old(successor);
        var own := if was[0].address in alive then was else was[0 := FirstAlive(was, alive, Itself())];
        && own[0].address in alive && panicked == (|old(Asked(net, own))| > numSucc)
        && (!panicked ==> successor == Shifted(own, old(Asked(net, own))))
      decreases if successor[0].address in alive then 0 else 1, 1
    {
      if successor[0].address in alive {
        var newSuccList := net[successor[0].address].successor;
        ghost var own := successor;
        var i := 1;
        panicked := false;
        while i < |newSuccList|
          invariant 1 <= i <= |newSuccList| && i <= |successor| && |successor| == numSucc && !panicked
          invariant forall k | 0 <= k < numSucc :: successor[k] == if 1 <= k < i then newSuccList[k - 1] else own[k]
        {
          if i >= |successor| {
            panicked := true;
            return;
          }
          successor := successor[i := newSuccList[i - 1]];
          i := i + 1;
        }
      } else {
        panicked := CheckSuccessor(net, alive);
      }
    }

    /**
     * The part of stabilize that holds the lock again: `asked` is the successor it asked, and `candidate` the
     * predecessor of that one. Returns the node to tell about this one.
     */
    method Adopt(net: map<string, ChordClient>, alive: set<string>, asked: Finger, candidate: Finger)
      returns (told: Finger, panicked: bool)
      requires Listed(net) && myAddress in alive && alive <= net.Keys
      modifies this`successor
      ensures |successor| == numSucc
      ensures
        var adopts := Adopts(Value(identifier), Value(asked.id), Value(old(successor[0].id)), Value(candidate.id)) &&
            candidate.address in alive;
        && told == (if adopts then candidate else asked)
        && if !adopts then !panicked && successor == old(successor)
           else
             var own := old(successor)[0 := candidate];
             panicked == (|old(Asked(net, own))| > numSucc) &&
                 (!panicked ==> successor == Shifted(own, old(Asked(net, own))))
    {
      hide KeyInBetweenExclusive, Value, Adopts;
      told, panicked := asked, false;
      AdoptsOnKeys(identifier, asked.id, successor[0].id, candidate.id);
      if KeyInBetweenExclusive(identifier, asked.id, candidate.id) {
        if KeyInBetweenExclusive(identifier, successor[0].id, candidate.id) && candidate.address in alive {
          successor := successor[0 := candidate];
          told := candidate;
          panicked := UpdateSuccessorList(net, alive);
        }
      }
    }
  }

  /** The first of the list that answers, or the node itself. */
  function FirstAlive(list: seq<Finger>, alive: set<string>, itself: Finger): Finger {
    if list == [] then itself
    else if list[0].address != "" && list[0].address in alive then list[0]
    else FirstAlive(list[1..], alive, itself)
  }

  /** A node's own first entry, then the other's list, cut off at the length of that list. */
  function Shifted<T>(own: seq<T>, other: seq<T>): seq<T>
    requires 1 <= |other| <= |own|
  {
    own[..1] + other[..|other| - 1] + own[|other|..]
  }

  /** The table with f put at i. */
  ghost predicate Updated(was: seq<Finger>, i: int, f: Finger, now: seq<Finger>) {
    0 <= i < 160 && |was| == 160 && now == was[i := f]
  }

  /** Every finger is the answer for its power of two. */
  ghost predicate Filled(net: map<string, ChordClient>, client: ChordClient)
    reads client, net.Values`successor
  {
    |client.fingerTable| == 160
    && forall i | 0 <= i < 160 :: ChordClient.Answers(net, KeyToLook(i, client.identifier), client.fingerTable[i])
  }

  /** No member is nearer after h. */
  ghost predicate FirstFrom(net: map<string, ChordClient>, h: int, f: Finger) {
    Names(net, f) && forall b | b in net :: Distance(h, Value(f.id)) <= Distance(h, Value(net[b].identifier))
  }

  ghost predicate FingersFirst(net: map<string, ChordClient>, client: ChordClient)
    reads client
  {
    |client.fingerTable| == 160
    && forall i | 0 <= i < 160 :: FirstFrom(net, (Value(client.identifier) + Power2(i)) % CIRCLE, client.fingerTable[i])
  }

  /**
   * On an ideal ring, every finger then is the first member at or after the node's identifier plus its power of two.
   */
  lemma FilledIsFirst(net: map<string, ChordClient>, client: ChordClient)
    requires ValidNet(net) && Ideal(net) && Filled(net, client)
    ensures FingersFirst(net, client)
  {
    hide ValidNet, Ideal, Filled, FirstFrom, Value, Power2;
    forall i | 0 <= i < 160
      ensures |client.fingerTable| == 160
      ensures FirstFrom(net, (Value(client.identifier) + Power2(i)) % CIRCLE, client.fingerTable[i])
    {
      FilledAt(net, client, i);
      KeyToLookAdds(i, client.identifier);
      AnswerIsFirst(net, KeyToLook(i, client.identifier), client.fingerTable[i]);
    }
    FilledAt(net, client, 0);
  }

  lemma AnswerIsFirst(net: map<string, ChordClient>, hash: Key, f: Finger)
    requires ValidNet(net) && Ideal(net) && ChordClient.Answers(net, hash, f)
    ensures FirstFrom(net, Value(hash), f)
  {
    hide ValidNet, Ideal, ChordClient.Answers, Value, Names, Distance;
    AnswerNames(net, hash, f);
    forall b | b in net ensures Distance(Value(hash), Value(f.id)) <= Distance(Value(hash), Value(net[b].identifier)) {
      IdealAnswer(net, hash, f, b);
    }
  }

  lemma FilledAt(net: map<string, ChordClient>, client: ChordClient, i: nat)
    requires Filled(net, client) && i < 160
    ensures |client.fingerTable| == 160
    ensures ChordClient.Answers(net, KeyToLook(i, client.identifier), client.fingerTable[i])
  {
    hide KeyToLook, ChordClient.Answers;
  }

  /** Finger i is one of those that `turn` turns from `start` have come to. */
  ghost predicate Turned(start: int, turn: nat, i: int) {
    (i - start - 1) % 160 < turn
  }

  lemma LastTurned(start: int, turn: nat, i: int)
    requires 0 <= i < 160 && turn <= 160
    ensures Turned(start, turn + 1, i) ==> Turned(start, turn, i) || i == (start + turn + 1) % 160
    ensures Turned(start, 160, i)
  {
  }

  /** The fingers that the turns came to are answers. */
  ghost predicate FilledUpTo(net: map<string, ChordClient>, id: Key, table: seq<Finger>, start: int, turn: nat)
    reads net.Values`successor
  {
    |table| == 160
    && forall i | 0 <= i < 160 && Turned(start, turn, i) :: ChordClient.Answers(net, KeyToLook(i, id), table[i])
  }

  lemma NoneFilled(net: map<string, ChordClient>, id: Key, table: seq<Finger>, start: int)
    requires |table| == 160
    ensures FilledUpTo(net, id, table, start, 0)
  {
    hide ChordClient.Answers, KeyToLook;
  }

  lemma OneMoreFilled(
        net: map<string, ChordClient>, id: Key, was: seq<Finger>, start: int, turn: nat, next: int, f: Finger,
        now: seq<Finger>)
    requires FilledUpTo(net, id, was, start, turn) && turn < 160 && next == (start + turn + 1) % 160
    requires Updated(was, next, f, now) && ChordClient.Answers(net, KeyToLook(next, id), f)
    ensures FilledUpTo(net, id, now, start, turn + 1)
  {
    hide ChordClient.Answers, KeyToLook, Turned;
    forall i | 0 <= i < 160 && Turned(start, turn + 1, i) ensures ChordClient.Answers(net, KeyToLook(i, id), now[i]) {
      LastTurned(start, turn, i);
      assert now[i] == if i == next then f else was[i];
    }
  }

  lemma AllFilled(net: map<string, ChordClient>, client: ChordClient, start: int)
    requires FilledUpTo(net, client.identifier, client.fingerTable, start, 160)
    ensures Filled(net, client)
  {
    hide ChordClient.Answers, KeyToLook, Turned;
    forall i | 0 <= i < 160 ensures Turned(start, 160, i) { LastTurned(start, 160, i); }
  }

  lemma EndOfTurns(start: int, next: int)
    requires 0 <= next < 160 && (next + 1) % 160 == (start + 160 + 1) % 160
    ensures (next - start) % 160 == 0
  {
  }

  lemma MaySize(net: map<string, ChordClient>, client: ChordClient)
    requires ValidNet(net) && client.myAddress in net && net[client.myAddress] == client
    ensures |client.fingerTable| == 160 && client.next < 160
  {
    assert client.WellFormed(net);
  }

  lemma AnswerNames(net: map<string, ChordClient>, hash: Key, f: Finger)
    requires ValidNet(net) && ChordClient.Answers(net, hash, f)
    ensures Names(net, f)
  {
    hide KeyInBetweenRightInclusive, Value;
    var b :| b in net && |net[b].successor| > 0 && f == net[b].successor[0];
    assert net[b].WellFormed(net);
  }

  /** Entries 2 * j and 2 * j + 1: the successor of the j-th key of the file, and that node's successor. */
  ghost predicate Places(net: map<string, ChordClient>, hash: Key, tab: seq<Finger>, j: nat)
    reads net.Values`successor
  {
    && 2 * j + 1 < |tab| && ChordClient.Answers(net, KeyToLook(j * 100, hash), tab[2 * j]) && Names(net, tab[2 * j])
    && |net[tab[2 * j].address].successor| > 0 && tab[2 * j + 1] == net[tab[2 * j].address].successor[0]
  }

  ghost predicate IsLookup(net: map<string, ChordClient>, hash: Key, tab: seq<Finger>)
    reads net.Values`successor
  {
    |tab| == 6 && forall j | 0 <= j < 3 :: Places(net, hash, tab, j)
  }

  lemma NamedNode(net: map<string, ChordClient>, f: Finger)
    requires ValidNet(net) && Names(net, f)
    ensures f.address in net && |net[f.address].successor| > 0
  {
    assert net[f.address].WellFormed(net);
  }

  lemma OtherPlaces(net: map<string, ChordClient>, hash: Key, tab: seq<Finger>, more: seq<Finger>, j: nat)
    requires Places(net, hash, tab, j)
    ensures Places(net, hash, tab + more, j)
  {
    hide KeyToLook, ChordClient.Answers, Names;
  }

  /** The entry names the node of the network that has this address and identifier. */
  ghost predicate Names(net: map<string, ChordClient>, f: Finger) {
    f.address in net && net[f.address].identifier == f.id && net[f.address].myAddress == f.address
  }

  ghost predicate ValidNet(net: map<string, ChordClient>)
    reads net.Values
  {
    && (forall a | a in net :: net[a].myAddress == a && net[a].WellFormed(net))
    && (forall a, b | a in net && b in net && a != b :: net[a].identifier != net[b].identifier)
  }

  lemma MustHop(n: Key, s: Key, h: Key)
    requires !KeyInBetweenRightInclusive(n, s, h)
    ensures KeyInBetweenExclusive(n, h, s)
  {
    hide KeyInBetweenExclusive, KeyInBetweenRightInclusive, Value;
    KeyBound(n);
    KeyBound(s);
    KeyBound(h);
    BetweenOnCircle(n, s, h);
    BetweenOnCircle(n, h, s);
    SuccessorQualifies(Value(n), Value(s), Value(h));
  }

  lemma HopFacts(n: Key, h: Key, k: Key)
    requires KeyInBetweenExclusive(n, h, k)
    ensures n != k && Remaining(Value(h), Value(k)) < Remaining(Value(h), Value(n))
  {
    hide KeyInBetweenExclusive, KeyInBetweenRightInclusive, Value, Remaining;
    KeyBound(n);
    KeyBound(k);
    KeyBound(h);
    BetweenOnCircle(n, h, k);
    HopIsCloser(Value(n), Value(h), Value(k));
  }

  // ----- on an ideal ring

  ghost function Members(net: map<string, ChordClient>): set<int> {
    set a | a in net :: Value(net[a].identifier)
  }

  /** Every node's first successor is the next member clockwise. */
  ghost predicate Ideal(net: map<string, ChordClient>)
    reads net.Values
  {
    forall a | a in net ::
        |net[a].successor| > 0 && IsNext(Members(net), Value(net[a].identifier), Value(net[a].successor[0].id))
  }

  lemma AnsweredBy(net: map<string, ChordClient>, hash: Key, f: Finger) returns (a: string)
    requires ChordClient.Answers(net, hash, f)
    ensures a in net && |net[a].successor| > 0 && f == net[a].successor[0]
    ensures Between(Value(net[a].identifier), Value(f.id), Value(hash)) || Value(hash) == Value(f.id)
  {
    hide KeyInBetweenRightInclusive, Value, Between;
    a :| a in net && |net[a].successor| > 0 && f == net[a].successor[0] &&
        KeyInBetweenRightInclusive(net[a].identifier, f.id, hash);
    BetweenOnCircle(net[a].identifier, f.id, hash);
  }

  lemma NobodyCloser(net: map<string, ChordClient>, a: string, b: string)
    requires Ideal(net) && a in net && b in net
    ensures |net[a].successor| > 0
    ensures !Between(Value(net[a].identifier), Value(net[a].successor[0].id), Value(net[b].identifier))
  {
    hide Value, Between;
    assert Value(net[b].identifier) in Members(net);
  }

  /** On an ideal ring a lookup's answer, from wherever it started, is the first member at or after the hash. */
  lemma IdealAnswer(net: map<string, ChordClient>, hash: Key, f: Finger, b: string)
    requires ValidNet(net) && Ideal(net) && ChordClient.Answers(net, hash, f) && b in net
    ensures Names(net, f)
    ensures Distance(Value(hash), Value(f.id)) <= Distance(Value(hash), Value(net[b].identifier))
  {
    hide *;
    AnswerNames(net, hash, f);
    var a := AnsweredBy(net, hash, f);
    NobodyCloser(net, a, b);
    KeyBound(net[a].identifier);
    KeyBound(f.id);
    KeyBound(hash);
    KeyBound(net[b].identifier);
    FirstAfter(Value(net[a].identifier), Value(f.id), Value(hash), Value(net[b].identifier));
  }

  lemma SameAnswer(net: map<string, ChordClient>, hash: Key, f: Finger, g: Finger)
    requires ValidNet(net) && Ideal(net) && ChordClient.Answers(net, hash, f) && ChordClient.Answers(net, hash, g)
    ensures f == g
  {
    hide KeyInBetweenRightInclusive, KeyInBetweenExclusive, Value, Distance, ChordClient.Answers, Ideal;
    AnswerNames(net, hash, f);
    AnswerNames(net, hash, g);
    IdealAnswer(net, hash, f, g.address);
    IdealAnswer(net, hash, g, f.address);
    KeyBound(hash);
    KeyBound(f.id);
    KeyBound(g.id);
    DistanceIs(Value(hash), Value(f.id));
    DistanceIs(Value(hash), Value(g.id));
    CompareIsNumeric(f.id, g.id);
  }

  /**
   * On an ideal ring the nodes of a file are, for j from 0 to 2, the first member at or after its hash plus the power
   * 100 * j of two, and the next member after that one.
   */
  lemma PlacesAreFirst(net: map<string, ChordClient>, hash: Key, tab: seq<Finger>, j: nat)
    requires ValidNet(net) && Ideal(net) && IsLookup(net, hash, tab) && j < 3
    ensures FirstFrom(net, (Value(hash) + Power2(100 * j)) % CIRCLE, tab[2 * j])
    ensures IsNext(Members(net), Value(tab[2 * j].id), Value(tab[2 * j + 1].id))
  {
    hide *;
    LookupAt(net, hash, tab, j);
    KeyToLookAdds(j * 100, hash);
    AnswerIsFirst(net, KeyToLook(j * 100, hash), tab[2 * j]);
    NextOfNamed(net, tab[2 * j], tab[2 * j + 1]);
  }

  lemma LookupAt(net: map<string, ChordClient>, hash: Key, tab: seq<Finger>, j: nat)
    requires IsLookup(net, hash, tab) && j < 3
    ensures |tab| == 6 && ChordClient.Answers(net, KeyToLook(j * 100, hash), tab[2 * j]) && Names(net, tab[2 * j])
    ensures SuccessorOf(net, tab[2 * j], tab[2 * j + 1])
  {
    hide ChordClient.Answers, KeyToLook;
    assert Places(net, hash, tab, j);
  }

  ghost predicate SuccessorOf(net: map<string, ChordClient>, f: Finger, g: Finger)
    reads net.Values`successor
  {
    f.address in net && |net[f.address].successor| > 0 && g == net[f.address].successor[0]
  }

  lemma NextOfNamed(net: map<string, ChordClient>, f: Finger, g: Finger)
    requires Ideal(net) && Names(net, f) && SuccessorOf(net, f, g)
    ensures IsNext(Members(net), Value(f.id), Value(g.id))
  {
    hide IsNext, Members, Value;
  }

  /** On an ideal ring a lookup names the same nodes, whichever node makes it. */
  lemma LookupsAgree(net: map<string, ChordClient>, hash: Key, tab: seq<Finger>, tab': seq<Finger>)
    requires ValidNet(net) && Ideal(net) && IsLookup(net, hash, tab) && IsLookup(net, hash, tab')
    ensures tab == tab'
  {
    hide KeyToLook, ChordClient.Answers, Ideal, ValidNet;
    forall j | 0 <= j < 3 ensures tab[2 * j] == tab'[2 * j] && tab[2 * j + 1] == tab'[2 * j + 1] {
      assert Places(net, hash, tab, j) && Places(net, hash, tab', j);
      SameAnswer(net, KeyToLook(j * 100, hash), tab[2 * j], tab'[2 * j]);
    }
    forall k | 0 <= k < 6 ensures tab[k] == tab'[k] {
      assert k == 2 * (k / 2) || k == 2 * (k / 2) + 1;
    }
  }
}
