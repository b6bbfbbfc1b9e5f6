/**
 * What moving does to the contents of files. Storing creates the file at the other node before it writes it, and
 * a pass of that node may read it in between.
 */
module MigrationContents {
  import opened Options
  import opened Migration

  ghost predicate Carries<D>(loop: Loop<D>, name: string) {
    !loop.Resting? && !loop.Passing? && loop.name == name
  }

  // ----- exactly when a copy is cut short

  /** Some loop has created the file at n and will write it. */
  ghost predicate BeingWritten<D>(dest: string -> seq<int>, s: State<D>, n: int, name: string) {
    exists m :: m in s.loops && Writes(dest, s.loops[m], n, name)
  }

  ghost predicate Writes<D>(dest: string -> seq<int>, loop: Loop<D>, n: int, name: string) {
    loop.Storing? && loop.name == name && loop.i < |dest(name)| && dest(name)[loop.i] == n
  }

  ghost predicate Carried<D>(content: string -> D, loop: Loop<D>) {
    loop.Resting? || loop.Passing? || loop.data == Whole(content(loop.name))
  }

  ghost predicate CopyOk<D>(dest: string -> seq<int>, content: string -> D, s: State<D>, n: int, name: string)
    requires Has(s.files, n, name)
  {
    s.files[n][name] == Whole(content(name)) || (s.files[n][name] == Unfinished && BeingWritten(dest, s, n, name))
  }

  /** Every copy has the file's content or is about to get it, and every pass carries the content. */
  ghost predicate Sound<D>(dest: string -> seq<int>, content: string -> D, s: State<D>) {
    && (forall n, name | Has(s.files, n, name) :: CopyOk(dest, content, s, n, name))
    && (forall m | m in s.loops :: Carried(content, s.loops[m]))
  }

  /** The step reads a file for the node's pass that another node has created and not yet written. */
  ghost predicate ReadsUnfinished<D>(s: State<D>, n: int, t: State<D>) {
    n in s.loops && n in t.loops && s.loops[n].Passing? && t.loops[n].Asking? && t.loops[n].data.Unfinished?
  }

  lemma CopiesAfter<D>(
        dest: string -> seq<int>, content: string -> D, s: State<D>, n: int, t: State<D>, k: int, name: string)
    requires Inv(dest, s) && Step(dest, s, n, t) && Sound(dest, content, s) && Has(t.files, k, name)
    ensures CopyOk(dest, content, t, k, name)
  {
    hide Inv, LoopOk, Moves;
    StepIsOk(dest, s, n, t);
    var loop := s.loops[n];
    assert Carried(content, loop);
    if Writes(dest, loop, k, name) {
    } else if loop.Sending? && loop.name == name && dest(name)[loop.i] == k {
      assert Writes(dest, t.loops[n], k, name);
    } else {
      assert Has(s.files, k, name) && t.files[k][name] == s.files[k][name] && CopyOk(dest, content, s, k, name);
      if BeingWritten(dest, s, k, name) {
        var m :| m in s.loops && Writes(dest, s.loops[m], k, name);
        assert t.loops[m] == s.loops[m];
      }
    }
  }

  /** A step keeps all contents exactly if it does not read a file that is being written. */
  lemma SoundIff<D>(dest: string -> seq<int>, content: string -> D, s: State<D>, n: int, t: State<D>)
    requires Inv(dest, s) && Step(dest, s, n, t) && Sound(dest, content, s)
    ensures Sound(dest, content, t) <==> !ReadsUnfinished(s, n, t)
  {
    hide Inv, LoopOk, Moves, Has, CopyOk;
    StepIsOk(dest, s, n, t);
    forall k, name | Has(t.files, k, name) ensures CopyOk(dest, content, t, k, name) {
      CopiesAfter(dest, content, s, n, t, k, name);
    }
    CarriedAfter(dest, content, s, n, t);
    forall m | m in t.loops && m != n ensures Carried(content, t.loops[m]) { assert t.loops[m] == s.loops[m]; }
    if Sound(dest, content, t) { assert Carried(content, t.loops[n]); }
  }

  lemma CarriedAfter<D>(dest: string -> seq<int>, content: string -> D, s: State<D>, n: int, t: State<D>)
    requires Step(dest, s, n, t) && Sound(dest, content, s)
    ensures Carried(content, t.loops[n]) <==> !ReadsUnfinished(s, n, t)
  {
    hide Store, Remove;
    assert Carried(content, s.loops[n]);
    if s.loops[n].Passing? && t.loops[n].Asking? { ReadCopy(dest, content, s, n, t); }
  }

  /** What a pass reads is the content, or unfinished. */
  lemma ReadCopy<D>(dest: string -> seq<int>, content: string -> D, s: State<D>, n: int, t: State<D>)
    requires Step(dest, s, n, t) && Sound(dest, content, s) && s.loops[n].Passing? && t.loops[n].Asking?
    ensures t.loops[n].data == Unfinished || t.loops[n].data == Whole(content(t.loops[n].name))
  {
    var name := t.loops[n].name;
    assert Has(s.files, n, name) && CopyOk(dest, content, s, n, name);
  }

  // ----- the content is never lost

  /** Every copy of the file, and whatever passes carry of it, is whole. */
  ghost predicate AllWhole<D>(content: string -> D, s: State<D>, name: string) {
    && (forall n | Has(s.files, n, name) :: s.files[n][name] == Whole(content(name)))
    && (forall m | m in s.loops && Carries(s.loops[m], name) :: s.loops[m].data == Whole(content(name)))
  }

  ghost predicate WritesFirst<D>(content: string -> D, loop: Loop<D>, name: string) {
    loop.Storing? && loop.name == name && loop.i == 0 && loop.data == Whole(content(name))
  }

  /** The first node of the lookup has the content, or a pass is about to write it there. */
  ghost predicate FirstOk<D>(dest: string -> seq<int>, content: string -> D, s: State<D>, name: string)
    requires dest(name) != [] && Has(s.files, dest(name)[0], name)
  {
    s.files[dest(name)[0]][name] == Whole(content(name)) ||
        exists m :: m in s.loops && WritesFirst(content, s.loops[m], name)
  }

  ghost predicate Safe<D>(dest: string -> seq<int>, content: string -> D, s: State<D>, name: string)
    requires dest(name) != []
  {
    if Has(s.files, dest(name)[0], name) then FirstOk(dest, content, s, name) else AllWhole(content, s, name)
  }

  /** Only the content is sent to the first node, and whatever is sent to others does not touch it. */
  ghost predicate SendsSafely<D>(dest: string -> seq<int>, content: string -> D, loop: Loop<D>) {
    loop.Sending? || loop.Storing? ==>
      && loop.i < |dest(loop.name)|
      && if loop.i == 0 then loop.data == Whole(content(loop.name)) else dest(loop.name)[loop.i] != dest(loop.name)[0]
  }

  ghost predicate AllSafe<D>(dest: string -> seq<int>, content: string -> D, s: State<D>) {
    && Inv(dest, s)
    && (forall name :: dest(name) != [] && Safe(dest, content, s, name))
    && (forall m | m in s.loops :: SendsSafely(dest, content, s.loops[m]))
  }

  /** No node is in the middle of a pass. */
  ghost predicate AtRest<D>(s: State<D>) {
    forall m | m in s.loops :: s.loops[m] == Resting
  }

  /** Before any pass has begun, with whole copies everywhere. */
  lemma SafeAtFirst<D>(dest: string -> seq<int>, content: string -> D, s: State<D>)
    requires Inv(dest, s) && AtRest(s)
    requires forall n, name | Has(s.files, n, name) :: s.files[n][name] == Whole(content(name))
    ensures AllSafe(dest, content, s)
  {
    hide Has;
    forall name ensures dest(name) != [] && Safe(dest, content, s, name) { DestIsNode(dest, s, name, 0); }
  }

  lemma SafeParts<D>(dest: string -> seq<int>, content: string -> D, s: State<D>, n: int, name: string)
    requires AllSafe(dest, content, s)
    ensures Inv(dest, s) && dest(name) != [] && Safe(dest, content, s, name)
    ensures n in s.loops ==> SendsSafely(dest, content, s.loops[n]) && LoopOk(dest, s.files, n, s.loops[n])
  {
    hide Safe, LoopOk, SendsSafely;
  }

  lemma SendsSafelyAfter<D>(dest: string -> seq<int>, content: string -> D, s: State<D>, n: int, t: State<D>)
    requires AllSafe(dest, content, s) && Step(dest, s, n, t)
    ensures n in t.loops && SendsSafely(dest, content, t.loops[n])
  {
    hide AllSafe, Inv, FirstOk, Store, Remove;
    var loop := s.loops[n];
    if loop.Asking? {
      SafeParts(dest, content, s, n, loop.name);
      assert Carries(loop, loop.name);
    } else {
      SafeParts(dest, content, s, n, "");
    }
  }

  /** With no copy at the first node, whatever the step reads or carries of the file is whole. */
  lemma WholeAfter<D>(dest: string -> seq<int>, content: string -> D, s: State<D>, n: int, t: State<D>, name: string)
    requires AllSafe(dest, content, s) && Step(dest, s, n, t)
    requires dest(name) != [] && !Has(s.files, dest(name)[0], name) && !Has(t.files, dest(name)[0], name)
    ensures AllWhole(content, t, name)
  {
    hide AllSafe, Inv, FirstOk, SendsSafely;
    SafeParts(dest, content, s, n, name);
    DestIsNode(dest, s, name, dest(name)[0]);
    var loop := s.loops[n];
    if loop.Passing? && t.loops[n].Asking? && t.loops[n].name == name { assert Has(s.files, n, name); }
    if Carries(loop, name) { assert loop.data == Whole(content(name)); }
    forall m | m in t.loops && Carries(t.loops[m], name) ensures t.loops[m].data == Whole(content(name)) {
      if m != n { assert t.loops[m] == s.loops[m]; }
    }
    forall k | Has(t.files, k, name) ensures t.files[k][name] == Whole(content(name)) {
      if (loop.Sending? || loop.Storing?) && loop.name == name {
        assert false;
      } else {
        assert Has(s.files, k, name);
      }
    }
  }

  lemma FirstAfter<D>(dest: string -> seq<int>, content: string -> D, s: State<D>, n: int, t: State<D>, name: string)
    requires AllSafe(dest, content, s) && Step(dest, s, n, t)
    requires dest(name) != [] && Has(t.files, dest(name)[0], name)
    ensures FirstOk(dest, content, t, name)
  {
    hide AllSafe, Inv, AllWhole;
    SafeParts(dest, content, s, n, name);
    var d, loop := dest(name)[0], s.loops[n];
    if loop.Sending? && loop.name == name && loop.i == 0 {
      assert WritesFirst(content, t.loops[n], name);
    } else if loop.Storing? && loop.name == name && loop.i == 0 {
    } else {
      assert Has(s.files, d, name) && t.files[d][name] == s.files[d][name];
      if m :| m in s.loops && WritesFirst(content, s.loops[m], name) {
        assert m != n && t.loops[m] == s.loops[m];
      }
    }
  }

  lemma FirstStays<D>(dest: string -> seq<int>, s: State<D>, n: int, t: State<D>, name: string)
    requires Inv(dest, s) && Step(dest, s, n, t) && dest(name) != []
    ensures Has(s.files, dest(name)[0], name) ==> Has(t.files, dest(name)[0], name)
  {
    hide Inv, Step, Has, LoopOk;
    StepKeepsInv(dest, s, n, t);
  }

  lemma StepIsSafe<D>(dest: string -> seq<int>, content: string -> D, s: State<D>, n: int, t: State<D>)
    requires AllSafe(dest, content, s) && Step(dest, s, n, t)
    ensures AllSafe(dest, content, t)
  {
    hide Inv, Step, FirstOk, AllWhole, SendsSafely, Has, LoopOk, Moves;
    StepKeepsInv(dest, s, n, t);
    StepIsOk(dest, s, n, t);
    SendsSafelyAfter(dest, content, s, n, t);
    forall m | m in t.loops && m != n ensures SendsSafely(dest, content, t.loops[m]) {
      assert t.loops[m] == s.loops[m];
    }
    forall name ensures dest(name) != [] && Safe(dest, content, t, name) {
      SafeParts(dest, content, s, n, name);
      FirstStays(dest, s, n, t, name);
      if Has(t.files, dest(name)[0], name) {
        FirstAfter(dest, content, s, n, t, name);
      } else {
        WholeAfter(dest, content, s, n, t, name);
      }
    }
  }

  ghost predicate HasWhole<D>(content: string -> D, files: Files<D>, n: int, name: string) {
    Has(files, n, name) && files[n][name] == Whole(content(name))
  }

  ghost predicate SomewhereWhole<D>(content: string -> D, files: Files<D>, name: string) {
    exists n :: HasWhole(content, files, n, name)
  }

  /** At every moment some node has the whole content of a file that some node had, or a pass is about to write it. */
  lemma {:induction false} ContentNeverLost<D(!new)>(
        dest: string -> seq<int>, content: string -> D, run: seq<State<D>>, i: nat, name: string)
    requires Run(dest, run) && AllSafe(dest, content, run[0]) && i < |run| && Held(run[0].files, name)
    ensures AllSafe(dest, content, run[i])
    ensures SomewhereWhole(content, run[i].files, name) ||
        exists m :: m in run[i].loops && WritesFirst(content, run[i].loops[m], name)
  {
    hide Inv, Step, AllSafe, LoopOk;
    SafeRun(dest, content, run, i);
    NeverLost(dest, run, i, name);
    SafeParts(dest, content, run[i], 0, name);
    var n :| Has(run[i].files, n, name);
    assert HasWhole(content, run[i].files, n, name) || HasWhole(content, run[i].files, dest(name)[0], name)
        || exists m :: m in run[i].loops && WritesFirst(content, run[i].loops[m], name);
  }

  lemma {:induction false} SafeRun<D(!new)>(dest: string -> seq<int>, content: string -> D, run: seq<State<D>>, i: nat)
    requires Run(dest, run) && AllSafe(dest, content, run[0]) && i < |run|
    ensures AllSafe(dest, content, run[i])
  {
    hide Inv, Step, AllSafe;
    if i > 0 {
      SafeRun(dest, content, run, i - 1);
      assert Next(dest, run[i - 1], run[i]);
      var n :| Step(dest, run[i - 1], n, run[i]);
      StepIsSafe(dest, content, run[i - 1], n, run[i]);
    }
  }

  /** So once every node has made a whole pass and rests, the first node that a lookup names has the content. */
  lemma FirstPlaceIsWhole<D(!new)>(dest: string -> seq<int>, content: string -> D, run: seq<State<D>>, name: string)
    requires Run(dest, run) && AllSafe(dest, content, run[0]) && Held(run[0].files, name)
    requires forall m | m in run[0].files :: MadePass(run, m)
    requires AtRest(run[|run| - 1])
    ensures dest(name) != [] && Has(run[|run| - 1].files, dest(name)[0], name)
    ensures run[|run| - 1].files[dest(name)[0]][name] == Whole(content(name))
  {
    hide Inv, Step, AllSafe, Has, MadePass, LoopOk;
    var last := |run| - 1;
    SafeRun(dest, content, run, last);
    SafeParts(dest, content, run[last], 0, name);
    SafeParts(dest, content, run[0], 0, name);
    DestIsNode(dest, run[0], name, dest(name)[0]);
    AfterPasses(dest, run, dest(name)[0], name);
  }

  // ----- a run in which a copy is cut short

  /** Every file belongs at nodes 1 and 2. */
  function OneAndTwo(name: string): seq<int> { [1, 2] }

  /** A directory with nothing but, perhaps, the file "f". */
  ghost predicate Only(m: map<string, Copy<int>>, f: Option<Copy<int>>) {
    m.Keys == (if f.Some? then {"f"} else {}) && (f.Some? ==> m["f"] == f.value)
  }

  /** What nodes 1, 2 and 3 have, and where the loops of 1 and 3 are; 2 rests. */
  ghost predicate Is(
        s: State<int>, one: Option<Copy<int>>, two: Option<Copy<int>>, three: Option<Copy<int>>,
        a: Loop<int>, c: Loop<int>)
  {
    && s.files.Keys == s.loops.Keys == {1, 2, 3}
    && Only(s.files[1], one) && Only(s.files[2], two) && Only(s.files[3], three)
    && s.loops[1] == a && s.loops[2] == Resting && s.loops[3] == c
  }

  lemma Goes(s: State<int>, n: int, t: State<int>)
    requires Step(OneAndTwo, s, n, t)
    ensures Next(OneAndTwo, s, t)
  {
  }

  /** Node n reads its own copy of the file and asks node 1. */
  lemma Reads(s: State<int>, n: int, copy: Copy<int>) returns (t: State<int>, u: State<int>)
    requires n in s.files && n in s.loops && s.loops[n] == Resting && Only(s.files[n], Some(copy))
    ensures Next(OneAndTwo, s, t) && Next(OneAndTwo, t, u) && u == s.(loops := s.loops[n := Asking({}, "f", copy, 0)])
  {
    t := s.(loops := s.loops[n := Passing({"f"})]);
    Goes(s, n, t);
    u := t.(loops := t.loops[n := Asking({"f"} - {"f"}, "f", copy, 0)]);
    assert Take(t, n, {"f"}, "f", u);
    Goes(t, n, u);
    assert {"f"} - {"f"} == {};
    assert u.loops == s.loops[n := Asking({}, "f", copy, 0)];
  }

  lemma Asks(s: State<int>, n: int, copy: Copy<int>, i: nat) returns (t: State<int>)
    requires n in s.files && n in s.loops && s.loops[n] == Asking({}, "f", copy, i) && i < 2
    ensures Next(OneAndTwo, s, t)
    ensures
      var after := if Has(s.files, i + 1, "f") then Asking({}, "f", copy, i + 1) else Sending({}, "f", copy, i);
      t == s.(loops := s.loops[n := after])
  {
    assert OneAndTwo("f")[i] == i + 1;
    var after := if Has(s.files, i + 1, "f") then Asking({}, "f", copy, i + 1) else Sending({}, "f", copy, i);
    t := s.(loops := s.loops[n := after]);
    Goes(s, n, t);
  }

  lemma Creates(s: State<int>, n: int, copy: Copy<int>, i: nat) returns (t: State<int>)
    requires n in s.files && n in s.loops && s.loops[n] == Sending({}, "f", copy, i) && i < 2
    ensures Next(OneAndTwo, s, t) &&
        t == State(Store(s.files, i + 1, "f", Unfinished), s.loops[n := Storing({}, "f", copy, i)])
  {
    hide Store;
    assert OneAndTwo("f")[i] == i + 1;
    t := State(Store(s.files, i + 1, "f", Unfinished), s.loops[n := Storing({}, "f", copy, i)]);
    Goes(s, n, t);
  }

  lemma WritesIt(s: State<int>, n: int, copy: Copy<int>, i: nat) returns (t: State<int>)
    requires n in s.files && n in s.loops && s.loops[n] == Storing({}, "f", copy, i) && i < 2
    ensures Next(OneAndTwo, s, t) &&
        t == State(Store(s.files, i + 1, "f", copy), s.loops[n := Asking({}, "f", copy, i + 1)])
  {
    hide Store;
    assert OneAndTwo("f")[i] == i + 1;
    t := State(Store(s.files, i + 1, "f", copy), s.loops[n := Asking({}, "f", copy, i + 1)]);
    Goes(s, n, t);
  }

  /** All places were asked: node 3 removes its copy, and rests. */
  lemma Ends(s: State<int>, n: int, copy: Copy<int>) returns (t: State<int>, u: State<int>)
    requires n in s.files && n in s.loops && s.loops[n] == Asking({}, "f", copy, 2) && "f" in s.files[n]
    ensures Next(OneAndTwo, s, t) && Next(OneAndTwo, t, u)
    ensures u == State(if n == 1 || n == 2 then s.files else Remove(s.files, n, "f"), s.loops[n := Resting])
  {
    t := State(if n == 1 || n == 2 then s.files else Remove(s.files, n, "f"), s.loops[n := Passing({})]);
    assert n in OneAndTwo("f") <==> n == 1 || n == 2 by { assert OneAndTwo("f") == [1, 2]; }
    Goes(s, n, t);
    u := t.(loops := t.loops[n := Resting]);
    Goes(t, n, u);
    assert u.loops == s.loops[n := Resting];
  }

  ghost predicate Linked(run: seq<State<int>>) {
    forall i | 0 < i < |run| :: Next(OneAndTwo, run[i - 1], run[i])
  }

  lemma LinkedOne(s: State<int>)
    ensures Linked([s])
  {
  }

  lemma LinkedSnoc(run: seq<State<int>>, t: State<int>)
    requires run != [] && Linked(run) && Next(OneAndTwo, run[|run| - 1], t)
    ensures Linked(run + [t]) && (run + [t])[|run|] == t && (run + [t])[0] == run[0]
  {
    hide Next;
  }

  /** Node 3 creates the file at node 1. */
  lemma ThreeCreates(run: seq<State<int>>) returns (more: seq<State<int>>)
    requires run != [] && Linked(run) && Is(run[|run| - 1], None, None, Some(Whole(7)), Resting, Resting)
    ensures more != [] && Linked(more) && more[0] == run[0]
    ensures Is(more[|more| - 1], Some(Unfinished), None, Some(Whole(7)), Resting, Storing({}, "f", Whole(7), 0))
  {
    hide Next, Linked;
    var s := run[|run| - 1];
    var s1, s2 := Reads(s, 3, Whole(7));
    var s3 := Asks(s2, 3, Whole(7), 0);
    var s4 := Creates(s3, 3, Whole(7), 0);
    more := Four(run, s1, s2, s3, s4);
  }

  lemma Four(run: seq<State<int>>, a: State<int>, b: State<int>, c: State<int>, d: State<int>)
    returns (more: seq<State<int>>)
    requires run != [] && Linked(run) && Next(OneAndTwo, run[|run| - 1], a) && Next(OneAndTwo, a, b) &&
        Next(OneAndTwo, b, c) && Next(OneAndTwo, c, d)
    ensures more != [] && Linked(more) && more[0] == run[0] && more[|more| - 1] == d
  {
    hide Next, Linked;
    LinkedSnoc(run, a);
    LinkedSnoc(run + [a], b);
    LinkedSnoc(run + [a] + [b], c);
    LinkedSnoc(run + [a] + [b] + [c], d);
    more := run + [a] + [b] + [c] + [d];
  }

  /** Node 1 reads what it has so far, and finds nothing at node 2. */
  lemma OneReads(run: seq<State<int>>, c: Loop<int>) returns (more: seq<State<int>>)
    requires run != [] && Linked(run) && Is(run[|run| - 1], Some(Unfinished), None, Some(Whole(7)), Resting, c)
    ensures more != [] && Linked(more) && more[0] == run[0]
    ensures Is(more[|more| - 1], Some(Unfinished), None, Some(Whole(7)), Sending({}, "f", Unfinished, 1), c)
  {
    hide Next, Linked;
    var s := run[|run| - 1];
    var s1, s2 := Reads(s, 1, Unfinished);
    var s3 := Asks(s2, 1, Unfinished, 0);
    var s4 := Asks(s3, 1, Unfinished, 1);
    more := Four(run, s1, s2, s3, s4);
  }

  /** It sends that to node 2, and rests. */
  lemma OneCopies(run: seq<State<int>>, c: Loop<int>) returns (more: seq<State<int>>)
    requires run != [] && Linked(run) &&
        Is(run[|run| - 1], Some(Unfinished), None, Some(Whole(7)), Sending({}, "f", Unfinished, 1), c)
    ensures more != [] && Linked(more) && more[0] == run[0]
    ensures Is(more[|more| - 1], Some(Unfinished), Some(Unfinished), Some(Whole(7)), Resting, c)
  {
    hide Next, Linked;
    var s := run[|run| - 1];
    var s1 := Creates(s, 1, Unfinished, 1);
    var s2 := WritesIt(s1, 1, Unfinished, 1);
    assert Is(s2, Some(Unfinished), Some(Unfinished), Some(Whole(7)), Asking({}, "f", Unfinished, 2), c);
    var s3, s4 := Ends(s2, 1, Unfinished);
    more := Four(run, s1, s2, s3, s4);
  }

  /** Node 3 writes the file at node 1, and finds one at node 2. */
  lemma ThreeWrites(run: seq<State<int>>) returns (more: seq<State<int>>)
    requires run != [] && Linked(run)
    requires Is(run[|run| - 1], Some(Unfinished), Some(Unfinished), Some(Whole(7)), Resting,
        Storing({}, "f", Whole(7), 0))
    ensures more != [] && Linked(more) && more[0] == run[0]
    ensures Is(more[|more| - 1], Some(Whole(7)), Some(Unfinished), Some(Whole(7)), Resting,
        Asking({}, "f", Whole(7), 2))
  {
    hide Next, Linked;
    var s := run[|run| - 1];
    var s1 := WritesIt(s, 3, Whole(7), 0);
    var s2 := Asks(s1, 3, Whole(7), 1);
    LinkedSnoc(run, s1);
    LinkedSnoc(run + [s1], s2);
    more := run + [s1] + [s2];
  }

  /** It removes its own. */
  lemma ThreeFinishes(run: seq<State<int>>) returns (more: seq<State<int>>)
    requires run != [] && Linked(run)
    requires Is(run[|run| - 1], Some(Whole(7)), Some(Unfinished), Some(Whole(7)), Resting, Asking({}, "f", Whole(7), 2))
    ensures more != [] && Linked(more) && more[0] == run[0]
    ensures Is(more[|more| - 1], Some(Whole(7)), Some(Unfinished), None, Resting, Resting)
  {
    hide Next, Linked;
    var s := run[|run| - 1];
    var s1, s2 := Ends(s, 3, Whole(7));
    LinkedSnoc(run, s1);
    LinkedSnoc(run + [s1], s2);
    more := run + [s1] + [s2];
  }

  lemma AtFirst() returns (s: State<int>)
    ensures Is(s, None, None, Some(Whole(7)), Resting, Resting) && Inv(OneAndTwo, s) && AtRest(s)
    ensures forall n, name | Has(s.files, n, name) :: s.files[n][name] == Whole(7)
  {
    s := State(map[1 := map[], 2 := map[], 3 := map["f" := Whole(7)]], map[1 := Resting, 2 := Resting, 3 := Resting]);
  }

  lemma AtLast(s: State<int>)
    requires Is(s, Some(Whole(7)), Some(Unfinished), None, Resting, Resting)
    ensures AtRest(s) && Has(s.files, 2, "f") && s.files[2]["f"] == Unfinished
  {
  }

  /** In the end all nodes rest, and node 2 keeps less than the content. */
  lemma CanBeCutShort() returns (run: seq<State<int>>)
    ensures Run(OneAndTwo, run) && AtRest(run[0]) && AtRest(run[|run| - 1])
    ensures forall n, name | Has(run[0].files, n, name) :: run[0].files[n][name] == Whole(7)
    ensures Has(run[|run| - 1].files, 2, "f") && run[|run| - 1].files[2]["f"] == Unfinished && 2 in OneAndTwo("f")
  {
    hide *;
    var s := AtFirst();
    LinkedOne(s);
    run := ThreeCreates([s]);
    run := OneReads(run, Storing({}, "f", Whole(7), 0));
    run := OneCopies(run, Storing({}, "f", Whole(7), 0));
    run := ThreeWrites(run);
    run := ThreeFinishes(run);
    AtLast(run[|run| - 1]);
    IsRun(run);
  }

  lemma IsRun(run: seq<State<int>>)
    requires run != [] && Linked(run) && Inv(OneAndTwo, run[0])
    ensures Run(OneAndTwo, run) && 2 in OneAndTwo("f")
  {
    hide Next, Inv;
    assert OneAndTwo("f")[1] == 2;
  }
}
