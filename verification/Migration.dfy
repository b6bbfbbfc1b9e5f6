/**
 * Files moving between nodes while the ring stands still. A step is one answered request or one action on a
 * node's own directory, in any interleaving of the nodes. On an ideal ring the nodes that a lookup names depend
 * on the file alone, so they are given as `dest`.
 */
module Migration {

  /** A file is created empty and then written; until then whoever reads it gets less than its content. */
  datatype Copy<D> = Unfinished | Whole(content: D)

  type Files<D> = map<int, map<string, Copy<D>>>

  /** Where a node's loop over its directory is; `todo` are the names it has not looked at. */
  datatype Loop<D> =
    | Resting
    | Passing(todo: set<string>)
    | Asking(todo: set<string>, name: string, data: Copy<D>, i: nat)
    | Sending(todo: set<string>, name: string, data: Copy<D>, i: nat)
    | Storing(todo: set<string>, name: string, data: Copy<D>, i: nat)

  datatype State<D> = State(files: Files<D>, loops: map<int, Loop<D>>)

  function Store<D>(files: Files<D>, n: int, name: string, data: Copy<D>): Files<D> {
    if n in files then files[n := files[n][name := data]] else files
  }

  function Remove<D>(files: Files<D>, n: int, name: string): Files<D> {
    if n in files then files[n := files[n] - {name}] else files
  }

  ghost predicate Has<D>(files: Files<D>, n: int, name: string) {
    n in files && name in files[n]
  }

  ghost predicate Take<D>(s: State<D>, n: int, todo: set<string>, name: string, t: State<D>) {
    Has(s.files, n, name) && t == s.(loops := s.loops[n := Asking(todo - {name}, name, s.files[n][name], 0)])
  }

  /**
   * A step of node n's loop. A file that is gone when it is read, or removed, ends the node: such a step is missing.
   */
  ghost predicate Step<D>(dest: string -> seq<int>, s: State<D>, n: int, t: State<D>) {
    && n in s.loops && n in s.files
    && match s.loops[n]
       case Resting => t == s.(loops := s.loops[n := Passing(s.files[n].Keys)])
       case Passing(todo) =>
         if todo == {} then t == s.(loops := s.loops[n := Resting])
         else exists name :: name in todo && Take(s, n, todo, name, t)
       case Asking(todo, name, data, i) =>
         if i < |dest(name)| then
           t == s.(loops := s.loops[n := if Has(s.files, dest(name)[i], name) then Asking(todo, name, data, i + 1)
                                         else Sending(todo, name, data, i)])
         else if n in dest(name) then t == s.(loops := s.loops[n := Passing(todo)])
         else name in s.files[n] && t == State(Remove(s.files, n, name), s.loops[n := Passing(todo)])
       case Sending(todo, name, data, i) =>
         i < |dest(name)| &&
             t == State(Store(s.files, dest(name)[i], name, Unfinished), s.loops[n := Storing(todo, name, data, i)])
       case Storing(todo, name, data, i) =>
         i < |dest(name)| &&
             t == State(Store(s.files, dest(name)[i], name, data), s.loops[n := Asking(todo, name, data, i + 1)])
  }

  ghost predicate Next<D(!new)>(dest: string -> seq<int>, s: State<D>, t: State<D>) {
    exists n :: Step(dest, s, n, t)
  }

  // ----- what every step keeps

  /** All the nodes that a lookup of the file names have it. */
  ghost predicate Placed<D>(dest: string -> seq<int>, files: Files<D>, name: string) {
    forall d | d in dest(name) :: Has(files, d, name)
  }

  /** The names that a pass has still to deal with. */
  function Pending<D>(loop: Loop<D>): set<string> {
    match loop
    case Resting => {}
    case Passing(todo) => todo
    case Asking(todo, name, _, _) => todo + {name}
    case Sending(todo, name, _, _) => todo + {name}
    case Storing(todo, name, _, _) => todo + {name}
  }

  /** A pass deals with files that the node has, and has found or put the current one at the first i nodes. */
  ghost predicate LoopOk<D>(dest: string -> seq<int>, files: Files<D>, n: int, loop: Loop<D>) {
    && (forall name | name in Pending(loop) :: Has(files, n, name))
    && match loop
       case Resting => true
       case Passing(_) => true
       case Asking(todo, name, _, i) =>
         name !in todo && i <= |dest(name)| && forall j | 0 <= j < i :: Has(files, dest(name)[j], name)
       case Sending(todo, name, _, i) =>
         name !in todo && i < |dest(name)| && forall j | 0 <= j < i :: Has(files, dest(name)[j], name)
       case Storing(todo, name, _, i) =>
         name !in todo && i < |dest(name)| && forall j | 0 <= j <= i :: Has(files, dest(name)[j], name)
  }

  ghost predicate Inv<D>(dest: string -> seq<int>, s: State<D>) {
    && s.loops.Keys == s.files.Keys
    && (forall name :: dest(name) != [] && forall d | d in dest(name) :: d in s.files)
    && forall n | n in s.loops :: LoopOk(dest, s.files, n, s.loops[n])
  }

  ghost predicate Held<D>(files: Files<D>, name: string) {
    exists n :: Has(files, n, name)
  }

  /** All that a step of n may do to the files: take a placed one from n, or bring one where it should be. */
  ghost predicate Moves<D>(dest: string -> seq<int>, a: Files<D>, n: int, b: Files<D>) {
    && b.Keys == a.Keys
    && (forall m, name | Has(a, m, name) :: Has(b, m, name) || (m == n && m !in dest(name) && Placed(dest, a, name)))
    && (forall m, name | Has(b, m, name) :: Has(a, m, name) || (m in dest(name) && Held(a, name)))
  }

  lemma NothingMoves<D>(dest: string -> seq<int>, a: Files<D>, n: int)
    ensures Moves(dest, a, n, a)
  {
  }

  lemma StoreMoves<D>(dest: string -> seq<int>, a: Files<D>, n: int, d: int, name: string, data: Copy<D>)
    requires d in dest(name) && d in a && Has(a, n, name)
    ensures Moves(dest, a, n, Store(a, d, name, data))
    ensures forall m, x :: Has(Store(a, d, name, data), m, x) <==> Has(a, m, x) || (m == d && x == name)
  {
    var b := Store(a, d, name, data);
    assert b.Keys == a.Keys;
    assert forall m, x :: Has(b, m, x) <==> Has(a, m, x) || (m == d && x == name);
  }

  lemma RemoveMoves<D>(dest: string -> seq<int>, a: Files<D>, n: int, name: string)
    requires n in a && n !in dest(name) && Placed(dest, a, name)
    ensures Moves(dest, a, n, Remove(a, n, name))
    ensures forall m, x :: Has(Remove(a, n, name), m, x) <==> Has(a, m, x) && !(m == n && x == name)
  {
    hide Placed;
    var b := Remove(a, n, name);
    assert b.Keys == a.Keys;
    assert forall m, x :: Has(b, m, x) <==> Has(a, m, x) && !(m == n && x == name);
  }

  lemma PlacedStays<D>(dest: string -> seq<int>, a: Files<D>, n: int, b: Files<D>, name: string)
    requires Moves(dest, a, n, b)
    ensures Placed(dest, a, name) ==> Placed(dest, b, name)
  {
    hide Has, Held;
  }

  /** Another node's loop finds what it relies on as it was. */
  lemma LoopCarries<D>(dest: string -> seq<int>, a: Files<D>, n: int, b: Files<D>, m: int, loop: Loop<D>)
    requires Moves(dest, a, n, b) && m != n && LoopOk(dest, a, m, loop)
    ensures LoopOk(dest, b, m, loop)
  {
    hide Has, Held, Placed;
  }

  lemma FirstHas<D>(dest: string -> seq<int>, files: Files<D>, n: int, loop: Loop<D>)
    requires LoopOk(dest, files, n, loop) && loop.Asking? && loop.i == |dest(loop.name)|
    ensures Placed(dest, files, loop.name)
  {
    hide Has;
  }

  /** The loop's own step: how the files move, and that the loop may rely on what it will. */
  lemma StepIsOk<D>(dest: string -> seq<int>, s: State<D>, n: int, t: State<D>)
    requires Inv(dest, s) && Step(dest, s, n, t)
    ensures Moves(dest, s.files, n, t.files) && n in s.loops && n in t.loops && LoopOk(dest, t.files, n, t.loops[n])
    ensures t.loops == s.loops[n := t.loops[n]]
  {
    hide Moves, Placed, Store, Remove, Held;
    NothingMoves(dest, s.files, n);
    LoopIsOk(dest, s, n);
    match s.loops[n]
    case Resting =>
    case Passing(todo) =>
    case Asking(todo, name, data, i) =>
      if i == |dest(name)| && n !in dest(name) {
        FirstHas(dest, s.files, n, s.loops[n]);
        RemoveMoves(dest, s.files, n, name);
      }
    case Sending(todo, name, data, i) =>
      var d := dest(name)[i];
      DestIsNode(dest, s, name, d);
      StoreMoves(dest, s.files, n, d, name, Unfinished);
      SentIsOk(dest, s.files, n, t.files, s.loops[n]);
    case Storing(todo, name, data, i) =>
      var d := dest(name)[i];
      DestIsNode(dest, s, name, d);
      StoreMoves(dest, s.files, n, d, name, data);
      StoredIsOk(dest, s.files, n, t.files, s.loops[n]);
  }

  lemma LoopIsOk<D>(dest: string -> seq<int>, s: State<D>, n: int)
    requires Inv(dest, s)
    ensures n in s.loops ==> n in s.files && LoopOk(dest, s.files, n, s.loops[n])
  {
    hide LoopOk;
  }

  lemma DestIsNode<D>(dest: string -> seq<int>, s: State<D>, name: string, d: int)
    requires Inv(dest, s)
    ensures d in dest(name) ==> d in s.files
    ensures dest(name) != []
  {
    hide LoopOk;
  }

  lemma SentIsOk<D>(dest: string -> seq<int>, a: Files<D>, n: int, b: Files<D>, loop: Loop<D>)
    requires Moves(dest, a, n, b) && loop.Sending? && LoopOk(dest, a, n, loop) &&
        Has(b, dest(loop.name)[loop.i], loop.name)
    requires forall name | Has(a, n, name) :: Has(b, n, name)
    ensures LoopOk(dest, b, n, Storing(loop.todo, loop.name, loop.data, loop.i))
  {
    hide Has, Held, Placed;
  }

  lemma StoredIsOk<D>(dest: string -> seq<int>, a: Files<D>, n: int, b: Files<D>, loop: Loop<D>)
    requires Moves(dest, a, n, b) && loop.Storing? && LoopOk(dest, a, n, loop)
    requires forall name | Has(a, n, name) :: Has(b, n, name)
    ensures LoopOk(dest, b, n, Asking(loop.todo, loop.name, loop.data, loop.i + 1))
  {
    hide Has, Held, Placed;
  }

  lemma StepKeepsInv<D>(dest: string -> seq<int>, s: State<D>, n: int, t: State<D>)
    requires Inv(dest, s) && Step(dest, s, n, t)
    ensures Inv(dest, t) && Moves(dest, s.files, n, t.files)
  {
    hide LoopOk, Step, Has, Held;
    StepIsOk(dest, s, n, t);
    LoopIsOk(dest, s, n);
    forall m | m in t.loops && m != n ensures LoopOk(dest, t.files, m, t.loops[m]) {
      LoopCarries(dest, s.files, n, t.files, m, s.loops[m]);
    }
  }

  // ----- whole runs

  ghost predicate Run<D(!new)>(dest: string -> seq<int>, run: seq<State<D>>) {
    && run != [] && Inv(dest, run[0])
    && forall i | 0 < i < |run| :: Next(dest, run[i - 1], run[i])
  }

  lemma {:induction false} RunKeepsInv<D(!new)>(dest: string -> seq<int>, run: seq<State<D>>, i: nat)
    requires Run(dest, run) && i < |run|
    ensures Inv(dest, run[i])
  {
    hide Inv, Step;
    if i > 0 {
      RunKeepsInv(dest, run, i - 1);
      assert Next(dest, run[i - 1], run[i]);
      var n :| Step(dest, run[i - 1], n, run[i]);
      StepKeepsInv(dest, run[i - 1], n, run[i]);
    }
  }

  /** The file system calls after which the source gives up always succeed: what a loop deals with is there. */
  lemma FilesAreThere<D(!new)>(dest: string -> seq<int>, run: seq<State<D>>, i: nat, n: int, name: string)
    requires Run(dest, run) && i < |run| && n in run[i].loops && name in Pending(run[i].loops[n])
    ensures Has(run[i].files, n, name)
  {
    hide Inv, Has, Pending;
    RunKeepsInv(dest, run, i);
    LoopIsOk(dest, run[i], n);
  }

  lemma MovesKeepHeld<D>(dest: string -> seq<int>, a: Files<D>, n: int, b: Files<D>, m: int, name: string)
    requires Moves(dest, a, n, b) && dest(name) != []
    ensures Has(a, m, name) || Placed(dest, a, name) ==> Has(b, m, name) || Placed(dest, b, name)
    ensures Held(a, name) <==> Held(b, name)
  {
    hide Has;
    var d := dest(name)[0];
    PlacedStays(dest, a, n, b, name);
    if k :| Has(a, k, name) { assert Has(b, k, name) || Has(a, d, name); assert Has(b, k, name) || Has(b, d, name); }
    if k :| Has(b, k, name) { assert Has(a, k, name) || Held(a, name); }
  }

  /** No file that some node has is ever left without a holder, and no file appears from nowhere. */
  lemma {:induction false} NeverLost<D(!new)>(dest: string -> seq<int>, run: seq<State<D>>, i: nat, name: string)
    requires Run(dest, run) && i < |run|
    ensures Held(run[i].files, name) <==> Held(run[0].files, name)
  {
    hide Inv, Step, Held, Moves;
    if i > 0 {
      NeverLost(dest, run, i - 1, name);
      assert Next(dest, run[i - 1], run[i]);
      var n :| Step(dest, run[i - 1], n, run[i]);
      RunKeepsInv(dest, run, i - 1);
      StepKeepsInv(dest, run[i - 1], n, run[i]);
      DestIsNode(dest, run[i - 1], name, 0);
      MovesKeepHeld(dest, run[i - 1].files, n, run[i].files, 0, name);
    }
  }

  /** From i on, n has the file, or else all the nodes that should have it do; and these keep it. */
  lemma {:induction false} KeptOrPlaced<D(!new)>(
        dest: string -> seq<int>, run: seq<State<D>>, i: nat, j: nat, n: int, name: string)
    requires Run(dest, run) && i <= j < |run|
    ensures Has(run[i].files, n, name) ==> Has(run[j].files, n, name) || Placed(dest, run[j].files, name)
    ensures Placed(dest, run[i].files, name) ==> Placed(dest, run[j].files, name)
    decreases j
  {
    hide Inv, Step, Has, Placed, Moves;
    if i < j {
      KeptOrPlaced(dest, run, i, j - 1, n, name);
      assert Next(dest, run[j - 1], run[j]);
      var m :| Step(dest, run[j - 1], m, run[j]);
      RunKeepsInv(dest, run, j - 1);
      StepKeepsInv(dest, run[j - 1], m, run[j]);
      DestIsNode(dest, run[j - 1], name, 0);
      PlacedStays(dest, run[j - 1].files, m, run[j].files, name);
      MovesKeepHeld(dest, run[j - 1].files, m, run[j].files, n, name);
    }
  }

  // ----- passes

  /** Node n has only what it should have, and what it had when its pass began is in place. */
  ghost predicate Clean<D>(dest: string -> seq<int>, names: set<string>, files: Files<D>, n: int) {
    (forall name | name in names :: Placed(dest, files, name)) && forall name | Has(files, n, name) :: n in dest(name)
  }

  /** The same, but for what the pass has still to deal with. */
  ghost predicate Underway<D>(dest: string -> seq<int>, names: set<string>, files: Files<D>, n: int, loop: Loop<D>) {
    && loop != Resting
    && (forall name | name in names :: name in Pending(loop) || Placed(dest, files, name))
    && (forall name | Has(files, n, name) :: name in Pending(loop) || n in dest(name))
  }

  lemma CleanStays<D>(dest: string -> seq<int>, names: set<string>, a: Files<D>, m: int, b: Files<D>, n: int)
    requires Moves(dest, a, m, b) && Clean(dest, names, a, n)
    ensures Clean(dest, names, b, n)
  {
    hide Has, Held;
  }

  lemma UnderwayStays<D>(
    dest: string -> seq<int>, names: set<string>, a: Files<D>, m: int, b: Files<D>, n: int, loop: Loop<D>)
    requires Moves(dest, a, m, b) && Underway(dest, names, a, n, loop)
    ensures Underway(dest, names, b, n, loop)
  {
    hide Has, Held, Pending;
  }

  /** The node's own pass goes on, or ends with everything done. */
  lemma PassGoesOn<D>(dest: string -> seq<int>, names: set<string>, s: State<D>, n: int, t: State<D>)
    requires Inv(dest, s) && Step(dest, s, n, t) && n in t.loops && Underway(dest, names, s.files, n, s.loops[n])
    ensures Clean(dest, names, t.files, n) || Underway(dest, names, t.files, n, t.loops[n])
  {
    hide Inv, Placed, Has, Moves, Remove, Held, Store;
    StepKeepsInv(dest, s, n, t);
    LoopIsOk(dest, s, n);
    UnderwayStays(dest, names, s.files, n, t.files, n, s.loops[n]);
    var loop := s.loops[n];
    if loop.Asking? && loop.i == |dest(loop.name)| {
      FirstHas(dest, s.files, n, loop);
      PlacedStays(dest, s.files, n, t.files, loop.name);
      if n !in dest(loop.name) { RemoveMoves(dest, s.files, n, loop.name); }
    }
  }

  ghost predicate Phase<D>(dest: string -> seq<int>, names: set<string>, s: State<D>, n: int) {
    n in s.loops && (Clean(dest, names, s.files, n) || Underway(dest, names, s.files, n, s.loops[n]))
  }

  lemma PhaseStep<D>(dest: string -> seq<int>, names: set<string>, s: State<D>, m: int, t: State<D>, n: int)
    requires Inv(dest, s) && Step(dest, s, m, t) && Phase(dest, names, s, n)
    ensures Phase(dest, names, t, n)
  {
    hide Inv, Step, Clean, Underway, Moves, Has, Placed, LoopOk;
    StepIsOk(dest, s, m, t);
    if Clean(dest, names, s.files, n) {
      CleanStays(dest, names, s.files, m, t.files, n);
    } else if m == n {
      PassGoesOn(dest, names, s, n, t);
    } else {
      UnderwayStays(dest, names, s.files, m, t.files, n, s.loops[n]);
    }
  }

  lemma {:induction false} PhaseLater<D(!new)>(
        dest: string -> seq<int>, run: seq<State<D>>, i: nat, j: nat, names: set<string>, n: int)
    requires Run(dest, run) && i <= j < |run| && Phase(dest, names, run[i], n)
    ensures Phase(dest, names, run[j], n)
    decreases j
  {
    hide Inv, Step, Phase;
    if i < j {
      PhaseLater(dest, run, i, j - 1, names, n);
      assert Next(dest, run[j - 1], run[j]);
      var m :| Step(dest, run[j - 1], m, run[j]);
      RunKeepsInv(dest, run, j - 1);
      PhaseStep(dest, names, run[j - 1], m, run[j], n);
    }
  }

  /** Node n begins a pass over its directory in state i, and is through with it in state j. */
  ghost predicate FullPass<D>(run: seq<State<D>>, n: int, i: nat, j: nat) {
    && i + 1 < j < |run| && n in run[i].loops && n in run[i + 1].loops && n in run[j].loops
    && run[i].loops[n] == Resting && run[i + 1].loops[n] != Resting && run[j].loops[n] == Resting
  }

  lemma PassBegins<D(!new)>(dest: string -> seq<int>, s: State<D>, m: int, t: State<D>, n: int)
    requires Inv(dest, s) && Step(dest, s, m, t) && n in s.files && n in s.loops && n in t.loops &&
        s.loops[n] == Resting && t.loops[n] != Resting
    ensures Phase(dest, s.files[n].Keys, t, n)
  {
    hide Inv, Placed, LoopOk, Moves, Held;
    StepIsOk(dest, s, m, t);
    assert m == n;
  }

  lemma AfterPass<D(!new)>(dest: string -> seq<int>, run: seq<State<D>>, n: int, i: nat, j: nat)
    requires Run(dest, run) && FullPass(run, n, i, j)
    ensures n in run[i].files && Clean(dest, run[i].files[n].Keys, run[|run| - 1].files, n)
  {
    hide Inv, Step, Clean, LoopOk;
    RunKeepsInv(dest, run, i);
    LoopIsOk(dest, run[i], n);
    var names := run[i].files[n].Keys;
    assert Next(dest, run[i + 1 - 1], run[i + 1]);
    var m :| Step(dest, run[i], m, run[i + 1]);
    PassBegins(dest, run[i], m, run[i + 1], n);
    PhaseLater(dest, run, i + 1, j, names, n);
    CleanLater(dest, run, j, |run| - 1, names, n);
  }

  lemma {:induction false} CleanLater<D(!new)>(
        dest: string -> seq<int>, run: seq<State<D>>, i: nat, j: nat, names: set<string>, n: int)
    requires Run(dest, run) && i <= j < |run| && Clean(dest, names, run[i].files, n)
    ensures Clean(dest, names, run[j].files, n)
    decreases j
  {
    hide Inv, Step, Clean, Moves;
    if i < j {
      CleanLater(dest, run, i, j - 1, names, n);
      assert Next(dest, run[j - 1], run[j]);
      var m :| Step(dest, run[j - 1], m, run[j]);
      RunKeepsInv(dest, run, j - 1);
      StepKeepsInv(dest, run[j - 1], m, run[j]);
      CleanStays(dest, names, run[j - 1].files, m, run[j].files, n);
    }
  }

  ghost predicate MadePass<D>(run: seq<State<D>>, n: int) {
    exists i: nat, j: nat :: FullPass(run, n, i, j)
  }

  /**
   * Once every node has made a whole pass, in whatever interleaving, the holders of each file that some node had
   * are exactly the nodes that a lookup of it names.
   */
  lemma AfterPasses<D(!new)>(dest: string -> seq<int>, run: seq<State<D>>, n: int, name: string)
    requires Run(dest, run) && forall m | m in run[0].files :: MadePass(run, m)
    requires n in run[0].files
    ensures Has(run[|run| - 1].files, n, name) <==> n in dest(name) && Held(run[0].files, name)
  {
    hide Inv, FullPass, Has, Run;
    var last := |run| - 1;
    LastIsThere(dest, run);
    assert MadePass(run, n);
    var i: nat, j: nat :| FullPass(run, n, i, j);
    AfterPass(dest, run, n, i, j);
    NeverLost(dest, run, last, name);
    if m :| Has(run[0].files, m, name) { HolderHasPlaced(dest, run, m, name); }
  }

  lemma LastIsThere<D(!new)>(dest: string -> seq<int>, run: seq<State<D>>)
    requires Run(dest, run)
    ensures run != []
  {
  }

  lemma HolderHasPlaced<D(!new)>(dest: string -> seq<int>, run: seq<State<D>>, m: int, name: string)
    requires Run(dest, run) && Has(run[0].files, m, name) && forall k | k in run[0].files :: MadePass(run, k)
    ensures Placed(dest, run[|run| - 1].files, name)
  {
    hide Inv, Placed, Run;
    assert MadePass(run, m);
    var i: nat, j: nat :| FullPass(run, m, i, j);
    AfterPass(dest, run, m, i, j);
    KeptOrPlaced(dest, run, 0, i, m, name);
    KeptOrPlaced(dest, run, i, |run| - 1, m, name);
  }
}
