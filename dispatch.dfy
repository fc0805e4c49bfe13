/**
 * What `__invoke` computes from its arguments. An argument is a command string
 * or an array of arguments; exec's answer for a command is its output or false.
 *
 * The dispatcher's rule: exactly one argument is never wrapped (a string is
 * executed, an array is spread into a new call); any other number of arguments
 * yields a list with one result per argument, in order.
 */
module Dispatch {
  import opened Transport

  datatype Cmd = Leaf(command: string) | Batch(items: seq<Cmd>)

  datatype Res = Out(output: string) | Fail | List(items: seq<Res>)

  /** exec's string-or-false answer as a result value. */
  function FromExec(o: Option<string>): Res
  {
    if o.Some? then Out(o.value) else Fail
  }

  /** The commands an argument executes, in execution order. */
  function Leaves(c: Cmd): seq<string>
    decreases c, 1
  {
    match c
    case Leaf(s) => [s]
    case Batch(xs) => LeavesAll(xs)
  }

  function LeavesAll(args: seq<Cmd>): seq<string>
    decreases args, 0
  {
    if args == [] then []
    else LeavesAll(args[..|args| - 1]) + Leaves(args[|args| - 1])
  }

  /** The result for one argument, given exec's answers `rs` for its commands in order. */
  function Eval(c: Cmd, rs: seq<Option<string>>): Res
    requires |rs| == |Leaves(c)|
    decreases c, 2
  {
    match c
    case Leaf(_) => FromExec(rs[0])
    case Batch(xs) => EvalArgs(xs, rs)
  }

  /** The result of `__invoke` called with the argument list `args`. */
  function EvalArgs(args: seq<Cmd>, rs: seq<Option<string>>): Res
    requires |rs| == |LeavesAll(args)|
    decreases args, 1
  {
    if |args| == 1 then
      assert args[..0] == [];
      Eval(args[0], rs)
    else List(EvalEach(args, rs))
  }

  /** The results of the arguments one by one, as the foreach fills `$out`. */
  function EvalEach(args: seq<Cmd>, rs: seq<Option<string>>): (out: seq<Res>)
    requires |rs| == |LeavesAll(args)|
    ensures |out| == |args|
    decreases args, 0
  {
    if args == [] then []
    else
      var m := |LeavesAll(args[..|args| - 1])|;
      EvalEach(args[..|args| - 1], rs[..m]) + [Eval(args[|args| - 1], rs[m..])]
  }

  /** Where the commands of argument i start in the execution order. */
  function Start(args: seq<Cmd>, i: nat): nat
    requires i <= |args|
  {
    |LeavesAll(args[..i])|
  }

  /** The commands of a prefix of the arguments run before those of the next argument. */
  lemma LeavesPrefix(args: seq<Cmd>, i: nat)
    requires i < |args|
    ensures LeavesAll(args[..i + 1]) == LeavesAll(args[..i]) + Leaves(args[i])
  {
    assert args[..i + 1][..i] == args[..i];
  }

  /** Execution order is the left-to-right order of the arguments. */
  lemma {:induction false} LeavesAllAppend(a: seq<Cmd>, b: seq<Cmd>)
    ensures LeavesAll(a + b) == LeavesAll(a) + LeavesAll(b)
    decreases |b|
  {
    if b == [] {
      assert a + b == a;
    } else {
      var b' := b[..|b| - 1];
      assert (a + b)[..|a + b| - 1] == a + b';
      assert (a + b)[|a + b| - 1] == b[|b| - 1];
      LeavesAllAppend(a, b');
    }
  }

  /** The start positions grow: argument i's commands lie between Start(i) and Start(i + 1). */
  lemma {:induction false} StartMonotone(args: seq<Cmd>, i: nat, j: nat)
    requires i <= j <= |args|
    ensures Start(args, i) <= Start(args, j) <= |LeavesAll(args)|
  {
    assert args[..j] == args[..i] + args[i..j];
    LeavesAllAppend(args[..i], args[i..j]);
    assert args == args[..j] + args[j..];
    LeavesAllAppend(args[..j], args[j..]);
  }

  /** The commands argument i executes are the ones between its start positions. */
  lemma StartSegment(args: seq<Cmd>, i: nat)
    requires i < |args|
    ensures Start(args, i + 1) == Start(args, i) + |Leaves(args[i])|
  {
    LeavesPrefix(args, i);
  }

  /** exec's answers for the commands of argument i. */
  function Segment(args: seq<Cmd>, rs: seq<Option<string>>, i: nat): (seg: seq<Option<string>>)
    requires |rs| == |LeavesAll(args)|
    requires i < |args|
    ensures |seg| == |Leaves(args[i])|
  {
    StartMonotone(args, i, i + 1);
    StartSegment(args, i);
    rs[Start(args, i)..Start(args, i + 1)]
  }

  /**
   * One step of the foreach: after the answers `rs` for the first k arguments'
   * commands come the answers `more` for argument k's, and the results so far
   * grow by argument k's result.
   */
  lemma EvalEachSnoc(args: seq<Cmd>, k: nat, rs: seq<Option<string>>, more: seq<Option<string>>)
    requires k < |args|
    requires |rs| == |LeavesAll(args[..k])| && |more| == |Leaves(args[k])|
    ensures |rs + more| == |LeavesAll(args[..k + 1])|
    ensures EvalEach(args[..k + 1], rs + more) == EvalEach(args[..k], rs) + [Eval(args[k], more)]
  {
    LeavesPrefix(args, k);
    assert args[..k + 1][..k] == args[..k];
    assert (rs + more)[..|rs|] == rs;
    assert (rs + more)[|rs|..] == more;
  }

  /** Positional correspondence: result i is argument i's result on its own answers. */
  lemma {:induction false} EvalEachAt(args: seq<Cmd>, rs: seq<Option<string>>, i: nat)
    requires |rs| == |LeavesAll(args)|
    requires i < |args|
    ensures EvalEach(args, rs)[i] == Eval(args[i], Segment(args, rs, i))
    decreases |args|
  {
    var n := |args|;
    var init := args[..n - 1];
    var m := |LeavesAll(init)|;
    assert args[..n] == args;
    StartMonotone(args, i, i + 1);
    if i == n - 1 {
      assert args[..i] == init;
      assert Segment(args, rs, i) == rs[m..];
    } else {
      EvalEachAt(init, rs[..m], i);
      SegmentOfInit(args, rs, i);
    }
  }

  /** Dropping the last argument keeps the answers of the earlier ones. */
  lemma SegmentOfInit(args: seq<Cmd>, rs: seq<Option<string>>, i: nat)
    requires |rs| == |LeavesAll(args)|
    requires i + 1 < |args|
    ensures |rs[..Start(args, |args| - 1)]| == |LeavesAll(args[..|args| - 1])|
    ensures Segment(args[..|args| - 1], rs[..Start(args, |args| - 1)], i) == Segment(args, rs, i)
  {
    var init := args[..|args| - 1];
    assert args[..|args|] == args;
    StartMonotone(args, |args| - 1, |args|);
    assert init[..i] == args[..i] && init[..i + 1] == args[..i + 1];
    assert Start(init, i) == Start(args, i) && Start(init, i + 1) == Start(args, i + 1);
    StartMonotone(args, i, i + 1);
    StartMonotone(args, i + 1, |args| - 1);
    var m := Start(args, |args| - 1);
    assert rs[..m][Start(args, i)..Start(args, i + 1)] == rs[Start(args, i)..Start(args, i + 1)];
  }

  /** Zero or two or more arguments give a list of the same length, in argument order. */
  lemma ManyArgumentsGiveList(args: seq<Cmd>, rs: seq<Option<string>>)
    requires |rs| == |LeavesAll(args)|
    requires |args| != 1
    ensures EvalArgs(args, rs).List? && |EvalArgs(args, rs).items| == |args|
    ensures forall i :: 0 <= i < |args| ==>
      EvalArgs(args, rs).items[i] == Eval(args[i], Segment(args, rs, i))
  {
    forall i | 0 <= i < |args|
      ensures EvalArgs(args, rs).items[i] == Eval(args[i], Segment(args, rs, i))
    {
      EvalEachAt(args, rs, i);
    }
  }

  /** A call with no arguments, like one with an empty array, yields an empty list. */
  lemma NoArguments()
    ensures EvalArgs([], []) == List([])
    ensures EvalArgs([Batch([])], []) == List([])
  {
  }

  /** A single command string is executed and its answer returned unwrapped. */
  lemma SingleCommandUnwrapped(s: string, o: Option<string>)
    ensures |LeavesAll([Leaf(s)])| == 1
    ensures EvalArgs([Leaf(s)], [o]) == FromExec(o)
  {
  }

  /** A one-element array gives the same result as its element alone: nesting collapses. */
  lemma SingletonCollapses(x: Cmd, rs: seq<Option<string>>)
    requires |rs| == |Leaves(x)|
    ensures LeavesAll([Batch([x])]) == LeavesAll([x]) == Leaves(x)
    ensures EvalArgs([Batch([x])], rs) == EvalArgs([x], rs) == Eval(x, rs)
  {
  }

  /** No array anywhere in the argument has exactly one element. */
  predicate NoSingletons(c: Cmd)
    decreases c, 1
  {
    match c
    case Leaf(_) => true
    case Batch(xs) => |xs| != 1 && NoSingletonsAll(xs)
  }

  predicate NoSingletonsAll(args: seq<Cmd>)
    decreases args, 0
  {
    forall i :: 0 <= i < |args| ==> NoSingletons(args[i])
  }

  /** The result has the nesting of the argument: a list per array, a value per string. */
  predicate SameShape(c: Cmd, r: Res)
    decreases c
  {
    match c
    case Leaf(_) => !r.List?
    case Batch(xs) =>
      r.List? && |r.items| == |xs| && forall i :: 0 <= i < |xs| ==> SameShape(xs[i], r.items[i])
  }

  /**
   * The nesting is mirrored exactly when no array has a single element; with a
   * one-element array anywhere this fails (see SingletonBreaksShape).
   */
  lemma {:induction false} ShapePreserved(c: Cmd, rs: seq<Option<string>>)
    requires |rs| == |Leaves(c)|
    requires NoSingletons(c)
    ensures SameShape(c, Eval(c, rs))
    decreases c
  {
    match c
    case Leaf(_) =>
    case Batch(xs) =>
      var r := Eval(c, rs);
      ManyArgumentsGiveList(xs, rs);
      forall i | 0 <= i < |xs|
        ensures SameShape(xs[i], r.items[i])
      {
        assert xs[i] < c;
        ShapePreserved(xs[i], Segment(xs, rs, i));
      }
  }

  /** The number of nodes of an argument: one per string and one per array. */
  function Size(c: Cmd): nat
    decreases c, 1
  {
    match c
    case Leaf(_) => 1
    case Batch(xs) => 1 + SizeAll(xs)
  }

  function SizeAll(args: seq<Cmd>): nat
    decreases args, 0
  {
    if args == [] then 0 else SizeAll(args[..|args| - 1]) + Size(args[|args| - 1])
  }

  /** The number of nodes of a result: one per value and one per list. */
  function ResSize(r: Res): nat
    decreases r, 1
  {
    match r
    case List(ys) => 1 + ResSizeAll(ys)
    case _ => 1
  }

  function ResSizeAll(rs: seq<Res>): nat
    decreases rs, 0
  {
    if rs == [] then 0 else ResSizeAll(rs[..|rs| - 1]) + ResSize(rs[|rs| - 1])
  }

  /** A result with the nesting of its argument has as many nodes as the argument. */
  lemma {:induction false} SameShapeSize(c: Cmd, r: Res)
    requires SameShape(c, r)
    ensures ResSize(r) == Size(c)
    decreases c, 1
  {
    match c
    case Leaf(_) =>
    case Batch(xs) =>
      SameShapeSizeAll(xs, r.items);
  }

  lemma {:induction false} SameShapeSizeAll(xs: seq<Cmd>, ys: seq<Res>)
    requires |xs| == |ys|
    requires forall i :: 0 <= i < |xs| ==> SameShape(xs[i], ys[i])
    ensures ResSizeAll(ys) == SizeAll(xs)
    decreases xs, 0
  {
    if xs != [] {
      var n := |xs| - 1;
      SameShapeSizeAll(xs[..n], ys[..n]);
      SameShapeSize(xs[n], ys[n]);
    }
  }

  /**
   * Evaluation never adds nodes, and it removes at least one whenever an array
   * with one element occurs: that array's result is its element's result.
   */
  lemma {:induction false} EvalShrinks(c: Cmd, rs: seq<Option<string>>)
    requires |rs| == |Leaves(c)|
    ensures ResSize(Eval(c, rs)) <= Size(c)
    ensures !NoSingletons(c) ==> ResSize(Eval(c, rs)) < Size(c)
    decreases c, 2
  {
    match c
    case Leaf(_) =>
    case Batch(xs) =>
      if |xs| == 1 {
        assert xs[..0] == [];
        assert LeavesAll(xs) == Leaves(xs[0]);
        EvalShrinks(xs[0], rs);
        assert SizeAll(xs) == Size(xs[0]);
      } else {
        EvalEachShrinks(xs, rs);
      }
  }

  lemma {:induction false} EvalEachShrinks(args: seq<Cmd>, rs: seq<Option<string>>)
    requires |rs| == |LeavesAll(args)|
    ensures ResSizeAll(EvalEach(args, rs)) <= SizeAll(args)
    ensures !NoSingletonsAll(args) ==> ResSizeAll(EvalEach(args, rs)) < SizeAll(args)
    decreases args, 1
  {
    if args != [] {
      var n := |args| - 1;
      var init := args[..n];
      var m := |LeavesAll(init)|;
      var out := EvalEach(args, rs);
      assert out == EvalEach(init, rs[..m]) + [Eval(args[n], rs[m..])];
      assert out[..n] == EvalEach(init, rs[..m]);
      EvalEachShrinks(init, rs[..m]);
      EvalShrinks(args[n], rs[m..]);
      if !NoSingletonsAll(args) {
        var i :| 0 <= i < |args| && !NoSingletons(args[i]);
        if i < n {
          assert init[i] == args[i];
        }
      }
    }
  }

  /** Converse of ShapePreserved: a one-element array anywhere loses the input's nesting. */
  lemma NestingLostWithSingleton(c: Cmd, rs: seq<Option<string>>)
    requires |rs| == |Leaves(c)|
    requires !NoSingletons(c)
    ensures !SameShape(c, Eval(c, rs))
  {
    EvalShrinks(c, rs);
    if SameShape(c, Eval(c, rs)) {
      SameShapeSize(c, Eval(c, rs));
    }
  }

  /** The result mirrors the nesting of the argument exactly when no array has one element. */
  lemma ShapeMirroredExactly(c: Cmd, rs: seq<Option<string>>)
    requires |rs| == |Leaves(c)|
    ensures SameShape(c, Eval(c, rs)) <==> NoSingletons(c)
  {
    if NoSingletons(c) {
      ShapePreserved(c, rs);
    } else {
      NestingLostWithSingleton(c, rs);
    }
  }

  /** `$ssh(array("a"), "b")` returns two outputs, not an array holding a's output. */
  lemma SingletonBreaksShape(a: string, b: string, oa: string, ob: string)
    ensures LeavesAll([Batch([Leaf(a)]), Leaf(b)]) == [a, b]
    ensures EvalArgs([Batch([Leaf(a)]), Leaf(b)], [Some(oa), Some(ob)]) == List([Out(oa), Out(ob)])
    ensures !SameShape(Batch([Batch([Leaf(a)]), Leaf(b)]), List([Out(oa), Out(ob)]))
  {
    var args := [Batch([Leaf(a)]), Leaf(b)];
    assert LeavesAll([Leaf(a)]) == [a] by { assert [Leaf(a)][..0] == []; }
    assert args[..1] == [Batch([Leaf(a)])];
    assert LeavesAll(args[..1]) == [a] by { assert args[..1][..0] == []; }
    assert EvalEach(args[..1], [Some(oa)]) == [Out(oa)] by {
      assert args[..1][..0] == [];
      assert EvalArgs([Leaf(a)], [Some(oa)]) == Out(oa);
    }
    var rs := [Some(oa), Some(ob)];
    assert rs[..1] == [Some(oa)] && rs[1..] == [Some(ob)];
    assert EvalEach(args, rs) == [Out(oa), Out(ob)];
  }

  /** `$ssh(array("cmd1", "cmd2"))` runs cmd1 then cmd2 and returns both outputs in order. */
  lemma BatchScenario(o1: string, o2: string)
    ensures LeavesAll([Batch([Leaf("cmd1"), Leaf("cmd2")])]) == ["cmd1", "cmd2"]
    ensures EvalArgs([Batch([Leaf("cmd1"), Leaf("cmd2")])], [Some(o1), Some(o2)]) ==
      List([Out(o1), Out(o2)])
  {
  }
}
