/**
 The register `cur_jit_function`, which a side exit trusts to name the function
 it left, as a protocol over nested calls between compiled and interpreted code.
 */
module JitRegister {
  import opened Ast

  /**
   Functions are numbers, 0 is null. `Resumed` is an activation that left
   compiled code and is finished by the interpreter, on the tree of `root`;
   `Entering` is the interpreter's entry of a function that already has code.
   */
  datatype Frame =
    | Compiled(f: nat)
    | Resumed(f: nat, root: nat)
    | Interpreted(f: nat)
    | Entering(f: nat, isMethod: bool)

  /**
   What a caller does to the register when its callee returns. `Leave` is
   compiled code after an operator: it does nothing, whatever `callee` was.
   */
  datatype After = Restore(saved: nat) | Reset(f: nat) | Stay | Leave(callee: Callee)

  datatype Waiting = Waiting(frame: Frame, after: After)

  datatype Machine = Machine(cur: nat, waiting: seq<Waiting>, running: Frame)

  /** What a call reaches: compiled code, a tree to interpret, or the interpreter's entry of compiled code. */
  datatype Callee = Code(g: nat) | Tree(g: nat) | TreeWithCode(g: nat, isMethod: bool)

  /** `operator` marks a binary operator that turns into a method call. */
  datatype Event = Calls(operator: bool, callee: Callee) | Exits | Returns

  /** The interpreter saves the register; compiled code sets it again, except after an operator. */
  function Suspended(m: Machine, operator: bool, callee: Callee): Waiting {
    match m.running
    case Compiled(f) => Waiting(m.running, if operator then Leave(callee) else Reset(f))
    case _ => Waiting(m.running, Restore(m.cur))
  }

  function Enter(cur: nat, ws: seq<Waiting>, callee: Callee): Machine {
    match callee
    case Code(g) => Machine(g, ws, Compiled(g))
    case Tree(g) => Machine(cur, ws, Interpreted(g))
    case TreeWithCode(g, isMethod) =>
      Machine(g, ws + [Waiting(Entering(g, isMethod), if isMethod then Reset(g) else Stay)], Compiled(g))
  }

  function Applied(after: After, cur: nat): nat {
    match after
    case Restore(saved) => saved
    case Reset(f) => f
    case _ => cur
  }

  /** One event, when it is possible. */
  function Step(m: Machine, e: Event): Option<Machine> {
    match e
    case Calls(operator, callee) =>
      if m.running.Entering? then None else Some(Enter(m.cur, m.waiting + [Suspended(m, operator, callee)], callee))
    case Exits =>
      if m.running.Compiled? then Some(m.(running := Resumed(m.running.f, m.cur))) else None
    case Returns =>
      if m.waiting == [] then None
      else
        var n := |m.waiting| - 1;
        Some(Machine(Applied(m.waiting[n].after, m.cur), m.waiting[..n], m.waiting[n].frame))
  }

  /** The program starts in the interpreter, with a null register. */
  const INITIAL := Machine(0, [], Interpreted(0))

  function Run(es: seq<Event>): Option<Machine>
    decreases |es|
  {
    if es == [] then Some(INITIAL)
    else
      match Run(es[..|es| - 1])
      case None => None
      case Some(m) => Step(m, es[|es| - 1])
  }

  /** The innermost function on the stack that runs, or is resumed from, compiled code; null when there is none. */
  function Innermost(ws: seq<Waiting>, running: Frame): nat
    decreases |ws|
  {
    match running
    case Interpreted(_) => if ws == [] then 0 else Innermost(ws[..|ws| - 1], ws[|ws| - 1].frame)
    case _ => running.f
  }

  predicate Right(m: Machine) {
    m.cur == Innermost(m.waiting, m.running)
  }

  /** What a frame leaves behind when it calls: its own value of the register, or after an operator whatever comes. */
  predicate WellLeft(before: seq<Waiting>, top: Waiting) {
    match top.frame
    case Compiled(f) => top.after == Reset(f) || top.after.Leave?
    case Entering(f, isMethod) => top.after == if isMethod then Reset(f) else Stay
    case _ => top.after == Restore(Innermost(before, top.frame))
  }

  predicate WellSuspended(ws: seq<Waiting>)
    decreases |ws|
  {
    ws == [] || (WellSuspended(ws[..|ws| - 1]) && WellLeft(ws[..|ws| - 1], ws[|ws| - 1]))
  }

  predicate RunsCode(running: Frame, g: nat) {
    (running.Compiled? || running.Resumed?) && running.f == g
  }

  /** What runs directly above a waiting frame: code of an entered function, or what an operator called. */
  predicate Above(w: Waiting, running: Frame) {
    && (w.frame.Entering? ==> RunsCode(running, w.frame.f))
    && (w.after.Leave? ==>
          match w.after.callee
          case Code(g) => RunsCode(running, g)
          case Tree(g) => running == Interpreted(g)
          case TreeWithCode(g, isMethod) => running == Entering(g, isMethod))
  }

  predicate EnteredBy(ws: seq<Waiting>, running: Frame) {
    ws != [] ==> Above(ws[|ws| - 1], running)
  }

  predicate RootIsRight(f: Frame) {
    f.Resumed? ==> f.root == f.f
  }

  /** Every waiting frame resumes on its own tree, and is what the frame below it called. */
  predicate Stacked(ws: seq<Waiting>) {
    forall i | 0 <= i < |ws| :: RootIsRight(ws[i].frame) && EnteredBy(ws[..i], ws[i].frame)
  }

  predicate Shape(m: Machine) {
    && WellSuspended(m.waiting) && Stacked(m.waiting)
    && EnteredBy(m.waiting, m.running) && RootIsRight(m.running)
  }

  /** An operator call from compiled code of `f` is harmless when its callee stays interpreted or is `f` itself. */
  predicate Harmless(f: nat, callee: Callee) {
    callee.Tree? || callee.g == f
  }

  /** No harmful operator call is about to return to compiled code. */
  predicate HarmlessReturn(m: Machine) {
    m.waiting != [] ==>
      var caller := m.waiting[|m.waiting| - 1];
      caller.frame.Compiled? && caller.after.Leave? ==> Harmless(caller.frame.f, caller.after.callee)
  }

  /** One more waiting frame. */
  lemma PushKeepsShape(ws: seq<Waiting>, top: Waiting)
    requires WellSuspended(ws) && Stacked(ws)
    requires WellLeft(ws, top) && EnteredBy(ws, top.frame) && RootIsRight(top.frame)
    ensures WellSuspended(ws + [top]) && Stacked(ws + [top])
  {
    var ws' := ws + [top];
    assert ws'[..|ws|] == ws;
    forall i | 0 <= i < |ws'| ensures RootIsRight(ws'[i].frame) && EnteredBy(ws'[..i], ws'[i].frame) {
      if i < |ws| {
        assert ws'[..i] == ws[..i] && ws'[i] == ws[i];
      }
    }
  }

  /** The register is right in an interpreted callee if it was right in its caller. */
  lemma InnermostBelow(m: Machine, top: Waiting, g: nat)
    requires top.frame == m.running && Right(m)
    ensures Innermost(m.waiting + [top], Interpreted(g)) == m.cur
  {
    assert (m.waiting + [top])[..|m.waiting|] == m.waiting;
  }

  lemma CallKeepsShape(m: Machine, operator: bool, callee: Callee, m': Machine)
    requires Shape(m) && Right(m) && !m.running.Entering?
    requires m' == Enter(m.cur, m.waiting + [Suspended(m, operator, callee)], callee)
    ensures Shape(m') && Right(m')
  {
    var top := Suspended(m, operator, callee);
    PushKeepsShape(m.waiting, top);
    var ws := m.waiting + [top];
    match callee
    case Code(_) =>
    case Tree(g) => InnermostBelow(m, top, g);
    case TreeWithCode(g, isMethod) =>
      PushKeepsShape(ws, Waiting(Entering(g, isMethod), if isMethod then Reset(g) else Stay));
  }

  /** A return gives the caller its own register back exactly when it is harmless. */
  lemma ReturnIsRightExactlyWhen(m: Machine)
    requires Shape(m) && Right(m) && m.waiting != []
    ensures Shape(Step(m, Returns).value)
    ensures Right(Step(m, Returns).value) <==> HarmlessReturn(m)
  {
    var n := |m.waiting| - 1;
    var m' := Step(m, Returns).value;
    assert m.waiting[..n + 1] == m.waiting;
    assert Stacked(m'.waiting) by {
      forall i | 0 <= i < n
        ensures RootIsRight(m'.waiting[i].frame) && EnteredBy(m'.waiting[..i], m'.waiting[i].frame)
      {
        assert m'.waiting[..i] == m.waiting[..i];
      }
    }
  }

  /** Every event but a harmful return keeps the register right. */
  lemma StepKeepsRight(m: Machine, e: Event)
    requires Shape(m) && Right(m) && Step(m, e).Some?
    ensures Shape(Step(m, e).value)
    ensures Right(Step(m, e).value) <==> (e.Returns? ==> HarmlessReturn(m))
  {
    match e
    case Calls(operator, callee) => CallKeepsShape(m, operator, callee, Step(m, e).value);
    case Exits =>
    case Returns => ReturnIsRightExactlyWhen(m);
  }

  /* ---- Whole runs ---- */

  predicate RightThroughout(es: seq<Event>) {
    forall k | 0 <= k <= |es| :: Run(es[..k]).Some? ==> Right(Run(es[..k]).value)
  }

  predicate HarmlessAt(es: seq<Event>, j: nat)
    requires j < |es|
  {
    es[j].Returns? && Run(es[..j]).Some? ==> HarmlessReturn(Run(es[..j]).value)
  }

  predicate HarmlessUpTo(es: seq<Event>, k: nat)
    requires k <= |es|
  {
    forall j: nat | j < k :: HarmlessAt(es, j)
  }

  lemma RunSteps(es: seq<Event>, k: nat)
    requires k < |es| && Run(es[..k]).Some?
    ensures Run(es[..k + 1]) == Step(Run(es[..k]).value, es[k])
  {
    assert es[..k + 1][..k] == es[..k];
  }

  lemma {:induction false} RightUntil(es: seq<Event>, k: nat)
    requires k <= |es| && Run(es[..k]).Some?
    requires HarmlessUpTo(es, k)
    ensures Shape(Run(es[..k]).value) && Right(Run(es[..k]).value)
    decreases k
  {
    if k > 0 {
      assert es[..k][..k - 1] == es[..k - 1];
      RightUntil(es, k - 1);
      assert HarmlessAt(es, k - 1);
      StepKeepsRight(Run(es[..k - 1]).value, es[k - 1]);
    } else {
      assert es[..0] == [];
    }
  }

  /** While the register has been right, every return has been harmless. */
  lemma {:induction false} RightBefore(es: seq<Event>, k: nat)
    requires k <= |es| && Run(es[..k]).Some? && RightThroughout(es)
    ensures HarmlessUpTo(es, k)
    decreases k
  {
    if k > 0 {
      var j := k - 1;
      assert es[..k][..j] == es[..j];
      RightBefore(es, j);
      RightUntil(es, j);
      LastReturnIsHarmless(es[j], Run(es[..j]).value, Run(es[..k]).value);
      assert HarmlessAt(es, j);
    }
  }

  lemma LastReturnIsHarmless(e: Event, m: Machine, m': Machine)
    requires Shape(m) && Right(m) && Step(m, e) == Some(m') && Right(m')
    ensures e.Returns? ==> HarmlessReturn(m)
  {
    StepKeepsRight(m, e);
  }

  /**
   Over every run, the register names the innermost compiled function at all
   times exactly when no operator call returns to compiled code that was made to
   code of another function.
   */
  lemma RegisterIsRightExactlyWhen(es: seq<Event>)
    requires Run(es).Some?
    ensures RightThroughout(es) <==> HarmlessUpTo(es, |es|)
  {
    assert es[..|es|] == es;
    if HarmlessUpTo(es, |es|) {
      forall k | 0 <= k <= |es| && Run(es[..k]).Some? ensures Right(Run(es[..k]).value) {
        RightUntil(es, k);
      }
    }
    if RightThroughout(es) {
      RightBefore(es, |es|);
    }
  }

  /** Every operator called from compiled code stays interpreted or recurses. */
  predicate HarmlessOperators(es: seq<Event>) {
    forall k | 0 <= k < |es| && Run(es[..k]).Some? :: HarmlessCall(Run(es[..k]).value, es[k])
  }

  predicate HarmlessCall(m: Machine, e: Event) {
    e.Calls? && e.operator && m.running.Compiled? ==> Harmless(m.running.f, e.callee)
  }

  predicate HarmlessWaiting(ws: seq<Waiting>) {
    forall i | 0 <= i < |ws| ::
      ws[i].frame.Compiled? && ws[i].after.Leave? ==> Harmless(ws[i].frame.f, ws[i].after.callee)
  }

  lemma StepKeepsHarmless(m: Machine, e: Event)
    requires HarmlessWaiting(m.waiting) && HarmlessCall(m, e) && Step(m, e).Some?
    ensures HarmlessWaiting(Step(m, e).value.waiting) && HarmlessReturn(m)
  {
  }

  lemma {:induction false} HarmlessCallers(es: seq<Event>, k: nat)
    requires k <= |es| && Run(es[..k]).Some? && HarmlessOperators(es)
    ensures HarmlessWaiting(Run(es[..k]).value.waiting)
    decreases k
  {
    if k == 0 {
      assert es[..0] == [];
    } else {
      assert es[..k][..k - 1] == es[..k - 1];
      HarmlessCallers(es, k - 1);
      StepKeepsHarmless(Run(es[..k - 1]).value, es[k - 1]);
    }
  }

  lemma HarmlessReturns(es: seq<Event>, j: nat)
    requires j < |es| && Run(es[..j]).Some? && HarmlessOperators(es)
    ensures HarmlessReturn(Run(es[..j]).value)
  {
    HarmlessCallers(es, j);
  }

  /**
   When operators called from compiled code stay interpreted or recurse, and in
   particular when there are none: while compiled or resumed code of a function
   runs the register names that function, every resumed activation is finished on
   its own tree, and interpreted code sees the innermost compiled function, or null.
   */
  lemma RegisterNamesTheRunningFunction(es: seq<Event>)
    requires Run(es).Some? && HarmlessOperators(es)
    ensures var m := Run(es).value;
            && (m.running.Compiled? || m.running.Resumed? ==> m.cur == m.running.f)
            && (m.running.Resumed? ==> m.running.root == m.running.f)
            && (m.running.Interpreted? ==> m.cur == Innermost(m.waiting, m.running))
  {
    assert es[..|es|] == es;
    forall j: nat | j < |es| ensures HarmlessAt(es, j) {
      if es[j].Returns? && Run(es[..j]).Some? {
        HarmlessReturns(es, j);
      }
    }
    RightUntil(es, |es|);
  }

  /** One compiled operator method is enough for a side exit to resume in the wrong function. */
  lemma OperatorMisleadsSideExit(f: nat, g: nat)
    ensures Run([Calls(false, Code(f)), Calls(true, Code(g)), Returns, Exits])
         == Some(Machine(g, [Waiting(Interpreted(0), Restore(0))], Resumed(f, g)))
  {
    var es := [Calls(false, Code(f)), Calls(true, Code(g)), Returns, Exits];
    assert es[..0] == [] && es[..4] == es;
    var caller: seq<Waiting> := [Waiting(Interpreted(0), Restore(0))];
    RunSteps(es, 0);
    assert INITIAL.waiting + [Suspended(INITIAL, false, Code(f))] == caller;
    var m1 := Machine(f, caller, Compiled(f));
    RunSteps(es, 1);
    assert Run(es[..2]) == Step(m1, es[1])
        == Some(Machine(g, caller + [Waiting(Compiled(f), Leave(Code(g)))], Compiled(g)));
    RunSteps(es, 2);
    assert (caller + [Waiting(Compiled(f), Leave(Code(g)))])[..1] == caller;
    RunSteps(es, 3);
  }
}
