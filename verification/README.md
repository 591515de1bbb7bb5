# A verified model of MysoreScript's interpreter, JIT and deoptimisation

MysoreScript is a small dynamic language. Functions start out interpreted, as a
walk over the syntax tree. After some calls they are compiled through LLVM, with
a class guard in front of every method call. When a guard fails in the middle of
a compiled function, the code leaves through a patchpoint: a stack map says where
the variables are, the interpreter's symbol table is rebuilt from it, and the
tree is searched for the call at which the rest of the body is then interpreted.

The project models the interpreter, the search, code generation, the guard and
the stack map, call-site profiling, the register that names the running compiled
function, closures, method lookup, constant caching and the arithmetic fast-path
pass, and proves that the parts agree. The central result is
`Deopt.DeoptimisationIsTransparent`: running the compiled function, with guard
hits on any number of loop iterations and then a miss, and finishing it through
the search, carries out exactly the rest of the run that interpretation from the
start carries out from that call on. The search may on its way create objects that
interpretation does not; where it passes no `new`, value, storage, heap, call-site
profiles and remaining loop budget are those of interpreting the whole activation.

Where the code does not do what it sets out to do, the code is kept as it is,
and the exact condition under which it is right is proved as an equivalence.

## How it is put together

- `Tagged`, `Ast`, `Runtime`: words and their tags, trees with one id for each
  method call, symbolic addresses, heap, call-site profiles. `Runtime.World` holds
  what is taken as given: callees, method lookup, the class table, the allocator.
- `Interpreter`, `SearchLemmas`: evaluation, statements and the search as functions
  of the context, and what searching leaves alone. Loop iterations use up `gas`, so
  results are equal for every bound on the iterations, and running out of it is the
  same event on both sides.
- `OperatorLaws`, `StorageLaws`, `StatementLaws`: what evaluation computes, in terms
  of the numbers, the variables, the objects and the order of execution.
- `Nesting`, `InterpreterContext`, `CallLaws`: a world in which interpreted callees are
  runs of their bodies, to any depth, and the one mutable `Context` on which all of
  those calls and the search take place, proved against the functions; which body a
  call runs, what it finds in its variables, and what it leaves of its caller's.
- `Continuation`, `Guarded`, `Resume`: the rest of a run from a call on, without
  searching, and the search as that; the guarded run of a body, which stops with
  `Missed` at a failing guard and with `Parted` where compiled and interpreted code
  do different things (module `Guarded` lists all of them); interpretation as a
  guarded run and its rest.
- `Suspension`, `Misses`: a run of the interpreter that is stopped where it is about
  to perform a call, what it holds at that point, and what is left to do from there;
  a guarded miss as such a stop.
- `Exits`, `LostExits`, `Witnesses`, `LoopedExit`: exits from conditions, right
  operands and arguments, and from calls whose receiver is lost, exactly when they go
  right, and small programs on which they do and do not.
- `Ir`, `CodeGen`, `Blocks`, `CompiledRun`, `ExprCode`, `StmtCode`, `CompiledSteps`,
  `CodeBuilder`: basic blocks and their machine, code generation with an insertion
  point, well-formedness of the blocks, what compiled code does on every input, also
  where that is not what the interpreter does, the simulation proof, single steps in
  full, and the mutable builder.
- `Scoping`, `Frames`, `Deopt`, `Patchpoints`: symbol tables on entry, for a receiver
  of the class that was compiled for or of another one that inherits the method, the
  patchpoint frame, the rebuilt table, whole functions, and how many stack-map records
  they have.
- `StackMap`, `SideExit`: bytes of a stack map section ("Stack maps and patch
  points" of the LLVM documentation, section "Stack Map Format", version 3), the
  two parsers, and the symbol table rebuilt from the bytes.
- `CallSites`, `JitRegister`, `Closures`, `MethodLookup`, `ConstantCache`,
  `StringConstants`, `StringLaws`: profiles and the inline cache over whole traces, the
  register protocol over nested calls, capture, dispatch, and the value cache, for
  numbers in the interpreter's own trees and for strings in trees of their own.
- `ArithmeticBlocks`, `ExpressionTrees`, `InterpretedTrees`, `FastPath`,
  `SelectedBlocks`, `Lowering`: the blocks that the arithmetic pass selects, in any
  code and in the code of expression trees, what those trees mean to the interpreter,
  fast path and helpers, when a block is right, and the emission of the fast path.
- `Rewriting`, `LoweringOrders`, `RewrittenRuns`, `RewrittenTrees`, `WideTrees`: the
  loop that lowers the selected blocks in some order and redirects uses to the phi
  nodes, in which orders the guards still test the right values, the run of the
  rewritten code beside the chain of helpers, and for which expressions the two keep
  step on all inputs. The pass is commented out in the repository
  (`src/compiler.cc:176`).

## Findings

Each says exactly when the code is right, and names an input on which it is not.

- A side exit inside the condition of an `if` or `while` is right for every body
  exactly when the condition turns out true; otherwise the body runs all the same
  (`Exits.IfConditionExitIsRight`, `Exits.WhileConditionExitIsRight`,
  `Witnesses.FalseConditionRunsBody`).
- A side exit inside a right operand resumes with null on the left. For a comparison
  that is right exactly when null and the left operand compare alike with the right
  one; for arithmetic, when null has no methods, exactly when the operation fails
  anyway (`Exits.RightOperandExitIsRight`, `Exits.NullServesExactlyWhen`,
  `Witnesses.RightOperandLosesLeft`).
- A side exit inside a call argument is never found, and the function ends there.
  That is right, in value and state, exactly when what interpretation has left to do
  from the missed call on comes to nothing
  (`LostExits.UnsearchedExitIsRightExactlyWhen`). Outside loops it never does: the
  call has yet to record in its profile the class on which it missed
  (`LostExits.UnsearchedExitIsNeverRight`, `Witnesses.ArgumentEndsFunction`). In a
  loop later passes can lead back to where the exit was
  (`LoopedExit.ExitInLoopIsRight`); no condition that could be checked at the exit,
  without running the rest, is known there.
- A receiver that is computed by a call, an operator or a closure literal comes out of
  the search as null, and the exit fails; that is right exactly when the missed call
  fails (`LostExits.LostReceiver`, `Witnesses.ReceiverIsLost`).
- The return value in the context is not cleared by a side exit: it comes out of the
  next exit, or interpreted call, that neither returns nor calls interpreted code, and
  is right there exactly when it is null (`Deopt.StaleReturnValue`,
  `InterpreterContext.Context.InterpretCall`, `Witnesses.LeftoverIsReturned`).
- The search creates an object for every `new` on its way. The missed call is resumed
  in the state of the exit exactly when there is none (`Deopt.SideExitIsRest`,
  `SearchLemmas.WalkCreates`, `Witnesses.NewIsEvaluatedAgain`).
- A method is compiled once, for the class of one receiver, and then runs on receivers
  of every class that inherits it, while the interpreter takes the instance variables
  of the receiver's class. The two agree on an instance variable exactly when both
  classes have it in the same place, so that every variable which a subclass adds and
  the method mentions goes wrong, a parameter of that name included
  (`Frames.MethodTablesAgree`, `Frames.SubclassTablesAgree`,
  `Witnesses.InheritedMethodDiffers`). Its exits go right under the same condition as any
  others (`Frames.MethodFrameRoundTrip`, `Witnesses.EveryExitIsRight`).
- A rebuilt method frame is right on a name exactly when the frame records it; or it is
  an instance variable of the object that the word recorded for `self` now leads to,
  this is the receiver, and the variable is in the same place as in the class compiled
  for; or neither has such a variable (`Frames.MethodFrameRoundTrip`). An assignment to
  `self` redirects it (`Frames.SameVariablesAreFaithfulExactlyWhen`,
  `Witnesses.AssignedSelfRedirects`).
- A function has one stack-map record for each method call of its body that is not
  behind a `return`. An exit from one with any other number than one is not resumed:
  it answers null at once (`Patchpoints.RecordsAreCalls`,
  `Patchpoints.OnlyCallIsSearched`).
- All variables of a method have storage in its symbol table exactly when none of
  those that its body mentions is a global. Otherwise a guarded call in it passes LLVM
  a null operand, and the method does not compile (`src/compiler.cc:757-761`;
  `Frames.StoredExactlyWhen`, `Frames.GlobalIsNotStored`).
- A parameter or local named `self` or `cmd` hides the receiver or the selector from
  compiled code only; interpreted code still sees those (`Frames.MethodTablesAgree`,
  `Frames.ParameterNamedCmd`).
- In a closure that does not capture `cmd` the rebuilt table binds it to null
  (`Frames.ClosureFrameRoundTrip`, `Witnesses.ClosureForgetsCmd`), and in one that does
  not capture `self` compiled code binds that and the interpreter does not
  (`Frames.ClosureTablesAgree`, `Witnesses.ClosureSeesSelf`); all other names agree,
  but for instance variables of the closure object when `cmd` is captured.
- A call goes through the slot of another class exactly when a receiver of the assumed
  class directly follows one with another method, or compilation came directly after
  such a one: a miss overwrites the cached slot and keeps the class
  (`CallSites.InlineCacheIsRightExactlyWhen`, `CallSites.StaleMethodIsCalled`).
- An overloaded operator called from compiled code leaves the running-function register
  naming its callee exactly when that is other compiled code; the next side exit then
  resumes there (`JitRegister.RegisterIsRightExactlyWhen`,
  `JitRegister.OperatorMisleadsSideExit`).
- The record stride of the stack-map parser is never the length of a record, so only
  the first record can be found (`StackMap.StrideIsNeverRight`).
- The comment at `src/interpreter.cc:765` promises that all variables referenced in a
  closure are collected; initialisers of declarations are not looked into, so a
  variable mentioned only there is not captured (`Closures.ScopeIsClosedExactlyWhen`,
  `Closures.InitialiserIsNotCaptured`).
- The interpreter stores every captured variable twice, so a closure it creates is
  right exactly when all captured values are equal; it also sets the closure's own
  name before capturing, compiled code afterwards
  (`Closures.InterpretedCaptureIsRightExactlyWhen`, `Witnesses.SecondVariableIsLost`,
  `Closures.SelfReferenceDiffers`).
- The range assertion on a new number is made of the 64-bit result, so it misses the
  products that wrap to a number that fits: an operation fails exactly when the number
  that 64-bit arithmetic leaves does not fit, or the divisor is zero
  (`OperatorLaws.Products`, `OperatorLaws.SumsAndDifferences`,
  `OperatorLaws.Quotients`, `OperatorLaws.ProductWraps`).
- Null equals the integer zero in interpreted code and not in compiled code
  (`Tagged.ComparisonsAgree`, `Tagged.NullEqualsZeroOnlyWhenInterpreted`).
- With the value cache a string constant is one object, and without it a new one at
  each evaluation. Values are the same up to that, and `==` tells exactly when its
  operands are two objects that one constant has made: `f() == f()` with
  `func f() { return "a"; }` (`StringConstants.ComparisonTellsExactlyWhen`,
  `StringConstants.CalledTwice`).
- The arithmetic pass records what a guard has to test before it lowers any block, and
  lowering a block replaces its result by a phi node. All guards test what their
  blocks take when they are lowered exactly when the expression combines no two
  operators of which the right one loads a variable, and no block is lowered before
  one that begins with its result (`LoweringOrders.TreeGuardsFollowExactlyWhen`). So
  some order is right exactly in the first case, and every order exactly when no
  operator has an operator on its left and a variable on its right
  (`LoweringOrders.SomeOrderIsRightExactlyWhen`,
  `LoweringOrders.EveryOrderIsRightExactlyWhen`). The order is that of addresses.
- The rewritten code keeps step with the chain of helpers, as far as no block is
  lowered too early and what guards leave out is an integer, exactly as long as no fast
  path that is taken leaves 61 bits (`RewrittenRuns.RewrittenIsRightExactlyWhen`). On
  all inputs it does so exactly when no operator combines two operators of which the
  right one loads a variable and the left one begins with one, and no block is lowered
  before one that begins with its result (`WideTrees.TreeIsRightExactlyWhen`). In
  `(x + y) + (z + w)`, in either order, the address of an object is taken for a number
  (`RewrittenTrees.SumOfFourGoesWrong`); `(x + y) + z`, with the first sum lowered
  first, reads a value that is not defined there
  (`RewrittenTrees.SumOfThreeDependsOnOrder`).

## Model

| member | source | states |
|---|---|---|
| Tagged.EncodeDecode | src/runtime.hh:62-85 | tagging gives an integer word, and untagging gives the number back exactly for 61-bit integers |
| Tagged.TruthTestsAgree | src/interpreter.cc:1034-1040 | the interpreter's `& ~7` and compiled code's shift by 3 agree on the truth of every word |
| Tagged.ComparisonsAgree | src/compiler.cc:1415-1428 | whole-word and shifted comparison agree exactly when the shifted values differ or the tags alone compare as equal numbers do; always on equal tags |
| Tagged.NullEqualsZeroOnlyWhenInterpreted | src/interpreter.cc:1141-1150 | null and zero are where the two comparisons differ |
| OperatorLaws.NumberWord | src/runtime.hh:76-85 | the word of a number is eight times it and one, in two's complement |
| OperatorLaws.Truth | src/interpreter.cc:1034-1040 | null and zero are false, other numbers and objects are true |
| OperatorLaws.SumsAndDifferences | src/interpreter.cc:1137-1200 | `l + r` and `l - r`, whose operands are evaluated from left to right to numbers, are the sum and the difference, or fail when that does not fit 61 bits |
| OperatorLaws.Products | src/interpreter.cc:1137-1200 | `l * r` is the product up to wrap-around, the product itself when that is a 64-bit number, or fails when that does not fit |
| OperatorLaws.ProductWraps | src/runtime.hh:80-85 | two numbers whose product is not noticed to be too large |
| OperatorLaws.Quotients | src/interpreter.cc:1137-1200 | `l / r` is the quotient whose rest is smaller than the divisor and of the dividend's sign; a division by zero fails |
| OperatorLaws.Comparisons | src/interpreter.cc:1137-1165 | the six comparisons of numbers answer one or zero as the numbers compare |
| OperatorLaws.Overloads | src/interpreter.cc:1152-1165 | unless both operands are numbers an arithmetic operator calls the left one's method |
| OperatorLaws.HelpersCompute | src/runtime.cc:922-960 | the helpers of compiled code compute on numbers what the interpreter does, call an object on the left and fail on one on the right |
| StorageLaws.StoreThenLoad | src/interpreter.cc:506-548 | an address holds what was stored there last, and all other addresses hold what they held |
| StorageLaws.AssignThenRead | src/interpreter.cc:1107-1135 | after `x = e;` or `var x = e;` the variable is the value of `e`, and variables that live elsewhere are unchanged |
| StorageLaws.DeclareThenRead | src/interpreter.cc:1107-1115 | after `var x;` it is null |
| StorageLaws.NewObjectIs | src/runtime.cc:644-655 | `new C` is an object at a fresh address, of class C, with a null word for each instance variable; nothing else changes |
| StorageLaws.NewVariables | src/interpreter.cc:906-911 | in methods of a new object, compiled or interpreted, each instance variable is null, has a word of its own behind the class and keeps what it is set to |
| StorageLaws.NewClosureIs | src/interpreter.cc:826-842 | a closure literal is a new object of the class of closures with the number of its parameters and its two pointers, and its name refers to it |
| StorageLaws.CaptureFails | src/interpreter.cc:845-849 | evaluating a closure literal fails when a bound variable is a global that has never been given a value, or has a null entry |
| StorageLaws.ArgumentsInOrder | src/interpreter.cc:617-632 | arguments are evaluated from the first to the last, each in the state the one before leaves |
| StatementLaws.BodyInParts | src/interpreter.cc:575-586 | a body is its first part and, unless that returns, its second |
| StatementLaws.ReturnEndsBody | src/interpreter.cc:1219-1225 | a `return` yields its expression's value, and nothing behind it is executed |
| StatementLaws.IfRunsExactlyWhen | src/interpreter.cc:1034-1045 | the body runs exactly when the condition is neither null nor zero |
| StatementLaws.LoopEnds | src/interpreter.cc:1081-1090 | a loop that ends without a return ends where its condition fails, with everything true that each pass preserves |
| InterpreterContext.Context.PushSymbols | src/interpreter.hh:107-133 | one table more on the stack, nothing else changes |
| InterpreterContext.Context.PopSymbols | src/interpreter.hh:107-133 | one table fewer on the stack, nothing else changes |
| InterpreterContext.Context.SetVariable | src/interpreter.cc:1107-1117 | a variable is stored where the top table or else the globals have it, a global is created otherwise |
| InterpreterContext.Context.Evaluate | src/interpreter.cc:737-756 | evaluation in place, through any nesting of interpreted calls, gives the context back as it was, with a null return value once a call has been made; value and state are those of `Interpreter.EvalExpr` in the world where interpreted callees are runs of their bodies |
| InterpreterContext.Context.EvaluateArgs | src/interpreter.cc:619-630 | the argument loop evaluates in order and stops at the first fault, with the same balance |
| InterpreterContext.Context.DoCall | src/interpreter.cc:616-721 | a method call evaluates its arguments, updates the profile and calls through the slot it decides on, as `Interpreter.CallMethod` specifies, with the same balance |
| InterpreterContext.Context.DoClosureCall | src/interpreter.cc:634-647 | a closure call as `Interpreter.CallClosure` specifies, with the same balance |
| InterpreterContext.Context.CallThroughSite | src/interpreter.cc:655-704 | profile, slot and call as `Interpreter.Dispatch` specifies, an interpreted callee on this same context |
| InterpreterContext.Context.CallSlot | src/interpreter.cc:310-326 | a trampoline looks the method up again and interprets its tree; other code is taken as given |
| InterpreterContext.Context.CallClosureObject | src/interpreter.cc:206-218 | the same for closures |
| InterpreterContext.Context.Operate | src/interpreter.cc:1137-1165 | integers and comparisons are computed, anything else calls the left operand's method, interpreted ones on this context |
| InterpreterContext.Context.InterpretBody | src/interpreter.cc:575-586 | the statement loop stops at a return; tables and search flag are kept, and the return value is the old one or null unless a statement returned |
| InterpreterContext.Context.InterpretStmt | src/interpreter.cc:1107-1135 | each statement kind leaves the context as `Interpreter.InterpStmt` specifies, with the same balance |
| InterpreterContext.Context.InterpretLoop | src/interpreter.cc:1081-1087 | the while loop runs to the context that the recursive loop specifies, with the same balance |
| InterpreterContext.Context.SearchExpr | src/interpreter.cc:723-735 | the search through expressions, literals and nested closure bodies: without a find nothing has been executed, and the result is `Interpreter.SkipExpr` |
| InterpreterContext.Context.SearchMethodCall | src/interpreter.cc:723-735 | the call is performed when the node was found in the callee or is the call itself |
| InterpreterContext.Context.SearchBinary | src/interpreter.cc:1167-1192 | a node in the left operand lets the operator go on; one in the right operand applies it with null on the left |
| InterpreterContext.Context.SearchBody | src/interpreter.cc:561-572 | statements before the node are searched, those after it interpreted |
| InterpreterContext.Context.SearchStmt | src/interpreter.cc:1089-1130 | each statement kind searched as `Interpreter.SkipStmt` specifies |
| InterpreterContext.Context.SearchIf | src/interpreter.cc:1009-1032 | the search of an if statement |
| InterpreterContext.Context.SearchLoop | src/interpreter.cc:1042-1079 | the search of a loop, which goes on looping once the node was found |
| InterpreterContext.Context.ResumeInInterpreter | src/interpreter.cc:35-49 | the exit's end: search, clear both flags, hand out the return value and leave it in the context; without a `return` it is what was left there before, or null if an interpreted call was made |
| InterpreterContext.Context.InterpretCall | src/interpreter.cc:885-923 | an interpreted call of any body, with any calls inside it, is balanced: table stack and search flag as before, not returning, null return value; its value without a `return` is the leftover one exactly when it made no interpreted call |
| InterpreterContext.Context.InterpretActivation | src/interpreter.cc:885-988 | a call with its own frame and tables leaves the caller's variables, each with its value or absence, its tables and its flags as they were, and what the callee did to globals and heap |
| CallLaws.CalleeStarts | src/interpreter.cc:885-911 | a call starts with its arguments in its parameters, null in its locals, its receiver and, in a method, its selector, with the caller's globals, and with no other variable |
| CallLaws.MethodStarts | src/interpreter.cc:885-911 | what every name means at the start of an interpreted method: instance variable, receiver, selector, local, argument or global, in this order |
| CallLaws.ClosureStarts | src/interpreter.cc:953-976 | the same for closures: local, bound variable, argument or global |
| CallLaws.CompiledStarts | src/compiler.cc:319-369 | the same for compiled methods and closures, in the compiler's order |
| CallLaws.CallComesBack | src/interpreter.cc:915-923 | a call that comes back has run its body to an end and has its value; the caller's variables are as before, the globals, the heap and the profiles as the body left them |
| CallLaws.NestedCallsKeepFrames | src/interpreter.cc:885-923 | so it is through any nesting of methods, closures and operators |
| CallLaws.ExprKeepsFrame | src/interpreter.cc:655-704 | evaluating an expression without closure literals leaves the variables of its function alone, whatever it calls |
| CallLaws.ArgumentSurvives | src/interpreter.cc:885-923 | `func f(x) { e; return x; }` returns its argument, whatever `e` calls |
| CallLaws.MethodCallRuns | src/interpreter.cc:655-704 | a call at a new site runs the method that the receiver's class has for the name, on the receiver and the arguments, and leaves class and method in the profile |
| CallLaws.CachedCallRuns | src/interpreter.cc:660-680 | a call through the cached slot of any interpreted method, a stale one included, runs the method that the receiver's class has for the name |
| CallLaws.OperatorCalls | src/interpreter.cc:1152-1160 | `+`, `-`, `*` and `/` on an object run its `add`, `sub`, `mul` and `div` |
| CallLaws.ClosureCallRuns | src/interpreter.cc:953-988 | calling the object of a closure literal runs the literal's body on that object |
| SearchLemmas.SearchExprIsHarmless | src/interpreter.cc:723-735 | searching an expression without the node creates one object for each `new` in it, in order, or fails where that fails; nothing else changes |
| SearchLemmas.SearchStmtIsHarmless | src/interpreter.cc:1009-1130 | the same for statements |
| SearchLemmas.SearchBodyIsHarmless | src/interpreter.cc:561-572 | the same for bodies, nested closure bodies included |
| SearchLemmas.WalkCreates | src/interpreter.cc:1282-1287 | creating objects in turn adds exactly as many new ones as there are classes, leaves all others alone, and leaves the state as it was exactly when there are none |
| SearchLemmas.InterpBodyIgnoresFound | src/interpreter.cc:575-586 | interpretation neither reads nor changes the search flag |
| SearchLemmas.FoundSearchInterprets | src/interpreter.cc:561-572 | a search that has found its node is interpretation |
| Continuation.SearchResumesExpr | src/interpreter.cc:723-735 | searching an expression for a resumable call is the rest of its evaluation from that call on |
| Continuation.SearchResumesStmt | src/interpreter.cc:1009-1130 | the same for statements, after the creation of one object for each `new` on the way |
| Continuation.SearchResumesBody | src/interpreter.cc:561-572 | the search of a body is the rest of the body from the call on, after the creation of one object for each `new` on its way, or fails where that fails |
| Resume.GuardHitIsCachedDispatch | src/compiler.cc:786-804 | passing a sound guard, at a site whose class and method are those compiled in, calls the method, with the profile, that the interpreter would |
| Resume.ExecExprAgrees | src/interpreter.cc:1167-1200 | a guarded run of an expression is its evaluation, and after a miss, whatever the profile has become, evaluation from the start is the rest from the missed call on |
| Resume.ExecMethodCallAgrees | src/compiler.cc:564-806 | the same for guarded method calls |
| Resume.ExecArgsAgree | src/compiler.cc:579-584 | the same for argument lists, where a miss names a call among the arguments |
| Resume.ExecStmtAgrees | src/interpreter.cc:1089-1135 | interpreting a statement is its guarded run, and after a miss the rest from the missed call on, `new` on the way included |
| Resume.ExecIfAgrees | src/interpreter.cc:1009-1040 | the same through if statements |
| Resume.ExecLoopAgrees | src/interpreter.cc:1042-1087 | the same through loops, whichever iteration the miss comes in |
| Resume.ExecBodyAgrees | src/interpreter.cc:561-586 | the same for bodies of any nesting, early return included |
| Suspension.StoppedBodyGoesOn | src/interpreter.cc:561-586 | a body interpreted up to any performance of a call, picked by any test of the state, and finished from there with what the interpreter holds, is the body interpreted at once, loops and early return included |
| Suspension.ResumingIsContinuing | src/interpreter.cc:561-572 | from any store in which an interpreter run is about to perform a resumable call, whatever the run did before, interpretation from the start is the rest from that call on, and the search is that rest after the objects it creates |
| Misses.MissedBodyGoesOn | src/interpreter.cc:56-60 | a miss of the guarded run is such a stop, for calls in arguments, right operands and conditions too |
| Exits.IfConditionExit | src/interpreter.cc:1014-1030 | an exit inside an if condition runs the body whatever the condition's value |
| Exits.IfConditionExitIsRight | src/interpreter.cc:1014-1030 | it is right for every body exactly when the condition is true |
| Exits.WhileConditionExitIsRight | src/interpreter.cc:1052-1076 | an exit inside a loop condition is right for every body exactly when the condition is true |
| Exits.RightOperandExit | src/interpreter.cc:1176-1182 | a miss in a right operand goes on with null for the left one, where interpretation goes on with the left operand's value |
| Exits.NullServesExactlyWhen | src/interpreter.cc:1137-1165 | when null on the left gives the same: for equality when the left operand is null or zero, or both differ from the right one; for arithmetic, when null has no methods, if the operation fails anyway |
| Exits.RightOperandExitIsRight | src/interpreter.cc:1176-1182 | the exit is right exactly when the right operand fails or null serves in place of the left one |
| LostExits.UnsearchedIsArgument | src/interpreter.cc:723-735 | the executed calls that the search does not look at are calls in arguments |
| LostExits.UnsearchedExitEndsFunction | src/interpreter.cc:723-735 | after a miss in one the function ends in the state of the exit, with one object more for each `new` in its body, and with the return value found in the context or null |
| LostExits.UnsearchedExitIsRightExactlyWhen | src/interpreter.cc:723-735 | such an exit gives the value and state of interpretation exactly when the run that goes on from the missed call ends in the state and with the value in which the exit leaves the function |
| LostExits.FinishBodyWentOn | src/interpreter.cc:655-704 | interpretation that goes on from a missed call has recorded the missed class in its profile, or has made another loop pass, which a call outside loops excludes |
| LostExits.UnsearchedExitIsNeverRight | src/interpreter.cc:723-735 | compared in value and state, such an exit is never right outside loops, and in a loop only if interpretation goes on to make another pass |
| LostExits.LostReceiver | src/interpreter.cc:723-735 | a callee that is no variable, number or `new` comes out of the search as null and the exit fails, which is right exactly when the missed call fails |
| LostExits.ReceiverIsCreatedAgain | src/interpreter.cc:1282-1287 | a `new` as callee is evaluated again, and the call goes to another object |
| Witnesses.FalseConditionRunsBody | src/interpreter.cc:1014-1030 | `if x.m() { return 1; }` and the same loop, with `x.m()` null |
| Witnesses.RightOperandLosesLeft | src/interpreter.cc:1176-1182 | `1 == x.m()` with `x.m()` one |
| Witnesses.ArgumentEndsFunction | src/interpreter.cc:723-735 | `return 1.h(x.m());` returns null |
| LoopedExit.ExitInLoopIsRight | src/interpreter.cc:723-735 | `while x() { 1.h(f.m()); }` with an exit at `f.m()` that comes out right in value and state, because a later pass leads back to it |
| Witnesses.ReceiverIsLost | src/interpreter.cc:723-735 | `return x().m();` fails after an exit from `m` |
| Witnesses.NewIsEvaluatedAgain | src/interpreter.cc:1282-1287 | `new C; x.m();` creates two objects when it exits at the call |
| Witnesses.EveryExitIsRight | src/interpreter.cc:673-696 | `return x.m();`, compiled for the receiver's class or another one, such as its base class, exits on each of 10000 calls in a row, meets each time all that transparency asks for, and is finished as interpretation would, although the first exit moves the profile |
| Witnesses.InheritedMethodDiffers | src/interpreter.cc:868-911 | `func m(y) { return y; }`, compiled on an A and called on a B with a variable `y`: compiled code returns the argument, the interpreter the variable |
| Witnesses.LeftoverIsReturned | src/interpreter.cc:45-48 | a function without `return` returns what an earlier exit left |
| Witnesses.AssignedSelfRedirects | src/interpreter.cc:96-123 | after `self = x` an exit looks for instance variables in `x` |
| Witnesses.ClosureForgetsCmd | src/interpreter.cc:96-106 | after an exit from a closure with `var y = cmd;` that name is bound to null |
| Witnesses.ClosureSeesSelf | src/compiler.cc:442-466 | in a closure with `var y = self;` compiled code finds the closure and the interpreter a global |
| Witnesses.SecondVariableIsLost | src/interpreter.cc:846-857 | a closure over two variables finds the first in both |
| Blocks.GenExprGrows | src/compiler.cc:564-627 | compiling an expression leaves an open insertion block and closes every other block it creates |
| Blocks.GenGuardedGrows | src/compiler.cc:617-806 | the same for guarded calls: hit block, miss block ending in a return, null test |
| Blocks.GenStmtGrows | src/compiler.cc:1270-1342 | the same for every statement; after a return the insertion point is empty |
| Blocks.GenIfGrows | src/compiler.cc:1280-1314 | the same for if statements of any nesting |
| Blocks.GenWhileGrows | src/compiler.cc:1315-1342 | the same for loops of any nesting, a body that ends in a return included |
| Blocks.GenBodyGrows | src/compiler.cc:1254-1266 | the same for bodies, with dead code after a return dropped |
| ExprCode.SimulateOp | src/compiler.cc:1437-1474 | the code for an operator computes what the compiled run does, on any two words |
| ExprCode.SimulateClassTest | src/compiler.cc:636-656 | the guard's branches go to the hit or miss block as the guard decides |
| ExprCode.SimulateGuarded | src/compiler.cc:615-806 | a guarded call runs to its join block with the callee's result, or exits with the patchpoint's frame |
| ExprCode.SimulateExpr | src/compiler.cc:564-612 | the code for an expression runs, on every input, to the outcome of its compiled run and keeps all earlier registers |
| CompiledSteps.LiteralRuns | src/compiler.cc:493-559 | the code generated for a closure literal, with any bound variables, leaves a new object in which each of them, entered compiled or interpreted, has the word the variable had before, and sets the closure's name; or traps when memory is full |
| CompiledSteps.ComparisonRuns | src/compiler.cc:1415-1428 | compiled comparisons are of whole words, whatever their tags, and answer one or zero |
| CompiledSteps.DeclarationRuns | src/compiler.cc:1363-1374 | a declaration without initialiser generates nothing |
| CompiledSteps.GuardedCallRuns | src/compiler.cc:614-805 | whatever has become of the profile, a guarded call resets the counter and calls the slot compiled in on a receiver of the compiled class, and exits with the frame on any other |
| StmtCode.SimulateBranch | src/compiler.cc:1292-1302 | the shift, test and branch choose the block that the interpreter's truth test would |
| StmtCode.SimulateIf | src/compiler.cc:1280-1314 | the code for an if statement runs to the statement's outcome |
| StmtCode.SimulateWhile | src/compiler.cc:1315-1342 | the code for a loop runs to the loop's outcome, for any number of iterations |
| StmtCode.SimulateStatement | src/compiler.cc:1254-1383 | the code for a statement runs to the statement's outcome |
| StmtCode.SimulateBody | src/compiler.cc:1254-1266 | the code for a body runs to the body's outcome |
| CodeBuilder.Builder.Insert | src/compiler.cc:1254-1266 | inserting without an insertion point does nothing |
| CodeBuilder.Builder.CompileExpression | src/compiler.cc:564-612 | the builder's blocks, insertion point and registers become those of `CodeGen.GenExpr` |
| CodeBuilder.Builder.CompileGuardedCall | src/compiler.cc:617-806 | the same for the guarded call |
| CodeBuilder.Builder.CompileBody | src/compiler.cc:1254-1266 | the same for the statement loop, which stops without an insertion point |
| CodeBuilder.Builder.CompileIf | src/compiler.cc:1280-1314 | the same for if statements |
| CodeBuilder.Builder.CompileWhile | src/compiler.cc:1315-1342 | the same for loops |
| CodeBuilder.Builder.CompileFunction | src/compiler.cc:394-404 | the finished function is `Deopt.CodeOf`, the code all theorems are about |
| Scoping.InterpBodySame | src/interpreter.cc:575-586 | tables that resolve a body's names alike interpret it alike |
| Scoping.SkipBodySame | src/interpreter.cc:561-572 | and search it alike |
| Frames.MethodFrameRoundTrip | src/interpreter.cc:96-154 | on any receiver a rebuilt method table resolves a name as the compiler did exactly when the frame records the name; or it is an instance variable found through the word recorded for `self`, which is still the receiver and has it where the class compiled for has it; or it is none found there and, `self` and `cmd` apart, none of that class |
| Frames.SameVariablesAreFaithfulExactlyWhen | src/interpreter.cc:114-122 | on a receiver with the variables of the class compiled for, all names are right exactly when the word recorded for `self` still leads to the receiver or no instance variable is visible, whatever shadows what, `self` and `cmd` included |
| Frames.StoredExactlyWhen | src/compiler.cc:757-761 | every variable of a method has storage exactly when none of the names its body mentions is a global |
| Frames.GlobalIsNotStored | src/compiler.cc:757-761 | `return total;`, with a global |
| Frames.ClosureFrameRoundTrip | src/interpreter.cc:96-154 | a rebuilt closure table resolves a name as the compiler did exactly unless it is `cmd` and the closure does not declare it |
| Frames.MethodTablesAgree | src/interpreter.cc:868-911 | a method compiled for one class and interpreted on a receiver of another starts with the same meaning of a name exactly when it is an instance variable of both in the same place; or of neither, and not `self` or `cmd` redeclared as a parameter or local |
| Frames.SubclassTablesAgree | src/interpreter.cc:906-911 | on a receiver of a subclass, which lists the inherited variables first, the names that differ are in addition exactly those of the variables it adds |
| Frames.ParameterNamedCmd | src/interpreter.cc:885-911 | a parameter named `cmd` means the selector to the interpreter and itself to compiled code |
| Frames.ClosureTablesAgree | src/interpreter.cc:953-976 | compiled and interpreted closures start with the same table, except for `self` |
| Deopt.FunctionIsWellFormed | src/compiler.cc:393-404 | every block of a finished function ends in exactly one terminator whose targets exist |
| Deopt.CompiledFunctionRuns | src/compiler.cc:285-405 | code generation preserves meaning: on every input the blocks reach from the entry the outcome of the compiled run, with null at the end of the body |
| Deopt.GuardedFunctionRuns | src/compiler.cc:285-405 | as far as compiled and interpreted code do the same, that is the outcome of the guarded run |
| CompiledRun.ExecBodyIsCompiled | src/compiler.cc:285-405 | the guarded run of a body is the compiled run, until it stops where compiled and interpreted code part |
| Deopt.InterpretedAsCompiled | src/compiler.cc:319-369 | interpreter and compiler resolve all names of a body alike exactly when it mentions no instance variable that only one of the two classes has or has elsewhere, no redeclared `self` or `cmd`, and in closures no `self` |
| Deopt.RebuiltAsCompiled | src/interpreter.cc:96-154 | the rebuilt table resolves all names of a body as the compiler did exactly when all of them are right |
| Deopt.InterpretationIsRest | src/interpreter.cc:575-586 | interpreting an activation is its guarded run and then the rest from the missed call on |
| Deopt.SideExitIsRest | src/interpreter.cc:56-203 | the side exit carries out the same rest, in the state of the exit exactly when the search passes no `new`, and otherwise with one object more for each |
| Deopt.FinishedRunIsInterpretation | src/interpreter.cc:56-203 | a missed run finished by the side exit is interpretation from the start, when the search passes no `new`, for the first exit and every later one |
| Deopt.DeoptimisationIsTransparent | src/interpreter.cc:35-49 | the compiled function reaches an end, after which exit and search carry out the rest that interpretation carries out from the missed call on, apart from objects the search created; without those, and without a miss, the whole is interpretation from the start |
| Deopt.UninterruptedRun | src/compiler.cc:285-405 | a compiled run without a miss is interpretation |
| Deopt.StaleReturnValue | src/interpreter.cc:45-48 | with an earlier return value left in the context, the exit is right exactly when that value is null or the rest of the body returns |
| Patchpoints.RecordsAreCalls | src/compiler.cc:694-800 | the number of patchpoints in the code of a function is that of method calls in its body, nested ones, arguments, conditions and loops included, up to a `return` |
| Patchpoints.OnlyCallIsSearched | src/interpreter.cc:66-78 | an exit searches the body exactly when its call is the only one, and otherwise leaves the function with null in the state of the exit |
| StackMap.SectionRoundTrip | src/StackMapParser.cpp:39-62 | the parser reads back version, counts and the place of the records from every encoded section |
| StackMap.RecordsBaseIsRightExactlyWhen | src/StackMapParser.cpp:55-56 | the records' address is right exactly when no table size wraps at 32 bits |
| StackMap.StrideIsNeverRight | src/StackMapParser.cpp:64-83 | the computed size of a record is never its length |
| StackMap.LocationRoundTrip | src/SMRecordParser.cpp:25-38 | a location is read back field by field, signed offset included |
| StackMap.RecordRoundTrip | src/SMRecordParser.cpp:83-104 | id, offset, count and all locations of a record are read back |
| StackMap.StackMapParser.constructor | src/StackMapParser.cpp:39-62 | in a section whose table sizes fit 32 bits, the parser's address is that of the records |
| StackMap.StackMapParser.GetNumFunctions | src/StackMapParser.cpp:89-91 | the number of functions of any encoded section |
| StackMap.StackMapParser.GetNumRecords | src/StackMapParser.cpp:98-100 | the number of records of any encoded section |
| StackMap.SMRecordParser.constructor | src/SMRecordParser.cpp:83-104 | the parser starts at the first location |
| StackMap.SMRecordParser.NextValue | src/SMRecordParser.cpp:107-156 | the next location decoded: the result register first; then the saved word of a register location, that word plus the offset for a direct one, up to wrap-around, the constant of a constant one, and -1 for all others and past the end |
| StackMap.ReadBytes | src/SMRecordParser.cpp:44-53 | numbers are read with the lowest byte first |
| StackMap.LocationBytes | src/SMRecordParser.cpp:25-38 | the twelve bytes of a stack slot 16 bytes below the word in `%rbp` |
| StackMap.HeaderBytes | src/StackMapParser.cpp:60-70 | the sixteen bytes of a section's header |
| SideExit.SlotIsLaidOut | src/SMRecordParser.cpp:136-145 | the direct location of a register and an offset stands for one address: the saved word plus the offset |
| SideExit.ReadSymbols | src/interpreter.cc:125-154 | a loop over names enters the addresses of the recorded operands, in order |
| SideExit.AddInstanceVariables | src/interpreter.cc:115-123 | the instance variables are entered at the words after the class pointer, each at its last place in the class's list |
| SideExit.ReconstructInterpreterContext | src/interpreter.cc:56-157 | from the bytes of a section whose one record says, by register and offset, where the frame is, the rebuilt table name for name, the result register, and the node of the missed call and no other; from any other number of records nothing |
| SideExit.RecordAddress | src/StackMapParser.cpp:103-111 | with one function and one record, the parser's first record is the section's |
| SideExit.OperandLocations | src/SMRecordParser.cpp:83-104 | the locations after the first two are those of the frame's operands |
| CallSites.CallSite.Observe | src/interpreter.cc:661-696 | one interpreted call: new profile, slot called, and whether the running function is flagged |
| CallSites.CallSite.CompiledHit | src/compiler.cc:792-794 | a compiled hit resets the counter and nothing else |
| CallSites.ProfileLaw | src/interpreter.cc:661-690 | over every trace the counter is the length of the trailing run of the alternative class, and switches times 10001 never exceed the misses |
| CallSites.SwitchesExactlyAtThreshold | src/interpreter.cc:673-684 | the assumption switches exactly on the 10001st consecutive receiver of one other class |
| CallSites.InlineCacheIsRightExactlyWhen | src/interpreter.cc:662-704 | over every interleaving of interpreted calls, compilation, compiled hits and overwritten functions, all calls go through the slot that a fresh lookup finds exactly when no receiver of the assumed class, and no compilation that is later hit, directly follows a receiver with another method |
| CallSites.RightSlotIsRightFunction | src/compiler.cc:786-804 | a call goes through the right slot exactly when it runs the function a fresh lookup finds, whatever is overwritten |
| CallSites.StaleMethodIsCalled | src/interpreter.cc:692-704 | three calls after which the third goes to another class's method |
| CallSites.MonomorphicSiteIsRight | src/interpreter.cc:662-704 | at a site with one receiver class every call, interpreted or compiled, runs the function that a fresh lookup finds at that moment, for any interleaving with compilation overwriting functions |
| JitRegister.ReturnIsRightExactlyWhen | src/interpreter.cc:643-646 | a return gives the caller its own register value exactly when it is no operator returning to compiled code from other compiled code |
| JitRegister.RegisterIsRightExactlyWhen | src/interpreter.cc:701-704 | over every run of nested calls and side exits, the register names the innermost compiled function at all times exactly when every operator that returns to compiled code had called a tree or that same code |
| JitRegister.RegisterNamesTheRunningFunction | src/compiler.cc:801-804 | with harmless operators in compiled code, a running or resumed compiled frame is what the register names, and every exit resumes on its own tree |
| JitRegister.OperatorMisleadsSideExit | src/runtime.cc:922-955 | one compiled operator method makes the next exit resume in the wrong function |
| Closures.ClosureDecl.Check | src/interpreter.cc:758-780 | after the check the node holds the declarations and the bound variables that the collection defines |
| Closures.ClosureDecl.CollectExpr | src/ast.hh:319-324 | expressions add the variables they use, and nested closures their name and their own bound variables |
| Closures.ClosureDecl.CollectStmt | src/ast.hh:876-881 | statements add what they declare and use, initialisers excepted |
| Closures.ClosureDecl.CollectBody | src/interpreter.cc:588-595 | the same for bodies |
| Closures.ScopeIsClosedExactlyWhen | src/interpreter.cc:758-791 | bound variables are apart from parameters and declarations, and the closure's table covers all its body looks up, nested captures included, exactly when it covers the initialisers |
| Closures.InitialiserIsNotCaptured | src/ast.hh:810-814 | a variable mentioned only in an initialiser is not captured |
| Closures.BoundVariableAt | src/compiler.cc:468-484 | compiled and interpreted entry find a bound variable in the same word of the closure object |
| Closures.CompiledCapture | src/compiler.cc:542-557 | a closure created by compiled code, with the bound variables that `check` computed, sees the values its variables had at creation, in compiled and interpreted entry |
| Closures.InterpretedCaptureIsRightExactlyWhen | src/interpreter.cc:843-857 | a closure created by the interpreter does exactly when all captured values are one value |
| Closures.SelfReferenceDiffers | src/interpreter.cc:842-848 | a closure that captures its own name finds itself or the earlier value, depending on who created it |
| MethodLookup.RegisterStatics | src/runtime.cc:596-604 | the runtime's own selectors get the numbers from 1 on |
| MethodLookup.Tables.LookupSelector | src/runtime.cc:591-615 | names and numbers stay one to one over every call, old names keep theirs, and no other name is registered |
| MethodLookup.Tables.RegisterMethods | src/interpreter.cc:1245-1265 | every method of a class carries the registered number of its name |
| MethodLookup.Tables.Declare | src/interpreter.cc:1228-1281 | over every sequence of declarations and lookups, a declared class has the chain of the class that its superclass's name means behind it, and that class's variables before its own, or no chain and its own alone when the name is unknown; its methods are registered |
| MethodLookup.DispatchOnSubclass | src/interpreter.cc:1228-1281 | after `class B : A`, a name answers on B what it answers on A, unless the declaration defines it; then it answers with that definition |
| MethodLookup.Tables.MethodForSelector | src/runtime.cc:653-668 | the search up the chain ends and finds what the specification of nearest definition does |
| MethodLookup.Tables.Dispatch | src/runtime.cc:979-995 | dispatch on a name finds the first method of that name in the nearest class, after every sequence of declarations and lookups |
| MethodLookup.NearestDefinitionWins | src/runtime.cc:653-668 | lookup by number is lookup by name: the first method of that name in the nearest class that has one |
| MethodLookup.InheritedVariablesComeFirst | src/interpreter.cc:1264-1278 | along the whole chain instance variables extend those of every superclass |
| ConstantCache.ConstantIsContextFree | src/ast.hh:282-285 | a constant expression over numbers has one value in every context and changes nothing |
| ConstantCache.CachedTree.Evaluate | src/interpreter.cc:598-614 | after any earlier evaluations the caches of number constants give the value of evaluating without them, hold only values of constants, and hold that of every constant evaluated |
| ConstantCache.ConstantExactlyWhen | src/ast.hh:282-285 | the constants over numbers are the expressions in which evaluation meets only number literals and operators |
| StringLaws.SumsOfTexts | src/ast.hh:239 | string literals joined by `+`, in any grouping, are a new string: the literals from left to right |
| StringLaws.NumbersAreInterpreted | src/ast.hh:239 | arithmetic on number literals beside strings is the interpreter's |
| StringLaws.EqualIsInterpreted | src/interpreter.cc:1137-1151 | `==` on numbers, null and strings is the interpreter's comparison of their words, where no number is an address |
| StringLaws.EvaluatedOnce | src/interpreter.cc:598-614 | with the caches a constant that has been evaluated keeps its value for good |
| StringConstants.Nodes.Evaluate | src/interpreter.cc:598-614 | evaluation through the cache fields of the nodes, as `StringConstants.Cached` specifies |
| StringConstants.ConstantMakes | src/interpreter.cc:994-1005 | without caches every evaluation of a string constant makes a new object of one content |
| StringConstants.EvaluationInStep | src/interpreter.cc:598-614 | after any earlier evaluations, value and state with the caches are those without them, up to a map that takes all objects of one constant to the cached one and no others together |
| StringConstants.RunStaysInStep | src/interpreter.cc:598-614 | the same for all variables after any run of assignments |
| StringConstants.ComparisonTellsExactlyWhen | src/ast.hh:229-233 | after any such run `==` gives another answer with the caches exactly when its operands are two objects that one string constant has made |
| StringConstants.CalledTwice | src/ast.hh:229-233 | `f() == f()` with `func f() { return "a"; }` is true with the caches and false without |
| ArithmeticBlocks.SelectBlocks | src/SplitArithmeticPass.cc:116-264 | the selection loop records the blocks that the specification of one scan does |
| ArithmeticBlocks.LookAhead | src/SplitArithmeticPass.cc:203-229 | the inner loop decides whether uses are left when the run of calls stops |
| ArithmeticBlocks.ScanKeepsInvariant | src/SplitArithmeticPass.cc:116-264 | where blocks begin and end, which operands they record, and that every call is in one, after any part of the scan |
| ArithmeticBlocks.SelectionIsSoundExactlyWhen | src/SplitArithmeticPass.cc:116-264 | with single uses, every recorded block keeps all values but its last to itself exactly when no value straddles another that leaves the run |
| ArithmeticBlocks.GuardCoversExactlyWhen | src/SplitArithmeticPass.cc:174-189 | as recorded, before any block is lowered, the values of a block are all it takes from outside exactly when no later call uses another call's result from outside |
| ArithmeticBlocks.StackOrderedIsSound | src/SplitArithmeticPass.cc:116-264 | selection is sound on stack-ordered code |
| ExpressionTrees.TreeIsStackOrdered | src/ast.hh:303-308 | postorder compilation of an expression tree, a load for each variable, uses its results in stack order |
| ExpressionTrees.SelectionIsSoundOnTrees | src/compiler.cc:1385-1388 | selection is sound on the code of every expression tree |
| ExpressionTrees.GuardCoversTreeExactlyWhen | src/SplitArithmeticPass.cc:174-189 | before any block is lowered, the recorded values of all blocks of a tree are all that the blocks take from outside exactly when no operator combines two operators of which the right one loads a variable |
| ExpressionTrees.FourVariablesAreNotCovered | src/SplitArithmeticPass.cc:174-189 | in `(x + y) + (z + w)` the first sum is not tested |
| FastPath.PathsInStep | src/SplitArithmeticPass.cc:351-444 | after every call of a guarded block the helpers' words are the fast path's integers, tagged, until one does not fit |
| FastPath.FastRefinesSlow | src/SplitArithmeticPass.cc:304-457 | the joined value is that of the chain of helpers exactly when the guard fails, or nothing overflows 61 bits, or a division by zero stops both |
| SelectedBlocks.CoveredExactlyWhen | src/SplitArithmeticPass.cc:304-350 | the guard covers a block, with its operands as they stand, exactly when it tests all outside operands and all constants are integers |
| SelectedBlocks.SelectedBlockIsRightExactlyWhen | src/SplitArithmeticPass.cc:304-457 | a block, with its operands as they stand when it is lowered and any words for them, yields what the helpers do on every input without overflow exactly when the guard tests all it takes and its constants are integers, or there is no such input |
| SelectedBlocks.FourVariablesAreMistaken | src/SplitArithmeticPass.cc:304-457 | the second block of `(x + y) + (z + w)` is not right |
| Lowering.LowerBlock | src/SplitArithmeticPass.cc:351-450 | the instructions emitted through the argument and dependency maps compute the fast result of the block, with its operands as they stand, on every input |
| Lowering.LowerCall | src/SplitArithmeticPass.cc:375-444 | one call: operands found in the maps or untagged, then the instruction |
| Rewriting.ReplaceUses | src/SplitArithmeticPass.cc:460-470 | in place, all users of a call result now use the phi node |
| Rewriting.LowerBlocks | src/SplitArithmeticPass.cc:284-473 | the loop over the recorded blocks, in any order: operands redirected to all joins, each guard to those from its own lowering on, each fast path computing the block as the final code has it |
| Rewriting.GuardsFollowExactlyWhen | src/SplitArithmeticPass.cc:284-309 | in any single-use code, every guard tests what its block takes when it is lowered exactly when no later call uses another call's result from outside and no block is lowered before one that begins with its result |
| Rewriting.BlocksAreRightExactlyWhen | src/SplitArithmeticPass.cc:284-457 | under the same condition exactly every block alone, as it stands when it is lowered, is right on all inputs without overflow |
| LoweringOrders.TreeGuardsFollowExactlyWhen | src/SplitArithmeticPass.cc:284-309 | for expression trees: exactly when the tree is narrow and the order lowers no block before one that begins with its result |
| LoweringOrders.SomeOrderIsRightExactlyWhen | src/SplitArithmeticPass.cc:284-287 | some order is right exactly for narrow trees |
| LoweringOrders.EveryOrderIsRightExactlyWhen | src/SplitArithmeticPass.cc:284-287 | every order is right exactly when no operator has an operator on its left and a variable on its right |
| RewrittenRuns.RewrittenIsRightExactlyWhen | src/SplitArithmeticPass.cc:284-473 | in any single-use code, as far as blocks are lowered in time and the results that their guards leave out are integers, the rewritten basic block has after every block what the chain of helpers has, or fails where it does, exactly when no fast path taken leaves 61 bits without dividing by zero |
| RewrittenRuns.HelpersResultIsKept | src/SplitArithmeticPass.cc:454-470 | when all helpers succeed, so does the rewritten code, with the helpers' results at all joins |
| RewrittenRuns.OutOfOrderNeverFinishes | src/SplitArithmeticPass.cc:306-309 | in an order that lowers a block before one that begins with its result, the code reaches on no input its end with defined values |
| InterpretedTrees.ValueIsInterpreted | src/ast.hh:303-308 | on integers the value of a tree by helpers is the interpreter's value of the expression it is compiled from |
| InterpretedTrees.HelpersAreTheSame | src/runtime.cc:922-960 | the helpers of the pass are those that compiled code calls |
| RewrittenTrees.CodeComputesTree | src/ast.hh:303-308 | the code of a tree computes, by the chain of helpers, its value |
| RewrittenTrees.NarrowTreeIsRightExactlyWhen | src/SplitArithmeticPass.cc:284-473 | for a narrow tree whose value the helpers compute, the rewritten code yields that value exactly in those orders |
| RewrittenTrees.ThreeVariablesBlocks | src/SplitArithmeticPass.cc:284-287 | `(x + y) + z` is lowered as two blocks, and the loop may take them in either order |
| RewrittenTrees.SumOfThreeDependsOnOrder | src/SplitArithmeticPass.cc:284-309 | `(x + y) + z` is right in one order of lowering and reads an undefined value in the other |
| RewrittenTrees.SumOfFourGoesWrong | src/SplitArithmeticPass.cc:174-189 | `(x + y) + (z + w)` with an object in `x` yields a number in place of an object, in either order |
| WideTrees.TameTreeKeepsUp | src/SplitArithmeticPass.cc:284-473 | when no operator combines two operators of which the right one loads a variable and the left one begins with one, then in those orders, on every input, objects included, the rewritten code has at the end of every block what the helpers have, as long as the fast paths fit |
| WideTrees.WideTreeFallsBehind | src/SplitArithmeticPass.cc:174-189 | an innermost operator that does, in an expression that the helpers compute on some integers and in one of those orders: from the integers an input is made on which all fast paths fit so far and the rewritten code has at the end of a block not what the helpers have |
| WideTrees.OutOfOrderFallsBehind | src/SplitArithmeticPass.cc:306-309 | on integers on which the helpers compute the expression, and in any other order, the rewritten code does not keep up |
| WideTrees.TreeIsRightExactlyWhen | src/SplitArithmeticPass.cc:284-473 | for every expression with integer literals that the helpers compute on some integers, and every order: the rewritten code keeps up with the helpers on all inputs exactly when the expression is of the first kind and the order one of those |
| FastPath.WrapAroundPathsAgree | src/SplitArithmeticPass.cc:396-450 | with wrap-around and without division, truncating once at the end gives the word that truncating every result gives |
| FastPath.DivisionSeesTheWrap | src/SplitArithmeticPass.cc:404-405 | with division it does not |

## Left out

- Deopt.DeoptimisationIsTransparent: the missed call is the only one of the body (as the code asks, `Patchpoints.OnlyCallIsSearched`), outside conditions, right operands and arguments, its callee a variable or a number and its arguments without effect on the state; exits from elsewhere are in `Exits` and `LostExits`.
- Deopt.DeoptimisationIsTransparent: callees are functions of the state in `Runtime.World`, so a callee that itself takes a side exit and clears the shared search flag is not modelled; neither is recompiling a function while an activation of it is live.
- Deopt.CompiledFunctionRuns: code is generated for one activation, with the addresses of instance variables and bound variables as constants; the source computes them from the receiver at run time.
- Guarded.ExecExpr: does not follow a run past a step on which compiled and interpreted code part; the conditions are listed at the head of the module. One of them is a hit at a call whose profile an earlier miss has moved, where the two go through different methods.
- LostExits.UnsearchedExitIsRightExactlyWhen: for calls in loops the condition is about the rest of the run itself; none on the state of the exit alone is known.
- LostExits.UnsearchedExitIsNeverRight: the callees of the activation do not execute the missed call, so it is not recursive, call nodes are not shared within a body, and the call still assumes the class that was compiled in; `LostExits.UnsearchedExitIsRightExactlyWhen` asks for none of this.
- InterpreterContext.Context.Evaluate: the result of a run that starts with a return value left over and makes interpreted calls is not specified, only its balance and, in InterpretCall, its value; the search is specified for calls that are not inside a closure literal of the body.
- InterpreterContext.Context.InterpretActivation: the loop budget of a call and the depth of nesting are the model's bounds; a callee that runs out of either is a callee taken as given or a failed call. Counting executions, and compiling a function when it is called often enough, is not part of the interpreter here.
- InterpreterContext.Context.DoCall: does not set the recompile flag, which `CallSites.CallSite.Observe` does.
- InterpreterContext.Context.CallThroughSite: does not set it either.
- Deopt.StaleReturnValue: stated for callees that leave the return value alone, as compiled ones do; `InterpreterContext.Context.ResumeInInterpreter` says what interpreted callees change about it.
- SideExit.ReconstructInterpreterContext: that the emitted locations stand for the operands is LLVM's part and is a precondition.
- StackMap.SMRecordParser.NextValue: registers beyond the sixteen saved ones are excluded; the source would read past its table.
- StorageLaws.NewObjectIs: the source allocates one word for each instance variable and needs one more for the class; the model's object has it.
- CallSites.CallSite.constructor: the cached method starts out null; the source leaves it uninitialised.
- Closures.InterpretedCaptureIsRightExactlyWhen: the source allocates one word for each captured variable and writes two; the model lets the object grow.
- Closures.ClosureDecl.Check: the flag that a nested closure has been checked before is not carried from one enclosing check to the next.
- MethodLookup.Tables.constructor: the three classes of the runtime are declared like any other.
- ArithmeticBlocks.SelectBlocks: use counts are unbounded integers; in the code none goes below zero, because every decrement stands for one counted use.
- Lowering.LowerBlock: emits the fast path; the guard and the phi node are in `RewrittenRuns.RunRegion`, as a choice between two results that leaves one value at the join.
- Rewriting.LowerBlocks: works on one basic block; results of calls in others, and their phi nodes, stay what they are. A value that is defined on one path only counts as undefined after the join.
- WideTrees.TreeIsRightExactlyWhen: asks for integers on which the helpers compute the expression; one that fails on all integers, such as a division by a literal zero, is not looked at.
- StringConstants.ComparisonTellsExactlyWhen: the other comparisons order strings by their addresses, and a string can equal the number that its address shifted is; neither is modelled. Operands have no comparisons inside, and recursion is followed to any given depth.
- Signed overflow in 64-bit arithmetic, undefined in C++, is modelled as two's-complement wrap-around.
- The compiler's assertions that a name has storage are not modelled: a name without storage is a global.
- Non-termination appears as running out of `gas`, for every amount of it.
- String literals outside `StringConstants`, class declarations inside the interpreter's statement walk, and the `String`, `Array`, `File` and `Number` primitives: easy members.
- LLVM's optimiser, register allocation and execution engine, the x86 trampoline, garbage collection, parsing, file I/O, timing and the command line.
- Walking past the first stack-map record, large constants and indirect locations: not implemented in the code.
