# Snuk, verified

A Dafny model of the Snuk interpreter (C): its evaluator, its reference-counted scopes, its parser, its lexer, and the
dynamic array below them. The model has the shape of the code: objects whose methods update fields, loops where the
code loops, and next to them specifications without state against which every method is proved.

- `HandleGraph`, `HandleSteps`, `RefCount`: the heap of scopes as counters and handles. `held` is a ghost multiset of the
  handles that C variables own. The invariant says that every counter is the number of handles (conservation), that a
  scope exists exactly while its strong count is positive, and that scopes are destroyed and records freed exactly once.
  A release is proved to leave exactly the scopes that the remaining handles support. `Lifetimes` asks which lookups
  then meet freed scopes, and `Cycles` which steps close a cycle and which assignments are safe. `ScopeWork`, with
  `Tangles`, decides which expressions leave scopes behind; `RefCount.Heap.Evaluate` runs them. `SelfOwnedType` is a
  program whose assignment destroys the binding it writes, and `MethodValues` says what function and instance values keep
  alive, with a program whose method outlives its instance.
- `Types`, `Syntax`, `Store`, `StoreFacts`, `Reference`, `Interpreter`: the evaluator with its signal flag, sticky panic
  mode, `current` and `instance`, refined to an evaluator that returns Normal, Abrupt or Fail. `Scoping`,
  `OuterNames`, `CallBinding`, `LetStar`, `Printing`, `FieldHiding` and `Fuel` prove what follows for programs. `Laws`,
  `LoopRules` and `Conformance` say what the reference means without its definitions: read-over-write and operator laws,
  rules for conditionals and loops, and annotations as a quantified notion.
- `Grammar`, `GrammarParser`, `GrammarTheorems`, `Parser`, `Printer`: the token window with its panic flag, refined to a
  parser that stops at the first error; that parser decides the grammar; printing is minimal and inverse to parsing.
  `OperatorGroups` and `StatementForms` say what the grammar means without its levels and yields.
- `Lexemes`, `Numerals`, `Lexer`: the scanner with its frame stack. The virtual-semicolon rule, the positions, the
  covering of the source and the bound on calls are invariants of a whole run, kept in ghost fields. `Terminators` proves
  the rule against the grammar, `Spellings` the tables against the spelling of each kind.
- `Varint`, `DArray`: the byte layout of the dynamic array.

`dafny verify dfyconfig.toml` checks everything.

## Reading the model

- Errors. The code sets `panic_mode`, keeps the first error and goes on until the calls have returned. So do the
  interpreter and parser objects here. What they do is stated for runs without an error, and an error is proved to occur
  exactly when the reference fails.
- After an error. Nothing in the code tests `panic_mode` between items or rounds, so an error value travels on: after
  one, `while true { nope() }` never returns in C (src/interpreter/interpreter.c:590-698), while the model ends the loop
  when its fuel is used up and then goes on with the next item. Only what `Kept` and `Intact` say is claimed from there on.
- Assertions are taken as compiled out, as in release builds. With them on, printing an error value or an interface
  stops the program (src/interpreter/interpreter.c:506-508); here nothing is shown.
- Lifetimes. The interpreter's store never frees. Whatever the code reaches through strong handles is alive; where it goes
  through a weak one, to a downgraded parent or from `self` to the instance, the interpreter is told whether the scope is
  still alive, and any answers are allowed. It asks again after an assignment has freed the old value there. `met` holds
  the scopes asked for, and `lost` says exactly whether one of them was dead. Every claim about results is for runs that
  are not `lost`. `Lifetimes.WeakReadsDecide` ties the questions to the counters.
- A method of an instance that has died runs without it. That is no error and no lost run: the reference is told which
  method calls that happens to, and `FieldHiding.FieldWins` shows what one then returns.
- The code does lose well-formed programs. Arguments, initializers and members are evaluated with `weak_ref` on, so a
  closure made there does not keep its scope. In `var keep; var y = 1; fn g(f) { keep = f }; g(fn() { return y }); keep()`
  the parameter scope is freed when `g` returns, and looking up `y` from the closure then reads it
  (src/interpreter/interpreter.c:946, 881, 984). `Lifetimes.KeptClosureLookup` and `RefCount.Heap.ArgumentScopeEnds` give
  the exact condition. It also writes to freed bindings: `SelfOwnedType.LastAssignment` is such a program, and
  `Cycles.AssignmentIsSafe` the exact condition.
- Fuel. Calls and loop rounds use up fuel. Running out is an error of the model alone, and `Fuel` shows that more fuel
  changes no other outcome.
- Well-formed programs keep `return`, `break` and `continue` out of operands, conditions, arguments and defaults. A
  positional argument after a named one is also excluded: the check for it never fires
  (src/interpreter/interpreter.c:943).
- A declaration or assignment whose value raised a signal still stores that value, as the code does.
- Where the code and its README differ the code is followed: an instance field hides a parameter of the same name.
- Blocks evaluate their items with `weak_ref` off (src/interpreter/interpreter.c:542), and functions their defaults
  (src/interpreter/interpreter.c:861). So a function, type or instance that is made in a block and stored there keeps the
  block alive through a cycle of strong handles, named or not, and so does a function that is another one's default.
  `ScopeWork.Leaks` is the static rule, and `RefCount.Heap.EvaluateAndFree` proves it exact.
- Printing follows the fields of instances, so an instance that contains itself makes the code call itself until its
  stack is used up (src/interpreter/interpreter.c:495-513); here that takes any amount of fuel.
- `1 += += 3` makes the C parser read through a null tree (src/parser/snuk_expr.c:433). The parser object records every
  infix rule it runs and where its left operand came from; `nullRead` holds exactly when one of them was a compound
  assignment with a null left operand. That takes an error before, so it never happens on grammatical text; after the
  read the model goes on as if it had found no name. `() += 3` is another such text.
- `self` is not on the lexer's list of kinds that end a statement (src/lexer.c:492-512), so a newline behind `x = self`
  gives no semicolon, and the next line is read as part of the same statement (`Terminators.SelfRunsOn`).
- A leading zero always means base eight: the test for an octal digit looks at the zero itself (src/lexer.c:327). An
  unterminated comment before the end of the file is not reported, because its token is dropped (src/lexer.c:672-685).

## Model

| member | source | states |
|---|---|---|
| `HandleGraph.CountersDetermined` | include/snuk/refcount.h:39-90 | conservation: in every state that keeps the invariant the counter records are exactly the tally of strong and weak handles held by C variables and by scopes; two states with the same handles have the same counters |
| `HandleGraph.NoDangling` | include/snuk/refcount.h:39-84 | a strong handle anywhere leads to a live scope, a weak one at least to a counter record |
| `HandleGraph.ReachableIsAlive` | include/snuk/interpreter/snuk_scope.h:41-55 | safety: whatever a held handle reaches through strong handles is alive |
| `HandleGraph.LiveScopesSupported` | include/snuk/refcount.h:53-70 | between operations every live scope has a strong handle outside or in another live scope |
| `HandleGraph.SupportCause` | include/snuk/refcount.h:53-70 | a supported scope hangs off a held handle or off a cycle of strong handles; the path and the cycle are produced |
| `HandleGraph.LeakNeedsCycle` | include/snuk/interpreter/snuk_scope.h:76-81 | with no handle held, any scope left over is reached from a cycle of strong handles |
| `HandleGraph.NoLeak` | include/snuk/refcount.h:53-84 | with no handle held and no cycle nothing is left: every scope ever created was destroyed and every record freed |
| `HandleSteps.HeldSurvives` | include/snuk/refcount.h:53-70 | a scope still held from outside survives any release of other handles |
| `HandleSteps.ReachableSurvives` | include/snuk/interpreter/snuk_scope.h:41-55 | so does everything that a still held handle reaches |
| `HandleSteps.NothingDies` | include/snuk/refcount.h:53-62 | giving up handles to scopes that are otherwise held or owned destroys nothing |
| `HandleSteps.WeakSupportsNothing` | include/snuk/refcount.h:72-84 | weak handles keep no scope alive |
| `Cycles.GainCycle` | include/snuk/interpreter/snuk_scope.h:41-55 | the general step: when a scope comes to own something more, ownership stays free of cycles if and only if it was and nothing newly owned leads back to that scope |
| `Cycles.BindingCycle` | include/snuk/interpreter/snuk_scope.h:126-134 | a new binding closes a cycle if and only if its value leads back to the scope |
| `Cycles.OverwriteCycle` | include/snuk/interpreter/snuk_env.h:33-36 | overwriting a binding: the same, in the heap without the old value |
| `Cycles.ParentCycle` | include/snuk/interpreter/snuk_scope.h:91-99 | a parent closes a cycle if and only if the handle is strong and the parent leads to the scope |
| `Cycles.PrunedCycle` | include/snuk/refcount.h:53-70 | a release leaves a cycle if and only if all of its scopes survive |
| `Cycles.SelfMustBeWeak` | src/interpreter/interpreter.c:771-779 | binding `self` keeps ownership acyclic if and only if it was, the handle is weak, and the type does not lead to its own instance |
| `Cycles.AssignmentIsSafe` | include/snuk/interpreter/snuk_env.h:33-36 | an assignment is safe, that is the scope of the binding outlives the freeing of the old value, if and only if strong handles lead to that scope from a held handle (even by way of the old value), or from a cycle that the old value is not part of |
| `Cycles.AcyclicAssignments` | include/snuk/interpreter/snuk_env.h:33-36 | while ownership has no cycles every assignment to a binding of a live scope is safe |
| `SelfOwnedType.LastAssignment` | include/snuk/interpreter/snuk_env.h:33-36 | a whole program, run operation by operation: a type stores itself in its own member, is forgotten, and a method of it assigns that member; the lookup finds a live scope, and the assignment destroys it before it writes |
| `SelfOwnedType.FindsType` | include/snuk/interpreter/snuk_scope.h:113-124 | in that heap the lookup of `x` from the running call finds the type, through a weak parent |
| `SelfOwnedType.NobodyOwns` | include/snuk/interpreter/snuk_env.h:33-36 | and without the old value of `x` the type does not survive |
| `MethodValues.FunctionSupports` | src/interpreter/snuk_value.c:6-18 | in every heap a function value keeps alive what a handle to its closure keeps alive, or nothing when it holds the closure weakly; its instance makes no difference, for native functions either |
| `MethodValues.InstanceSupports` | src/interpreter/snuk_value.c:27-33 | in every heap a type or instance value keeps alive what its type's scope keeps alive, and its own scope exactly when it is not weak |
| `MethodValues.InstancesKeepNothing` | src/interpreter/snuk_value.c:12-13 | taking the instances out of all functions bound anywhere in the heap changes nothing about which scopes survive |
| `MethodValues.MethodOutlives` | src/interpreter/interpreter.c:1290-1296 | a whole program, run operation by operation: `var f = o.m; o = null` destroys the instance while `f` and its closure stay, and the callee of `f()` cannot retain it any more |
| `Tangles.StepToParent` | include/snuk/interpreter/snuk_scope.h:113-124 | as long as no binding leads to an open scope, strong handles lead to one by steps to parents alone |
| `Tangles.BindJudged` | src/interpreter/interpreter.c:167-175 | binding a value in the open scope where it was made closes a cycle of new scopes if and only if the value leads there; otherwise all stays fine |
| `Tangles.CloseJudged` | include/snuk/interpreter/snuk_scope.h:76-81 | downgrading the parent of a scope that is being closed breaks no cycle, and leaves everything fine |
| `Tangles.BlockValue` | src/interpreter/interpreter.c:533-567 | what a block's value leads to once the block is closed: the outer scopes by way of its parent, or nothing after a downgrade |
| `Tangles.NothingNew` | include/snuk/refcount.h:53-70 | with nothing new held and no cycle among the new scopes, none of them is left |
| `ScopeWork.NamedCycle` | src/interpreter/interpreter.c:854-894 | what evaluating and then naming a value does to cycles, exactly |
| `ScopeWork.ObjectBack` | src/interpreter/interpreter.c:854-894 | the value of a function or type leads back to where it was made if and only if its parent is strong or something bound in it leads back |
| `ScopeWork.FunctionExamples` | src/interpreter/interpreter.c:854-894 | `fn(f = fn() {}) {}` and `{ var g = fn() {} }` leak, `fn(x = 1) {}` and `{ fn() {} }` do not |
| `ScopeWork.TypeExamples` | src/interpreter/interpreter.c:700-731 | a type does not leak because of its methods, but does when a method has a function as default |
| `Lifetimes.DanglingExactly` | include/snuk/interpreter/snuk_scope.h:113-124 | a lookup reads a freed scope if and only if the parent chain comes to a dead scope before it comes to the name |
| `Lifetimes.AliveMeansSafe` | include/snuk/interpreter/snuk_scope.h:113-124 | the whole parent chain of a scope is alive if and only if no lookup from it, of any name, reads a freed scope |
| `Lifetimes.ParentsAndChains` | include/snuk/interpreter/snuk_scope.h:113-124 | every live scope has a live chain if and only if no live scope has a dead parent |
| `Lifetimes.ReleaseKeepsParents` | include/snuk/refcount.h:53-70 | a release leaves no live scope with a dead parent if and only if no surviving scope has a weak parent that dies |
| `Lifetimes.WeakParentStays` | include/snuk/refcount.h:53-70 | a weakly held parent survives if and only if something that survives, or the outside, owns it |
| `Lifetimes.HeldScopeSupports` | include/snuk/refcount.h:53-70 | a scope held from outside keeps alive exactly what its own handles would keep if they were held from outside |
| `Lifetimes.ParentOfKeptClosure` | src/interpreter/interpreter.c:881-984 | when a closure is held and everything else that held its defining scope is released, that scope survives if and only if the closure's parent was not downgraded or something else keeps it |
| `Lifetimes.KeptClosureLookup` | src/interpreter/interpreter.c:881-984 | from then on a name means to the closure what it means to its parent, or dangles, exactly according to that condition |
| `Lifetimes.WalkIsFindUp` | include/snuk/interpreter/snuk_scope.h:113-124 | a lookup that reads no freed scope finds what it finds in the interpreter's store, which never frees |
| `Lifetimes.DanglingIsDeadRead` | include/snuk/interpreter/snuk_scope.h:113-124 | it dangles if and only if one of the scopes the interpreter's lookup reads is dead |
| `Lifetimes.StrongParentsLive` | include/snuk/refcount.h:39-84 | in every heap that the counters describe a strongly held parent is alive |
| `Lifetimes.WeakReadsDecide` | include/snuk/interpreter/snuk_scope.h:113-124 | in every such heap a lookup from a live scope dangles if and only if one of the scopes it reaches through a weak parent handle is dead: the interpreter's questions are the right ones |
| `RefCount.Heap.constructor` | include/snuk/refcount.h:20-32 | the empty heap satisfies the invariant |
| `RefCount.Heap.Retain` | include/snuk/refcount.h:39-44 | gives one more strong handle to a live scope, nothing for a dead one; the invariant (conservation, liveness, exactly-once) holds again |
| `RefCount.Heap.RetainWeak` | include/snuk/refcount.h:46-51 | one more weak handle, on any record that exists |
| `RefCount.Heap.ReleaseWeak` | include/snuk/refcount.h:72-84 | gives one weak handle back and frees the record exactly when both counts reach zero |
| `RefCount.Heap.Release` | include/snuk/refcount.h:53-70 | after the whole re-entrant cascade exactly the scopes supported by the remaining handles are left, unchanged, and the invariant holds |
| `RefCount.Heap.ReleaseWithin` | include/snuk/refcount.h:53-70 | one step of the cascade while other scopes are dying: it terminates, gives up just its handle and touches no scope that must be kept |
| `RefCount.Heap.LastRelease` | include/snuk/refcount.h:53-70 | the finalizer runs before the last decrement, so weak handles inside the dying scope cannot free its record early |
| `RefCount.Heap.DestroyScope` | include/snuk/interpreter/snuk_scope.h:41-55 | the finalizer gives up every handle of the dying scope exactly once |
| `RefCount.Heap.DestroyContents` | include/snuk/interpreter/snuk_scope.h:41-55 | the same for the bindings and then the parent |
| `RefCount.Heap.DestroyEnvs` | include/snuk/interpreter/snuk_scope.h:24-28 | the loop over the bindings gives up each binding's handles once |
| `RefCount.Heap.FreeValueWithin` | src/interpreter/snuk_value.c:47-78 | freeing a value inside a cascade gives up exactly the handles it carries; what each kind of value supports is `MethodValues.FunctionSupports` and `InstanceSupports` |
| `RefCount.Heap.ReleaseLinkWithin` | include/snuk/interpreter/snuk_scope.h:50-53 | a strong or weak link inside a cascade |
| `RefCount.Heap.FreeValue` | src/interpreter/snuk_value.c:47-78 | freeing a value that a C variable owns leaves exactly the supported scopes |
| `RefCount.Heap.CopyValue` | src/interpreter/snuk_value.c:6-45 | a copy holds exactly the handles of the original once more; which handles those are is pinned by `MethodValues` |
| `RefCount.Heap.CreateScopeObject` | include/snuk/interpreter/snuk_scope.h:66-74 | a new scope with one handle consumes the parent handle; parents stay older than their children, here and in every operation below |
| `RefCount.Heap.SetParent` | include/snuk/interpreter/snuk_scope.h:91-99 | the old parent handle is released, the given one moves into the scope |
| `RefCount.Heap.ReleaseParent` | include/snuk/interpreter/snuk_scope.h:83-89 | the parent handle is given up and only what it alone supported disappears |
| `RefCount.Heap.DowngradeParent` | include/snuk/interpreter/snuk_scope.h:76-81 | a strong parent handle becomes weak; only what it alone supported disappears |
| `RefCount.Heap.AddEnv` | include/snuk/interpreter/snuk_scope.h:126-134 | a binding is appended if its name is new, otherwise its value is freed |
| `RefCount.Heap.RemoveEnv` | include/snuk/interpreter/snuk_scope.h:136-147 | the first binding of the name is removed and its value freed |
| `RefCount.Heap.AssignValue` | include/snuk/interpreter/snuk_env.h:33-36 | the old value is freed, then a copy of the new one stored, if and only if the scope survives the freeing of the old value; otherwise scope and binding are gone before the write |
| `RefCount.Heap.Lookup` | include/snuk/interpreter/snuk_scope.h:104-111 | the position of the first binding of the name, or the number of bindings |
| `RefCount.Heap.PushScope` | include/snuk/interpreter/interpreter_helper.h:37-42 | the current scope's handle moves into its new child |
| `RefCount.Heap.PopScope` | include/snuk/interpreter/interpreter_helper.h:44-53 | the parent becomes current and the popped scope is released |
| `RefCount.Heap.Evaluate` | src/interpreter/interpreter.c:1093-1191 | the scope work of literals, names, functions with defaults, types with members, instances and blocks, nested in any way: the invariant is kept, the scopes that existed stay as they were, and new scopes end up in a cycle whenever the static predicate `Leaks` says so, and otherwise none do |
| `RefCount.Heap.RunObject` | src/interpreter/interpreter.c:854-894 | function and type expressions: the new scope binds exactly the declared names, its parent is downgraded exactly when asked, and the value leads to the outer scopes by its parent or not at all |
| `RefCount.Heap.BindSlots` | src/interpreter/interpreter.c:857-865 | the loop over parameters or members, each evaluated in the new scope, bound and freed |
| `RefCount.Heap.EvalSlot` | src/interpreter/interpreter.c:1041-1091 | one parameter, member or block item: a cycle is closed exactly when its value is stored in the scope it keeps alive |
| `RefCount.Heap.RunInstance` | src/interpreter/interpreter.c:733-795 | instances: the type is kept, members and a weak `self` are bound, and no cycle is closed by them |
| `RefCount.Heap.BindSelf` | src/interpreter/interpreter.c:771-779 | `self` is a copy whose own handle is weak, and binding it closes no cycle |
| `RefCount.Heap.RunBlock` | src/interpreter/interpreter.c:533-567 | blocks: the scopes that existed are untouched, the block's scope is released, and the value keeps exactly what it owns |
| `RefCount.Heap.RunItems` | src/interpreter/interpreter.c:538-557 | the loop over the items, each value freed before the next |
| `RefCount.Heap.LeaveScope` | src/interpreter/interpreter.c:559-564 | leaving a scope retains it around the pop and downgrades its parent when asked |
| `RefCount.Heap.EvaluateNamed` | src/interpreter/interpreter.c:854-894 | an expression that names its value keeps ownership acyclic if and only if it was, nothing leaks, and the value does not lead back to the scope where the name is bound |
| `RefCount.Heap.MakeFunction` | src/interpreter/interpreter.c:854-894 | for a function expression, defaults evaluated in the closure scope: acyclic afterwards if and only if before, no default stores a function there, and without a name, or with the parent downgraded and nothing in the closure leading back; with plain defaults the heap is exactly the one `WithClosure` describes |
| `RefCount.Heap.EvaluateAndFree` | src/interpreter/interpreter.c:533-567 | any such expression evaluated for its effect restores the heap if and only if it does not leak, and leaving scopes behind is the same as leaving a cycle |
| `RefCount.Heap.BlockDeclaring` | src/interpreter/interpreter.c:533-567 | a block around a bare function, type or instance restores the heap if and only if that has no name |
| `RefCount.Heap.DefaultFunctionLeaks` | src/interpreter/interpreter.c:855-861 | `fn(f = fn() {}) {}` leaves a cycle behind, without a name and with its parent downgraded |
| `RefCount.Heap.LookupRecursive` | include/snuk/interpreter/snuk_scope.h:113-124 | the loop up the parents finds the name, reaches the end, or comes to a freed scope, exactly as `Walk` says |
| `RefCount.Heap.ArgumentScopeEnds` | src/interpreter/interpreter.c:946-984 | the parameter scope of a call is given up while a closure made in it is still held: exactly the supported scopes stay, and a lookup from the closure dangles if and only if the parameter scope is not among them |
| `RefCount.Heap.ReturnedArgumentDangles` | src/interpreter/interpreter.c:946-984 | the smallest program in which that happens: a name bound in the live global scope dangles from a live closure |
| `Types.TypeEqual` | src/parser/snuk_type.c:99-142 | decides identity of type trees through its loops over parameters and members, hence an equivalence relation |
| `Interpreter.SnukInterpreter.constructor` | src/interpreter/interpreter.c:53-74 | the initial state is idle; its store holds the builtin types, is good and respects all annotations |
| `Interpreter.SnukInterpreter.Error` | include/snuk/interpreter/interpreter_helper.h:8-16 | panic mode is entered and the first error kept |
| `Interpreter.SnukInterpreter.PushScope` | include/snuk/interpreter/interpreter_helper.h:37-42 | a fresh scope below the current one becomes current |
| `Interpreter.SnukInterpreter.PopScope` | include/snuk/interpreter/interpreter_helper.h:44-53 | the parent becomes current |
| `Interpreter.SnukInterpreter.ReadScope` | include/snuk/interpreter/snuk_scope.h:7-8 | a scope reached through a weak handle is recorded, and `lost` is set if and only if it is dead by then; other scopes are read as they are |
| `Interpreter.SnukInterpreter.RetainInstance` | src/interpreter/interpreter.c:905-911 | the callee's instance is in force for the call, or none if it has died by then |
| `Interpreter.SnukInterpreter.ScopeLookup` | include/snuk/interpreter/snuk_scope.h:104-111 | the loop finds the first binding of the name |
| `Interpreter.SnukInterpreter.GoToParent` | include/snuk/interpreter/snuk_scope.h:117 | a parent held weakly is asked for, unless it is the global scope |
| `Interpreter.SnukInterpreter.LookupRecursive` | include/snuk/interpreter/snuk_scope.h:113-124 | the nearest scope on the parent chain that has the name; the lookup is lost if and only if one of the scopes it reaches through a weak parent handle is dead |
| `Interpreter.SnukInterpreter.InterpreterLookup` | include/snuk/interpreter/interpreter_helper.h:24-35 | with an instance: the current scope, then the instance, then the chain |
| `Interpreter.SnukInterpreter.CheckType` | src/interpreter/interpreter.c:95-151 | accepts exactly the values to which `Conformance.CheckDecides` gives a meaning, interfaces member by member; what it accepts respects the annotation for good, also after an error |
| `Interpreter.SnukInterpreter.CreateEnv` | src/interpreter/interpreter.c:167-175 | declares a checked binding in the current scope, or fails |
| `Interpreter.SnukInterpreter.SetEnv` | src/interpreter/interpreter.c:159-165 | overwrites the binding the lookup finds when the value fits its annotation; a scope reached through a weak handle must outlive the freeing of the old value |
| `Interpreter.SnukInterpreter.SetMemberEnv` | include/snuk/interpreter/interpreter_helper.h:74-96 | overwrites a member of an instance or type when the value fits; likewise for an instance held weakly, by `self` |
| `Interpreter.SnukInterpreter.ExecuteBlock` | src/interpreter/interpreter.c:533-567 | refines the reference block: items until an abrupt outcome, the captured signals become the value, `current` is restored; the block's parent is downgraded exactly when `weak_ref` asks |
| `Interpreter.SnukInterpreter.ExecuteIf` | src/interpreter/interpreter.c:569-588 | refines the reference conditional |
| `Interpreter.SnukInterpreter.ExecuteWhile` | src/interpreter/interpreter.c:590-638 | the loop with its signal flag refines the recursive loop, for which `LoopRules` proves the invariant rule and both unfoldings: `break` and `continue` stay inside, `return` leaves |
| `Interpreter.SnukInterpreter.ExecuteFor` | src/interpreter/interpreter.c:640-698 | refines the reference loop in its own scope, which is popped on every path without error |
| `Interpreter.SnukInterpreter.ExecuteForLoop` | src/interpreter/interpreter.c:652-687 | the rounds of the loop, with condition, body and update in that order |
| `Interpreter.SnukInterpreter.ExecuteUnary` | src/interpreter/interpreter.c:195-242 | refines the reference unary operation |
| `Interpreter.SnukInterpreter.ExecuteBinary` | src/interpreter/interpreter.c:994-1039 | refines the reference: `or` and `and` evaluate the right operand only when needed |
| `Interpreter.SnukInterpreter.ExecuteCompound` | src/interpreter/interpreter.c:797-852 | reads, combines and writes back the named binding |
| `Interpreter.SnukInterpreter.ExecuteAssign` | src/interpreter/interpreter.c:1193-1217 | refines assignment to a name or to a member |
| `Interpreter.SnukInterpreter.ExecuteFn` | src/interpreter/interpreter.c:854-894 | refines the reference: default values are evaluated in the closure scope, the value is bound if named; the closure's parent is downgraded exactly when `weak_ref` asks |
| `Interpreter.SnukInterpreter.ExecuteType` | src/interpreter/interpreter.c:700-731 | refines the reference type declaration; the parent is downgraded exactly when `weak_ref` asks |
| `Interpreter.SnukInterpreter.ExecuteInst` | src/interpreter/interpreter.c:733-795 | refines the reference instance creation: members in the instance scope, initializers, then a weak `self`; the parent is downgraded exactly when `weak_ref` asks |
| `Interpreter.SnukInterpreter.ExecuteMemberGet` | src/interpreter/interpreter.c:1219-1301 | refines member access, with primitives boxed and methods bound to the instance |
| `Interpreter.SnukInterpreter.ExecuteExtend` | src/interpreter/interpreter.c:1303-1321 | refines adding members to a type |
| `Interpreter.SnukInterpreter.ExecutePrint` | src/interpreter/interpreter.c:515-531 | refines evaluating and showing the printed expressions in order, with the scopes that showing reads |
| `Interpreter.SnukInterpreter.PrintValue` | src/interpreter/interpreter.c:454-513 | what is shown of a value, with the fields of instances and their values except `self`; the scopes it reads may be dead only when held weakly |
| `Printing.FieldsShown` | src/interpreter/interpreter.c:495-513 | an instance is shown with exactly its bindings other than `self`, in their order, each with its name, its annotation and what its value shows |
| `Laws.AssignThenRead` | src/interpreter/interpreter.c:159-165 | after an assignment the name has the new value and every other name the value it had, wherever they are found |
| `Laws.DeclareThenRead` | src/interpreter/interpreter.c:167-175 | the same for a declaration |
| `Laws.MemberWriteThenRead` | include/snuk/interpreter/interpreter_helper.h:74-96 | the same for the members of a type or instance; a member that an instance has only from its type is written to the instance, and the type keeps its own |
| `Laws.AssignedIsRead` | src/interpreter/interpreter.c:1193-1217 | `x = e` and then `x` gives the value of `e` |
| `Laws.CompoundIsAssignment` | src/interpreter/interpreter.c:834-851 | `x += e` and the other compound assignments are `x = x + e`, as the code builds them: the same value, store and errors |
| `Laws.FalseValues` | include/snuk/interpreter/snuk_value.h:86-110 | the values that count as false are null, unknown, false, zero, the empty string, errors and interfaces, and no others |
| `Laws.LeftDecides` | src/interpreter/interpreter.c:994-1030 | `true or b` and `false and b` do not evaluate `b` |
| `Laws.DeMorgan` | src/interpreter/interpreter.c:994-1030 | `not (a and b)` is `not a or not b`, with everything that evaluating the operands does |
| `Laws.ItemsInOrder` | src/interpreter/interpreter.c:538-557 | the items of a block run from left to right, the later ones only when no signal or error has ended it |
| `Laws.PrintsInOrder` | src/interpreter/interpreter.c:515-531 | printing literals adds what is shown of them behind the earlier output, in the order of the list |
| `Laws.BreakGivesValue` | src/interpreter/interpreter.c:533-567 | `break` with a value gives that value to the loop or bare block it leaves |
| `Laws.SignalsAreErrors` | src/interpreter/interpreter.c:640-655 | a signal raised by the initializer of a `for`, or by a member of a type, is an error and nothing else |
| `Laws.ExtendBindsInType` | src/interpreter/interpreter.c:1303-1321 | a member that `extend` declares is evaluated and bound in the scope of the type and nowhere else, and is then a member of the type |
| `Laws.NamesAreLexical` | src/interpreter/interpreter.c:965-984 | a function that returns a name which is no parameter returns what the name means where the function was made, whatever it means to the caller |
| `Laws.ValueOfPrimitive` | src/interpreter/interpreter.c:1219-1287 | `.value` of a number, a truth value or a string gives it back, by way of a throw-away instance |
| `LoopRules.IfRule` | src/interpreter/interpreter.c:569-588 | for every property of stores: the first branch starts where the test has come out true, the other branch, or the end, where it has come out false |
| `LoopRules.WhileRule` | src/interpreter/interpreter.c:590-638 | the invariant rule: when every round that follows a true test keeps a property, a loop started with it ends by `break` from a round, by `return` from a round, or in a store in which the test, from a store with the property, came out false |
| `LoopRules.DoWhileRule` | src/interpreter/interpreter.c:590-638 | the same for a loop whose first round comes without a test |
| `LoopRules.ForRule` | src/interpreter/interpreter.c:640-698 | the same with an initializer and an update, in the loop's own scope; an absent test counts as true |
| `LoopRules.EndlessFor` | src/interpreter/interpreter.c:652-687 | without a test, and without `break` in its body, a `for` never ends normally |
| `LoopRules.DoIsBodyThenWhile` | src/interpreter/interpreter.c:590-638 | `do { b } while t` is `{ b }` and then `while t { b }`, up to the value and one unit of fuel, either way round |
| `LoopRules.WhileUnfolds` | src/interpreter/interpreter.c:590-638 | `while t { b }` is `if t { b; while t { b } }`, likewise |
| `Conformance.CheckDecides` | src/interpreter/interpreter.c:95-151 | the check of an annotation says yes, with some fuel, exactly to the values that conform, a notion with quantifiers over members that does not mention the check |
| `Conformance.InterfaceMeansMembers` | src/interpreter/interpreter.c:129-145 | a type or instance conforms to an interface if and only if every member is bound in the instance or else in its type, first binding first, and its value conforms in turn |
| `Conformance.MissingMember` | src/interpreter/interpreter.c:135-138 | with a member missing the answer is never yes, whatever the fuel, and no when it is the first one |
| `Conformance.TypeWithoutMember` | src/interpreter/interpreter.c:95-145 | `interface S { area: any }`, `type T {}`, `var s: S = T`, run from the builtin types, is refused at the declaration |
| `Conformance.TypeWithMember` | src/interpreter/interpreter.c:95-145 | and succeeds, with exactly this store, when `T` declares `area` |
| `Printing.PrintingEnds` | src/interpreter/interpreter.c:495-513 | printing a value ends, with enough fuel, if and only if no chain of instances containing each other leads from it to one instance twice |
| `Printing.SelfContained` | src/interpreter/interpreter.c:495-513 | so an instance that is its own member can never be printed |
| `Interpreter.SnukInterpreter.ExecuteCall` | src/interpreter/interpreter.c:896-992 | refines the call: the callee, then what `Invoke` does |
| `Interpreter.SnukInterpreter.Invoke` | src/interpreter/interpreter.c:905-991 | arguments in the half-filled parameter scope with the callee's instance, the body below it, and `current` and `instance` back as before |
| `Interpreter.SnukInterpreter.EnterClosure` | src/interpreter/interpreter.c:965-974 | the parameter scope leaves the caller's scope and goes below the closure |
| `Interpreter.SnukInterpreter.BindParameters` | src/interpreter/interpreter.c:912-963 | refines the binding of arguments and defaults, with its failure cases |
| `Interpreter.SnukInterpreter.PassArguments` | src/interpreter/interpreter.c:921-950 | the loop over the arguments refines the recursive binding |
| `Interpreter.SnukInterpreter.UseDefaults` | src/interpreter/interpreter.c:954-963 | the loop over the parameters fills in what the arguments left out |
| `Interpreter.SnukInterpreter.ExecItem` | src/interpreter/interpreter.c:1041-1091 | every item refines its reference meaning; `return`, `break` and `continue` raise the signal with their value |
| `Interpreter.SnukInterpreter.EvalExpr` | src/interpreter/interpreter.c:1093-1191 | every well-formed expression, whatever scopes die and whenever: as long as every scope reached through a weak handle is alive when it is used, and no error occurs, the flag, value, store, `current` and `instance` are those of the reference outcome; an error occurs exactly when the reference fails, and it is that error; annotations are respected in any case |
| `Interpreter.SnukInterpreter.ExecTopItem` | src/interpreter/interpreter.c:177-186 | a top-level item that leaves a signal is an error, and the signal and panic mode stay; any other item leaves the interpreter ready for the next one, with the result or the error of the reference |
| `Interpreter.SnukInterpreter.RunAll` | repl/runtime.c:11-22 | a run that goes on after failed items, from any state between items: every binding respects its annotation afterwards if it did before; a run without failures is the reference run |
| `Reference.Eval` | src/interpreter/interpreter.c:1093-1191 | only the signals the static rule allows leave an expression, no existing scope loses its place or parent, and every stored value respects its annotation |
| `Reference.EvalItem` | src/interpreter/interpreter.c:1041-1091 | the same for items |
| `Reference.EvalBlock` | src/interpreter/interpreter.c:533-567 | the same for blocks: the scope chain seen afterwards is the one seen before |
| `Reference.EvalCall` | src/interpreter/interpreter.c:896-992 | no signal leaves a call |
| `Scoping.SignalDiscipline` | src/interpreter/interpreter.c:590-698 | calls let no signal out, loops at most `return`, bare blocks never `break` |
| `Scoping.BlockLocal` | src/interpreter/interpreter.c:533-567 | a block adds or removes no name in any plain scope that existed before |
| `OuterNames.BlockKeepsNames` | src/interpreter/interpreter.c:533-564 | a block without member assignments, extensions and calls: every scope that existed before, those of types and instances included, has exactly the same names after it, whichever way the block ends |
| `OuterNames.ExpressionFixes` | src/interpreter/interpreter.c:1093-1191 | an expression of that kind adds names to the current scope alone |
| `Scoping.ExpressionLocal` | src/interpreter/interpreter.c:1093-1191 | nor does an expression that declares nothing |
| `Scoping.RunIsGood` | src/interpreter/interpreter.c:177-186 | every run without a failed item, from any good store, keeps the store invariant |
| `Scoping.AnnotationsHold` | src/interpreter/interpreter.c:95-175 | annotation safety, binding by binding: one annotated with a builtin or function type never holds a primitive of another kind, nor anything but null, unknown or a function of that very type; `RunAll` keeps this over all runs, failed items included |
| `Scoping.FieldHidesParameter` | include/snuk/interpreter/interpreter_helper.h:24-35 | for every call of a method that binds its parameters: where the body starts, a parameter's name means the parameter if and only if the instance does not have the name or has died before the call |
| `Scoping.MethodReturnsField` | include/snuk/interpreter/interpreter_helper.h:24-35 | so a method that returns its parameter returns the field of that name, whatever the argument, while the instance lives |
| `FieldHiding.MethodStoreReached` | src/interpreter/interpreter.c:700-795 | the store of that call is the one that the program declaring the type and the instance leaves, starting from the builtin types |
| `FieldHiding.FieldWins` | include/snuk/interpreter/interpreter_helper.h:24-35 | a concrete type, instance and call: `o.get(7)` returns the field's 5 while the instance lives, and 7, without the instance, when it has died before the call |
| `CallBinding.CallBindsParameters` | src/interpreter/interpreter.c:912-963 | a successful call binds exactly the parameter names, each once and type-checked: argument `j` makes the `j`-th binding, with the value it has in the store the earlier arguments left, kept unless a later argument can write; the others get their default, which exists |
| `CallBinding.ArgumentBinds` | src/interpreter/interpreter.c:921-950 | one argument adds one binding: its parameter's name and annotation, and its own value |
| `CallBinding.ArgumentHasValue` | src/interpreter/interpreter.c:921-950 | the value of argument `j` is still bound after all arguments when no later one can write |
| `CallBinding.WriteFreeTouchesNothing` | src/interpreter/interpreter.c:1093-1191 | an expression without assignments, calls, blocks and declarations leaves every existing scope as it is |
| `CallBinding.LaterArgumentOverwrites` | src/interpreter/interpreter.c:946-950 | a concrete call in which a later argument overwrites an earlier parameter, so the condition is needed |
| `CallBinding.ArgumentsBind` | src/interpreter/interpreter.c:921-950 | the arguments bind different parameters, in order, and leave the other bindings alone |
| `CallBinding.DefaultsFill` | src/interpreter/interpreter.c:954-963 | defaults only add the missing parameters, each to a given value |
| `CallBinding.BadArgumentsFail` | src/interpreter/interpreter.c:919-963 | too many arguments, a named argument anywhere that no parameter has, and a parameter that nothing fills fail with their own errors |
| `CallBinding.RepeatedArgumentFails` | src/interpreter/interpreter.c:946-950 | a second argument for a parameter that is bound already fails, wherever it stands |
| `LetStar.Coincidence` | src/interpreter/interpreter.c:994-1039 | the value of an operator expression depends only on its free names |
| `LetStar.SequentialIsSimultaneous` | src/interpreter/interpreter.c:921-950 | evaluating arguments one after the other in the growing parameter scope is evaluating them all in the caller's scope and then binding them, failures included, when none mentions an earlier parameter |
| `LetStar.EarlierArgumentIsSeen` | src/interpreter/interpreter.c:946-950 | a concrete call in which an argument does see the earlier parameter, so the condition is needed |
| `Fuel.EvalMore` | src/interpreter/interpreter.c:1093-1191 | more fuel never changes an outcome that is not running out of fuel |
| `Fuel.BlockMore` | src/interpreter/interpreter.c:533-567 | the same for blocks |
| `GrammarTheorems.ParserDecidesGrammar` | src/parser/snuk_expr.c:359-440 | at every precedence the parser returns a tree and a rest if and only if the tree is in the grammar, yields the tokens taken, binds tightly enough and would not have taken the next token: soundness and completeness |
| `GrammarTheorems.Unambiguous` | src/parser/snuk_expr.c:244-320 | one token list has one reading |
| `GrammarTheorems.ProgramDecidesGrammar` | src/parser/parser.c:41-46 | a whole text is accepted if and only if it is the yield of a list of grammatical items |
| `GrammarTheorems.Complete` | src/parser/snuk_expr.c:359-376 | reading any grammatical tree brings the climbing loop to the point where it holds that tree |
| `OperatorGroups.LaterBindsTighter` | src/parser/snuk_expr.c:16-35 | the ten groups of binary operators, written out loosest first, are the levels of the table: a later group is a higher level, and each operator is in one group |
| `OperatorGroups.FlatIsNested` | src/parser/snuk_expr.c:359-425 | operators and atoms in turn, any number of them, are read by the groups alone: split at the last operator of the loosest group there is, and so on within |
| `OperatorGroups.TwoOperators` | src/parser/snuk_expr.c:244-320 | `a o b p c` is `a o (b p c)` if and only if `p` is of a later group than `o`, otherwise `(a o b) p c` |
| `OperatorGroups.UnaryBindsTighter` | src/parser/snuk_expr.c:16-35 | `-a o b` is `(-a) o b` for every unary and every binary operator |
| `OperatorGroups.CallsBindTightest` | src/parser/snuk_expr.c:16-35 | `a o b.f(c)` and `-b.f(c)` take the call as operand |
| `OperatorGroups.AssignmentIsLoosest` | src/parser/snuk_expr.c:16-35 | `a = b o c` assigns the operation, and `a o b = c` assigns to it |
| `OperatorGroups.AssignmentsNestRight` | src/parser/snuk_expr.c:427-430 | `a = b = c` is `a = (b = c)` |
| `OperatorGroups.CompoundIsLoosest` | src/parser/snuk_expr.c:432-440 | `x += b o c` and `x += y += c` likewise |
| `StatementForms.IfForms` | src/parser/snuk_expr.c:442-456 | the tree of `if a { b; } else { c; }`, and of `if a { b; }` where no `else` follows |
| `StatementForms.WhileForms` | src/parser/snuk_expr.c:463-479 | the trees of `while a { b; }` and `do { b; } while a` |
| `StatementForms.ForForm` | src/parser/snuk_expr.c:481-550 | the tree of `for x; a; u { b; }` |
| `StatementForms.ForVarForm` | src/parser/snuk_expr.c:481-550 | the tree of `for var n = x; a; u { b; }` |
| `StatementForms.ShortForms` | src/parser/snuk_expr.c:481-550 | the trees of `for a { b; }` and `for ; ; { b; }` |
| `StatementForms.ListForms` | src/parser/snuk_expr.c:587-601 | the trees of `[a, b]`, `[a, b, ]`, `f(a, b)` and `(a)` |
| `StatementForms.DeclarationForms` | src/parser/snuk_item.c:89-95 | the items `var n = a;`, `const n = a;` and `var n` at a line end |
| `StatementForms.FlowForms` | src/parser/snuk_item.c:97-107 | the items `return a;`, `break;` and `continue` |
| `StatementForms.PrintForm` | src/parser/snuk_item.c:109-117 | the item `print a, b;` |
| `Printer.RoundTrip` | src/parser/snuk_expr.c:359-440 | parsing the printed form of any tree gives that tree and stops exactly at its end |
| `Printer.AbstractTreesAreParsed` | src/parser/snuk_expr.c:359-440 | the trees the parser builds are exactly the printable ones |
| `Printer.PrinterIsMinimal` | src/parser/snuk_expr.c:16-35 | no grammatical way of writing a tree takes fewer tokens than the printed one |
| `Printer.PrintInGrammar` | src/parser/snuk_expr.c:244-320 | the printed form is in the grammar and stands for the tree |
| `GrammarParser.ParseAt` | src/parser/snuk_expr.c:359-376 | what is read is grammatical, its yield is the tokens taken, and at least one token is used |
| `GrammarParser.Climb` | src/parser/snuk_expr.c:370-373 | the infix loop keeps a grammatical left operand that does not reach over the next operator |
| `GrammarParser.ItemAt` | src/parser/snuk_item.c:66-117 | the same for items |
| `GrammarParser.Program` | src/parser/parser.c:41-46 | the items of a whole text yield exactly the text |
| `Parser.SnukParser.constructor` | src/parser/parser.c:6-17 | the window holds the first tokens; an error token panics at once |
| `Parser.SnukParser.Advance` | include/snuk/parser/parser_common.h:17-22 | one token on; panic exactly when an error token becomes current |
| `Parser.SnukParser.Match` | include/snuk/parser/parser_common.h:57-61 | takes the token if and only if it is current |
| `Parser.SnukParser.ExpectToken` | include/snuk/parser/parser_common.h:71-73 | panics if and only if the token is not there or an error token follows |
| `Parser.SnukParser.ExpectItemEnd` | include/snuk/parser/parser_common.h:99-101 | the same for item ends |
| `Parser.SnukParser.ParsePrecedence` | src/parser/snuk_expr.c:359-376 | in any state it terminates and uses up a token; not panicking, it panics if and only if the pure parser fails, and otherwise builds its tree and stops at the same token; an earlier error stays the one reported; nothing is read through a null pointer without an error before, and something is when a compound assignment to no name is followed by another, or one stands behind `()` |
| `Parser.SnukParser.ClimbOnce` | src/parser/snuk_expr.c:370-373 | one round of the climbing loop; where the left operand comes from says whether it is null |
| `Parser.SnukParser.RunPrefix` | src/parser/snuk_expr.c:378-412 | each prefix rule likewise |
| `Parser.SnukParser.RunInfix` | src/parser/snuk_expr.c:414-440 | each infix rule likewise, a compound assignment only to a plain name; the null pointer is read if and only if the rule is a compound assignment and its left operand was left by a failed one just before in the same loop, or by a prefix rule that built no tree |
| `Parser.SnukParser.ParseCompound` | src/parser/snuk_expr.c:432-440 | no tree if and only if the left operand is no plain name, and then nothing is taken |
| `Parser.DoomedExamples` | src/parser/snuk_expr.c:359-440 | `1 += += ...` and `() += ...` are such texts, whatever follows |
| `Parser.ReadThroughNull` | src/parser/snuk_expr.c:432-440 | and the parser does read through the null pointer on both |
| `Parser.SnukParser.ParseElements` | src/parser/snuk_expr.c:587-601 | argument and list loops likewise; comparing the latest token with the closing one is a sound test for the end of the file |
| `Parser.SnukParser.ParseItems` | src/parser/snuk_expr.c:702-714 | the block loop likewise |
| `Parser.SnukParser.ParseIf` | src/parser/snuk_expr.c:442-456 | the conditional likewise, with else-if chains |
| `Parser.SnukParser.ParseWhile` | src/parser/snuk_expr.c:463-479 | while and do-while likewise |
| `Parser.SnukParser.ParseFor` | src/parser/snuk_expr.c:481-550 | all five forms of the loop likewise |
| `Parser.SnukParser.ParseItem` | src/parser/snuk_item.c:66-81 | every item likewise, ending behind an item end |
| `Parser.SnukParser.ParseDecl` | src/parser/snuk_item.c:89-95 | a declaration likewise; a missing value is null |
| `Parser.SnukParser.ParseFlow` | src/parser/snuk_item.c:97-107 | return, break and continue likewise |
| `Parser.SnukParser.ParsePrint` | src/parser/snuk_item.c:109-117 | the print loop likewise |
| `Parser.SnukParser.Sync` | src/parser/parser.c:34-39 | recovery takes exactly the tokens up to the first item end, none if it stands behind one, and on text without lexer errors leaves panic mode |
| `Parser.SnukParser.NextItem` | src/parser/parser.c:41-46 | nothing exactly at the end of the file; otherwise at least one token is used, and an item is delivered if and only if the pure parser accepts it; a delivered item read no null pointer |
| `Parser.SnukParser.ParseAll` | repl/runtime.c:11-22 | draining reaches the end within one call per token; no error is delivered if and only if the whole text is in the grammar, and then no null pointer is read |
| `Lexer.VirtualSemicolons` | src/lexer.c:489-518 | on comment-free, well-nested text a virtual semicolon stands between two consecutive tokens if and only if the first can end a statement, no `(` or `[` is open since the innermost `{`, and a newline or `}` follows; only white space lies between |
| `Terminators.ItemEndings` | src/lexer.c:489-518 | the lexer's list against the parser's grammar: a kind of the fragment ends some grammatical item if and only if it is on the list or is `self` |
| `Terminators.NewlineEndsItem` | src/lexer.c:489-518 | behind any grammatical item, at top level or in a block, a virtual semicolon comes if and only if a newline or the block's `}` follows and the item does not end with `self` |
| `Terminators.ItemIsRead` | src/lexer.c:184-207 | a grammatical item leaves the open brackets as they were |
| `Terminators.SelfRunsOn` | src/lexer.c:492-512 | behind `x = self` at a line end there is no semicolon, and the parser refuses what follows on the next line |
| `Spellings.LongestMark` | src/lexer.c:532-613 | the mark that is taken is the longest one whose spelling stands there, and none is taken only where none stands |
| `Spellings.WordsAreSpelled` | src/lexer.c:63-97 | a word is a keyword or value exactly when it is spelled as one, `nan`, `inf` and `infinity` in whatever case; otherwise a name |
| `Lexer.RuleHolds` | src/lexer.c:655-671 | the rule is kept by every delivered token |
| `Lexer.OneTileEach` | src/lexer.c:655-704 | every character lies in exactly one lexeme, gap or comment |
| `Lexemes.FramesMirror` | src/lexer.c:184-207 | on well-nested text no bracket assertion fails and the frame stack mirrors the open brackets |
| `Lexemes.ZeroIsFlat` | src/lexer.c:15-18 | the innermost frame is zero if and only if no `(` or `[` is open since the innermost `{` |
| `Lexemes.ColumnReachesBack` | src/lexer.c:142-157 | a column is the distance back to the latest newline |
| `Lexer.SnukLexer.constructor` | src/lexer.c:622-635 | the initial state satisfies the invariant of the run |
| `Lexer.SnukLexer.Advance` | src/lexer.c:142-157 | line and column follow the cursor |
| `Lexer.SnukLexer.Match` | src/lexer.c:167-171 | takes the character if and only if it is next |
| `Lexer.SnukLexer.ScanWord` | src/lexer.c:262-283 | a word is as long as it can be and a keyword or value only if in the table |
| `Lexer.SnukLexer.ScanNumber` | src/lexer.c:293-394 | an integer with the value of the longest run of digits of its base, a float when a fraction or an exponent follows, and an error exactly for a prefix or exponent without digits or a value out of range |
| `Lexer.SnukLexer.BuildInteger` | src/lexer.c:369-391 | out of range if and only if the value exceeds 2^63 - 1 |
| `Lexer.SnukLexer.ScanString` | src/lexer.c:406-416 | up to the first matching quote, an error exactly when there is none |
| `Lexer.SnukLexer.ScanComment` | src/lexer.c:458-480 | up to the line end, or to the first closing mark; unterminated exactly when there is none |
| `Lexer.SnukLexer.ScanOperator` | src/lexer.c:532-613 | the operator and its length are those of the table of operators |
| `Lexer.SnukLexer.ScanToken` | src/lexer.c:520-620 | the token is the one its first characters call for, with its own position |
| `Lexer.SnukLexer.NextToken` | src/lexer.c:655-704 | every call keeps the run invariant (rule, tiles, position), uses up text unless it delivers a virtual semicolon or the end, and the end is reached within 2n + 1 calls |
| `Numerals.BinaryValue` | src/lexer.c:372-380 | refuses exactly the numbers above 2^63 - 1, for any number of digits, without overflow before that |
| `Numerals.ValueGrows` | src/lexer.c:372-380 | more digits never make a number smaller, which is why refusing early is right |
| `Spellings.HexadecimalForm` | src/lexer.c:308-315 | `0x` or `0X` and hexadecimal digits are one integer with the value of the digits, out of range above 2^63 - 1 |
| `Spellings.BinaryForm` | src/lexer.c:316-324 | `0b` or `0B` and binary digits likewise |
| `Spellings.OctalForm` | src/lexer.c:326-332 | a zero and octal digits likewise |
| `Spellings.DecimalForm` | src/lexer.c:338-340 | decimal digits without a zero in front likewise |
| `Spellings.DigitsStandFor` | src/lexer.c:369-391 | the value of digit strings in each base, on examples |
| `Spellings.PointForm` | src/lexer.c:342-348 | digits, a point and digits, possibly none, are one float |
| `DArray.DArray.constructor` | src/darray.c:42-59 | an empty array of capacity times stride bytes and the padding, whose shift byte leads back to the header |
| `DArray.AlignedNext` | src/darray.c:40 | the next aligned address lies 1 to `align` bytes on |
| `DArray.StaysAligned` | src/darray.c:70-90 | the old shift still fits after the block moves, because blocks are aligned to eight |
| `DArray.DArray.Resize` | src/darray.c:70-90 | the elements are the same in the moved block of the new size, and the shift still leads back to the header |
| `DArray.DArray.Push` | src/darray.c:99-117 | appends, doubling the capacity exactly when full |
| `DArray.DArray.PushAt` | src/darray.c:119-163 | inserts at an index up to the length, or behind a gap of zeros; elements of more than one byte behind the end are not supported by the code |
| `DArray.GapIsFilled` | src/darray.c:135-136 | the number of bytes the code sets for the gap is the length of the gap if and only if elements are single bytes |
| `DArray.GapOverruns` | src/darray.c:135-136 | and is larger than the whole block when the index lies within the bytes of the elements |
| `DArray.DArray.Pop` | src/darray.c:165-179 | removes and returns the last element, if any |
| `DArray.DArray.PopAt` | src/darray.c:181-198 | removes and returns the element at the index |
| `DArray.DArray.Clear` | src/darray.c:200-206 | empties without touching the bytes |
| `DArray.FlatInjective` | src/darray.c:119-163 | the stored bytes determine the elements |
| `Varint.RoundTrip` | src/darray.c:8-35 | reading an encoded number gives it back whatever follows |
| `Varint.EncodeIsDelimited` | src/darray.c:8-18 | only the last byte of an encoding has its top bit clear |
| `Varint.EncodedLength` | src/darray.c:8-18 | a number of seven times n bits takes at most n bytes |
| `Varint.WriteToBytes` | src/darray.c:8-18 | writes exactly the encoding and nothing else |
| `Varint.ReadFromBytes` | src/darray.c:20-35 | reads exactly one encoded number |

## Left out

- Native functions, builtin methods and the members of null: member access on null or on a function fails here.
- Interpreter.SnukInterpreter.constructor: the builtin types have their member `value` only.
- Interpreter.SnukInterpreter.CheckType: native functions are not checked, as there are none.
- Interpreter.SnukInterpreter.ExecuteMemberGet: members of null and native members fail.
- Interpreter.SnukInterpreter.EvalExpr: when weakly held scopes die is not computed from the program; their lifetimes are arbitrary there. No class of programs is singled out that is never lost.
- Interpreter.SnukInterpreter.ExecuteWhile: after an error the C loop may go on for ever, where the model runs out of fuel.
- Interpreter.SnukInterpreter.ExecuteFor: likewise.
- Interpreter.SnukInterpreter.ExecuteForLoop: likewise.
- Interpreter.SnukInterpreter.RunAll: likewise; it goes on with the next item.
- Scoping.RunIsGood: for runs in which no item fails; what later items find after a failure is stated by `RunAll`.
- Scoping.AnnotationsHold: spells the invariant out for one binding; that runs keep it is `RunAll`.
- Arithmetic: operators are an abstract table over mathematical integers and reals; wrap-around, division by zero and the text of printed values are not modelled.
- `match`, indexing, list evaluation, return-type checks and `const` are not implemented by the interpreter and have no meaning here.
- Interface annotations are checked but not claimed to be stable: members can change after the check.
- Scoping.BlockLocal: scopes of types and instances may gain names where members are assigned, types extended or functions called; `OuterNames` covers the blocks that do none of this.
- Scoping.ExpressionLocal: likewise.
- RefCount.Heap.Evaluate: calls, assignments, loops and conditionals are not among its expressions. Names are new where they are bound; one that is taken is an error, after which the code leaves its handles where they are. Where a name is no type the code stops, and the instance has no type here. Values on the trash list are freed at once.
- RefCount.Heap.MakeFunction: likewise, the names are new.
- RefCount.Heap.ArgumentScopeEnds: for a closure without parameters, before the parameter scope moves below the callee.
- RefCount.Heap.ReleaseParent: the handle leaves the scope before it is released, while the C code clears the field afterwards; no step of the cascade can see the difference, as the scope itself is held.
- RefCount.Heap.AssignValue: the old value leaves the binding before it is freed; the difference shows only when the scope dies with it, and then the C code frees the value twice.
- Interpreter.SnukInterpreter.ExecuteCompound: combines and assigns directly, where the code builds a new assignment tree and evaluates it.
- Parser: fn, type and type-instance expressions, type annotations, extend and interface items, match, comments, NaN and infinity are outside the fragment; the fn-parameter, type-body and extend-body loops do not advance on malformed input.
- Parser.SnukParser.RunPrefix: the rules of the fragment only.
- Parser.SnukParser.ParseItem: extend and interface items are missing.
- Parser.SnukParser.ParseDecl: without type annotations.
- Parser trees built while panicking: the code builds trees with null children and drops them; the model returns none, and says apart from that whether the code's pointer is null.
- Parser.ReadThroughNull: that a text makes the parser read through null has a sufficient condition on its tokens (`Doomed`) and a necessary one (an earlier error), not an equivalence; the parser's own log has one.
- Terminators.ItemEndings: for the kinds of the grammar's fragment; annotations, NaN, infinity and comments delivered as tokens are outside it.
- Lexer: `strtoll` is the value of the digits, and whether a float is in range is a parameter; float values are not computed. The text of error tokens and the comments attached to tokens are not recorded.
- Lexer.SnukLexer.NextToken: after a failed bracket assertion the frames are unknown, and nothing is claimed about virtual semicolons from there on, nor once a comment has been seen.
- DArray.DArray.PushAt: behind the end only for elements of one byte; what the code leaves in the gap otherwise is not modelled.
- Varint.WriteToBytes: forward only; backward the code steps by 255 bytes, an unsigned minus one (src/darray.c:10), which shifts of at most eight never do.
- Varint.ReadFromBytes: forward only, for the same reason.
- DArray: allocation succeeds and sizes do not overflow; `memmove` is a copy of bytes read before; the backwards varint is a single byte, which is all that alignments up to eight need; bitwise masking is written as arithmetic.
- Logging, the REPL's input, file I/O, memory allocators and token names.
