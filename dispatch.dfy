/** Command resolution in src/rpnpy/calculator.py: register and registerSpecial, the four
    resolution steps _tryFunction, _tryVariable, _trySpecial and _tryEvalExec (with
    _runFunction), _executeOneCommand, and execute over the commands of one line. */
module Dispatch {
  import opened Text
  import opened Errors
  import ModifierGrammar
  import LineSegmenter
  import opened Values
  import opened Engine
  import opened Specials

  /** The calculator's two registries: _functions and _special. */
  datatype Registry = Registry(functions: map<string, Function>, special: map<string, Special>)

  /** The name register gives a function: the one given unless it is None or empty,
      else the callable's __name__. */
  function RegisteredName(func: Callable, name: Option<string>): string {
    if name.Some? && name.value != "" then name.value else func.name
  }

  /** The module name register gives a function when none (or an empty one) is given. */
  const DefaultModule := "calculator-registered-method"

  function RegisteredModule(moduleName: Option<string>): string {
    if moduleName.Some? && moduleName.value != "" then moduleName.value else DefaultModule
  }

  /** register(func, name, nArgs, moduleName): the arity defaults to countArgs(func, 1);
      a later registration under the same name replaces the earlier one. */
  function Register(reg: Registry, func: Callable, name: Option<string>, nArgs: Option<nat>, moduleName: Option<string>): (r: Registry)
    ensures var n := RegisteredName(func, name);
      && r.functions.Keys == reg.functions.Keys + {n}
      && r.functions[n].func == func && r.functions[n].name == n
      && (nArgs.Some? ==> r.functions[n].nArgs == nArgs.value)
      && (forall k :: k in reg.functions && k != n ==> r.functions[k] == reg.functions[k])
      && r.special == reg.special
  {
    var n := RegisteredName(func, name);
    reg.(functions := reg.functions[n := Function(RegisteredModule(moduleName), n, func, nArgs.GetOr(func.DefaultArity()))])
  }

  /** registerSpecial(func, name) */
  function RegisterSpecial(reg: Registry, sp: Special, name: string): (r: Registry)
    ensures r.special.Keys == reg.special.Keys + {name} && r.special[name] == sp
    ensures forall k :: k in reg.special && k != name ==> r.special[k] == reg.special[k]
    ensures r == reg.(special := r.special)
  {
    reg.(special := reg.special[name := sp])
  }

  // ----- _runFunction -----

  /** The number of stack items a function call takes: the count, else the whole stack
      under *, else the function's own arity. */
  function CallArity(st: State, m: ModifierGrammar.Modifiers, count: Option<nat>, f: Function): nat {
    if count.Some? then count.value else if m.all then |st.stack| else f.nArgs
  }

  function NotEnoughArgsMessage(command: string, nArgs: nat, n: nat): string {
    "Not enough args on stack! (" + command + " needs " + NatToString(nArgs) + " arg" + Plural(nArgs)
    + ", stack has " + ItemsText(n) + ")"
  }

  /** The arguments of a call: the top nArgs items converted by convertStackArgs (none
      when nArgs is 0), top item first under r. */
  function CallArgs(st: State, nArgs: nat, m: ModifierGrammar.Modifiers): (r: Result<seq<Value>>)
    requires nArgs <= |st.stack|
    ensures r.Ok? ==> |r.value| == nArgs
    ensures r.Err? ==> nArgs > 0 && r.error.HostException?
  {
    if nArgs == 0 then Ok([])
    else
      match ConvertStackArgs(st.variables, TopItems(st.stack, nArgs))
      case Err(e) => Err(e)
      case Ok(args) => Ok(if m.reverse then Reverse(args) else args)
  }

  /** The CalculatorError a raising call becomes; str() of an argument can itself
      raise. */
  function CallFailure(st: State, f: Function, args: seq<Value>, message: string): Exc {
    match StrAll(args, st.variables)
    case Err(e) => e
    case Ok(texts) => CalculatorError(["Exception running " + f.name + "(" + Join(", ", texts) + "): " + message])
  }

  /** _runFunction: call the function on its arguments and replace them by its result.
      The debug message before the call formats repr() of the arguments whether or not
      debugging is on, so a repr that raises ends the command before the call. */
  function RunFunction(h: Host, st: State, command: string, m: ModifierGrammar.Modifiers, count: Option<nat>, f: Function): (r: (State, Step))
    ensures r.0 == st.(stack := r.0.stack, previous := r.0.previous)
    ensures !r.1.Declined? && (r.1.Claimed? ==> r.1.answer.Produced?)
  {
    var nArgs := CallArity(st, m, count, f);
    if |st.stack| < nArgs then (st, Failed(CalculatorError([NotEnoughArgsMessage(command, nArgs, |st.stack|)])))
    else
      match CallArgs(st, nArgs, m)
      case Err(e) => (st, Failed(e))
      case Ok(args) =>
        match ReprAll(args, st.variables)
        case Err(e) => (st, Failed(e))
        case Ok(_) =>
        match h.call(f.func, args)
        case Raised(message, _) => (st, Failed(CallFailure(st, f, args, message)))
        case Returned(result) => Conclude(Finalize(h, st, result, m, nArgs, Append(1)), Produced(result))
  }

  // ----- the four resolution steps -----

  /** _tryFunction: a registered function is run, or pushed itself under !. */
  function TryFunction(h: Host, reg: Registry, st: State, command: string, m: ModifierGrammar.Modifiers, count: Option<nat>): (r: (State, Step))
    ensures r.1.Declined? <==> m.forceCommand || command !in reg.functions
    ensures r.0 == st.(stack := r.0.stack, previous := r.0.previous)
    ensures r.1.Declined? ==> r.0 == st
  {
    if m.forceCommand || command !in reg.functions then (st, Declined)
    else
      var f := reg.functions[command];
      if m.push then Conclude(Finalize(h, st, Fn(f.func), m, 0, Append(1)), Produced(Fn(f.func)))
      else RunFunction(h, st, command, m, count, f)
  }

  /** What the AttributeError says when a Function instance stored in a variable is
      asked for its __name__. */
  const NoNameMessage := "'Function' object has no attribute '__name__'"

  /** The value _tryVariable pushes: a Variable instead of a non-callable value under !. */
  function VariablePushed(st: State, command: string, m: ModifierGrammar.Modifiers): Value
    requires command in st.variables
  {
    var value := st.variables[command];
    if !IsCallable(value) && m.push then VarRef(command) else value
  }

  /** _tryVariable: a variable holding a callable is run like a function (unless ! is
      given); otherwise its value (or, under ! for a non-callable, a Variable referring to
      it) is pushed count times. First the debug message formats repr() of the value,
      debugging on or off, and a repr that raises ends the command. */
  function TryVariable(h: Host, st: State, command: string, m: ModifierGrammar.Modifiers, count: Option<nat>): (r: (State, Step))
    ensures r.1.Declined? <==> m.forceCommand || command !in st.variables
    ensures r.0 == st.(stack := r.0.stack, previous := r.0.previous)
    ensures r.1.Declined? ==> r.0 == st
  {
    if m.forceCommand || command !in st.variables then (st, Declined)
    else
      var value := st.variables[command];
      if ReprOf(value, st.variables).Err? then (st, Failed(ReprOf(value, st.variables).error))
      else if IsCallable(value) && !m.push then
        if value.Fn? then RunFunction(h, st, command, m, count, Function("<stdin>", value.c.name, value.c, value.c.DefaultArity()))
        else (st, Failed(HostException(NoNameMessage)))
      else
        var pushed := VariablePushed(st, command, m);
        Conclude(Finalize(h, st, List(Repeat(pushed, count.GetOr(1))), m, 0, Extend), Produced(pushed))
  }

  /** The CalculatorError _trySpecial turns a failing special command into. */
  function SpecialFailure(command: string, e: Exc): Exc {
    CalculatorError(["Could not run special command " + PyStrRepr(command) + ": " + ExcText(e)])
  }

  /** _trySpecial: run a special command; its EOFError passes through, any other
      exception becomes a CalculatorError. Under c an unknown special command is an
      error. */
  function TrySpecial(h: Host, reg: Registry, st: State, command: string, m: ModifierGrammar.Modifiers, count: Option<nat>): (r: (State, Step))
    ensures r.1.Declined? <==> command !in reg.special && !m.forceCommand
    ensures r.1.Declined? ==> r.0 == st
    ensures r.1.Failed? ==> r.1.error.EndOfSession? || r.1.error.CalculatorError?
    ensures r.0.splitLines == st.splitLines && r.0.autoPrint == st.autoPrint && r.0.debug == st.debug
  {
    if command in reg.special then
      var run := RunSpecial(h, reg.special[command], st, m, count);
      if run.1.Failed? && !run.1.error.EndOfSession? then (run.0, Failed(SpecialFailure(command, run.1.error)))
      else run
    else if m.forceCommand then (st, Failed(CalculatorError(["Unknown special command: " + command])))
    else (st, Declined)
  }

  /** The beginning of the SyntaxError text that suggests spaces inside a command. */
  const EofText := "unexpected EOF while parsing (<string>, line 1)"

  const WhitespaceHint := "Did you accidentally include whitespace in a command line?"

  /** The CalculatorError _tryEvalExec raises when eval, EngNumber and exec all fail. */
  function EvalExecFailure(splitLines: bool, command: string, evalError: string, execError: string): Exc {
    var hint := splitLines && (StartsWith(evalError, EofText) || StartsWith(execError, EofText));
    CalculatorError(["Could not eval(" + PyStrRepr(command) + "): " + evalError,
                     "Could not exec(" + PyStrRepr(command) + "): " + execError]
                    + (if hint then [WhitespaceHint] else []))
  }

  /** _tryEvalExec: eval the command, else read it as an engineering number, pushing the
      value count times; else exec it. eval and exec run on the calculator's own
      variables, so whatever they bind stays bound, whether they succeed or raise. The
      debug message after eval or EngNumber formats repr() of the value, debugging on or
      off, so a repr that raises ends the command before anything is pushed. */
  function TryEvalExec(h: Host, st: State, command: string, m: ModifierGrammar.Modifiers, count: Option<nat>): (r: (State, Step))
    ensures !r.1.Declined?
    ensures r.0 == st.(stack := r.0.stack, previous := r.0.previous, variables := r.0.variables)
    ensures r.1.Claimed? && r.1.answer.NoValue? ==> r.0.stack == st.stack && r.0.previous == st.previous
  {
    var evaluated := h.eval(command, st.variables);
    var st' := st.(variables := evaluated.variables);
    match evaluated
    case Evaluated(v, _) => PushEvaluated(h, st', v, m, count)
    case EvalRaised(evalError, _) =>
      match h.engNumber(command)
      case Some(v) => PushEvaluated(h, st', v, m, count)
      case None =>
        match h.exec(command, st'.variables)
        case Executed(variables) => (st.(variables := variables), Claimed(NoValue))
        case ExecRaised(execError, variables) =>
          (st.(variables := variables), Failed(EvalExecFailure(st.splitLines, command, evalError, execError)))
  }

  /** The end of a successful eval or EngNumber: the debug message's repr() of the
      value, then the value pushed count times. */
  function PushEvaluated(h: Host, st: State, v: Value, m: ModifierGrammar.Modifiers, count: Option<nat>): (r: (State, Step))
    ensures r.0 == st.(stack := r.0.stack, previous := r.0.previous)
    ensures !r.1.Declined? && (r.1.Claimed? ==> r.1.answer == Produced(v))
  {
    match ReprOf(v, st.variables)
    case Err(e) => (st, Failed(e))
    case Ok(_) => Conclude(Finalize(h, st, v, m, 0, Append(count.GetOr(1))), Produced(v))
  }

  // ----- _executeOneCommand -----

  /** What one command does to a line: it succeeds (True), fails with its messages
      written (False), or raises out of execute. pprint of a value to be printed calls
      repr(), and an exception from it is not caught. */
  function Settle(st: State, step: Step, command: string, m: ModifierGrammar.Modifiers): (r: (State, Result<bool>))
    ensures r.0 == st.(transcript := r.0.transcript)
    ensures st.transcript <= r.0.transcript
  {
    match step
    case Claimed(Produced(v)) =>
      if !(m.printValue || st.autoPrint) then (st, Ok(true))
      else if ReprOf(v, st.variables).Err? then (st, Err(ReprOf(v, st.variables).error))
      else (st.(transcript := st.transcript + [Printed(v)]), Ok(true))
    case Claimed(NoValue) => (st, Ok(true))
    case Failed(CalculatorError(messages)) => (Complain(st, messages), Ok(false))
    case Failed(StackError(message)) => (Complain(st, [message]), Ok(false))
    case Failed(e) => (st, Err(e))
    case Declined => (Complain(st, ["Could not find a way to execute " + PyStrRepr(command)]), Ok(false))
  }

  /** The resolution chain: function, variable, special command, eval/exec; the first
      that does not decline decides. */
  function Resolve(h: Host, reg: Registry, st: State, command: string, m: ModifierGrammar.Modifiers, count: Option<nat>): (r: (State, Step))
    ensures !r.1.Declined?
    ensures !m.forceCommand && command in reg.functions ==> r == TryFunction(h, reg, st, command, m, count)
    ensures m.forceCommand && command !in reg.special ==> r == (st, Failed(CalculatorError(["Unknown special command: " + command])))
    ensures r.0.splitLines == st.splitLines && r.0.autoPrint == st.autoPrint && r.0.debug == st.debug
  {
    var byFunction := TryFunction(h, reg, st, command, m, count);
    if !byFunction.1.Declined? then byFunction
    else
      var byVariable := TryVariable(h, st, command, m, count);
      if !byVariable.1.Declined? then byVariable
      else
        var bySpecial := TrySpecial(h, reg, st, command, m, count);
        if !bySpecial.1.Declined? then bySpecial
        else TryEvalExec(h, st, command, m, count)
  }

  function ConflictMessage(count: nat, n: nat): string {
    "* modifier conflicts with explicit count " + NatToString(count) + " (stack has " + ItemsText(n) + ")"
  }

  /** The s and n modifiers switch line splitting on or off for the session. */
  function SetSplitting(st: State, m: ModifierGrammar.Modifiers): State {
    st.(splitLines := if m.split then true else if m.noSplit then false else st.splitLines)
  }

  /** The P and D modifiers toggle auto-printing and debugging. */
  function ApplyToggles(st: State, m: ModifierGrammar.Modifiers): State {
    var printing := if m.autoPrint then ToggleAutoPrint(st, None) else st;
    if m.debug then ToggleDebug(printing, None) else printing
  }

  /** _executeOneCommand. The s/n flags take effect first, so they stay changed even
      when * then conflicts with the count. */
  function ExecuteCommand(h: Host, reg: Registry, st: State, c: LineSegmenter.Command): (r: (State, Result<bool>))
    ensures r.0.splitLines == (if c.modifiers.split then true else if c.modifiers.noSplit then false else st.splitLines)
    ensures c.text == "" && !(c.modifiers.all && c.count.Some? && c.count.value != |st.stack|) ==>
      r.1 == Ok(true) && r.0.stack == st.stack && r.0.previous == st.previous && r.0.variables == st.variables
  {
    var m := c.modifiers;
    var st1 := SetSplitting(st, m);
    if m.all && c.count.Some? && c.count.value != |st1.stack| then
      (Complain(st1, [ConflictMessage(c.count.value, |st1.stack|)]), Ok(false))
    else
      var st2 := ApplyToggles(st1, m);
      if c.text == "" || c.count == Some(0) then (st2, Ok(true))
      else
        var resolved := Resolve(h, reg, st2, c.text, m, c.count);
        Settle(resolved.0, resolved.1, c.text, m)
  }

  // ----- execute -----

  /** The line execute writes for an exception findCommands raises; any other exception
      passes through. */
  function SegmentationReport(e: Exc): Result<string> {
    match e
    case UnknownModifiersError(letters) => Ok("Unknown modifiers: " + Join(", ", Singletons(letters)))
    case IncompatibleModifiersError(message) => Ok("Incompatible modifiers: " + message)
    case CalculatorError(messages) =>
      if messages == [] then Err(HostException("tuple index out of range"))
      else Ok("Incompatible modifiers: " + messages[0])
    case _ => Err(e)
  }

  /** The end of the line: findCommands stops, or raises. */
  function EndOfLine(st: State, failure: Option<Exc>): (State, Result<bool>) {
    match failure
    case None => (st, Ok(true))
    case Some(e) =>
      match SegmentationReport(e)
      case Ok(line) => (Complain(st, [line]), Ok(false))
      case Err(e') => (st, Err(e'))
  }

  /** The loop of execute from command i on, with its look-ahead as written: after a
      failed command it asks findCommands for the next command only to log it, and an
      exception raised by that request is not caught. Its commands run through Resolve,
      whose special commands include the corrected store. */
  function RunCommands(h: Host, reg: Registry, st: State, seg: LineSegmenter.Segmentation, i: nat): (r: (State, Result<bool>))
    requires i <= |seg.commands|
    ensures r.1 == Ok(true) ==> seg.failure.None?
    decreases |seg.commands| - i
  {
    if i == |seg.commands| then EndOfLine(st, seg.failure)
    else
      var step := ExecuteCommand(h, reg, st, seg.commands[i]);
      if step.1.Err? then step
      else if step.1.value then RunCommands(h, reg, step.0, seg, i + 1)
      else if i + 1 == |seg.commands| && seg.failure.Some? then (step.0, Err(seg.failure.value))
      else (step.0, Ok(false))
  }

  /** The loop of execute with the look-ahead after a failure unable to raise: a failed
      command ends the line with False. */
  function RunCommandsCorrected(h: Host, reg: Registry, st: State, seg: LineSegmenter.Segmentation, i: nat): (r: (State, Result<bool>))
    requires i <= |seg.commands|
    ensures r.1 == Ok(true) ==> seg.failure.None?
    decreases |seg.commands| - i
  {
    if i == |seg.commands| then EndOfLine(st, seg.failure)
    else
      var step := ExecuteCommand(h, reg, st, seg.commands[i]);
      if step.1.Err? then step
      else if step.1.value then RunCommandsCorrected(h, reg, step.0, seg, i + 1)
      else (step.0, Ok(false))
  }

  /** The commands of a line, split according to the session's splitLines flag at the
      time execute is called. */
  function LineCommands(st: State, line: string, separator: Option<char>): LineSegmenter.Segmentation {
    LineSegmenter.Segment(LineSegmenter.Fields(line, st.splitLines, separator))
  }

  /** execute(line) with the look-ahead as written and the corrected store. */
  function ExecuteAsWritten(h: Host, reg: Registry, st: State, line: string, separator: Option<char>): (r: (State, Result<bool>))
    ensures r.1 == Ok(true) ==> LineCommands(st, line, separator).failure.None?
    ensures LineCommands(st, line, separator).commands == [] ==> r == EndOfLine(st, LineCommands(st, line, separator).failure)
  {
    RunCommands(h, reg, st, LineCommands(st, line, separator), 0)
  }

  /** execute(line), with the look-ahead fixed. */
  function Execute(h: Host, reg: Registry, st: State, line: string, separator: Option<char>): (r: (State, Result<bool>))
    ensures r.1 == Ok(true) ==> LineCommands(st, line, separator).failure.None?
    ensures LineCommands(st, line, separator).commands == [] ==> r == EndOfLine(st, LineCommands(st, line, separator).failure)
  {
    RunCommandsCorrected(h, reg, st, LineCommands(st, line, separator), 0)
  }

  // ----- properties of register and registerSpecial -----

  /** A registered function is what the command of its name then runs (without c and
      !): the given name, or the callable's __name__ when none or an empty one is given,
      with the given arity or countArgs(func, 1). Every other name resolves as before. */
  lemma RegisteredFunctionRuns(h: Host, reg: Registry, func: Callable, name: Option<string>, nArgs: Option<nat>,
                               moduleName: Option<string>, st: State, m: ModifierGrammar.Modifiers, count: Option<nat>)
    requires !m.forceCommand && !m.push
    ensures var reg' := Register(reg, func, name, nArgs, moduleName);
      var n := if name.Some? && name.value != "" then name.value else func.name;
      var arity := if nArgs.Some? then nArgs.value else func.DefaultArity();
      && TryFunction(h, reg', st, n, m, count) == RunFunction(h, st, n, m, count, Function(RegisteredModule(moduleName), n, func, arity))
      && (forall k :: k != n ==> TryFunction(h, reg', st, k, m, count) == TryFunction(h, reg, st, k, m, count))
  {
  }

  /** A registered special command is what its name then runs; other names are
      unaffected. */
  lemma RegisteredSpecialRuns(h: Host, reg: Registry, sp: Special, name: string, st: State, m: ModifierGrammar.Modifiers, count: Option<nat>)
    ensures TrySpecial(h, RegisterSpecial(reg, sp, name), st, name, m, count).0 == RunSpecial(h, sp, st, m, count).0
    ensures forall k :: k != name ==> TrySpecial(h, RegisterSpecial(reg, sp, name), st, k, m, count) == TrySpecial(h, reg, st, k, m, count)
  {
  }

  // ----- properties of _runFunction -----

  /** When the stack is shorter than the arity, the call is refused with a message and
      nothing changes. */
  lemma NotEnoughArgs(h: Host, st: State, command: string, m: ModifierGrammar.Modifiers, count: Option<nat>, f: Function)
    requires |st.stack| < CallArity(st, m, count, f)
    ensures RunFunction(h, st, command, m, count, f) ==
      (st, Failed(CalculatorError([NotEnoughArgsMessage(command, CallArity(st, m, count, f), |st.stack|)])))
  {
  }

  /** Every Variable among items names an existing variable. */
  predicate AllBound(variables: map<string, Value>, items: seq<Value>) {
    forall i :: 0 <= i < |items| && items[i].VarRef? ==> items[i].name in variables
  }

  /** args is items converted one by one, in the same order. */
  predicate ConvertedFrom(variables: map<string, Value>, items: seq<Value>, args: seq<Value>) {
    |args| == |items| && forall i :: 0 <= i < |items| ==> Ok(args[i]) == ConvertArg(variables, items[i])
  }

  /** The arguments are the top nArgs items, converted one by one, in stack order
      (bottom-most first), or top item first under r; conversion fails exactly when one
      of them is a Variable whose variable is gone. */
  lemma CallArgsAreTopItems(st: State, nArgs: nat, m: ModifierGrammar.Modifiers)
    requires 0 < nArgs <= |st.stack|
    ensures var top := st.stack[|st.stack| - nArgs..];
      var r := CallArgs(st, nArgs, m);
      && (r.Ok? <==> AllBound(st.variables, top))
      && (r.Ok? ==> ConvertedFrom(st.variables, if m.reverse then Reverse(top) else top, r.value))
  {
    var top := st.stack[|st.stack| - nArgs..];
    var c := ConvertStackArgs(st.variables, top);
    assert TopItems(st.stack, nArgs) == top;
    CallArgsUnfolds(st, nArgs, m);
    ConvertStackArgsSpec(st.variables, top);
    if c.Ok? && m.reverse {
      ReversedConversion(st.variables, top, c.value);
    }
  }

  lemma CallArgsUnfolds(st: State, nArgs: nat, m: ModifierGrammar.Modifiers)
    requires 0 < nArgs <= |st.stack|
    ensures var c := ConvertStackArgs(st.variables, TopItems(st.stack, nArgs));
      CallArgs(st, nArgs, m) == if c.Err? then Err(c.error) else Ok(if m.reverse then Reverse(c.value) else c.value)
  {
  }

  /** Converting item by item commutes with reading the items the other way round. */
  lemma ReversedConversion(variables: map<string, Value>, items: seq<Value>, args: seq<Value>)
    requires ConvertedFrom(variables, items, args)
    ensures ConvertedFrom(variables, Reverse(items), Reverse(args))
  {
    forall i | 0 <= i < |items| ensures Ok(Reverse(args)[i]) == ConvertArg(variables, Reverse(items)[i]) {
      var k := |items| - 1 - i;
      assert Reverse(args)[i] == args[k] && Reverse(items)[i] == items[k];
      assert Ok(args[k]) == ConvertArg(variables, items[k]);
    }
  }

  /** A call that returns replaces its arguments (and, under *, the whole stack) by the
      one result, after saving the snapshot. (RunFunctionReprFails covers arguments whose
      repr raises.) */
  lemma RunFunctionReplacesArgs(h: Host, st: State, command: string, m: ModifierGrammar.Modifiers, count: Option<nat>, f: Function, result: Value)
    requires !m.preserveStack && (!m.iterate || Iterate(h, result).NotIterable? || result.List?)
    requires CallArity(st, m, count, f) <= |st.stack|
    requires CallArgs(st, CallArity(st, m, count, f), m).Ok?
    requires ReprAll(CallArgs(st, CallArity(st, m, count, f), m).value, st.variables).Ok?
    requires h.call(f.func, CallArgs(st, CallArity(st, m, count, f), m).value) == Returned(result)
    ensures RunFunction(h, st, command, m, count, f) ==
      (SaveState(st).(stack := WithoutTop(st.stack, CallArity(st, m, count, f)) + [result]), Claimed(Produced(result)))
  {
    FinalizeClosedForm(h, st, result, m, CallArity(st, m, count, f), Append(1));
    assert Repeat(result, 1) == [result];
  }

  /** When repr() of an argument raises, the debug message before the call raises it:
      the function is not called and nothing changes. */
  lemma RunFunctionReprFails(h: Host, st: State, command: string, m: ModifierGrammar.Modifiers, count: Option<nat>, f: Function)
    requires CallArity(st, m, count, f) <= |st.stack|
    requires CallArgs(st, CallArity(st, m, count, f), m).Ok?
    requires ReprAll(CallArgs(st, CallArity(st, m, count, f), m).value, st.variables).Err?
    ensures RunFunction(h, st, command, m, count, f) ==
      (st, Failed(ReprAll(CallArgs(st, CallArity(st, m, count, f), m).value, st.variables).error))
  {
  }

  /** A call that raises leaves the calculator as it was and fails with the
      CalculatorError naming the function, the str() of its arguments and the exception.
      str() of the arguments cannot raise there, since their repr() has just succeeded. */
  lemma RunFunctionRaiseChangesNothing(h: Host, st: State, command: string, m: ModifierGrammar.Modifiers, count: Option<nat>, f: Function)
    requires CallArity(st, m, count, f) <= |st.stack|
    requires CallArgs(st, CallArity(st, m, count, f), m).Ok?
    requires ReprAll(CallArgs(st, CallArity(st, m, count, f), m).value, st.variables).Ok?
    requires h.call(f.func, CallArgs(st, CallArity(st, m, count, f), m).value).Raised?
    ensures RunFunction(h, st, command, m, count, f).0 == st
    ensures var args := CallArgs(st, CallArity(st, m, count, f), m).value;
      var message := h.call(f.func, args).message;
      && StrAll(args, st.variables).Ok?
      && RunFunction(h, st, command, m, count, f).1 ==
           Failed(CalculatorError(["Exception running " + f.name + "(" + Join(", ", StrAll(args, st.variables).value) + "): " + message]))
  {
    StrAllAfterReprAll(CallArgs(st, CallArity(st, m, count, f), m).value, st.variables);
  }

  // ----- properties of _tryVariable -----

  /** A variable's value (a Variable referring to it when the value is not callable and
      ! is given; the callable itself when it is callable and ! is given) is pushed count
      times, one time when no count is given. */
  lemma TryVariablePushes(h: Host, st: State, command: string, m: ModifierGrammar.Modifiers, count: Option<nat>)
    requires !m.forceCommand && command in st.variables && !m.preserveStack
    requires ReprOf(st.variables[command], st.variables).Ok?
    requires m.push || !IsCallable(st.variables[command])
    ensures var value := st.variables[command];
      var pushed := if m.push && !IsCallable(value) then VarRef(command) else value;
      var times := if count.Some? then count.value else 1;
      TryVariable(h, st, command, m, count) ==
        (SaveState(st).(stack := st.stack + Repeat(pushed, times)), Claimed(Produced(pushed)))
  {
    var pushed := VariablePushed(st, command, m);
    FinalizeClosedForm(h, st, List(Repeat(pushed, count.GetOr(1))), m, 0, Extend);
    assert WithoutTop(st.stack, 0) == st.stack;
  }

  /** When repr() of the variable's value raises (a Variable inside it whose variable
      is gone), the debug message raises it before anything is pushed or run. */
  lemma TryVariableReprFails(h: Host, st: State, command: string, m: ModifierGrammar.Modifiers, count: Option<nat>)
    requires !m.forceCommand && command in st.variables
    requires ReprOf(st.variables[command], st.variables).Err?
    ensures TryVariable(h, st, command, m, count) == (st, Failed(ReprOf(st.variables[command], st.variables).error))
  {
  }

  /** A Variable pushed under ! is live: used as an argument it gives the variable's
      value at that time, and it fails once the variable is gone. */
  lemma VariableReferenceIsLive(variables: map<string, Value>, name: string)
    ensures name in variables ==> ConvertArg(variables, VarRef(name)) == Ok(variables[name])
    ensures name !in variables ==> ConvertArg(variables, VarRef(name)) == Err(HostException(KeyErrorText(name)))
  {
  }

  /** A variable holding a calculator Function cannot be run: the AttributeError escapes
      and nothing changes. */
  lemma FunctionValuedVariableFails(h: Host, st: State, command: string, m: ModifierGrammar.Modifiers, count: Option<nat>)
    requires !m.forceCommand && !m.push && command in st.variables && st.variables[command].Func?
    ensures TryVariable(h, st, command, m, count) == (st, Failed(HostException(NoNameMessage)))
  {
  }

  // ----- properties of _trySpecial -----

  /** Of the exceptions of a special command only EOFError (from quit, or from a host
      callable that apply, reduce or map calls) leaves _trySpecial; every other one
      becomes a CalculatorError naming the command. */
  lemma SpecialFailuresAreWrapped(h: Host, reg: Registry, st: State, command: string, m: ModifierGrammar.Modifiers, count: Option<nat>)
    requires command in reg.special
    ensures var r := TrySpecial(h, reg, st, command, m, count);
      && !r.1.Declined?
      && (r.1.Failed? ==> r.1.error == EndOfSession || (r.1.error.CalculatorError? && |r.1.error.messages| == 1))
      && (RunSpecial(h, reg.special[command], st, m, count).1.Failed? <==> r.1.Failed?)
  {
  }

  /** A callable that apply calls and that raises EOFError ends the session through
      _trySpecial; any other exception it raises is reported as the special command's
      failure. Either way the calculator is as it was. */
  lemma ApplyLetsEofThrough(h: Host, reg: Registry, st: State, command: string, m: ModifierGrammar.Modifiers, count: Option<nat>)
    requires command in reg.special && reg.special[command] == ApplyCmd
    requires FindCallableAndArgs(st, "apply", m, count).Ok?
    requires CallValue(h, FindCallableAndArgs(st, "apply", m, count).value.item,
                       FindCallableAndArgs(st, "apply", m, count).value.args).Raised?
    ensures var found := FindCallableAndArgs(st, "apply", m, count).value;
      var o := CallValue(h, found.item, found.args);
      TrySpecial(h, reg, st, command, m, count) ==
        (st, Failed(if o.eof then EndOfSession else SpecialFailure(command, HostException(o.message))))
  {
  }

  // ----- properties of _tryEvalExec -----

  /** A command that eval (or else EngNumber) turns into a value pushes that value count
      times, one time when no count is given, on top of the variables eval left behind;
      the snapshot undo restores holds the stack from before and those variables. */
  lemma EvalPushesValue(h: Host, st: State, command: string, m: ModifierGrammar.Modifiers, count: Option<nat>, v: Value)
    requires h.eval(command, st.variables) == Evaluated(v, h.eval(command, st.variables).variables)
      || (h.eval(command, st.variables).EvalRaised? && h.engNumber(command) == Some(v))
    requires !m.preserveStack && (!m.iterate || Iterate(h, v).NotIterable? || v.List?)
    requires ReprOf(v, h.eval(command, st.variables).variables).Ok?
    ensures var times := if count.Some? then count.value else 1;
      var variables := h.eval(command, st.variables).variables;
      TryEvalExec(h, st, command, m, count) ==
        (SaveState(st.(variables := variables)).(stack := st.stack + Repeat(v, times)), Claimed(Produced(v)))
  {
    var st' := st.(variables := h.eval(command, st.variables).variables);
    FinalizeClosedForm(h, st', v, m, 0, Append(count.GetOr(1)));
    assert WithoutTop(st'.stack, 0) == st.stack;
  }

  /** When repr() of the value eval (or else EngNumber) gave raises, the debug message
      raises it: nothing is pushed, and the variables are as eval left them. */
  lemma EvalReprFails(h: Host, st: State, command: string, m: ModifierGrammar.Modifiers, count: Option<nat>, v: Value)
    requires h.eval(command, st.variables) == Evaluated(v, h.eval(command, st.variables).variables)
      || (h.eval(command, st.variables).EvalRaised? && h.engNumber(command) == Some(v))
    requires ReprOf(v, h.eval(command, st.variables).variables).Err?
    ensures var variables := h.eval(command, st.variables).variables;
      TryEvalExec(h, st, command, m, count) == (st.(variables := variables), Failed(ReprOf(v, variables).error))
  {
  }

  /** A command only exec accepts changes the variables as eval and then exec left them
      and nothing else, and produces no value to print. */
  lemma ExecSetsVariables(h: Host, st: State, command: string, m: ModifierGrammar.Modifiers, count: Option<nat>)
    requires h.eval(command, st.variables).EvalRaised? && h.engNumber(command).None?
    requires h.exec(command, h.eval(command, st.variables).variables).Executed?
    ensures TryEvalExec(h, st, command, m, count) ==
      (st.(variables := h.exec(command, h.eval(command, st.variables).variables).variables), Claimed(NoValue))
  {
  }

  /** When eval, EngNumber and exec all fail the stack and the undo snapshot are as they
      were, the variables are as exec left them (it may have bound names before it
      raised), and the CalculatorError carries the eval and exec messages, followed by the
      whitespace hint exactly when lines are being split and either message reports an
      unexpected end of input. */
  lemma EvalExecFails(h: Host, st: State, command: string, m: ModifierGrammar.Modifiers, count: Option<nat>)
    requires h.eval(command, st.variables).EvalRaised? && h.engNumber(command).None?
    requires h.exec(command, h.eval(command, st.variables).variables).ExecRaised?
    ensures var r := TryEvalExec(h, st, command, m, count);
      var evaluated := h.eval(command, st.variables);
      var executed := h.exec(command, evaluated.variables);
      && r.0 == st.(variables := executed.variables)
      && r.1.Failed? && r.1.error.CalculatorError?
      && var ms := r.1.error.messages;
      && (|ms| == 2 || |ms| == 3)
      && ms[0] == "Could not eval(" + PyStrRepr(command) + "): " + evaluated.message
      && ms[1] == "Could not exec(" + PyStrRepr(command) + "): " + executed.message
      && (|ms| == 3 <==> st.splitLines && (StartsWith(evaluated.message, EofText) || StartsWith(executed.message, EofText)))
      && (|ms| == 3 ==> ms[2] == WhitespaceHint)
  {
  }

  /** eval/exec is the last resort: it always claims the command or raises. */
  lemma EvalExecNeverDeclines(h: Host, st: State, command: string, m: ModifierGrammar.Modifiers, count: Option<nat>)
    ensures !TryEvalExec(h, st, command, m, count).1.Declined?
  {
  }

  // ----- properties of resolution -----

  /** The order of resolution: a function shadows a variable of the same name, which
      shadows a special command, which shadows eval/exec. Under c only special commands
      are considered, and an unknown one is an error that changes nothing. */
  lemma ResolutionOrder(h: Host, reg: Registry, st: State, command: string, m: ModifierGrammar.Modifiers, count: Option<nat>)
    ensures var r := Resolve(h, reg, st, command, m, count);
      && (!m.forceCommand && command in reg.functions ==> r == TryFunction(h, reg, st, command, m, count))
      && (!m.forceCommand && command !in reg.functions && command in st.variables ==> r == TryVariable(h, st, command, m, count))
      && ((m.forceCommand || (command !in reg.functions && command !in st.variables)) && command in reg.special ==>
            r == TrySpecial(h, reg, st, command, m, count))
      && (!m.forceCommand && command !in reg.functions && command !in st.variables && command !in reg.special ==>
            r == TryEvalExec(h, st, command, m, count))
      && (m.forceCommand && command !in reg.special ==>
            r == (st, Failed(CalculatorError(["Unknown special command: " + command]))))
  {
    if (m.forceCommand || (command !in reg.functions && command !in st.variables)) && command in reg.special {
      SpecialFailuresAreWrapped(h, reg, st, command, m, count);
    }
    if !m.forceCommand && command in reg.functions && !m.push {
      assert !RunFunction(h, st, command, m, count, reg.functions[command]).1.Declined?;
    }
  }

  /** A resolution step that declines a command leaves the calculator as it was, so the
      next step sees the same state. */
  lemma DeclineChangesNothing(h: Host, reg: Registry, st: State, command: string, m: ModifierGrammar.Modifiers, count: Option<nat>)
    ensures TryFunction(h, reg, st, command, m, count).1.Declined? ==> TryFunction(h, reg, st, command, m, count).0 == st
    ensures TryVariable(h, st, command, m, count).1.Declined? ==> TryVariable(h, st, command, m, count).0 == st
    ensures TrySpecial(h, reg, st, command, m, count).1.Declined? ==> TrySpecial(h, reg, st, command, m, count).0 == st
  {
    if !m.forceCommand && command in reg.functions && !m.push {
      RunFunctionNeverDeclines(h, st, command, m, count, reg.functions[command]);
    }
    if !m.forceCommand && command in st.variables && st.variables[command].Fn? && !m.push {
      var c := st.variables[command].c;
      RunFunctionNeverDeclines(h, st, command, m, count, Function("<stdin>", c.name, c, c.DefaultArity()));
    }
  }

  /** Function-like resolution never declines once a function is found. */
  lemma RunFunctionNeverDeclines(h: Host, st: State, command: string, m: ModifierGrammar.Modifiers, count: Option<nat>, f: Function)
    ensures !RunFunction(h, st, command, m, count, f).1.Declined?
  {
  }

  /** Under c the registered functions play no part. */
  lemma ForceCommandIgnoresFunctions(h: Host, reg: Registry, st: State, command: string, m: ModifierGrammar.Modifiers,
                                     count: Option<nat>, functions: map<string, Function>)
    requires m.forceCommand
    ensures Resolve(h, reg, st, command, m, count) == Resolve(h, reg.(functions := functions), st, command, m, count)
  {
  }

  // ----- properties of _executeOneCommand -----

  /** * with a count different from the stack length is refused: a message is written,
      nothing but the s/n setting changes, and the command fails. */
  lemma ConflictRefuses(h: Host, reg: Registry, st: State, c: LineSegmenter.Command)
    requires c.modifiers.all && c.count.Some? && c.count.value != |st.stack|
    ensures var r := ExecuteCommand(h, reg, st, c);
      && r.1 == Ok(false)
      && r.0 == SetSplitting(st, c.modifiers).(transcript := st.transcript + [Complaint(ConflictMessage(c.count.value, |st.stack|))])
  {
  }

  /** An empty command and a zero count run nothing: only the session flags change and
      the command succeeds. */
  lemma NothingToRun(h: Host, reg: Registry, st: State, c: LineSegmenter.Command)
    requires c.text == "" || c.count == Some(0)
    requires !(c.modifiers.all && c.count.Some? && c.count.value != |st.stack|)
    ensures ExecuteCommand(h, reg, st, c) == (ApplyToggles(SetSplitting(st, c.modifiers), c.modifiers), Ok(true))
  {
  }

  /** A produced value is printed exactly when p is given or auto-printing is on after
      the command, and then only if its repr() does not raise; if it does, that exception
      leaves execute. A CalculatorError or StackError becomes its messages on the error
      channel and a False; everything else raised leaves execute. */
  lemma SettleReports(st: State, step: Step, command: string, m: ModifierGrammar.Modifiers)
    ensures var (st', r) := Settle(st, step, command, m);
      var printing := m.printValue || st.autoPrint;
      && st'.stack == st.stack && st'.variables == st.variables && st'.previous == st.previous
      && (step.Claimed? && step.answer.Produced? && printing && ReprOf(step.answer.value, st.variables).Err? ==>
            st' == st && r == Err(ReprOf(step.answer.value, st.variables).error))
      && (step.Claimed? && !(step.answer.Produced? && printing && ReprOf(step.answer.value, st.variables).Err?) ==>
            r == Ok(true))
      && (step.Claimed? && step.answer.Produced? && !(printing && ReprOf(step.answer.value, st.variables).Err?) ==>
            st'.transcript == st.transcript + (if printing then [Printed(step.answer.value)] else []))
      && (step.Claimed? && step.answer.NoValue? ==> st' == st)
      && (step.Failed? && step.error.CalculatorError? ==> r == Ok(false) && st'.transcript == st.transcript + Complaints(step.error.messages))
      && (step.Failed? && step.error.StackError? ==> r == Ok(false) && st'.transcript == st.transcript + [Complaint(step.error.message)])
      && (step.Failed? && !step.error.CalculatorError? && !step.error.StackError? ==> st' == st && r == Err(step.error))
  {
  }

  /** A special command leaves execute only by EOFError (quit), or when the value it
      returns is to be printed and its repr() raises: its other failures are reported on
      the error channel. */
  lemma SpecialCommandsEscapeOnlyByQuit(h: Host, reg: Registry, st: State, c: LineSegmenter.Command)
    requires c.text in reg.special && c.text != "" && c.count != Some(0)
    requires c.modifiers.forceCommand || (c.text !in reg.functions && c.text !in st.variables)
    ensures var r := ExecuteCommand(h, reg, st, c);
      r.1.Err? ==> r.1.error == EndOfSession || (r.1.error.HostException? && (c.modifiers.printValue || r.0.autoPrint))
  {
    var m := c.modifiers;
    if !(m.all && c.count.Some? && c.count.value != |SetSplitting(st, m).stack|) {
      var st2 := ApplyToggles(SetSplitting(st, m), m);
      ResolutionOrder(h, reg, st2, c.text, m, c.count);
      SpecialFailuresAreWrapped(h, reg, st2, c.text, m, c.count);
    }
  }

  // ----- properties of execute -----

  /** A failed command ends the line: the commands after it do not run. (As written this
      holds unless the failed command is the last one findCommands yields before it
      raises.) */
  lemma StopsAtFirstFailure(h: Host, reg: Registry, st: State, seg: LineSegmenter.Segmentation, i: nat)
    requires i < |seg.commands| && ExecuteCommand(h, reg, st, seg.commands[i]).1 == Ok(false)
    ensures RunCommandsCorrected(h, reg, st, seg, i) == (ExecuteCommand(h, reg, st, seg.commands[i]).0, Ok(false))
    ensures i + 1 < |seg.commands| || seg.failure.None? ==>
      RunCommands(h, reg, st, seg, i) == (ExecuteCommand(h, reg, st, seg.commands[i]).0, Ok(false))
  {
  }

  /** On a line findCommands splits without raising, execute as written and the
      corrected loop agree. */
  lemma {:induction false} AgreeOnCleanLines(h: Host, reg: Registry, st: State, seg: LineSegmenter.Segmentation, i: nat)
    requires i <= |seg.commands| && seg.failure.None?
    ensures RunCommands(h, reg, st, seg, i) == RunCommandsCorrected(h, reg, st, seg, i)
    decreases |seg.commands| - i
  {
    if i < |seg.commands| {
      var step := ExecuteCommand(h, reg, st, seg.commands[i]);
      if step.1 == Ok(true) {
        AgreeOnCleanLines(h, reg, step.0, seg, i + 1);
      }
    }
  }

  /** In the corrected loop an exception findCommands raises is always reported, never
      raised: whatever leaves execute came from a command, and would have left it just the
      same on a line without the bad annotation. */
  lemma {:induction false} CorrectedEscapesOnlyFromCommands(h: Host, reg: Registry, st: State, seg: LineSegmenter.Segmentation, i: nat)
    requires i <= |seg.commands|
    requires seg.failure.Some? ==> SegmentationReport(seg.failure.value).Ok?
    ensures RunCommandsCorrected(h, reg, st, seg, i).1.Err? ==>
      RunCommandsCorrected(h, reg, st, seg, i) == RunCommandsCorrected(h, reg, st, LineSegmenter.Segmentation(seg.commands, None), i)
    decreases |seg.commands| - i
  {
    if i < |seg.commands| {
      var step := ExecuteCommand(h, reg, st, seg.commands[i]);
      if step.1 == Ok(true) {
        CorrectedEscapesOnlyFromCommands(h, reg, step.0, seg, i + 1);
      }
    }
  }

  /** The registry and the state of the counterexample: + bound to a two-argument
      function, an empty stack. */
  const AddFunction := Function("operator", "add", Callable("add", Some(2), "<built-in function add>", "builtin_function_or_method"), 2)

  const PlusOnly := Registry(map["+" := AddFunction], map[])

  const Fresh := State([], None, map[], true, false, false, [])

  /** The fields of "+ a b:!=" when lines are split on whitespace. */
  lemma PlusLineFields()
    ensures LineSegmenter.Fields("+ a b:!=", true, None) == ["+", "a", "b:!="]
  {
    var w := "b:!=";
    assert NoSpace(w) by {
      assert w[0] == 'b' && w[1] == ':' && w[2] == '!' && w[3] == '=';
    }
    assert "+ a b:!=" == "+" + ([' '] + ("a" + ([' '] + w)));
    ThreeWords("+", "a", w);
  }

  /** Three words separated by single spaces split into those words. */
  lemma ThreeWords(a: string, b: string, c: string)
    requires a != [] && b != [] && c != [] && NoSpace(a) && NoSpace(b) && NoSpace(c)
    ensures LineSegmenter.Fields(a + ([' '] + (b + ([' '] + c))), true, None) == [a, b, c]
  {
    var r1 := [' '] + (b + ([' '] + c));
    var line := a + r1;
    assert line[0] == a[0] && line[|line| - 1] == c[|c| - 1];
    assert Strip(line) == line by { StripUnpadded(line); }
    SpacedWords(b, c);
    SplitWhitespaceWord(a, r1);
  }

  /** A space, a word, a space and a word split into the two words. */
  lemma SpacedWords(b: string, c: string)
    requires b != [] && c != [] && NoSpace(b) && NoSpace(c)
    ensures SplitWhitespace([' '] + (b + ([' '] + c))) == [b, c]
  {
    var r2 := [' '] + c;
    assert SplitWhitespace(r2) == [c] by {
      SplitWhitespaceSkip(r2);
      assert r2[1..] == c && c + [] == c;
      SplitWhitespaceWord(c, []);
    }
    var r1 := [' '] + (b + r2);
    SplitWhitespaceSkip(r1);
    assert r1[1..] == b + r2;
    SplitWhitespaceWord(b, r2);
  }

  /** findModifiers("b:!=") raises: ! and = do not go together. */
  lemma BangEqualsAnnotation()
    ensures LineSegmenter.Annotate("b:!=") == Err(IncompatibleModifiersError(ModifierGrammar.PushPreserveMessage))
  {
    var line := "b:!=";
    assert RFind(line, ':') == 1;
    var rest := LineSegmenter.AfterSeparator(line);
    assert rest == "!=";
    assert LineSegmenter.FirstDigit(rest) == 2 by {
      assert LineSegmenter.FirstDigit(rest[1..]) == 1 by { assert rest[1..][1..] == []; }
    }
    assert LineSegmenter.RemoveCount(rest) == (rest, None);
    assert LineSegmenter.AllAcceptable(rest);
    assert LineSegmenter.FlagLetters(rest) == "!=" by {
      assert rest[..1] == "!" && LineSegmenter.FlagLetters(rest[..1]) == "!" by {
        assert rest[..1][..0] == [];
      }
    }
    assert ModifierGrammar.NonFlagLetters("!=") == [] by {
      assert "!="[1..] == "=" && "="[1..] == [];
    }
    assert ModifierGrammar.SortDistinct([]) == [];
  }

  /** How findCommands splits "+ a b:!=": it yields +, and raises when asked for the
      next command, because the annotation of b combines ! with =. */
  const PlusSegmentation := LineSegmenter.Segmentation([LineSegmenter.Command("+", ModifierGrammar.NoModifiers, None)],
                                                       Some(IncompatibleModifiersError(ModifierGrammar.PushPreserveMessage)))

  lemma PlusLineSegments()
    ensures LineCommands(Fresh, "+ a b:!=", None) == PlusSegmentation
  {
    PlusLineFields();
    BangEqualsAnnotation();
    LineSegmenter.NoSeparator("+");
    LineSegmenter.NoSeparator("a");
    var failure := IncompatibleModifiersError(ModifierGrammar.PushPreserveMessage);
    var plus := LineSegmenter.Command("+", ModifierGrammar.NoModifiers, None);
    var fields: seq<string> := ["+", "a", "b:!="];
    var anns := LineSegmenter.AnnotateAll(fields);
    LineSegmenter.AnnotateAllAt(fields, 0);
    LineSegmenter.AnnotateAllAt(fields, 1);
    LineSegmenter.AnnotateAllAt(fields, 2);
    assert fields[0] == "+" && fields[1] == "a" && fields[2] == "b:!=";
    assert LineSegmenter.NextCommand(fields, anns, 1) == Err(failure);
    LineSegmenter.SegmentFails(fields, anns, 1, failure);
    assert LineSegmenter.NextCommand(fields, anns, 0) == Ok((plus, 1));
    assert !LineSegmenter.IsComment("+");
    LineSegmenter.SegmentStep(fields, anns, 0, plus, 1);
  }

  /** The input that shows it: on an empty stack, "+ a b:!=" makes + fail for want of
      arguments; the look-ahead then raises IncompatibleModifiersError out of execute as
      written. */
  lemma LookAheadCounterexample(h: Host)
    ensures ExecuteAsWritten(h, PlusOnly, Fresh, "+ a b:!=", None).1 ==
      Err(IncompatibleModifiersError(ModifierGrammar.PushPreserveMessage))
  {
    PlusLineSegments();
    PlusRaises(h);
  }

  lemma PlusRaises(h: Host)
    ensures RunCommands(h, PlusOnly, Fresh, PlusSegmentation, 0).1 == Err(IncompatibleModifiersError(ModifierGrammar.PushPreserveMessage))
  {
    PlusFails(h);
  }

  /** The corrected loop reports the failure of + and returns False. */
  lemma LookAheadCorrected(h: Host)
    ensures Execute(h, PlusOnly, Fresh, "+ a b:!=", None) ==
      (Fresh.(transcript := [Complaint(NotEnoughArgsMessage("+", 2, 0))]), Ok(false))
  {
    PlusLineSegments();
    PlusReported(h);
  }

  lemma PlusReported(h: Host)
    ensures RunCommandsCorrected(h, PlusOnly, Fresh, PlusSegmentation, 0) ==
      (Fresh.(transcript := [Complaint(NotEnoughArgsMessage("+", 2, 0))]), Ok(false))
  {
    PlusFails(h);
  }

  /** + on an empty stack fails for want of its two arguments. */
  lemma PlusFails(h: Host)
    ensures ExecuteCommand(h, PlusOnly, Fresh, LineSegmenter.Command("+", ModifierGrammar.NoModifiers, None)) ==
      (Fresh.(transcript := [Complaint(NotEnoughArgsMessage("+", 2, 0))]), Ok(false))
  {
    var m := ModifierGrammar.NoModifiers;
    assert SetSplitting(Fresh, m) == Fresh && ApplyToggles(Fresh, m) == Fresh;
    assert TryFunction(h, PlusOnly, Fresh, "+", m, None) ==
      (Fresh, Failed(CalculatorError([NotEnoughArgsMessage("+", 2, 0)])));
    assert Fresh.transcript + Complaints([NotEnoughArgsMessage("+", 2, 0)]) == [Complaint(NotEnoughArgsMessage("+", 2, 0))];
  }
}
