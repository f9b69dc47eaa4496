/** The special commands of src/rpnpy/functions.py. Each takes the calculator, the
    command's modifiers and its count, changes the calculator (nearly always through
    _finalize) and returns a value, the NO_VALUE sentinel, or raises. */
module Specials {
  import opened Text
  import opened Errors
  import ModifierGrammar
  import opened Values
  import opened Engine

  /** The functions listed in FUNCTIONS. */
  datatype Special =
    | ApplyCmd | ClearCmd | DupCmd | FunctionsCmd | JoinCmd | ListCmd | MapCmd | PopCmd
    | PrintCmd | QuitCmd | ReduceCmd | ReverseCmd | StackCmd | StoreCmd | SwapCmd | UndoCmd
    | VariablesCmd

  /** The builtin list type, which list pushes under !. */
  const ListType := Fn(Callable("list", None, "<class 'list'>", "type"))

  function Fail(st: State, message: string): (State, Step) {
    (st, Failed(CalculatorError([message])))
  }

  function Top(st: State): Value
    requires st.stack != []
  {
    st.stack[|st.stack| - 1]
  }

  /** "Cannot <verb> %d item%s (stack length is %d)" */
  function CannotMessage(verb: string, nArgs: nat, n: nat): string {
    "Cannot " + verb + " " + NatToString(nArgs) + " item" + Plural(nArgs) + " (stack length is " + NatToString(n) + ")"
  }

  /** The number of stack items a command works on: the count when one is given, else
      the whole stack under *, else the command's default. */
  function ArgCount(count: Option<nat>, m: ModifierGrammar.Modifiers, n: nat, default: nat): nat {
    if count.Some? then count.value else if m.all then n else default
  }

  /** quit: raises EOFError. */
  function Quit(h: Host, st: State, m: ModifierGrammar.Modifiers, count: Option<nat>): (r: (State, Step))
    ensures !r.1.Declined?
    ensures SameSession(st, r.0)
  {
    (st, Failed(EndOfSession))
  }

  /** functions: lists the known functions; the listing is output only. */
  function Functions(h: Host, st: State, m: ModifierGrammar.Modifiers, count: Option<nat>): (r: (State, Step))
    ensures !r.1.Declined?
    ensures SameSession(st, r.0)
  {
    (st, Claimed(NoValue))
  }

  /** stack: pretty-prints the whole stack. pprint computes the repr() of every item
      before it writes anything, so an item whose repr raises prints nothing and raises. */
  function Stack(h: Host, st: State, m: ModifierGrammar.Modifiers, count: Option<nat>): (r: (State, Step))
    ensures !r.1.Declined?
    ensures SameSession(st, r.0)
  {
    match ReprAll(st.stack, st.variables)
    case Err(e) => (st, Failed(e))
    case Ok(_) => (st.(transcript := st.transcript + [Printed(List(st.stack))]), Claimed(NoValue))
  }

  /** The names of the variables whose value's repr() raises. */
  function UnprintableNames(variables: map<string, Value>): (r: set<string>)
    ensures forall n :: n in r <==> n in variables && ReprOf(variables[n], variables).Err?
  {
    set n | n in variables && ReprOf(variables[n], variables).Err?
  }

  /** variables: lists the variables in sorted order with the repr() of each value; the
      listing is output only. The first variable (in that order) whose repr raises ends
      the listing with that exception. */
  function Variables(h: Host, st: State, m: ModifierGrammar.Modifiers, count: Option<nat>): (r: (State, Step))
    ensures !r.1.Declined?
    ensures SameSession(st, r.0)
  {
    var unprintable := UnprintableNames(st.variables);
    if unprintable == {} then (st, Claimed(NoValue))
    else (st, Failed(ReprOf(st.variables[Least(unprintable)], st.variables).error))
  }

  /** clear: empties a non-empty stack (saving the snapshot); under = it only complains. */
  function Clear(h: Host, st: State, m: ModifierGrammar.Modifiers, count: Option<nat>): (r: (State, Step))
    ensures !r.1.Declined?
    ensures SameSession(st, r.0)
  {
    if st.stack == [] then (st, Claimed(NoValue))
    else if m.preserveStack then (Complain(st, ["The /= modifier makes no sense with clear"]), Claimed(NoValue))
    else Conclude(Finalize(h, st, NoneValue, m, |st.stack|, Nothing), NoValue)
  }

  /** dup: pushes count (default 1) more copies of the top item. */
  function Dup(h: Host, st: State, m: ModifierGrammar.Modifiers, count: Option<nat>): (r: (State, Step))
    ensures !r.1.Declined?
    ensures SameSession(st, r.0)
  {
    if st.stack == [] then Fail(st, "Cannot duplicate (stack is empty)")
    else if m.preserveStack then Fail(st, "The /= modifier makes no sense with dup")
    else
      var value := Top(st);
      Conclude(Finalize(h, st, value, m, 0, Append(count.GetOr(1))), Produced(value))
  }

  /** undo: puts back the saved stack and variables. The snapshot itself stays. */
  function Undo(h: Host, st: State, m: ModifierGrammar.Modifiers, count: Option<nat>): (r: (State, Step))
    ensures !r.1.Declined?
    ensures SameSession(st, r.0)
  {
    match st.previous
    case None => Fail(st, "No undo saved")
    case Some(snapshot) =>
      if m.preserveStack then Fail(st, "The /= modifier makes no sense with undo")
      else if m.printValue then Fail(st, "The /p modifier makes no sense with undo")
      else (st.(stack := snapshot.stack, variables := snapshot.variables), Claimed(NoValue))
  }

  /** print: pretty-prints the top item (or complains about an empty stack) and returns
      None, which is itself a value the caller may print. */
  function PrintTop(h: Host, st: State, m: ModifierGrammar.Modifiers, count: Option<nat>): (r: (State, Step))
    ensures !r.1.Declined?
    ensures SameSession(st, r.0)
  {
    if st.stack == [] then (Complain(st, ["Cannot print top of stack item (stack is empty)"]), Claimed(Produced(NoneValue)))
    else if ReprOf(Top(st), st.variables).Err? then (st, Failed(ReprOf(Top(st), st.variables).error))
    else (st.(transcript := st.transcript + [Printed(Top(st))]), Claimed(Produced(NoneValue)))
  }

  /** apply: calls the callable found on the stack on its arguments and replaces both by
      the result. */
  function Apply(h: Host, st: State, m: ModifierGrammar.Modifiers, count: Option<nat>): (r: (State, Step))
    ensures !r.1.Declined?
    ensures SameSession(st, r.0)
  {
    match FindCallableAndArgs(st, "apply", m, count)
    case Err(e) => (st, Failed(e))
    case Ok(Found(func, args)) =>
      match CallValue(h, func, args)
      case Raised(message, eof) => (st, Failed(HostError(message, eof)))
      case Returned(result) => Conclude(Finalize(h, st, result, m, |args| + 1, Append(1)), Produced(result))
  }

  /** What a single argument stands for in join, reduce and map: its own items; several
      arguments stand for themselves. */
  function Operands(h: Host, args: seq<Value>): Iteration {
    if |args| == 1 then Iterate(h, args[0]) else Items(args)
  }

  /** sep.join(map(str, operands)) */
  function JoinText(h: Host, variables: map<string, Value>, sep: string, args: seq<Value>): Result<string> {
    match Operands(h, args)
    case NotIterable => Err(HostException(NotIterableText(args[0])))
    case Items(xs) =>
      (match StrAll(xs, variables)
       case Ok(parts) => Ok(Join(sep, parts))
       case Err(e) => Err(e))
    case FailedAfter(prefix, e) =>
      (match StrAll(prefix, variables)
       case Ok(_) => Err(e)
       case Err(e') => Err(e'))
  }

  /** join: joins the str() of the arguments with the string found on the stack. */
  function JoinItems(h: Host, st: State, m: ModifierGrammar.Modifiers, count: Option<nat>): (r: (State, Step))
    ensures !r.1.Declined?
    ensures SameSession(st, r.0)
  {
    match FindStringAndArgs(st, "join", m, count)
    case Err(e) => (st, Failed(e))
    case Ok(Found(sep, args)) =>
      if !sep.Str? then (st, Failed(HostException("'" + TypeName(sep) + "' object has no attribute 'join'")))
      else
        match JoinText(h, st.variables, sep.s, args)
        case Err(e) => (st, Failed(e))
        case Ok(text) => Conclude(Finalize(h, st, Str(text), m, |args| + 1, Append(1)), Produced(Str(text)))
  }

  /** The left fold of functools.reduce once the first item is the accumulator. */
  function Fold(h: Host, func: Value, acc: Value, xs: seq<Value>): Result<Value>
    decreases |xs|
  {
    if xs == [] then Ok(acc)
    else
      match CallValue(h, func, [acc, xs[0]])
      case Raised(message, eof) => Err(HostError(message, eof))
      case Returned(next) => Fold(h, func, next, xs[1..])
  }

  /** functools.reduce(func, operands), with no initial value. */
  function ReduceOperands(h: Host, func: Value, items: Iteration): Result<Value> {
    match items
    case NotIterable => Err(HostException("reduce() arg 2 must support iteration"))
    case Items(xs) =>
      if xs == [] then Err(HostException("reduce() of empty iterable with no initial value"))
      else Fold(h, func, xs[0], xs[1..])
    case FailedAfter(prefix, e) =>
      if prefix == [] then Err(e)
      else
        match Fold(h, func, prefix[0], prefix[1..])
        case Ok(_) => Err(e)
        case Err(e') => Err(e')
  }

  /** reduce: folds the callable found on the stack over its arguments. The search is
      made under the command name 'apply'. */
  function ReduceItems(h: Host, st: State, m: ModifierGrammar.Modifiers, count: Option<nat>): (r: (State, Step))
    ensures !r.1.Declined?
    ensures SameSession(st, r.0)
  {
    match FindCallableAndArgs(st, "apply", m, count)
    case Err(e) => (st, Failed(e))
    case Ok(Found(func, args)) =>
      match ReduceOperands(h, func, Operands(h, args))
      case Err(e) => (st, Failed(e))
      case Ok(value) => Conclude(Finalize(h, st, value, m, |args| + 1, Append(1)), Produced(value))
  }

  /** pop: removes count items (default 1, or the whole stack under *); it returns the
      single item, or the list of them. */
  function Pop(h: Host, st: State, m: ModifierGrammar.Modifiers, count: Option<nat>): (r: (State, Step))
    ensures !r.1.Declined?
    ensures SameSession(st, r.0)
  {
    var n := |st.stack|;
    var nArgs := ArgCount(count, m, n, 1);
    if n >= nArgs then
      var value := if nArgs == 1 then Top(st) else List(TopItems(st.stack, nArgs));
      Conclude(Finalize(h, st, value, m, nArgs, Nothing), Produced(value))
    else Fail(st, CannotMessage("pop", nArgs, n))
  }

  /** reverse: reverses the order of the top count items (default 2, or the whole stack
      under *); it needs at least two. */
  function ReverseItems(h: Host, st: State, m: ModifierGrammar.Modifiers, count: Option<nat>): (r: (State, Step))
    ensures !r.1.Declined?
    ensures SameSession(st, r.0)
  {
    var n := |st.stack|;
    var nArgs := ArgCount(count, m, n, 2);
    if n >= nArgs && nArgs > 1 then
      var value := List(Reverse(st.stack[n - nArgs..]));
      Conclude(Finalize(h, st, value, m, nArgs, Extend), Produced(value))
    else Fail(st, CannotMessage("reverse", nArgs, n))
  }

  /** swap: exchanges the top two items. */
  function Swap(h: Host, st: State, m: ModifierGrammar.Modifiers, count: Option<nat>): (r: (State, Step))
    ensures !r.1.Declined?
    ensures SameSession(st, r.0)
  {
    var n := |st.stack|;
    if n > 1 then Conclude(Finalize(h, st, List(Reverse(st.stack[n - 2..])), m, 2, Extend), NoValue)
    else Fail(st, "Cannot swap (stack needs 2 items)")
  }

  /** list: replaces the top count items (default 1, or the whole stack under *) by the
      list of them; a single item becomes the list of its own items when it is iterable.
      Under ! it pushes the list type instead. */
  function ListItems(h: Host, st: State, m: ModifierGrammar.Modifiers, count: Option<nat>): (r: (State, Step))
    ensures !r.1.Declined?
    ensures SameSession(st, r.0)
  {
    if m.push then Conclude(Finalize(h, st, ListType, m, 0, Append(1)), Produced(ListType))
    else if st.stack == [] then Fail(st, "Cannot run list (stack is empty)")
    else
      var n := |st.stack|;
      var nArgs := ArgCount(count, m, n, 1);
      if nArgs == 1 then
        match Iterate(h, Top(st))
        case FailedAfter(_, e) => (st, Failed(e))
        case NotIterable => Conclude(Finalize(h, st, List([Top(st)]), m, 1, Append(1)), Produced(List([Top(st)])))
        case Items(xs) => Conclude(Finalize(h, st, List(xs), m, 1, Append(1)), Produced(List(xs)))
      else if n >= nArgs then
        var value := List(TopItems(st.stack, nArgs));
        Conclude(Finalize(h, st, value, m, nArgs, Append(1)), Produced(value))
      else Fail(st, CannotMessage("list", nArgs, n))
  }

  /** The value store gives its variable: a single argument itself, several as a list. */
  function StoredValue(args: seq<Value>): Value {
    if |args| == 1 then args[0] else List(args)
  }

  /** store: sets the variable named by the string found on the stack to its arguments,
      then pops the name and the arguments. The variable is set before _finalize saves
      the snapshot. */
  function Store(h: Host, st: State, m: ModifierGrammar.Modifiers, count: Option<nat>): (r: (State, Step))
    ensures !r.1.Declined?
    ensures SameSession(st, r.0)
  {
    match FindStringAndArgs(st, "store", m, count)
    case Err(e) => (st, Failed(e))
    case Ok(Found(variable, args)) =>
      if variable.List? then (st, Failed(HostException("unhashable type: 'list'")))
      else
        var named := if variable.Str? then SetVariable(st, variable.s, StoredValue(args)) else st;
        Conclude(Finalize(h, named, NoneValue, m, |args| + 1, Nothing), NoValue)
  }

  /** store with the snapshot taken before the variable is set, so that undo also
      restores the variable. */
  function StoreSnapshotFirst(h: Host, st: State, m: ModifierGrammar.Modifiers, count: Option<nat>): (r: (State, Step))
    ensures !r.1.Declined?
    ensures SameSession(st, r.0)
  {
    match FindStringAndArgs(st, "store", m, count)
    case Err(e) => (st, Failed(e))
    case Ok(Found(variable, args)) =>
      if variable.List? then (st, Failed(HostException("unhashable type: 'list'")))
      else
        var popped := Finalize(h, st, NoneValue, m, |args| + 1, Nothing);
        var named := if variable.Str? then SetVariable(popped.0, variable.s, StoredValue(args)) else popped.0;
        Conclude((named, popped.1), NoValue)
  }

  /** map: replaces the callable found on the stack and its arguments by the lazy map of
      the callable over them: pushed as one map object for a single argument (whose items
      are mapped), or extended item by item for several. */
  function MapOver(h: Host, st: State, m: ModifierGrammar.Modifiers, count: Option<nat>): (r: (State, Step))
    ensures !r.1.Declined?
    ensures SameSession(st, r.0)
  {
    match FindCallableAndArgs(st, "map", m, count)
    case Err(e) => (st, Failed(e))
    case Ok(Found(func, args)) =>
      if |args| == 1 && Iterate(h, args[0]).NotIterable? then (st, Failed(HostException(NotIterableText(args[0]))))
      else
        var result := MapObject(func, if |args| == 1 then args[0] else List(args));
        Conclude(Finalize(h, st, result, m, |args| + 1, if |args| == 1 then Append(1) else Extend), Produced(result))
  }

  /** Running a special command. Every special command claims the command or raises;
      none declines, and none changes the three session flags. */
  function RunSpecial(h: Host, sp: Special, st: State, m: ModifierGrammar.Modifiers, count: Option<nat>): (r: (State, Step))
    ensures !r.1.Declined?
    ensures SameSession(st, r.0)
  {
    match sp
    case ApplyCmd => Apply(h, st, m, count)
    case ClearCmd => Clear(h, st, m, count)
    case DupCmd => Dup(h, st, m, count)
    case FunctionsCmd => Functions(h, st, m, count)
    case JoinCmd => JoinItems(h, st, m, count)
    case ListCmd => ListItems(h, st, m, count)
    case MapCmd => MapOver(h, st, m, count)
    case PopCmd => Pop(h, st, m, count)
    case PrintCmd => PrintTop(h, st, m, count)
    case QuitCmd => Quit(h, st, m, count)
    case ReduceCmd => ReduceItems(h, st, m, count)
    case ReverseCmd => ReverseItems(h, st, m, count)
    case StackCmd => Stack(h, st, m, count)
    case StoreCmd => StoreSnapshotFirst(h, st, m, count)
    case SwapCmd => Swap(h, st, m, count)
    case UndoCmd => Undo(h, st, m, count)
    case VariablesCmd => Variables(h, st, m, count)
  }

  // ----- FUNCTIONS and addSpecialFunctions -----

  /** FUNCTIONS, in order, each with its names. */
  const FunctionsTable: seq<(Special, seq<string>)> := [
    (ApplyCmd, ["apply"]), (ClearCmd, ["clear", "c"]), (DupCmd, ["dup", "d"]),
    (FunctionsCmd, ["functions"]), (JoinCmd, ["join"]), (ListCmd, ["list"]), (MapCmd, ["map"]),
    (PopCmd, ["pop"]), (PrintCmd, ["print", "p"]), (QuitCmd, ["quit", "q"]),
    (ReduceCmd, ["reduce"]), (ReverseCmd, ["reverse"]), (StackCmd, ["stack", "s", "f"]),
    (StoreCmd, ["store"]), (SwapCmd, ["swap"]), (UndoCmd, ["undo"]), (VariablesCmd, ["variables"])]

  /** registerSpecial(func, name) for each of the names, in order. */
  function RegisterNames(special: map<string, Special>, sp: Special, names: seq<string>): map<string, Special>
    decreases |names|
  {
    if names == [] then special else RegisterNames(special[names[0] := sp], sp, names[1..])
  }

  /** The loop of addSpecialFunctions over the entries of a table. */
  function RegisterTable(special: map<string, Special>, table: seq<(Special, seq<string>)>): map<string, Special>
    decreases |table|
  {
    if table == [] then special else RegisterTable(RegisterNames(special, table[0].0, table[0].1), table[1..])
  }

  /** addSpecialFunctions */
  function AddSpecialFunctions(special: map<string, Special>): (r: map<string, Special>)
    ensures forall k :: k in r <==> k in special || k in TableNames(FunctionsTable)
    ensures forall k :: k in special && k !in TableNames(FunctionsTable) ==> r[k] == special[k]
  {
    RegisterTableBinds(special, FunctionsTable);
    RegisterTable(special, FunctionsTable)
  }

  // ----- properties of the special commands -----

  /** quit raises EOFError; functions, stack and variables only write (the listings of
      functions and variables are not modelled) and leave the stack, the snapshot and
      the variables alone, producing no value. */
  lemma OutputOnlyCommands(h: Host, st: State, m: ModifierGrammar.Modifiers, count: Option<nat>)
    ensures Quit(h, st, m, count) == (st, Failed(EndOfSession))
    ensures Functions(h, st, m, count) == (st, Claimed(NoValue))
    ensures Variables(h, st, m, count).0 == st
    ensures ReprAll(st.stack, st.variables).Ok? ==>
      Stack(h, st, m, count) == (st.(transcript := st.transcript + [Printed(List(st.stack))]), Claimed(NoValue))
    ensures ReprAll(st.stack, st.variables).Err? ==>
      Stack(h, st, m, count) == (st, Failed(ReprAll(st.stack, st.variables).error))
  {
  }

  /** variables succeeds exactly when the repr() of every variable's value does. When one
      raises, the exception is that of the first such variable in sorted order: every
      variable listed before it has a repr. */
  lemma VariablesListsInOrder(h: Host, st: State, m: ModifierGrammar.Modifiers, count: Option<nat>)
    ensures var r := Variables(h, st, m, count);
      && (r.1 == Claimed(NoValue) <==> forall n :: n in st.variables ==> ReprOf(st.variables[n], st.variables).Ok?)
      && (r.1.Failed? ==>
            exists first :: (first in st.variables && ReprOf(st.variables[first], st.variables).Err?
              && r.1 == Failed(ReprOf(st.variables[first], st.variables).error)
              && forall n :: n in st.variables && AtMost(n, first) && n != first ==> ReprOf(st.variables[n], st.variables).Ok?))
  {
    var unprintable := UnprintableNames(st.variables);
    if unprintable != {} {
      var first := Least(unprintable);
      forall n | n in st.variables && AtMost(n, first) && n != first
        ensures ReprOf(st.variables[n], st.variables).Ok?
      {
        if n in unprintable {
          AtMostAntisymmetric(n, first);
        }
      }
    }
  }

  /** clear empties a non-empty stack and saves the snapshot; under = it leaves the stack
      and complains; on an empty stack it does nothing. It never fails. */
  lemma ClearEmpties(h: Host, st: State, m: ModifierGrammar.Modifiers, count: Option<nat>)
    ensures var (st', step) := Clear(h, st, m, count);
      && step == Claimed(NoValue)
      && (st.stack != [] && !m.preserveStack ==>
            st' == st.(stack := [], previous := Some(Snapshot(st.stack, st.variables))))
      && (st.stack != [] && m.preserveStack ==>
            st' == st.(transcript := st.transcript + [Complaint("The /= modifier makes no sense with clear")]))
      && (st.stack == [] ==> st' == st)
  {
    if st.stack != [] && !m.preserveStack {
      FinalizeClosedForm(h, st, NoneValue, m, |st.stack|, Nothing);
    }
  }

  /** dup pushes count (default 1) copies of the top item and returns it; it refuses an
      empty stack and the = modifier. */
  lemma DupCopiesTop(h: Host, st: State, m: ModifierGrammar.Modifiers, count: Option<nat>)
    requires !m.iterate
    ensures var (st', step) := Dup(h, st, m, count);
      && (st.stack == [] ==> step == Failed(CalculatorError(["Cannot duplicate (stack is empty)"])) && st' == st)
      && (st.stack != [] && m.preserveStack ==>
            step == Failed(CalculatorError(["The /= modifier makes no sense with dup"])) && st' == st)
      && (st.stack != [] && !m.preserveStack ==>
            step == Claimed(Produced(Top(st)))
            && st' == SaveState(st).(stack := st.stack + Repeat(Top(st), count.GetOr(1))))
  {
    if st.stack != [] && !m.preserveStack {
      FinalizeClosedForm(h, st, Top(st), m, 0, Append(count.GetOr(1)));
    }
  }

  /** undo refuses when nothing was saved and under = or p; otherwise it restores the saved
      stack and variables and keeps the snapshot. */
  lemma UndoRestores(h: Host, st: State, m: ModifierGrammar.Modifiers, count: Option<nat>)
    ensures var (st', step) := Undo(h, st, m, count);
      && (st.previous.None? ==> step == Failed(CalculatorError(["No undo saved"])) && st' == st)
      && (st.previous.Some? && m.preserveStack ==>
            step == Failed(CalculatorError(["The /= modifier makes no sense with undo"])) && st' == st)
      && (st.previous.Some? && !m.preserveStack && m.printValue ==>
            step == Failed(CalculatorError(["The /p modifier makes no sense with undo"])) && st' == st)
      && (st.previous.Some? && !m.preserveStack && !m.printValue ==>
            step == Claimed(NoValue)
            && st' == st.(stack := st.previous.value.stack, variables := st.previous.value.variables))
  {
  }

  /** Right after a _finalize that pops or pushes (without =), undo gives back the stack
      and variables from before it. */
  lemma {:induction false} UndoRevertsFinalize(h: Host, st: State, result: Value, m: ModifierGrammar.Modifiers, nPop: nat, add: Addition, m': ModifierGrammar.Modifiers, count: Option<nat>)
    requires !m.preserveStack && (nPop > 0 || !add.Nothing?)
    requires !m'.preserveStack && !m'.printValue
    ensures var after := Finalize(h, st, result, m, nPop, add).0;
      var (st', step) := Undo(h, after, m', count);
      && step == Claimed(NoValue) && st'.stack == st.stack && st'.variables == st.variables
  {
    FinalizeSavesSnapshot(h, st, result, m, nPop, add);
  }

  /** A second undo changes nothing: there is one level of undo and no redo. */
  lemma UndoTwiceIsUndo(h: Host, st: State, m: ModifierGrammar.Modifiers, count: Option<nat>)
    requires st.previous.Some? && !m.preserveStack && !m.printValue
    ensures Undo(h, Undo(h, st, m, count).0, m, count) == Undo(h, st, m, count)
  {
  }

  /** print shows the top item (or complains on an empty stack), leaves the stack
      alone, and returns None. */
  lemma PrintShowsTop(h: Host, st: State, m: ModifierGrammar.Modifiers, count: Option<nat>)
    ensures var (st', step) := PrintTop(h, st, m, count);
      var unprintable := st.stack != [] && ReprOf(st.stack[|st.stack| - 1], st.variables).Err?;
      && st'.stack == st.stack && st'.variables == st.variables
      && (unprintable ==> st' == st && step == Failed(ReprOf(st.stack[|st.stack| - 1], st.variables).error))
      && (!unprintable ==> step == Claimed(Produced(NoneValue)))
      && (st.stack != [] && !unprintable ==> st'.transcript == st.transcript + [Printed(st.stack[|st.stack| - 1])])
      && (st.stack == [] ==>
            st'.transcript == st.transcript + [Complaint("Cannot print top of stack item (stack is empty)")])
  {
  }

  /** pop removes the top nArgs items (count, else the whole stack under *, else 1),
      saving the snapshot first, and returns the single item or the list of them (with a
      count of 0, stack[-0:] is the whole stack, and nothing is popped or saved); it
      refuses to pop more than there are. Nothing but the stack and the snapshot changes. */
  lemma PopRemovesTop(h: Host, st: State, m: ModifierGrammar.Modifiers, count: Option<nat>)
    requires !m.preserveStack && !m.iterate
    ensures var n := |st.stack|;
      var nArgs := ArgCount(count, m, n, 1);
      var (st', step) := Pop(h, st, m, count);
      && (0 < nArgs <= n ==>
            st' == SaveState(st).(stack := st.stack[..n - nArgs])
            && step == Claimed(Produced(if nArgs == 1 then st.stack[n - 1] else List(st.stack[n - nArgs..]))))
      && (nArgs == 0 ==> st' == st && step == Claimed(Produced(List(st.stack))))
      && (nArgs > n ==> st' == st && step == Failed(CalculatorError([CannotMessage("pop", nArgs, n)])))
  {
    var n := |st.stack|;
    var nArgs := ArgCount(count, m, n, 1);
    if nArgs <= n {
      var value := if nArgs == 1 then Top(st) else List(TopItems(st.stack, nArgs));
      if nArgs > 0 {
        FinalizeClosedForm(h, st, value, m, nArgs, Nothing);
      } else {
        FinalizeNothingToDo(h, st, value, m);
      }
    }
  }

  /** reverse reverses the order of the top nArgs items (count, else the whole stack
      under *, else 2), saving the snapshot, and returns the reversed items. The i
      modifier makes no difference. */
  lemma ReverseReversesTop(h: Host, st: State, m: ModifierGrammar.Modifiers, count: Option<nat>)
    requires !m.preserveStack && 2 <= ArgCount(count, m, |st.stack|, 2) <= |st.stack|
    ensures var top := st.stack[|st.stack| - ArgCount(count, m, |st.stack|, 2)..];
      ReverseItems(h, st, m, count) ==
      (SaveState(st).(stack := st.stack[..|st.stack| - |top|] + Reverse(top)), Claimed(Produced(List(Reverse(top)))))
  {
    var n := |st.stack|;
    var nArgs := ArgCount(count, m, n, 2);
    var top := st.stack[n - nArgs..];
    var value := List(Reverse(top));
    var after := SaveState(st).(stack := st.stack[..n - nArgs] + Reverse(top));
    ReverseItemsUnfolds(h, st, m, count);
    assert Finalize(h, st, value, m, nArgs, Extend) == (after, None) by {
      FinalizeClosedForm(h, st, value, m, nArgs, Extend);
      assert WithoutTop(st.stack, nArgs) + Pushed(value, Extend) == st.stack[..n - nArgs] + Reverse(top);
    }
  }

  lemma ReverseItemsUnfolds(h: Host, st: State, m: ModifierGrammar.Modifiers, count: Option<nat>)
    requires 2 <= ArgCount(count, m, |st.stack|, 2) <= |st.stack|
    ensures var value := List(Reverse(st.stack[|st.stack| - ArgCount(count, m, |st.stack|, 2)..]));
      ReverseItems(h, st, m, count) ==
      Conclude(Finalize(h, st, value, m, ArgCount(count, m, |st.stack|, 2), Extend), Produced(value))
  {
  }

  /** reverse refuses fewer than two items or more than there are. */
  lemma ReverseRefuses(h: Host, st: State, m: ModifierGrammar.Modifiers, count: Option<nat>)
    requires !(2 <= ArgCount(count, m, |st.stack|, 2) <= |st.stack|)
    ensures ReverseItems(h, st, m, count) ==
      (st, Failed(CalculatorError([CannotMessage("reverse", ArgCount(count, m, |st.stack|, 2), |st.stack|)])))
  {
  }

  /** Reversing the same top items twice restores the stack. */
  lemma ReverseTwiceRestores(h: Host, st: State, m: ModifierGrammar.Modifiers, k: nat)
    requires !m.preserveStack && 2 <= k <= |st.stack|
    ensures ReverseItems(h, ReverseItems(h, st, m, Some(k)).0, m, Some(k)).0.stack == st.stack
  {
    ReverseReversesTop(h, st, m, Some(k));
    var once := ReverseItems(h, st, m, Some(k)).0;
    ReverseTopTwice(st.stack, k);
    ReverseReversesTop(h, once, m, Some(k));
  }

  /** The stack effect of reverse, applied twice to the same top k items. */
  lemma ReverseTopTwice(s: seq<Value>, k: nat)
    requires k <= |s|
    ensures var once := s[..|s| - k] + Reverse(s[|s| - k..]);
      |once| == |s| && once[..|once| - k] + Reverse(once[|once| - k..]) == s
  {
    var n := |s|;
    var top := s[n - k..];
    var once := s[..n - k] + Reverse(top);
    assert once[..n - k] == s[..n - k] && once[n - k..] == Reverse(top);
    ReverseInvolutive(top);
    assert s == s[..n - k] + top;
  }

  /** swap exchanges the top two items, saving the snapshot, and returns no value: it is
      reverse with a count of 2. */
  lemma SwapExchangesTopTwo(h: Host, st: State, m: ModifierGrammar.Modifiers, count: Option<nat>)
    requires !m.preserveStack && |st.stack| >= 2
    ensures var s := st.stack;
      Swap(h, st, m, count) ==
      (SaveState(st).(stack := s[..|s| - 2] + [s[|s| - 1], s[|s| - 2]]), Claimed(NoValue))
    ensures Swap(h, st, m, count).0 == ReverseItems(h, st, m, Some(2)).0
  {
    var s := st.stack;
    var n := |s|;
    ReverseTopTwo(s);
    FinalizeClosedForm(h, st, List(Reverse(s[n - 2..])), m, 2, Extend);
    ReverseReversesTop(h, st, m, Some(2));
  }

  /** swap refuses a stack of fewer than two items. */
  lemma SwapRefuses(h: Host, st: State, m: ModifierGrammar.Modifiers, count: Option<nat>)
    requires |st.stack| < 2
    ensures Swap(h, st, m, count) == (st, Failed(CalculatorError(["Cannot swap (stack needs 2 items)"])))
  {
  }

  lemma ReverseTopTwo(s: seq<Value>)
    requires |s| >= 2
    ensures Reverse(s[|s| - 2..]) == [s[|s| - 1], s[|s| - 2]]
  {
  }

  /** list replaces the top nArgs items (count, else the whole stack under *, else 1) by
      the list of them, saving the snapshot first; one item on its own becomes the list
      of its items when it is iterable, or a one-item list; a count of 0 pushes a list of
      the whole stack (stack[-0:]) and pops nothing. */
  lemma ListCollectsTop(h: Host, st: State, m: ModifierGrammar.Modifiers, count: Option<nat>)
    requires !m.preserveStack && !m.push && st.stack != []
    ensures var n := |st.stack|;
      var nArgs := ArgCount(count, m, n, 1);
      var (st', step) := ListItems(h, st, m, count);
      && (2 <= nArgs <= n ==>
            st' == SaveState(st).(stack := st.stack[..n - nArgs] + [List(st.stack[n - nArgs..])])
            && step == Claimed(Produced(List(st.stack[n - nArgs..]))))
      && (nArgs == 0 ==>
            st' == SaveState(st).(stack := st.stack + [List(st.stack)]) && step == Claimed(Produced(List(st.stack))))
      && (nArgs == 1 && Iterate(h, st.stack[n - 1]).NotIterable? ==>
            st' == SaveState(st).(stack := st.stack[..n - 1] + [List([st.stack[n - 1]])])
            && step == Claimed(Produced(List([st.stack[n - 1]]))))
      && (nArgs == 1 && Iterate(h, st.stack[n - 1]).Items? ==>
            st' == SaveState(st).(stack := st.stack[..n - 1] + [List(Iterate(h, st.stack[n - 1]).items)])
            && step == Claimed(Produced(List(Iterate(h, st.stack[n - 1]).items))))
  {
    var n := |st.stack|;
    var nArgs := ArgCount(count, m, n, 1);
    if nArgs == 1 {
      ListOfOne(h, st, m, count);
    } else if nArgs <= n {
      ListOfMany(h, st, m, count);
    }
  }

  lemma ListOfOne(h: Host, st: State, m: ModifierGrammar.Modifiers, count: Option<nat>)
    requires !m.preserveStack && !m.push && st.stack != []
    requires ArgCount(count, m, |st.stack|, 1) == 1
    ensures var x := st.stack[|st.stack| - 1];
      var rest := st.stack[..|st.stack| - 1];
      && (Iterate(h, x).NotIterable? ==>
            ListItems(h, st, m, count) == (SaveState(st).(stack := rest + [List([x])]), Claimed(Produced(List([x])))))
      && (Iterate(h, x).Items? ==>
            ListItems(h, st, m, count)
            == (SaveState(st).(stack := rest + [List(Iterate(h, x).items)]), Claimed(Produced(List(Iterate(h, x).items)))))
  {
    var x := st.stack[|st.stack| - 1];
    match Iterate(h, x)
    case NotIterable => ListOfItems(h, st, m, 1, List([x]));
    case Items(xs) => ListOfItems(h, st, m, 1, List(xs));
    case FailedAfter(_, _) =>
  }

  lemma ListOfMany(h: Host, st: State, m: ModifierGrammar.Modifiers, count: Option<nat>)
    requires !m.preserveStack && !m.push && st.stack != []
    requires var nArgs := ArgCount(count, m, |st.stack|, 1); nArgs != 1 && nArgs <= |st.stack|
    ensures var n := |st.stack|;
      var nArgs := ArgCount(count, m, n, 1);
      ListItems(h, st, m, count)
      == (SaveState(st).(stack := st.stack[..n - nArgs] + [List(TopItems(st.stack, nArgs))]),
          Claimed(Produced(List(TopItems(st.stack, nArgs)))))
  {
    var n := |st.stack|;
    var nArgs := ArgCount(count, m, n, 1);
    ListOfItems(h, st, m, nArgs, List(TopItems(st.stack, nArgs)));
  }

  /** list fails, changing nothing, on an empty stack, with too few items for its count,
      or when iterating its one item raises. */
  lemma ListFailsUnchanged(h: Host, st: State, m: ModifierGrammar.Modifiers, count: Option<nat>)
    requires !m.push
    ensures var n := |st.stack|;
      var nArgs := ArgCount(count, m, n, 1);
      var (st', step) := ListItems(h, st, m, count);
      && (n == 0 ==> st' == st && step == Failed(CalculatorError(["Cannot run list (stack is empty)"])))
      && (0 < n && nArgs == 1 && Iterate(h, st.stack[n - 1]).FailedAfter? ==>
            st' == st && step == Failed(Iterate(h, st.stack[n - 1]).error))
      && (0 < n && nArgs > n ==> st' == st && step == Failed(CalculatorError([CannotMessage("list", nArgs, n)])))
  {
  }

  /** Pushing a list after popping k items: the i modifier leaves a list as it is; the
      snapshot is saved first. */
  lemma ListOfItems(h: Host, st: State, m: ModifierGrammar.Modifiers, k: nat, value: Value)
    requires !m.preserveStack && value.List? && k <= |st.stack|
    ensures Finalize(h, st, value, m, k, Append(1)) == (SaveState(st).(stack := st.stack[..|st.stack| - k] + [value]), None)
  {
    FinalizeClosedForm(h, st, value, m, k, Append(1));
    assert Repeat(value, 1) == [value];
  }


  /** Under ! list pushes the list type itself. */
  lemma ListPushesType(h: Host, st: State, m: ModifierGrammar.Modifiers, count: Option<nat>)
    requires m.push && !m.preserveStack
    ensures ListItems(h, st, m, count) == (SaveState(st).(stack := st.stack + [ListType]), Claimed(Produced(ListType)))
  {
    FinalizeClosedForm(h, st, ListType, m, 0, Append(1));
    assert Repeat(ListType, 1) == [ListType];
  }

  // ----- apply, join, reduce, map and store -----

  /** A failed search or a failed call leaves apply's calculator as it was. */
  lemma ApplyFailureChangesNothing(h: Host, st: State, m: ModifierGrammar.Modifiers, count: Option<nat>)
    requires FindCallableAndArgs(st, "apply", m, count).Err?
      || CallValue(h, FindCallableAndArgs(st, "apply", m, count).value.item,
                   FindCallableAndArgs(st, "apply", m, count).value.args).Raised?
    ensures Apply(h, st, m, count).0 == st && Apply(h, st, m, count).1.Failed?
  {
  }

  /** A successful apply replaces the callable and its arguments by the call's result. */
  lemma ApplyReplacesByResult(h: Host, st: State, m: ModifierGrammar.Modifiers, count: Option<nat>, func: Value, args: seq<Value>, result: Value)
    requires FindCallableAndArgs(st, "apply", m, count) == Ok(Found(func, args))
    requires CallValue(h, func, args) == Returned(result)
    requires !m.preserveStack && (!m.iterate || result.List? || Iterate(h, result).NotIterable?)
    ensures Apply(h, st, m, count) ==
      (SaveState(st).(stack := WithoutTop(st.stack, |args| + 1) + [result]), Claimed(Produced(result)))
  {
    FinalizeClosedForm(h, st, result, m, |args| + 1, Append(1));
    assert Repeat(result, 1) == [result];
  }

  /** A successful join replaces the separator and its arguments by the operands' str()
      values joined with the separator. (Under i the joined string would be pushed as the
      list of its characters.) */
  lemma JoinReplacesByText(h: Host, st: State, m: ModifierGrammar.Modifiers, count: Option<nat>, sep: string, args: seq<Value>, xs: seq<Value>, parts: seq<string>)
    requires FindStringAndArgs(st, "join", m, count) == Ok(Found(Str(sep), args))
    requires Operands(h, args) == Items(xs) && StrAll(xs, st.variables) == Ok(parts)
    requires !m.preserveStack && !m.iterate
    ensures JoinItems(h, st, m, count) ==
      (SaveState(st).(stack := WithoutTop(st.stack, |args| + 1) + [Str(Join(sep, parts))]),
       Claimed(Produced(Str(Join(sep, parts)))))
  {
    var text := Str(Join(sep, parts));
    JoinTextJoins(h, st.variables, sep, args, xs, parts);
    JoinItemsUnfolds(h, st, m, count, sep, args, Join(sep, parts));
    FinalizeClosedForm(h, st, text, m, |args| + 1, Append(1));
    assert Repeat(text, 1) == [text];
  }

  lemma JoinTextJoins(h: Host, variables: map<string, Value>, sep: string, args: seq<Value>, xs: seq<Value>, parts: seq<string>)
    requires Operands(h, args) == Items(xs) && StrAll(xs, variables) == Ok(parts)
    ensures JoinText(h, variables, sep, args) == Ok(Join(sep, parts))
  {
  }

  lemma JoinItemsUnfolds(h: Host, st: State, m: ModifierGrammar.Modifiers, count: Option<nat>, sep: string, args: seq<Value>, text: string)
    requires FindStringAndArgs(st, "join", m, count) == Ok(Found(Str(sep), args))
    requires JoinText(h, st.variables, sep, args) == Ok(text)
    ensures JoinItems(h, st, m, count) == Conclude(Finalize(h, st, Str(text), m, |args| + 1, Append(1)), Produced(Str(text)))
  {
  }

  /** Fold is the left fold: folding xs + [y] folds xs and then calls the function on
      the accumulated value and y. */
  lemma {:induction false} FoldSnoc(h: Host, func: Value, acc: Value, xs: seq<Value>, y: Value)
    ensures Fold(h, func, acc, xs + [y]) ==
      match Fold(h, func, acc, xs)
      case Err(e) => Err(e)
      case Ok(v) => (match CallValue(h, func, [v, y]) case Raised(message, eof) => Err(HostError(message, eof)) case Returned(w) => Ok(w))
    decreases |xs|
  {
    if xs == [] {
      assert [y][1..] == [];
    } else {
      assert (xs + [y])[0] == xs[0] && (xs + [y])[1..] == xs[1..] + [y];
      match CallValue(h, func, [acc, xs[0]])
      case Raised(_, _) =>
      case Returned(next) => FoldSnoc(h, func, next, xs[1..], y);
    }
  }

  /** reduce of a single operand returns it without calling the function; reduce of
      none raises. */
  lemma ReduceShortOperands(h: Host, func: Value, x: Value)
    ensures ReduceOperands(h, func, Items([x])) == Ok(x)
    ensures ReduceOperands(h, func, Items([])) == Err(HostException("reduce() of empty iterable with no initial value"))
    ensures ReduceOperands(h, func, NotIterable) == Err(HostException("reduce() arg 2 must support iteration"))
  {
  }

  /** A successful reduce replaces the callable and its arguments by the fold of the
      callable over the operands. */
  lemma ReduceReplacesByFold(h: Host, st: State, m: ModifierGrammar.Modifiers, count: Option<nat>, func: Value, args: seq<Value>, xs: seq<Value>, value: Value)
    requires FindCallableAndArgs(st, "apply", m, count) == Ok(Found(func, args))
    requires Operands(h, args) == Items(xs) && xs != [] && Fold(h, func, xs[0], xs[1..]) == Ok(value)
    requires !m.preserveStack && (!m.iterate || value.List? || Iterate(h, value).NotIterable?)
    ensures ReduceItems(h, st, m, count) ==
      (SaveState(st).(stack := WithoutTop(st.stack, |args| + 1) + [value]), Claimed(Produced(value)))
  {
    FinalizeClosedForm(h, st, value, m, |args| + 1, Append(1));
    assert Repeat(value, 1) == [value];
  }

  /** map over items at hand succeeds exactly when every call returns, and then yields
      the calls' results in order. */
  lemma {:induction false} MapItemsCalls(h: Host, f: Value, xs: seq<Value>)
    ensures MapItems(h, f, xs).Items? <==> forall i :: 0 <= i < |xs| ==> CallValue(h, f, [xs[i]]).Returned?
    ensures MapItems(h, f, xs).Items? ==>
      forall i :: 0 <= i < |xs| ==> MapItems(h, f, xs).items[i] == CallValue(h, f, [xs[i]]).value
    decreases |xs|
  {
    if xs != [] {
      MapItemsCalls(h, f, xs[1..]);
      assert forall i :: 1 <= i < |xs| ==> xs[i] == xs[1..][i - 1];
    }
  }

  /** map with several arguments extends the stack by the callable's value on each of
      them, in order, in place of the callable and the arguments. */
  lemma MapExtendsByResults(h: Host, st: State, m: ModifierGrammar.Modifiers, count: Option<nat>, func: Value, args: seq<Value>, ys: seq<Value>)
    requires FindCallableAndArgs(st, "map", m, count) == Ok(Found(func, args))
    requires |args| != 1 && MapItems(h, func, args) == Items(ys) && !m.preserveStack
    ensures MapOver(h, st, m, count) ==
      (SaveState(st).(stack := WithoutTop(st.stack, |args| + 1) + ys), Claimed(Produced(MapObject(func, List(args)))))
  {
    var result := MapObject(func, List(args));
    assert Iterate(h, List(args)) == Items(args);
    assert Iterate(h, result) == Items(ys);
    FinalizeExtendsByItems(h, st, result, m, |args| + 1, ys);
  }

  /** map with a single iterable argument pushes one lazy map object over it: nothing
      is called yet. */
  lemma MapSinglePushesLazyObject(h: Host, st: State, m: ModifierGrammar.Modifiers, count: Option<nat>, func: Value, arg: Value)
    requires FindCallableAndArgs(st, "map", m, count) == Ok(Found(func, [arg]))
    requires !Iterate(h, arg).NotIterable? && !m.preserveStack && !m.iterate
    ensures MapOver(h, st, m, count) ==
      (SaveState(st).(stack := WithoutTop(st.stack, 2) + [MapObject(func, arg)]), Claimed(Produced(MapObject(func, arg))))
  {
    FinalizeClosedForm(h, st, MapObject(func, arg), m, 2, Append(1));
    assert Repeat(MapObject(func, arg), 1) == [MapObject(func, arg)];
  }

  /** store, as written, binds the variable, pops the name and the arguments, and takes
      the snapshot after the binding. */
  lemma StoreBindsThenSaves(h: Host, st: State, m: ModifierGrammar.Modifiers, count: Option<nat>, name: string, args: seq<Value>)
    requires FindStringAndArgs(st, "store", m, count) == Ok(Found(Str(name), args)) && !m.preserveStack
    ensures var bound := st.variables[name := StoredValue(args)];
      Store(h, st, m, count) ==
      (st.(stack := WithoutTop(st.stack, |args| + 1), variables := bound, previous := Some(Snapshot(st.stack, bound))),
       Claimed(NoValue))
  {
    var named := SetVariable(st, name, StoredValue(args));
    assert Store(h, st, m, count) == Conclude(Finalize(h, named, NoneValue, m, |args| + 1, Nothing), NoValue);
    FinalizeClosedForm(h, named, NoneValue, m, |args| + 1, Nothing);
    assert WithoutTop(named.stack, |args| + 1) + Pushed(NoneValue, Nothing) == WithoutTop(st.stack, |args| + 1);
  }

  /** So undo after store, as written, keeps the new binding. */
  lemma StoreThenUndoKeepsBinding(h: Host, st: State, m: ModifierGrammar.Modifiers, count: Option<nat>, name: string, args: seq<Value>, m': ModifierGrammar.Modifiers)
    requires FindStringAndArgs(st, "store", m, count) == Ok(Found(Str(name), args)) && !m.preserveStack
    requires !m'.preserveStack && !m'.printValue
    ensures var undone := Undo(h, Store(h, st, m, count).0, m', None).0;
      undone.stack == st.stack && undone.variables == st.variables[name := StoredValue(args)]
  {
    StoreBindsThenSaves(h, st, m, count, name, args);
  }

  /** The input that shows it: 'x' 4 store, then undo, leaves x bound to 4 although x was
      not defined before. */
  lemma StoreUndoCounterexample(h: Host)
    ensures var st := State([Str("x"), Int(4)], None, map[], true, false, false, []);
      var stored := Store(h, st, ModifierGrammar.NoModifiers, None).0;
      var undone := Undo(h, stored, ModifierGrammar.NoModifiers, None).0;
      "x" !in st.variables && undone.stack == st.stack && "x" in undone.variables && undone.variables["x"] == Int(4)
  {
    var st := State([Str("x"), Int(4)], None, map[], true, false, false, []);
    assert AboveNearest(st.stack, SeekString) == 1 by {
      assert AboveNearest(st.stack[..1], SeekString) == 0;
    }
    assert FindItem(st, "store", SeekString, ModifierGrammar.NoModifiers, None) == Ok(Found(Str("x"), [Int(4)]));
    ConvertStackArgsSpec(st.variables, [Int(4)]);
    assert ConvertStackArgs(st.variables, [Int(4)]).value == [Int(4)];
    assert FindStringAndArgs(st, "store", ModifierGrammar.NoModifiers, None) == Ok(Found(Str("x"), [Int(4)]));
    StoreThenUndoKeepsBinding(h, st, ModifierGrammar.NoModifiers, None, "x", [Int(4)], ModifierGrammar.NoModifiers);
  }

  /** With the snapshot taken first, undo after store restores the variables too. */
  lemma StoreSnapshotFirstUndoes(h: Host, st: State, m: ModifierGrammar.Modifiers, count: Option<nat>, name: string, args: seq<Value>, m': ModifierGrammar.Modifiers)
    requires FindStringAndArgs(st, "store", m, count) == Ok(Found(Str(name), args)) && !m.preserveStack
    requires !m'.preserveStack && !m'.printValue
    ensures var stored := StoreSnapshotFirst(h, st, m, count);
      var undone := Undo(h, stored.0, m', None).0;
      && stored.1 == Claimed(NoValue)
      && stored.0.stack == WithoutTop(st.stack, |args| + 1)
      && stored.0.variables == st.variables[name := StoredValue(args)]
      && undone.stack == st.stack && undone.variables == st.variables
  {
    FinalizeClosedForm(h, st, NoneValue, m, |args| + 1, Nothing);
  }

  // ----- addSpecialFunctions -----

  /** All the names of a table, entry by entry. */
  function TableNames(table: seq<(Special, seq<string>)>): seq<string>
    decreases |table|
  {
    if table == [] then [] else table[0].1 + TableNames(table[1..])
  }

  /** Registering names binds each of them to the function and keeps every other key. */
  lemma {:induction false} RegisterNamesBinds(special: map<string, Special>, sp: Special, names: seq<string>)
    ensures forall k :: k in RegisterNames(special, sp, names) <==> k in special || k in names
    ensures forall k :: k in names ==> RegisterNames(special, sp, names)[k] == sp
    ensures forall k :: k in special && k !in names ==> RegisterNames(special, sp, names)[k] == special[k]
    decreases |names|
  {
    if names != [] {
      RegisterNamesBinds(special[names[0] := sp], sp, names[1..]);
      assert forall k :: k in names <==> k == names[0] || k in names[1..];
    }
  }

  /** Registering a table binds every name to the last entry that lists it (a later
      registerSpecial overrides an earlier one) and keeps every key the table does not
      name. */
  lemma {:induction false} RegisterTableBinds(special: map<string, Special>, table: seq<(Special, seq<string>)>)
    ensures forall k :: k in RegisterTable(special, table) <==> k in special || k in TableNames(table)
    ensures forall i, k :: 0 <= i < |table| && k in table[i].1 && (forall j :: i < j < |table| ==> k !in table[j].1) ==>
      k in RegisterTable(special, table) && RegisterTable(special, table)[k] == table[i].0
    ensures forall k :: k in special && k !in TableNames(table) ==> RegisterTable(special, table)[k] == special[k]
    decreases |table|
  {
    if table != [] {
      var first := table[0].1;
      var rest := TableNames(table[1..]);
      assert TableNames(table) == first + rest;
      var registered := RegisterNames(special, table[0].0, first);
      RegisterNamesBinds(special, table[0].0, first);
      RegisterTableBinds(registered, table[1..]);
      forall i, k | 0 <= i < |table| && k in table[i].1 && (forall j :: i < j < |table| ==> k !in table[j].1)
        ensures k in RegisterTable(special, table) && RegisterTable(special, table)[k] == table[i].0
      {
        LastEntryOf(table, i, k);
      }
    }
  }

  /** The entry that lists k last is the first one, and the rest of the table does not
      list k, or it is an entry of the rest that lists k last there. */
  lemma LastEntryOf(table: seq<(Special, seq<string>)>, i: nat, k: string)
    requires 0 <= i < |table| && k in table[i].1 && (forall j :: i < j < |table| ==> k !in table[j].1)
    ensures i == 0 ==> k !in TableNames(table[1..])
    ensures i > 0 ==> table[i] == table[1..][i - 1] && forall j :: i - 1 < j < |table[1..]| ==> k !in table[1..][j].1
  {
    if i == 0 {
      forall j | 0 <= j < |table[1..]| ensures k !in table[1..][j].1 {
        assert table[1..][j] == table[j + 1];
      }
      TableNamesExcluded(table[1..], k);
    } else {
      forall j | i - 1 < j < |table[1..]| ensures k !in table[1..][j].1 {
        assert table[1..][j] == table[j + 1];
      }
    }
  }

  /** A name no entry of a table lists is not among its names. */
  lemma {:induction false} TableNamesExcluded(table: seq<(Special, seq<string>)>, k: string)
    requires forall j :: 0 <= j < |table| ==> k !in table[j].1
    ensures k !in TableNames(table)
    decreases |table|
  {
    if table != [] {
      assert TableNames(table) == table[0].1 + TableNames(table[1..]);
      forall j | 0 <= j < |table[1..]| ensures k !in table[1..][j].1 {
        assert table[1..][j] == table[j + 1];
      }
      TableNamesExcluded(table[1..], k);
    }
  }
}
