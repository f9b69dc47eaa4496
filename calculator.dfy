/** The Calculator class of src/rpnpy/calculator.py and the special commands of
    src/rpnpy/functions.py as its methods. Every method changes the fields the way the
    source does, step by step, and is proved to leave the calculator in the state (and
    to give the reply) that the specification functions of Engine, Specials and Dispatch
    compute from the state it started in. */
module Calculators {
  import opened Text
  import opened Errors
  import ModifierGrammar
  import LineSegmenter
  import opened Values
  import opened Engine
  import opened Specials
  import opened Dispatch

  /** The arguments converted so far followed by what converting the rest gives. */
  function Prefixed(done: seq<Value>, rest: Result<seq<Value>>): Result<seq<Value>> {
    match rest
    case Err(e) => Err(e)
    case Ok(xs) => Ok(done + xs)
  }

  /** map, once the callable and its arguments are found and a single argument is
      iterable, is _finalize on the lazy map object. */
  lemma MapOverFound(h: Host, st: State, m: ModifierGrammar.Modifiers, count: Option<nat>, func: Value, args: seq<Value>)
    requires Engine.FindCallableAndArgs(st, "map", m, count) == Ok(Found(func, args))
    requires |args| == 1 ==> !Iterate(h, args[0]).NotIterable?
    ensures var result := MapObject(func, if |args| == 1 then args[0] else List(args));
      Specials.MapOver(h, st, m, count)
        == Conclude(Engine.Finalize(h, st, result, m, |args| + 1, if |args| == 1 then Append(1) else Extend), Produced(result))
  {
  }

  /** The messages written so far grow by one. */
  lemma ComplaintsGrow(messages: seq<string>, i: nat)
    requires i < |messages|
    ensures Complaints(messages[..i + 1]) == Complaints(messages[..i]) + [Complaint(messages[i])]
  {
    var a, b := Complaints(messages[..i + 1]), Complaints(messages[..i]) + [Complaint(messages[i])];
    assert |a| == |b|;
    forall k | 0 <= k < |a| ensures a[k] == b[k] {
      assert messages[..i + 1][k] == messages[k];
      if k < i {
        assert messages[..i][k] == messages[k];
      }
    }
  }

  /** The variable the sorted loop of variables stops at is the first whose repr()
      raises: every one before it was printed. */
  lemma FirstUnprintable(variables: map<string, Value>, remaining: set<string>, name: string)
    requires remaining <= variables.Keys && IsLeast(name, remaining)
    requires forall n :: n in variables && n !in remaining ==> ReprOf(variables[n], variables).Ok?
    requires ReprOf(variables[name], variables).Err?
    ensures Specials.UnprintableNames(variables) != {}
    ensures Least(Specials.UnprintableNames(variables)) == name
  {
    var unprintable := Specials.UnprintableNames(variables);
    assert IsLeast(name, unprintable);
    LeastUnique(unprintable);
  }

  /** The counted search, as the method computes it, is FindItem's. */
  lemma FoundBelowCount(st: State, command: string, seek: Seek, m: ModifierGrammar.Modifiers, c: nat, r: Result<Found>)
    requires !m.reverse && 2 <= |st.stack| && c + 1 <= |st.stack|
    requires var item := st.stack[|st.stack| - 1 - c];
      r == if !seek.Matches(item) then
             Err(ItemError(st, item, "Cannot run " + PyStrRepr(command) + " with " + ArgumentsText(c)
                                     + ". Stack item (", ") is not " + seek.Description()))
           else Ok(Found(item, TopItems(st.stack, c)))
    ensures r == Engine.FindItem(st, command, seek, m, Some(c))
  {
  }

  /** The search without a count, as the method computes it, is FindItem's. */
  lemma FoundWithoutCount(st: State, command: string, seek: Seek, m: ModifierGrammar.Modifiers, r: Result<Found>)
    requires !m.reverse && 2 <= |st.stack|
    requires var s := st.stack;
      var k := AboveNearest(s, seek);
      r == if m.all then Ok(Found(s[0], s[1..]))
           else if k == |s| then Err(StackError("Could not find " + seek.Description() + " item on stack"))
           else Ok(Found(s[|s| - 1 - k], s[|s| - k..]))
    ensures r == Engine.FindItem(st, command, seek, m, None)
  {
  }

  /** One converted argument moves from what is left to what is done. */
  lemma ConvertedOne(variables: map<string, Value>, args: seq<Value>, i: nat, converted: Value, done: seq<Value>)
    requires i < |args| && ConvertArg(variables, args[i]) == Ok(converted)
    ensures Prefixed(done, Engine.ConvertStackArgs(variables, args[i..]))
      == Prefixed(done + [converted], Engine.ConvertStackArgs(variables, args[i + 1..]))
  {
    assert args[i..][0] == args[i] && args[i..][1..] == args[i + 1..];
    match Engine.ConvertStackArgs(variables, args[i + 1..]) {
      case Ok(xs) =>
        assert Engine.ConvertStackArgs(variables, args[i..]) == Ok([converted] + xs);
        assert done + ([converted] + xs) == (done + [converted]) + xs;
      case Err(e) =>
        assert Engine.ConvertStackArgs(variables, args[i..]) == Err(e);
    }
  }

  class Calculator {
    /** What the calculator cannot see: host callables, eval, EngNumber and exec. */
    const host: Host
    /** The command separator given to findCommands. */
    const separator: Option<char>

    var stack: seq<Value>
    var previous: Option<Snapshot>
    var variables: map<string, Value>
    var splitLines: bool
    var autoPrint: bool
    var debug: bool
    /** Everything written to the output and error channels, in order. */
    var transcript: seq<Report>
    var functions: map<string, Function>
    var special: map<string, Special>

    /** The calculator's state as the specification functions see it. */
    function Current(): State
      reads this
    {
      State(stack, previous, variables, splitLines, autoPrint, debug, transcript)
    }

    /** The two registries. */
    function Registries(): Registry
      reads this
    {
      Registry(functions, special)
    }

    /** __init__: an empty stack, no snapshot, and the special commands of FUNCTIONS. The
        functions and the variables are given: the source builds them by reflection over
        Python modules (importCallables, addAbbrevs, addSpecialCases, addConstants). */
    constructor(host: Host, autoPrint: bool, splitLines: bool, separator: Option<char>, debug: bool,
                functions: map<string, Function>, variables: map<string, Value>)
      ensures this.host == host && this.separator == separator
      ensures Current() == State([], None, variables, splitLines, autoPrint, debug, [])
      ensures Registries() == Registry(functions, Specials.AddSpecialFunctions(map[]))
    {
      this.host := host;
      this.separator := separator;
      this.autoPrint := autoPrint;
      this.splitLines := splitLines;
      this.debug := debug;
      this.stack := [];
      this.previous := None;
      this.functions := functions;
      this.special := map[];
      this.variables := variables;
      this.transcript := [];
      new;
      AddSpecialFunctions(FunctionsTable);
    }

    /** addSpecialFunctions: registerSpecial for every name of every entry of the table,
        in order (the constructor passes FUNCTIONS). */
    method AddSpecialFunctions(table: seq<(Special, seq<string>)>)
      modifies this
      ensures special == RegisterTable(old(special), table)
      ensures Current() == old(Current()) && functions == old(functions)
    {
      var i := 0;
      while i < |table|
        invariant 0 <= i <= |table|
        invariant RegisterTable(special, table[i..]) == RegisterTable(old(special), table)
        invariant Current() == old(Current()) && functions == old(functions)
      {
        var (sp, names) := table[i];
        assert table[i..][1..] == table[i + 1..];
        var j := 0;
        while j < |names|
          invariant 0 <= j <= |names|
          invariant RegisterTable(RegisterNames(special, sp, names[j..]), table[i + 1..])
                    == RegisterTable(old(special), table)
          invariant Current() == old(Current()) && functions == old(functions)
        {
          assert names[j..][1..] == names[j + 1..];
          RegisterSpecial(sp, names[j]);
          j := j + 1;
        }
        assert names[j..] == [];
        i := i + 1;
      }
      assert table[i..] == [];
    }

    /** registerSpecial */
    method RegisterSpecial(sp: Special, name: string)
      modifies this
      ensures Registries() == Dispatch.RegisterSpecial(old(Registries()), sp, name)
      ensures Current() == old(Current())
    {
      special := special[name := sp];
    }

    /** register */
    method Register(func: Callable, name: Option<string>, nArgs: Option<nat>, moduleName: Option<string>)
      modifies this
      ensures Registries() == Dispatch.Register(old(Registries()), func, name, nArgs, moduleName)
      ensures Current() == old(Current())
    {
      var n := if name.Some? && name.value != "" then name.value else func.name;
      var path := if moduleName.Some? && moduleName.value != "" then moduleName.value else DefaultModule;
      var arity := if nArgs.None? then func.DefaultArity() else nArgs.value;
      functions := functions[n := Function(path, n, func, arity)];
    }

    // ----- the stack engine -----

    /** saveState */
    method SaveState()
      modifies this
      ensures Current() == Engine.SaveState(old(Current()))
      ensures Registries() == old(Registries())
    {
      previous := Some(Snapshot(stack, variables));
    }

    /** Writes each message on the error channel. */
    method Complain(messages: seq<string>)
      modifies this
      ensures Current() == Engine.Complain(old(Current()), messages)
      ensures Registries() == old(Registries())
    {
      for i := 0 to |messages|
        invariant transcript == old(transcript) + Complaints(messages[..i])
        invariant Current() == old(Current()).(transcript := transcript)
        invariant Registries() == old(Registries())
      {
        ComplaintsGrow(messages, i);
        transcript := transcript + [Complaint(messages[i])];
      }
      assert messages[..|messages|] == messages;
    }

    /** stack.append(value), times times. */
    method Repeated(value: Value, times: nat)
      modifies this
      ensures Current() == old(Current()).(stack := old(stack) + Repeat(value, times))
      ensures Registries() == old(Registries())
    {
      for i := 0 to times
        invariant stack == old(stack) + Repeat(value, i)
        invariant Current() == old(Current()).(stack := stack)
        invariant Registries() == old(Registries())
      {
        assert Repeat(value, i + 1) == Repeat(value, i) + [value];
        stack := stack + [value];
      }
    }

    /** stack.extend(items), one item at a time. */
    method Extended(items: seq<Value>)
      modifies this
      ensures Current() == old(Current()).(stack := old(stack) + items)
      ensures Registries() == old(Registries())
    {
      for i := 0 to |items|
        invariant stack == old(stack) + items[..i]
        invariant Current() == old(Current()).(stack := stack)
        invariant Registries() == old(Registries())
      {
        assert items[..i + 1] == items[..i] + [items[i]];
        stack := stack + [items[i]];
      }
      assert items[..|items|] == items;
    }

    /** The first half of _finalize: save the snapshot and pop, when it pops or pushes
        and = is not given. */
    method PopFor(m: ModifierGrammar.Modifiers, nPop: nat, add: Addition)
      modifies this
      ensures Current() == Engine.PopFor(old(Current()), m, nPop, add)
      ensures Registries() == old(Registries())
    {
      if (nPop > 0 || !add.Nothing?) && !m.preserveStack {
        SaveState();
        if nPop > 0 {
          stack := WithoutTop(stack, nPop);
        }
      }
    }

    /** The second half of _finalize: append or extend by the (converted) result, unless
        = or noValue is given. Extending by a lazy map object can raise part way. */
    method AddResult(value: Value, m: ModifierGrammar.Modifiers, add: Addition) returns (failure: Option<Exc>)
      modifies this
      ensures (Current(), failure) == Engine.AddResult(host, old(Current()), value, m, add)
      ensures Registries() == old(Registries())
    {
      failure := None;
      if !m.preserveStack {
        match add
        case Nothing =>
        case Append(times) =>
          Repeated(value, times);
        case Extend =>
          var iteration := Iterate(host, value);
          match iteration
          case Items(xs) =>
            Extended(xs);
          case FailedAfter(prefix, e) =>
            Extended(prefix);
            failure := Some(e);
          case NotIterable =>
            failure := Some(HostException(NotIterableText(value)));
      }
    }

    /** _finalize: save and pop, apply i, then push. It raises what iterating the result
        raises. */
    method Finalize(result: Value, m: ModifierGrammar.Modifiers, nPop: nat, add: Addition) returns (failure: Option<Exc>)
      modifies this
      ensures (Current(), failure) == Engine.Finalize(host, old(Current()), result, m, nPop, add)
      ensures Registries() == old(Registries())
    {
      PopFor(m, nPop, add);
      var value := result;
      if m.iterate {
        var iteration := Iterate(host, result);
        if iteration.Items? {
          value := List(iteration.items);
        } else if iteration.FailedAfter? {
          return Some(iteration.error);
        }
      }
      assert IterateIf(host, result, m) == Ok(value);
      failure := AddResult(value, m, add);
    }

    /** convertStackArgs */
    method ConvertStackArgs(args: seq<Value>) returns (r: Result<seq<Value>>)
      ensures r == Engine.ConvertStackArgs(variables, args)
    {
      var result: seq<Value> := [];
      assert args[0..] == args;
      match Engine.ConvertStackArgs(variables, args) {
        case Ok(xs) => assert [] + xs == xs;
        case Err(_) =>
      }
      for i := 0 to |args|
        invariant Engine.ConvertStackArgs(variables, args) == Prefixed(result, Engine.ConvertStackArgs(variables, args[i..]))
      {
        assert args[i..][0] == args[i] && args[i..][1..] == args[i + 1..];
        var converted: Value;
        match args[i] {
          case Func(f) =>
            converted := Fn(f.func);
          case VarRef(name) =>
            if name !in variables {
              return Err(HostException(KeyErrorText(name)));
            }
            converted := variables[name];
          case _ =>
            converted := args[i];
        }
        assert ConvertArg(variables, args[i]) == Ok(converted);
        ConvertedOne(variables, args, i, converted, result);
        result := result + [converted];
      }
      assert args[|args|..] == [];
      assert result + [] == result;
      return Ok(result);
    }

    /** toggleAutoPrint */
    method ToggleAutoPrint(newValue: Option<bool>)
      modifies this
      ensures Current() == Engine.ToggleAutoPrint(old(Current()), newValue)
      ensures Registries() == old(Registries())
    {
      if newValue.None? {
        autoPrint := !autoPrint;
      } else {
        autoPrint := newValue.value;
      }
    }

    /** toggleDebug */
    method ToggleDebug(newValue: Option<bool>)
      modifies this
      ensures Current() == Engine.ToggleDebug(old(Current()), newValue)
      ensures Registries() == old(Registries())
    {
      if newValue.None? {
        debug := !debug;
      } else {
        debug := newValue.value;
      }
    }

    /** setVariable */
    method SetVariable(name: string, value: Value)
      modifies this
      ensures Current() == Engine.SetVariable(old(Current()), name, value)
      ensures Registries() == old(Registries())
    {
      variables := variables[name := value];
    }

    /** The walk of _findWithArgs down from the top of the stack: the items passed over
        until one matches, collected top first and then put back in stack order. */
    method Nearest(seek: Seek) returns (k: nat, args: seq<Value>)
      ensures k == AboveNearest(stack, seek)
      ensures args == stack[|stack| - k..]
    {
      var n := |stack|;
      var skipped: seq<Value> := [];
      k := 0;
      while k < n && !seek.Matches(stack[n - 1 - k])
        invariant 0 <= k <= n
        invariant forall j :: n - k <= j < n ==> !seek.Matches(stack[j])
        invariant |skipped| == k && forall i :: 0 <= i < k ==> skipped[i] == stack[n - 1 - i]
      {
        skipped := skipped + [stack[n - 1 - k]];
        k := k + 1;
      }
      AboveNearestExact(stack, seek, k);
      args := Reverse(skipped);
      assert args == stack[n - k..];
    }

    /** The search of _findWithArgs, before the arguments are converted. */
    method FindItem(command: string, seek: Seek, m: ModifierGrammar.Modifiers, count: Option<nat>) returns (r: Result<Found>)
      ensures r == Engine.FindItem(Current(), command, seek, m, count)
    {
      var n := |stack|;
      if n < 2 || (count.Some? && n < count.value + 1) {
        return Err(StackError(TooShortMessage(command, n)));
      }
      if m.reverse {
        r := FindOnTop(command, seek, m, count);
      } else if count.None? {
        r := FindWithoutCount(command, seek, m);
      } else {
        r := FindBelowCount(command, seek, m, count.value);
      }
    }

    /** The search without a count and without r: the bottom item under *, otherwise the
        matching item nearest the top. */
    method FindWithoutCount(command: string, seek: Seek, m: ModifierGrammar.Modifiers) returns (r: Result<Found>)
      requires !m.reverse && 2 <= |stack|
      ensures r == Engine.FindItem(Current(), command, seek, m, None)
    {
      var n := |stack|;
      if m.all {
        r := Ok(Found(stack[0], stack[1..]));
      } else {
        var k, args := Nearest(seek);
        if k == n {
          r := Err(StackError("Could not find " + seek.Description() + " item on stack"));
        } else {
          r := Ok(Found(stack[n - 1 - k], args));
        }
      }
      FoundWithoutCount(Current(), command, seek, m, r);
    }

    /** The search under r: the item must be on top, its arguments are just below it. */
    method FindOnTop(command: string, seek: Seek, m: ModifierGrammar.Modifiers, count: Option<nat>) returns (r: Result<Found>)
      requires m.reverse && 2 <= |stack| && (count.Some? ==> count.value + 1 <= |stack|)
      ensures r == Engine.FindItem(Current(), command, seek, m, count)
    {
      var n := |stack|;
      var item := stack[n - 1];
      if !seek.Matches(item) {
        return Err(ItemError(Current(), item, "Top stack item (", ") is not " + seek.Description()));
      }
      var c := if count.Some? then count.value else if m.all then n - 1 else seek.DefaultCount(item);
      if n - 1 < c {
        return Err(StackError("Cannot run " + PyStrRepr(command) + " with " + ArgumentsText(c)
                              + " (stack has only " + ItemsText(n - 1) + " available)"));
      }
      return Ok(Found(item, stack[n - 1 - c..n - 1]));
    }

    /** The search with a count and without r: the item is count places below the top. */
    method FindBelowCount(command: string, seek: Seek, m: ModifierGrammar.Modifiers, c: nat) returns (r: Result<Found>)
      requires !m.reverse && 2 <= |stack| && c + 1 <= |stack|
      ensures r == Engine.FindItem(Current(), command, seek, m, Some(c))
    {
      var n := |stack|;
      var item := stack[n - 1 - c];
      if !seek.Matches(item) {
        r := Err(ItemError(Current(), item, "Cannot run " + PyStrRepr(command) + " with " + ArgumentsText(c)
                                             + ". Stack item (", ") is not " + seek.Description()));
      } else {
        r := Ok(Found(item, TopItems(stack, c)));
      }
      FoundBelowCount(Current(), command, seek, m, c, r);
    }

    /** _findWithArgs: the item, and its arguments through convertStackArgs. */
    method FindWithArgs(command: string, seek: Seek, m: ModifierGrammar.Modifiers, count: Option<nat>) returns (r: Result<Found>)
      ensures r == Engine.FindWithArgs(Current(), command, seek, m, count)
    {
      var found := FindItem(command, seek, m, count);
      if found.Err? {
        return Err(found.error);
      }
      var converted := ConvertStackArgs(found.value.args);
      if converted.Err? {
        return Err(converted.error);
      }
      return Ok(Found(found.value.item, converted.value));
    }

    /** findCallableAndArgs */
    method FindCallableAndArgs(command: string, m: ModifierGrammar.Modifiers, count: Option<nat>) returns (r: Result<Found>)
      ensures r == Engine.FindCallableAndArgs(Current(), command, m, count)
    {
      r := FindWithArgs(command, SeekCallable, m, count);
    }

    /** findStringAndArgs */
    method FindStringAndArgs(command: string, m: ModifierGrammar.Modifiers, count: Option<nat>) returns (r: Result<Found>)
      ensures r == Engine.FindStringAndArgs(Current(), command, m, count)
    {
      r := FindWithArgs(command, SeekString, m, count);
    }

    // ----- the special commands of src/rpnpy/functions.py -----

    /** quit */
    method Quit(m: ModifierGrammar.Modifiers, count: Option<nat>) returns (step: Step)
      modifies this
      ensures (Current(), step) == Specials.Quit(host, old(Current()), m, count)
      ensures Registries() == old(Registries())
    {
      return Failed(EndOfSession);
    }

    /** functions: the listing is output only. */
    method Functions(m: ModifierGrammar.Modifiers, count: Option<nat>) returns (step: Step)
      modifies this
      ensures (Current(), step) == Specials.Functions(host, old(Current()), m, count)
      ensures Registries() == old(Registries())
    {
      return Claimed(NoValue);
    }

    /** stack */
    method Stack(m: ModifierGrammar.Modifiers, count: Option<nat>) returns (step: Step)
      modifies this
      ensures (Current(), step) == Specials.Stack(host, old(Current()), m, count)
      ensures Registries() == old(Registries())
    {
      var shown := ReprAll(stack, variables);
      if shown.Err? {
        return Failed(shown.error);
      }
      transcript := transcript + [Printed(List(stack))];
      return Claimed(NoValue);
    }

    /** variables: the loop over the variables in sorted order; each line of the listing
        is output only, and the first repr() that raises ends it. */
    method Variables(m: ModifierGrammar.Modifiers, count: Option<nat>) returns (step: Step)
      modifies this
      ensures (Current(), step) == Specials.Variables(host, old(Current()), m, count)
      ensures Registries() == old(Registries())
    {
      var remaining := variables.Keys;
      while remaining != {}
        invariant remaining <= variables.Keys
        invariant forall n :: n in variables && n !in remaining ==> ReprOf(variables[n], variables).Ok?
        decreases |remaining|
      {
        var name := Least(remaining);
        var shown := ReprOf(variables[name], variables);
        if shown.Err? {
          FirstUnprintable(variables, remaining, name);
          return Failed(shown.error);
        }
        remaining := remaining - {name};
      }
      assert Specials.UnprintableNames(variables) == {};
      return Claimed(NoValue);
    }

    /** clear */
    method Clear(m: ModifierGrammar.Modifiers, count: Option<nat>) returns (step: Step)
      modifies this
      ensures (Current(), step) == Specials.Clear(host, old(Current()), m, count)
      ensures Registries() == old(Registries())
    {
      if stack != [] {
        if m.preserveStack {
          Complain(["The /= modifier makes no sense with clear"]);
        } else {
          var failure := Finalize(NoneValue, m, |stack|, Nothing);
          return Conclude((Current(), failure), NoValue).1;
        }
      }
      return Claimed(NoValue);
    }

    /** dup */
    method Dup(m: ModifierGrammar.Modifiers, count: Option<nat>) returns (step: Step)
      modifies this
      ensures (Current(), step) == Specials.Dup(host, old(Current()), m, count)
      ensures Registries() == old(Registries())
    {
      if stack != [] {
        if m.preserveStack {
          return Failed(CalculatorError(["The /= modifier makes no sense with dup"]));
        }
        var times := if count.None? then 1 else count.value;
        var value := stack[|stack| - 1];
        var failure := Finalize(value, m, 0, Append(times));
        return Conclude((Current(), failure), Produced(value)).1;
      }
      return Failed(CalculatorError(["Cannot duplicate (stack is empty)"]));
    }

    /** undo */
    method Undo(m: ModifierGrammar.Modifiers, count: Option<nat>) returns (step: Step)
      modifies this
      ensures (Current(), step) == Specials.Undo(host, old(Current()), m, count)
      ensures Registries() == old(Registries())
    {
      if previous.None? {
        return Failed(CalculatorError(["No undo saved"]));
      }
      if m.preserveStack {
        return Failed(CalculatorError(["The /= modifier makes no sense with undo"]));
      }
      if m.printValue {
        return Failed(CalculatorError(["The /p modifier makes no sense with undo"]));
      }
      stack := previous.value.stack;
      variables := previous.value.variables;
      return Claimed(NoValue);
    }

    /** print: printStack(-1), which returns None. */
    method PrintTop(m: ModifierGrammar.Modifiers, count: Option<nat>) returns (step: Step)
      modifies this
      ensures (Current(), step) == Specials.PrintTop(host, old(Current()), m, count)
      ensures Registries() == old(Registries())
    {
      if stack == [] {
        Complain(["Cannot print top of stack item (stack is empty)"]);
      } else {
        var shown := ReprOf(stack[|stack| - 1], variables);
        if shown.Err? {
          return Failed(shown.error);
        }
        transcript := transcript + [Printed(stack[|stack| - 1])];
      }
      return Claimed(Produced(NoneValue));
    }

    /** apply */
    method Apply(m: ModifierGrammar.Modifiers, count: Option<nat>) returns (step: Step)
      modifies this
      ensures (Current(), step) == Specials.Apply(host, old(Current()), m, count)
      ensures Registries() == old(Registries())
    {
      var found := FindCallableAndArgs("apply", m, count);
      if found.Err? {
        return Failed(found.error);
      }
      var Found(func, args) := found.value;
      var outcome := CallValue(host, func, args);
      if outcome.Raised? {
        return Failed(HostError(outcome.message, outcome.eof));
      }
      var failure := Finalize(outcome.value, m, |args| + 1, Append(1));
      return Conclude((Current(), failure), Produced(outcome.value)).1;
    }

    /** join */
    method JoinItems(m: ModifierGrammar.Modifiers, count: Option<nat>) returns (step: Step)
      modifies this
      ensures (Current(), step) == Specials.JoinItems(host, old(Current()), m, count)
      ensures Registries() == old(Registries())
    {
      var found := FindStringAndArgs("join", m, count);
      if found.Err? {
        return Failed(found.error);
      }
      var Found(sep, args) := found.value;
      if !sep.Str? {
        return Failed(HostException("'" + TypeName(sep) + "' object has no attribute 'join'"));
      }
      var text := JoinText(host, variables, sep.s, args);
      if text.Err? {
        return Failed(text.error);
      }
      var failure := Finalize(Str(text.value), m, |args| + 1, Append(1));
      return Conclude((Current(), failure), Produced(Str(text.value))).1;
    }

    /** reduce */
    method ReduceItems(m: ModifierGrammar.Modifiers, count: Option<nat>) returns (step: Step)
      modifies this
      ensures (Current(), step) == Specials.ReduceItems(host, old(Current()), m, count)
      ensures Registries() == old(Registries())
    {
      var found := FindCallableAndArgs("apply", m, count);
      if found.Err? {
        return Failed(found.error);
      }
      var Found(func, args) := found.value;
      var value := ReduceOperands(host, func, Operands(host, args));
      if value.Err? {
        return Failed(value.error);
      }
      var failure := Finalize(value.value, m, |args| + 1, Append(1));
      return Conclude((Current(), failure), Produced(value.value)).1;
    }

    /** pop */
    method Pop(m: ModifierGrammar.Modifiers, count: Option<nat>) returns (step: Step)
      modifies this
      ensures (Current(), step) == Specials.Pop(host, old(Current()), m, count)
      ensures Registries() == old(Registries())
    {
      var n := |stack|;
      var nArgs := if count.None? then (if m.all then n else 1) else count.value;
      if n >= nArgs {
        var value := if nArgs == 1 then stack[n - 1] else List(if nArgs == 0 then stack else stack[n - nArgs..]);
        var failure := Finalize(value, m, nArgs, Nothing);
        return Conclude((Current(), failure), Produced(value)).1;
      }
      return Failed(CalculatorError([CannotMessage("pop", nArgs, n)]));
    }

    /** reverse */
    method ReverseItems(m: ModifierGrammar.Modifiers, count: Option<nat>) returns (step: Step)
      modifies this
      ensures (Current(), step) == Specials.ReverseItems(host, old(Current()), m, count)
      ensures Registries() == old(Registries())
    {
      var n := |stack|;
      var nArgs := if count.None? then (if m.all then n else 2) else count.value;
      if n >= nArgs && nArgs > 1 {
        var value := List(Reverse(stack[n - nArgs..]));
        var failure := Finalize(value, m, nArgs, Extend);
        return Conclude((Current(), failure), Produced(value)).1;
      }
      return Failed(CalculatorError([CannotMessage("reverse", nArgs, n)]));
    }

    /** swap */
    method Swap(m: ModifierGrammar.Modifiers, count: Option<nat>) returns (step: Step)
      modifies this
      ensures (Current(), step) == Specials.Swap(host, old(Current()), m, count)
      ensures Registries() == old(Registries())
    {
      var n := |stack|;
      if n > 1 {
        var failure := Finalize(List(Reverse(stack[n - 2..])), m, 2, Extend);
        return Conclude((Current(), failure), NoValue).1;
      }
      return Failed(CalculatorError(["Cannot swap (stack needs 2 items)"]));
    }

    /** list */
    method ListItems(m: ModifierGrammar.Modifiers, count: Option<nat>) returns (step: Step)
      modifies this
      ensures (Current(), step) == Specials.ListItems(host, old(Current()), m, count)
      ensures Registries() == old(Registries())
    {
      if m.push {
        var failure := Finalize(ListType, m, 0, Append(1));
        return Conclude((Current(), failure), Produced(ListType)).1;
      }
      if stack == [] {
        return Failed(CalculatorError(["Cannot run list (stack is empty)"]));
      }
      var n := |stack|;
      var nArgs := if count.None? then (if m.all then n else 1) else count.value;
      if nArgs == 1 {
        step := ListTop(m, count);
      } else {
        step := ListSeveral(m, count, nArgs);
      }
    }

    /** list on one item: the list of its items when it is iterable, else the list that
        holds it. */
    method ListTop(m: ModifierGrammar.Modifiers, count: Option<nat>) returns (step: Step)
      requires !m.push && stack != [] && ArgCount(count, m, |stack|, 1) == 1
      modifies this
      ensures (Current(), step) == Specials.ListItems(host, old(Current()), m, count)
      ensures Registries() == old(Registries())
    {
      var top := stack[|stack| - 1];
      var value: Value;
      match Iterate(host, top) {
        case NotIterable => value := List([top]);
        case Items(xs) => value := List(xs);
        case FailedAfter(_, e) => return Failed(e);
      }
      var failure := Finalize(value, m, 1, Append(1));
      return Conclude((Current(), failure), Produced(value)).1;
    }

    /** list on several items (or none): the list of the top nArgs items. */
    method ListSeveral(m: ModifierGrammar.Modifiers, count: Option<nat>, nArgs: nat) returns (step: Step)
      requires !m.push && stack != [] && nArgs == ArgCount(count, m, |stack|, 1) && nArgs != 1
      modifies this
      ensures (Current(), step) == Specials.ListItems(host, old(Current()), m, count)
      ensures Registries() == old(Registries())
    {
      var n := |stack|;
      if n < nArgs {
        return Failed(CalculatorError([CannotMessage("list", nArgs, n)]));
      }
      var value := List(if nArgs == 0 then stack else stack[n - nArgs..]);
      var failure := Finalize(value, m, nArgs, Append(1));
      return Conclude((Current(), failure), Produced(value)).1;
    }

    /** store, with the snapshot taken before the variable is set (so that undo also
        restores the variable). */
    method Store(m: ModifierGrammar.Modifiers, count: Option<nat>) returns (step: Step)
      modifies this
      ensures (Current(), step) == Specials.StoreSnapshotFirst(host, old(Current()), m, count)
      ensures Registries() == old(Registries())
    {
      var found := FindStringAndArgs("store", m, count);
      if found.Err? {
        return Failed(found.error);
      }
      var Found(variable, args) := found.value;
      if variable.List? {
        return Failed(HostException("unhashable type: 'list'"));
      }
      var failure := Finalize(NoneValue, m, |args| + 1, Nothing);
      if variable.Str? {
        SetVariable(variable.s, StoredValue(args));
      }
      return Conclude((Current(), failure), NoValue).1;
    }

    /** map */
    method MapOver(m: ModifierGrammar.Modifiers, count: Option<nat>) returns (step: Step)
      modifies this
      ensures (Current(), step) == Specials.MapOver(host, old(Current()), m, count)
      ensures Registries() == old(Registries())
    {
      var found := FindCallableAndArgs("map", m, count);
      if found.Err? {
        return Failed(found.error);
      }
      ghost var st := Current();
      var func, args := found.value.item, found.value.args;
      var source: Value;
      var add: Addition;
      if |args| == 1 {
        source := args[0];
        add := Append(1);
        if Iterate(host, source).NotIterable? {
          return Failed(HostException(NotIterableText(source)));
        }
      } else {
        source := List(args);
        add := Extend;
      }
      var result := MapObject(func, source);
      MapOverFound(host, st, m, count, func, args);
      var failure := Finalize(result, m, |args| + 1, add);
      return Conclude((Current(), failure), Produced(result)).1;
    }

    /** Calling the special command's function on the calculator. */
    method RunSpecial(sp: Special, m: ModifierGrammar.Modifiers, count: Option<nat>) returns (step: Step)
      modifies this
      ensures (Current(), step) == Specials.RunSpecial(host, sp, old(Current()), m, count)
      ensures Registries() == old(Registries())
    {
      match sp
      case ApplyCmd => step := Apply(m, count);
      case ClearCmd => step := Clear(m, count);
      case DupCmd => step := Dup(m, count);
      case FunctionsCmd => step := Functions(m, count);
      case JoinCmd => step := JoinItems(m, count);
      case ListCmd => step := ListItems(m, count);
      case MapCmd => step := MapOver(m, count);
      case PopCmd => step := Pop(m, count);
      case PrintCmd => step := PrintTop(m, count);
      case QuitCmd => step := Quit(m, count);
      case ReduceCmd => step := ReduceItems(m, count);
      case ReverseCmd => step := ReverseItems(m, count);
      case StackCmd => step := Stack(m, count);
      case StoreCmd => step := Store(m, count);
      case SwapCmd => step := Swap(m, count);
      case UndoCmd => step := Undo(m, count);
      case VariablesCmd => step := Variables(m, count);
    }

    // ----- command resolution -----

    /** The arguments of _runFunction: the top nArgs items through convertStackArgs, top
        item first under r. */
    method CallArgs(nArgs: nat, m: ModifierGrammar.Modifiers) returns (r: Result<seq<Value>>)
      requires nArgs <= |stack|
      ensures r == Dispatch.CallArgs(Current(), nArgs, m)
    {
      var args: seq<Value> := [];
      if nArgs > 0 {
        var converted := ConvertStackArgs(stack[|stack| - nArgs..]);
        if converted.Err? {
          return Err(converted.error);
        }
        args := converted.value;
      }
      if m.reverse && args != [] {
        args := Reverse(args);
      }
      return Ok(args);
    }

    /** _runFunction */
    method RunFunction(command: string, m: ModifierGrammar.Modifiers, count: Option<nat>, f: Function) returns (step: Step)
      modifies this
      ensures (Current(), step) == Dispatch.RunFunction(host, old(Current()), command, m, count, f)
      ensures Registries() == old(Registries())
    {
      var nArgs := if count.None? then (if m.all then |stack| else f.nArgs) else count.value;
      if |stack| < nArgs {
        return Failed(CalculatorError([NotEnoughArgsMessage(command, nArgs, |stack|)]));
      }
      var converted := CallArgs(nArgs, m);
      if converted.Err? {
        return Failed(converted.error);
      }
      var args := converted.value;
      var shown := ReprAll(args, variables);
      if shown.Err? {
        return Failed(shown.error);
      }
      var outcome := host.call(f.func, args);
      if outcome.Raised? {
        return Failed(CallFailure(Current(), f, args, outcome.message));
      }
      var failure := Finalize(outcome.value, m, nArgs, Append(1));
      return Conclude((Current(), failure), Produced(outcome.value)).1;
    }

    /** _tryFunction */
    method TryFunction(command: string, m: ModifierGrammar.Modifiers, count: Option<nat>) returns (step: Step)
      modifies this
      ensures (Current(), step) == Dispatch.TryFunction(host, old(Registries()), old(Current()), command, m, count)
      ensures Registries() == old(Registries())
    {
      if m.forceCommand || command !in functions {
        return Declined;
      }
      var f := functions[command];
      if m.push {
        var failure := Finalize(Fn(f.func), m, 0, Append(1));
        return Conclude((Current(), failure), Produced(Fn(f.func))).1;
      }
      step := RunFunction(command, m, count, f);
    }

    /** _tryVariable */
    method TryVariable(command: string, m: ModifierGrammar.Modifiers, count: Option<nat>) returns (step: Step)
      modifies this
      ensures (Current(), step) == Dispatch.TryVariable(host, old(Current()), command, m, count)
      ensures Registries() == old(Registries())
    {
      if m.forceCommand || command !in variables {
        return Declined;
      }
      var value := variables[command];
      var shown := ReprOf(value, variables);
      if shown.Err? {
        return Failed(shown.error);
      }
      if IsCallable(value) {
        if !m.push {
          if value.Fn? {
            step := RunFunction(command, m, count, Function("<stdin>", value.c.name, value.c, value.c.DefaultArity()));
            return;
          }
          return Failed(HostException(NoNameMessage));
        }
      } else if m.push {
        value := VarRef(command);
      }
      var times := if count.None? then 1 else count.value;
      var failure := Finalize(List(Repeat(value, times)), m, 0, Extend);
      return Conclude((Current(), failure), Produced(value)).1;
    }

    /** _trySpecial */
    method TrySpecial(command: string, m: ModifierGrammar.Modifiers, count: Option<nat>) returns (step: Step)
      modifies this
      ensures (Current(), step) == Dispatch.TrySpecial(host, old(Registries()), old(Current()), command, m, count)
      ensures Registries() == old(Registries())
    {
      if command in special {
        step := RunSpecial(special[command], m, count);
        if step.Failed? && !step.error.EndOfSession? {
          step := Failed(SpecialFailure(command, step.error));
        }
        return;
      }
      if m.forceCommand {
        return Failed(CalculatorError(["Unknown special command: " + command]));
      }
      return Declined;
    }

    /** _tryEvalExec: eval, else EngNumber, else exec; eval and exec each leave the
        variables as they found or bound them, whether they succeed or raise. */
    method TryEvalExec(command: string, m: ModifierGrammar.Modifiers, count: Option<nat>) returns (step: Step)
      modifies this
      ensures (Current(), step) == Dispatch.TryEvalExec(host, old(Current()), command, m, count)
      ensures Registries() == old(Registries())
    {
      var times := if count.None? then 1 else count.value;
      var evaluated := host.eval(command, variables);
      variables := evaluated.variables;
      if evaluated.Evaluated? {
        var shown := ReprOf(evaluated.value, variables);
        if shown.Err? {
          return Failed(shown.error);
        }
        var failure := Finalize(evaluated.value, m, 0, Append(times));
        return Conclude((Current(), failure), Produced(evaluated.value)).1;
      }
      var number := host.engNumber(command);
      if number.Some? {
        var shown := ReprOf(number.value, variables);
        if shown.Err? {
          return Failed(shown.error);
        }
        var failure := Finalize(number.value, m, 0, Append(times));
        return Conclude((Current(), failure), Produced(number.value)).1;
      }
      var executed := host.exec(command, variables);
      variables := executed.variables;
      if executed.Executed? {
        return Claimed(NoValue);
      }
      return Failed(EvalExecFailure(splitLines, command, evaluated.message, executed.message));
    }

    /** The end of _executeOneCommand: print the value (under p or auto-printing), write
        the messages of a CalculatorError or StackError, or let any other exception out. */
    method Settle(step: Step, command: string, m: ModifierGrammar.Modifiers) returns (r: Result<bool>)
      modifies this
      ensures (Current(), r) == Dispatch.Settle(old(Current()), step, command, m)
      ensures Registries() == old(Registries())
    {
      match step {
        case Claimed(Produced(v)) =>
          r := Ok(true);
          if m.printValue || autoPrint {
            var shown := ReprOf(v, variables);
            if shown.Err? {
              return Err(shown.error);
            }
            transcript := transcript + [Printed(v)];
          }
        case Claimed(NoValue) =>
          r := Ok(true);
        case Failed(CalculatorError(messages)) =>
          Complain(messages);
          r := Ok(false);
        case Failed(StackError(message)) =>
          Complain([message]);
          r := Ok(false);
        case Failed(e) =>
          r := Err(e);
        case Declined =>
          Complain(["Could not find a way to execute " + PyStrRepr(command)]);
          r := Ok(false);
      }
    }

    /** The s and n modifiers of _executeOneCommand. */
    method SetSplitting(m: ModifierGrammar.Modifiers)
      modifies this
      ensures Current() == Dispatch.SetSplitting(old(Current()), m)
      ensures Registries() == old(Registries())
    {
      if m.split {
        splitLines := true;
      } else if m.noSplit {
        splitLines := false;
      }
    }

    /** The P and D modifiers of _executeOneCommand. */
    method ApplyToggles(m: ModifierGrammar.Modifiers)
      modifies this
      ensures Current() == Dispatch.ApplyToggles(old(Current()), m)
      ensures Registries() == old(Registries())
    {
      if m.autoPrint {
        ToggleAutoPrint(None);
      }
      if m.debug {
        ToggleDebug(None);
      }
    }

    /** The loop of _executeOneCommand over _tryFunction, _tryVariable, _trySpecial and
        _tryEvalExec: the first that does not decline decides. */
    method Resolve(command: string, m: ModifierGrammar.Modifiers, count: Option<nat>) returns (step: Step)
      modifies this
      ensures (Current(), step) == Dispatch.Resolve(host, old(Registries()), old(Current()), command, m, count)
      ensures Registries() == old(Registries())
    {
      ghost var st := Current();
      DeclineChangesNothing(host, Registries(), st, command, m, count);
      step := TryFunction(command, m, count);
      if !step.Declined? {
        return;
      }
      step := TryVariable(command, m, count);
      if !step.Declined? {
        return;
      }
      step := TrySpecial(command, m, count);
      if !step.Declined? {
        return;
      }
      step := TryEvalExec(command, m, count);
    }

    /** _executeOneCommand */
    method ExecuteOneCommand(c: LineSegmenter.Command) returns (r: Result<bool>)
      modifies this
      ensures (Current(), r) == Dispatch.ExecuteCommand(host, old(Registries()), old(Current()), c)
      ensures Registries() == old(Registries())
    {
      var m := c.modifiers;
      SetSplitting(m);
      if m.all && c.count.Some? && c.count.value != |stack| {
        Complain([ConflictMessage(c.count.value, |stack|)]);
        return Ok(false);
      }
      ApplyToggles(m);
      if c.text == "" || c.count == Some(0) {
        return Ok(true);
      }
      var step := Resolve(c.text, m, c.count);
      r := Settle(step, c.text, m);
    }

    /** execute(line): the commands of the line, run in order until one fails. A failed
        command ends the line without asking findCommands for more. */
    method Execute(line: string) returns (r: Result<bool>)
      modifies this
      ensures (Current(), r) == Dispatch.Execute(host, old(Registries()), old(Current()), line, separator)
      ensures Registries() == old(Registries())
    {
      var commands, failure := LineSegmenter.FindCommands(line, splitLines, separator);
      ghost var seg := LineSegmenter.Segmentation(commands, failure);
      var i := 0;
      while i < |commands|
        invariant 0 <= i <= |commands|
        invariant Registries() == old(Registries())
        invariant RunCommandsCorrected(host, Registries(), Current(), seg, i)
                  == Dispatch.Execute(host, old(Registries()), old(Current()), line, separator)
        decreases |commands| - i
      {
        var ok := ExecuteOneCommand(commands[i]);
        if ok.Err? || !ok.value {
          return ok;
        }
        i := i + 1;
      }
      r := EndOfLine(failure);
    }

    /** The end of the loop of execute: findCommands stopped, or raised an exception that
        is written as a line (or passes through). */
    method EndOfLine(failure: Option<Exc>) returns (r: Result<bool>)
      modifies this
      ensures (Current(), r) == Dispatch.EndOfLine(old(Current()), failure)
      ensures Registries() == old(Registries())
    {
      if failure.Some? {
        var report := SegmentationReport(failure.value);
        if report.Err? {
          return Err(report.error);
        }
        Complain([report.value]);
        return Ok(false);
      }
      return Ok(true);
    }
  }
}
