/** The stack engine of src/rpnpy/calculator.py: the calculator's state, the undo
    snapshot, _finalize (the one place where commands change the stack),
    convertStackArgs, the two session toggles, setVariable and the stack search
    _findWithArgs behind apply, map, reduce, join and store. */
module Engine {
  import opened Text
  import opened Errors
  import ModifierGrammar
  import opened Values

  /** The one-level undo snapshot: _previousStack and _previousVariables. */
  datatype Snapshot = Snapshot(stack: seq<Value>, variables: map<string, Value>)

  /** What the calculator writes: a value pretty-printed on the output, or a line on
      the error channel. */
  datatype Report = Printed(value: Value) | Complaint(message: string)

  /** The state a command can change: the stack (its top is the last element), the
      snapshot (None until the first save), the variables, the three session flags,
      and everything written so far. */
  datatype State = State(
    stack: seq<Value>,
    previous: Option<Snapshot>,
    variables: map<string, Value>,
    splitLines: bool,
    autoPrint: bool,
    debug: bool,
    transcript: seq<Report>)

  /** The three session flags are as they were: only the s, n, P and D modifiers and
      the toggles change them. */
  predicate SameSession(a: State, b: State) {
    a.splitLines == b.splitLines && a.autoPrint == b.autoPrint && a.debug == b.debug
  }

  /** The value part of a (status, value) pair whose status is True: a value, or the
      NO_VALUE sentinel. */
  datatype Answer = Produced(value: Value) | NoValue

  /** What one step of command resolution does: it declines the command (status
      False), claims it, or raises. */
  datatype Step = Declined | Claimed(answer: Answer) | Failed(error: Exc)

  /** How _finalize adds its result: not at all (noValue), appended a number of times
      (repeat), or its items appended one by one (extend). */
  datatype Addition = Nothing | Append(times: nat) | Extend

  /** err writes each message on a line of its own: the transcript gains them in order
      after what it already held, and nothing else about the calculator changes. */
  function Complain(st: State, messages: seq<string>): (r: State)
    ensures r.stack == st.stack && r.previous == st.previous && r.variables == st.variables
    ensures r.splitLines == st.splitLines && r.autoPrint == st.autoPrint && r.debug == st.debug
    ensures |r.transcript| == |st.transcript| + |messages|
    ensures r.transcript[..|st.transcript|] == st.transcript
    ensures forall i :: 0 <= i < |messages| ==> r.transcript[|st.transcript| + i] == Complaint(messages[i])
  {
    st.(transcript := st.transcript + Complaints(messages))
  }

  function Complaints(messages: seq<string>): (r: seq<Report>)
    ensures |r| == |messages|
    ensures forall i :: 0 <= i < |messages| ==> r[i] == Complaint(messages[i])
  {
    if messages == [] then [] else [Complaint(messages[0])] + Complaints(messages[1..])
  }

  /** The stack without its top n items (all of it when n exceeds its length), as the
      slice deletion stack[-n:] = [] leaves it for n > 0. */
  function WithoutTop(s: seq<Value>, n: nat): (r: seq<Value>)
    ensures |r| == if n <= |s| then |s| - n else 0
  {
    if n <= |s| then s[..|s| - n] else []
  }

  /** stack[-n:] for n > 0, and the whole stack for n == 0 (Python reads -0 as 0). */
  function TopItems(s: seq<Value>, n: nat): (r: seq<Value>)
    requires n <= |s|
    ensures n > 0 ==> |r| == n
  {
    if n == 0 then s else s[|s| - n..]
  }

  /** saveState */
  function SaveState(st: State): (r: State)
    ensures r.previous == Some(Snapshot(st.stack, st.variables))
    ensures r == st.(previous := r.previous)
  {
    st.(previous := Some(Snapshot(st.stack, st.variables)))
  }

  /** The first half of _finalize: when it pops or pushes (and = is not given) it saves
      the snapshot and pops nPop items. Only the stack and the snapshot change. */
  function PopFor(st: State, m: ModifierGrammar.Modifiers, nPop: nat, add: Addition): (r: State)
    ensures r == st.(stack := r.stack, previous := r.previous)
  {
    if (nPop > 0 || !add.Nothing?) && !m.preserveStack then
      var saved := SaveState(st);
      if nPop > 0 then saved.(stack := WithoutTop(saved.stack, nPop)) else saved
    else st
  }

  /** The i modifier: an iterable result becomes the list of its items; iterating it can
      raise. */
  function IterateIf(h: Host, result: Value, m: ModifierGrammar.Modifiers): Result<Value> {
    if m.iterate then
      match Iterate(h, result)
      case NotIterable => Ok(result)
      case Items(xs) => Ok(List(xs))
      case FailedAfter(_, e) => Err(e)
    else Ok(result)
  }

  /** The second half of _finalize: unless = is given it appends the result repeat
      times, or extends the stack by its items, or adds nothing. Only the stack changes. */
  function AddResult(h: Host, st: State, r: Value, m: ModifierGrammar.Modifiers, add: Addition): (res: (State, Option<Exc>))
    ensures res.0 == st.(stack := res.0.stack)
  {
    if m.preserveStack then (st, None)
    else match add
      case Nothing => (st, None)
      case Append(times) => (st.(stack := st.stack + Repeat(r, times)), None)
      case Extend =>
        match Iterate(h, r)
        case Items(xs) => (st.(stack := st.stack + xs), None)
        case FailedAfter(prefix, e) => (st.(stack := st.stack + prefix), Some(e))
        case NotIterable => (st, Some(HostException(NotIterableText(r))))
  }

  /** _finalize(result, modifiers, nPop, extend, repeat, noValue): the pop, then the i
      conversion, then the push. Iteration can raise after the pop (and, for extend,
      after the items yielded so far have been added). _finalize changes only the stack
      and the snapshot. */
  function Finalize(h: Host, st: State, result: Value, m: ModifierGrammar.Modifiers, nPop: nat, add: Addition): (r: (State, Option<Exc>))
    ensures r.0 == st.(stack := r.0.stack, previous := r.0.previous)
  {
    var popped := PopFor(st, m, nPop, add);
    match IterateIf(h, result, m)
    case Err(e) => (popped, Some(e))
    case Ok(v) => AddResult(h, popped, v, m, add)
  }

  /** A command that ends with _finalize: it raises what _finalize raised, or else
      returns its answer. */
  function Conclude(fin: (State, Option<Exc>), answer: Answer): (State, Step) {
    match fin.1
    case Some(e) => (fin.0, Failed(e))
    case None => (fin.0, Claimed(answer))
  }

  /** One stack item as a function argument: a Function becomes its callable, a
      Variable the current value of its variable (KeyError when there is none). */
  function ConvertArg(variables: map<string, Value>, v: Value): Result<Value> {
    match v
    case Func(f) => Ok(Fn(f.func))
    case VarRef(name) => if name in variables then Ok(variables[name]) else Err(HostException(KeyErrorText(name)))
    case _ => Ok(v)
  }

  /** convertStackArgs: the arguments in order, or the KeyError of the first Variable
      whose variable is gone. */
  function ConvertStackArgs(variables: map<string, Value>, args: seq<Value>): (r: Result<seq<Value>>)
    ensures r.Ok? ==> |r.value| == |args|
    ensures r.Err? ==> r.error.HostException?
  {
    if args == [] then Ok([])
    else
      match ConvertArg(variables, args[0])
      case Err(e) => Err(e)
      case Ok(first) =>
        match ConvertStackArgs(variables, args[1..])
        case Err(e) => Err(e)
        case Ok(rest) => Ok([first] + rest)
  }

  /** toggleAutoPrint(newValue): None flips the flag, a boolean sets it. */
  function ToggleAutoPrint(st: State, newValue: Option<bool>): (r: State)
    ensures r == st.(autoPrint := r.autoPrint)
    ensures newValue.None? ==> r.autoPrint != st.autoPrint
    ensures newValue.Some? ==> r.autoPrint == newValue.value
  {
    st.(autoPrint := if newValue.None? then !st.autoPrint else newValue.value)
  }

  /** toggleDebug(newValue): None flips the flag, a boolean sets it. */
  function ToggleDebug(st: State, newValue: Option<bool>): (r: State)
    ensures r == st.(debug := r.debug)
    ensures newValue.None? ==> r.debug != st.debug
    ensures newValue.Some? ==> r.debug == newValue.value
  {
    st.(debug := if newValue.None? then !st.debug else newValue.value)
  }

  /** setVariable: binds name to value, keeping every other variable and everything
      else. */
  function SetVariable(st: State, name: string, value: Value): (r: State)
    ensures r.variables.Keys == st.variables.Keys + {name} && r.variables[name] == value
    ensures forall k :: k in st.variables && k != name ==> r.variables[k] == st.variables[k]
    ensures r == st.(variables := r.variables)
  {
    st.(variables := st.variables[name := value])
  }

  // ----- _findWithArgs -----

  /** What _findWithArgs looks for: a callable (findCallableAndArgs) or a string
      (findStringAndArgs). */
  datatype Seek = SeekCallable | SeekString {
    function Description(): string {
      if SeekCallable? then "callable" else "a string"
    }

    predicate Matches(v: Value) {
      if SeekCallable? then IsCallable(v) else v.Str?
    }

    /** defaultArgCount: countArgs(func, 1) for a callable, 1 for a string. */
    function DefaultCount(v: Value): nat
      requires Matches(v)
    {
      if SeekCallable? then DefaultArgCount(v) else 1
    }
  }

  /** The item found on the stack and its arguments. */
  datatype Found = Found(item: Value, args: seq<Value>)

  /** How many items lie above the nearest item (from the top) that seek matches; the
      stack length when none does. */
  function AboveNearest(s: seq<Value>, seek: Seek): (k: nat)
    ensures k <= |s|
    ensures forall j :: |s| - k <= j < |s| ==> !seek.Matches(s[j])
    ensures k < |s| ==> seek.Matches(s[|s| - 1 - k])
  {
    if s == [] || seek.Matches(s[|s| - 1]) then 0 else 1 + AboveNearest(s[..|s| - 1], seek)
  }

  /** AboveNearest is the only count of that shape: k items above the nearest match, none of
      which matches, and a match (or the bottom of the stack) right below them. */
  lemma {:induction false} AboveNearestExact(s: seq<Value>, seek: Seek, k: nat)
    requires k <= |s|
    requires forall j :: |s| - k <= j < |s| ==> !seek.Matches(s[j])
    requires k < |s| ==> seek.Matches(s[|s| - 1 - k])
    ensures AboveNearest(s, seek) == k
  {
    if k > 0 {
      var t := s[..|s| - 1];
      assert !seek.Matches(s[|s| - 1]);
      forall j | |t| - (k - 1) <= j < |t| ensures !seek.Matches(t[j]) {
        assert t[j] == s[j];
      }
      if k - 1 < |t| {
        assert t[|t| - 1 - (k - 1)] == s[|s| - 1 - k];
      }
      AboveNearestExact(t, seek, k - 1);
    }
  }

  function ItemsText(n: nat): string {
    NatToString(n) + " item" + Plural(n)
  }

  function ArgumentsText(n: nat): string {
    NatToString(n) + " argument" + Plural(n)
  }

  function TooShortMessage(command: string, n: nat): string {
    "Cannot run " + PyStrRepr(command) + " (stack has only " + ItemsText(n) + ")"
  }

  /** The StackError whose message shows the repr of a stack item, or the exception that
      computing that repr raises. */
  function ItemError(st: State, item: Value, before: string, after: string): Exc {
    match ReprOf(item, st.variables)
    case Ok(r) => StackError(before + r + after)
    case Err(e) => e
  }

  /** The search of _findWithArgs before the arguments are converted. */
  function FindItem(st: State, command: string, seek: Seek, m: ModifierGrammar.Modifiers, count: Option<nat>): (r: Result<Found>)
    ensures |st.stack| < 2 ==> r.Err?
    ensures r.Ok? ==> r.value.item in st.stack && |r.value.args| <= |st.stack|
    ensures r.Ok? && (m.reverse || count.Some? || !m.all) ==> seek.Matches(r.value.item)
  {
    var s := st.stack;
    var n := |s|;
    if n < 2 || (count.Some? && n < count.value + 1) then Err(StackError(TooShortMessage(command, n)))
    else if m.reverse then
      var item := s[n - 1];
      if !seek.Matches(item) then
        Err(ItemError(st, item, "Top stack item (", ") is not " + seek.Description()))
      else
        var c := if count.Some? then count.value else if m.all then n - 1 else seek.DefaultCount(item);
        if n - 1 < c then
          Err(StackError("Cannot run " + PyStrRepr(command) + " with " + ArgumentsText(c)
                         + " (stack has only " + ItemsText(n - 1) + " available)"))
        else Ok(Found(item, s[n - 1 - c..n - 1]))
    else if count.None? then
      if m.all then Ok(Found(s[0], s[1..]))
      else
        var k := AboveNearest(s, seek);
        if k == n then Err(StackError("Could not find " + seek.Description() + " item on stack"))
        else Ok(Found(s[n - 1 - k], s[n - k..]))
    else
      var c := count.value;
      var item := s[n - 1 - c];
      if !seek.Matches(item) then
        Err(ItemError(st, item, "Cannot run " + PyStrRepr(command) + " with " + ArgumentsText(c)
                                + ". Stack item (", ") is not " + seek.Description()))
      else Ok(Found(item, TopItems(s, c)))
  }

  /** _findWithArgs: the search, then convertStackArgs on the arguments (the item itself
      is returned as it is on the stack). */
  function FindWithArgs(st: State, command: string, seek: Seek, m: ModifierGrammar.Modifiers, count: Option<nat>): (r: Result<Found>)
    ensures r.Ok? ==>
      && FindItem(st, command, seek, m, count).Ok?
      && r.value.item == FindItem(st, command, seek, m, count).value.item
      && |r.value.args| == |FindItem(st, command, seek, m, count).value.args|
    ensures FindItem(st, command, seek, m, count).Err? ==> r.Err?
  {
    match FindItem(st, command, seek, m, count)
    case Err(e) => Err(e)
    case Ok(found) =>
      match ConvertStackArgs(st.variables, found.args)
      case Err(e) => Err(e)
      case Ok(args) => Ok(Found(found.item, args))
  }

  /** findCallableAndArgs */
  function FindCallableAndArgs(st: State, command: string, m: ModifierGrammar.Modifiers, count: Option<nat>): (r: Result<Found>)
    ensures |st.stack| < 2 ==> r.Err?
    ensures r.Ok? ==> r.value.item in st.stack && |r.value.args| <= |st.stack|
    ensures r.Ok? && (m.reverse || count.Some? || !m.all) ==> IsCallable(r.value.item)
  {
    FindWithArgs(st, command, SeekCallable, m, count)
  }

  /** findStringAndArgs */
  function FindStringAndArgs(st: State, command: string, m: ModifierGrammar.Modifiers, count: Option<nat>): (r: Result<Found>)
    ensures |st.stack| < 2 ==> r.Err?
    ensures r.Ok? ==> r.value.item in st.stack && |r.value.args| <= |st.stack|
    ensures r.Ok? && (m.reverse || count.Some? || !m.all) ==> r.value.item.Str?
  {
    FindWithArgs(st, command, SeekString, m, count)
  }

  // ----- properties of _finalize -----

  /** With = (preserveStack) the stack and the snapshot are left as they were, whatever
      _finalize was asked to pop or push. */
  lemma FinalizePreserveStack(h: Host, st: State, result: Value, m: ModifierGrammar.Modifiers, nPop: nat, add: Addition)
    requires m.preserveStack
    ensures Finalize(h, st, result, m, nPop, add).0 == st
  {
  }

  /** When _finalize pops or pushes (and = is not given) the snapshot afterwards holds
      the stack and variables from before the call. */
  lemma FinalizeSavesSnapshot(h: Host, st: State, result: Value, m: ModifierGrammar.Modifiers, nPop: nat, add: Addition)
    requires !m.preserveStack && (nPop > 0 || !add.Nothing?)
    ensures Finalize(h, st, result, m, nPop, add).0.previous == Some(Snapshot(st.stack, st.variables))
  {
  }

  /** With nothing to pop and nothing to push, _finalize does not save a snapshot
      either. */
  lemma FinalizeNothingToDo(h: Host, st: State, result: Value, m: ModifierGrammar.Modifiers)
    ensures Finalize(h, st, result, m, 0, Nothing).0 == st
  {
  }

  /** The new stack, without the i modifier: the old stack minus its top nPop items,
      followed by the result repeat times, or by the result's items (extend), or by
      nothing (noValue). Only extending by an iterator that raises can fail. */
  lemma FinalizeStack(h: Host, st: State, result: Value, m: ModifierGrammar.Modifiers, nPop: nat, add: Addition)
    requires !m.preserveStack && !m.iterate
    ensures var (st', failure) := Finalize(h, st, result, m, nPop, add);
      var kept := WithoutTop(st.stack, nPop);
      && (add.Nothing? ==> failure.None? && st'.stack == kept)
      && (add.Append? ==> failure.None? && st'.stack == kept + Repeat(result, add.times))
      && (add.Extend? && Iterate(h, result).Items? ==> failure.None? && st'.stack == kept + Iterate(h, result).items)
      && (add.Extend? && Iterate(h, result).FailedAfter? ==>
            failure == Some(Iterate(h, result).error) && st'.stack == kept + Iterate(h, result).prefix)
  {
    var popped := PopFor(st, m, nPop, add);
    assert popped.stack == WithoutTop(st.stack, nPop);
    assert IterateIf(h, result, m) == Ok(result);
    assert Finalize(h, st, result, m, nPop, add) == AddResult(h, popped, result, m, add);
  }

  /** With the i modifier an iterable result is pushed as the list of its items. */
  lemma FinalizeIterates(h: Host, st: State, result: Value, m: ModifierGrammar.Modifiers, nPop: nat, times: nat)
    requires !m.preserveStack && m.iterate && Iterate(h, result).Items?
    ensures Finalize(h, st, result, m, nPop, Append(times)) ==
      (SaveState(st).(stack := WithoutTop(st.stack, nPop) + Repeat(List(Iterate(h, result).items), times)), None)
  {
    var xs := Iterate(h, result).items;
    assert IterateIf(h, result, m) == Ok(List(xs));
    var popped := PopFor(st, m, nPop, Append(times));
    assert popped == SaveState(st).(stack := WithoutTop(st.stack, nPop));
  }

  /** _finalize on a value that the i modifier leaves unchanged (a list, or anything
      not iterable), without =, in closed form. */
  lemma FinalizeClosedForm(h: Host, st: State, v: Value, m: ModifierGrammar.Modifiers, nPop: nat, add: Addition)
    requires !m.preserveStack && (nPop > 0 || !add.Nothing?)
    requires !m.iterate || v.List? || Iterate(h, v).NotIterable?
    requires add.Extend? ==> v.List?
    ensures Finalize(h, st, v, m, nPop, add) ==
      (SaveState(st).(stack := WithoutTop(st.stack, nPop) + Pushed(v, add)), None)
  {
    assert IterateIf(h, v, m) == Ok(v);
    var popped := PopFor(st, m, nPop, add);
    assert popped == SaveState(st).(stack := WithoutTop(st.stack, nPop));
    assert Finalize(h, st, v, m, nPop, add) == AddResult(h, popped, v, m, add);
    match add
    case Nothing =>
      assert popped.stack + Pushed(v, add) == popped.stack;
    case Append(_) =>
    case Extend =>
      assert Iterate(h, v) == Items(v.items);
  }

  /** _finalize with extend, on a value whose iteration yields ys and raises nothing:
      the pop, the snapshot and ys pushed, with or without i. */
  lemma FinalizeExtendsByItems(h: Host, st: State, v: Value, m: ModifierGrammar.Modifiers, nPop: nat, ys: seq<Value>)
    requires !m.preserveStack && nPop > 0 && Iterate(h, v) == Items(ys)
    ensures Finalize(h, st, v, m, nPop, Extend) ==
      (SaveState(st).(stack := WithoutTop(st.stack, nPop) + ys), None)
  {
    var popped := PopFor(st, m, nPop, Extend);
    assert popped == SaveState(st).(stack := WithoutTop(st.stack, nPop));
    if m.iterate {
      assert IterateIf(h, v, m) == Ok(List(ys));
      assert Iterate(h, List(ys)) == Items(ys);
    } else {
      assert IterateIf(h, v, m) == Ok(v);
    }
  }

  /** What _finalize adds for a value it does not have to iterate. */
  function Pushed(v: Value, add: Addition): (r: seq<Value>)
    requires add.Extend? ==> v.List?
  {
    match add
    case Nothing => []
    case Append(times) => Repeat(v, times)
    case Extend => v.items
  }

  // ----- properties of convertStackArgs -----

  /** convertStackArgs succeeds exactly when every Variable among the arguments names an
      existing variable, and then converts each argument in place: a Function becomes its
      callable, a Variable its current value, anything else stays. */
  lemma {:induction false} ConvertStackArgsSpec(variables: map<string, Value>, args: seq<Value>)
    ensures ConvertStackArgs(variables, args).Ok? <==>
      forall i :: 0 <= i < |args| && args[i].VarRef? ==> args[i].name in variables
    ensures ConvertStackArgs(variables, args).Ok? ==>
      |ConvertStackArgs(variables, args).value| == |args|
      && forall i :: 0 <= i < |args| ==> Ok(ConvertStackArgs(variables, args).value[i]) == ConvertArg(variables, args[i])
  {
    if args != [] {
      ConvertStackArgsSpec(variables, args[1..]);
      assert forall i :: 1 <= i < |args| ==> args[i] == args[1..][i - 1];
    }
  }

  /** Arguments with no Variable among them convert without failing. */
  lemma NoVariablesConvert(variables: map<string, Value>, args: seq<Value>)
    requires forall i :: 0 <= i < |args| ==> !args[i].VarRef?
    ensures ConvertStackArgs(variables, args).Ok?
  {
    ConvertStackArgsSpec(variables, args);
  }

  // ----- properties of the toggles -----

  /** Toggling with no argument flips the flag, so doing it twice restores it; an
      explicit value sets the flag to that value. Nothing else changes. */
  lemma TogglesFlipAndSet(st: State, b: bool)
    ensures ToggleAutoPrint(ToggleAutoPrint(st, None), None) == st
    ensures ToggleDebug(ToggleDebug(st, None), None) == st
    ensures ToggleAutoPrint(st, None).autoPrint == !st.autoPrint && ToggleDebug(st, None).debug == !st.debug
    ensures ToggleAutoPrint(st, Some(b)) == st.(autoPrint := b)
    ensures ToggleDebug(st, Some(b)) == st.(debug := b)
  {
  }

  // ----- properties of _findWithArgs -----

  /** A stack shorter than two items, or than count + 1, is refused first. */
  lemma FindTooShort(st: State, command: string, seek: Seek, m: ModifierGrammar.Modifiers, count: Option<nat>)
    requires |st.stack| < 2 || (count.Some? && |st.stack| < count.value + 1)
    ensures FindItem(st, command, seek, m, count) == Err(StackError(TooShortMessage(command, |st.stack|)))
  {
  }

  /** The plain search: the item is the nearest entry from the top that matches and the
      arguments are all the entries above it, in stack order; it fails exactly when no
      entry matches. */
  lemma FindNearest(st: State, command: string, seek: Seek, m: ModifierGrammar.Modifiers)
    requires !m.reverse && !m.all && |st.stack| >= 2
    ensures var r := FindItem(st, command, seek, m, None);
      var s := st.stack;
      && (r.Ok? <==> exists j :: 0 <= j < |s| && seek.Matches(s[j]))
      && (r.Err? ==> r.error == StackError("Could not find " + seek.Description() + " item on stack"))
      && (r.Ok? ==>
            var i := |s| - 1 - |r.value.args|;
            && 0 <= i < |s| && r.value.item == s[i] && seek.Matches(s[i])
            && r.value.args == s[i + 1..]
            && forall j :: i < j < |s| ==> !seek.Matches(s[j]))
  {
    var s := st.stack;
    var n := |s|;
    var k := AboveNearest(s, seek);
    var r := FindItem(st, command, seek, m, None);
    if k == n {
      assert r == Err(StackError("Could not find " + seek.Description() + " item on stack"));
      forall j | 0 <= j < n ensures !seek.Matches(s[j]) {
      }
    } else {
      assert r == Ok(Found(s[n - 1 - k], s[n - k..]));
      assert |r.value.args| == k;
    }
  }

  /** With * and no count the item is the bottom entry, whether or not it satisfies the
      predicate, and the arguments are all the others. */
  lemma FindAllEntries(st: State, command: string, seek: Seek, m: ModifierGrammar.Modifiers)
    requires !m.reverse && m.all && |st.stack| >= 2
    ensures FindItem(st, command, seek, m, None) == Ok(Found(st.stack[0], st.stack[1..]))
  {
  }

  /** With an explicit count c the entry c places below the top must match, and the
      arguments are the top c entries. */
  lemma FindCounted(st: State, command: string, seek: Seek, m: ModifierGrammar.Modifiers, c: nat)
    requires !m.reverse && 1 <= c && c + 1 <= |st.stack|
    ensures var s := st.stack;
      var r := FindItem(st, command, seek, m, Some(c));
      && (seek.Matches(s[|s| - 1 - c]) ==> r == Ok(Found(s[|s| - 1 - c], s[|s| - c..])))
      && (!seek.Matches(s[|s| - 1 - c]) ==> r.Err?)
  {
  }

  /** With r the item must be the top entry; the count defaults to the rest of the stack
      under *, else to the item's own default; the arguments are the count entries just
      below the top. */
  lemma FindReversed(st: State, command: string, seek: Seek, m: ModifierGrammar.Modifiers, count: Option<nat>)
    requires m.reverse && |st.stack| >= 2 && (count.Some? ==> count.value + 1 <= |st.stack|)
    ensures var s := st.stack;
      var n := |s|;
      var r := FindItem(st, command, seek, m, count);
      && (!seek.Matches(s[n - 1]) ==> r.Err?)
      && (seek.Matches(s[n - 1]) ==>
            var c := if count.Some? then count.value else if m.all then n - 1 else seek.DefaultCount(s[n - 1]);
            && (c <= n - 1 ==> r == Ok(Found(s[n - 1], s[n - 1 - c..n - 1])))
            && (c > n - 1 ==> r.Err? && r.error.StackError?))
  {
  }

  /** Whenever the search succeeds (except for an explicit count of 0 without r, which
      the slice stack[-0:] turns into the whole stack), the item and its arguments are
      exactly the top len(args) + 1 entries: the item below its arguments, or on top of
      them under r. The item satisfies the predicate except under * without a count and
      without r, where the bottom entry is taken unchecked. */
  lemma FindTakesTopEntries(st: State, command: string, seek: Seek, m: ModifierGrammar.Modifiers, count: Option<nat>)
    requires FindItem(st, command, seek, m, count).Ok?
    requires m.reverse || count != Some(0)
    ensures var found := FindItem(st, command, seek, m, count).value;
      var s := st.stack;
      && |found.args| + 1 <= |s|
      && (m.reverse || count.Some? || !m.all ==> seek.Matches(found.item))
      && (!m.reverse ==> [found.item] + found.args == s[|s| - 1 - |found.args|..])
      && (m.reverse ==> found.args + [found.item] == s[|s| - 1 - |found.args|..])
  {
    if m.reverse {
      ReversedTakesTop(st, command, seek, m, count);
    } else if count.None? && m.all {
      AllTakesTop(st, command, seek, m);
    } else if count.None? {
      NearestTakesTop(st, command, seek, m);
    } else {
      CountedTakesTop(st, command, seek, m, count.value);
    }
  }

  lemma AllTakesTop(st: State, command: string, seek: Seek, m: ModifierGrammar.Modifiers)
    requires FindItem(st, command, seek, m, None).Ok? && !m.reverse && m.all
    ensures var found := FindItem(st, command, seek, m, None).value;
      var s := st.stack;
      && |found.args| + 1 <= |s|
      && [found.item] + found.args == s[|s| - 1 - |found.args|..]
  {
    var s := st.stack;
    FindAllEntries(st, command, seek, m);
    assert s == [s[0]] + s[1..];
  }

  lemma CountedTakesTop(st: State, command: string, seek: Seek, m: ModifierGrammar.Modifiers, c: nat)
    requires FindItem(st, command, seek, m, Some(c)).Ok? && !m.reverse && c != 0
    ensures var found := FindItem(st, command, seek, m, Some(c)).value;
      var s := st.stack;
      && |found.args| + 1 <= |s| && seek.Matches(found.item)
      && [found.item] + found.args == s[|s| - 1 - |found.args|..]
  {
    var s := st.stack;
    var n := |s|;
    assert s[n - 1 - c..] == [s[n - 1 - c]] + s[n - c..];
  }

  lemma ReversedTakesTop(st: State, command: string, seek: Seek, m: ModifierGrammar.Modifiers, count: Option<nat>)
    requires FindItem(st, command, seek, m, count).Ok? && m.reverse
    ensures var found := FindItem(st, command, seek, m, count).value;
      var s := st.stack;
      && |found.args| + 1 <= |s| && seek.Matches(found.item)
      && found.args + [found.item] == s[|s| - 1 - |found.args|..]
  {
    var s := st.stack;
    var n := |s|;
    var found := FindItem(st, command, seek, m, count).value;
    var c := |found.args|;
    assert found.args == s[n - 1 - c..n - 1];
    assert s[n - 1 - c..] == s[n - 1 - c..n - 1] + [s[n - 1]];
  }

  lemma NearestTakesTop(st: State, command: string, seek: Seek, m: ModifierGrammar.Modifiers)
    requires FindItem(st, command, seek, m, None).Ok? && !m.reverse && !m.all
    ensures var found := FindItem(st, command, seek, m, None).value;
      var s := st.stack;
      && |found.args| + 1 <= |s| && seek.Matches(found.item)
      && [found.item] + found.args == s[|s| - 1 - |found.args|..]
  {
    var s := st.stack;
    var n := |s|;
    var k := AboveNearest(s, seek);
    assert s[n - 1 - k..] == [s[n - 1 - k]] + s[n - k..];
  }
}
