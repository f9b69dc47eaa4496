/** The values the calculator keeps on its stack and in its variables
    (src/rpnpy/calculator.py), the host that evaluates what the calculator cannot see
    (Python callables, eval, exec, EngNumber), and Python's repr(), str() and iter()
    restricted to those values. */
module Values {
  import opened Text
  import opened Errors

  /** A host callable: its __name__, countArgs(func) (None when its signature cannot be
      inspected), its repr() and the name of its type. */
  datatype Callable = Callable(name: string, arity: Option<nat>, repr: string, typeName: string) {
    /** countArgs(func, 1) */
    function DefaultArity(): nat {
      arity.GetOr(1)
    }
  }

  /** calculator.Function: a callable registered under a name, with the number of
      stack arguments it takes by default. */
  datatype Function = Function(moduleName: string, name: string, func: Callable, nArgs: nat) {
    /** Function.path */
    function Path(): string {
      moduleName + "." + name
    }

    /** Function.__repr__ */
    function Repr(): string {
      "Function(" + name + " (calls " + Path() + " with " + NatToString(nArgs) + " arg" + Plural(nArgs) + "))"
    }
  }

  datatype Value =
    | Int(i: int)
    | Str(s: string)
    | NoneValue
    | List(items: seq<Value>)
    /** A bare host callable, such as math.sin or the list constructor. */
    | Fn(c: Callable)
    /** A calculator.Function instance. */
    | Func(f: Function)
    /** calculator.Variable(name, variables): a live reference to a variable. */
    | VarRef(name: string)
    /** The lazy iterator map(f, source) returns: nothing is called and nothing of
        source is consumed until it is iterated. */
    | MapObject(mapped: Value, source: Value)
    /** Any other host value (a float, a Decimal, a tuple, ...): its type name, str(),
        repr(), and its elements when it is iterable. */
    | Opaque(typeName: string, text: string, repr: string, elements: Option<seq<Value>>)

  /** Python's callable(). A Function instance is callable through __call__. */
  predicate IsCallable(v: Value) {
    v.Fn? || v.Func?
  }

  /** The host callable that calling v runs. */
  function CallTarget(v: Value): Callable
    requires IsCallable(v)
  {
    match v
    case Fn(c) => c
    case Func(f) => f.func
  }

  /** Calling v on arguments: a Function instance calls its callable; a value that is not
      callable raises TypeError. */
  function CallValue(h: Host, v: Value, args: seq<Value>): Outcome {
    match v
    case Fn(c) => h.call(c, args)
    case Func(f) => h.call(f.func, args)
    case _ => Raised("'" + TypeName(v) + "' object is not callable", false)
  }

  /** countArgs(v, 1): a Function instance is inspected through __call__(*args, **kw),
      which has no positional parameters. */
  function DefaultArgCount(v: Value): nat
    requires IsCallable(v)
  {
    match v
    case Fn(c) => c.DefaultArity()
    case Func(_) => 0
  }

  /** type(v).__name__ */
  function TypeName(v: Value): string {
    match v
    case Int(_) => "int"
    case Str(_) => "str"
    case NoneValue => "NoneType"
    case List(_) => "list"
    case Fn(c) => c.typeName
    case Func(_) => "Function"
    case VarRef(_) => "Variable"
    case MapObject(_, _) => "map"
    case Opaque(t, _, _, _) => t
  }

  /** What a host callable does when called: it returns a value or raises an exception
      whose str() is message; eof says whether that exception is an EOFError (as input()
      raises at the end of its input), the one exception _trySpecial lets through. */
  datatype Outcome = Returned(value: Value) | Raised(message: string, eof: bool)

  /** The exception a host callable raised, as the calculator's handlers tell it apart:
      an EOFError, or any other. */
  function HostError(message: string, eof: bool): (e: Exc)
    ensures e.EndOfSession? <==> eof
  {
    if eof then EndOfSession else HostException(message)
  }

  /** What eval does with the calculator's variables as its locals: it returns a value
      or raises, and in either case leaves the variables as given (an assignment
      expression such as (y := 3) binds into them, even when the evaluation then goes on
      to raise). */
  datatype EvalOutcome = Evaluated(value: Value, variables: map<string, Value>)
                       | EvalRaised(message: string, variables: map<string, Value>)

  /** What exec does with the calculator's variables as its locals: it succeeds or
      raises, and in either case leaves the variables as given (x=1;1/0 binds x and then
      raises). */
  datatype ExecOutcome = Executed(variables: map<string, Value>)
                       | ExecRaised(message: string, variables: map<string, Value>)

  /** The host: calling a callable on arguments, eval and exec of a command against the
      variables, and EngNumber (None when it raises decimal.InvalidOperation). */
  datatype Host = Host(
    call: (Callable, seq<Value>) -> Outcome,
    eval: (string, map<string, Value>) -> EvalOutcome,
    engNumber: string -> Option<Value>,
    exec: (string, map<string, Value>) -> ExecOutcome)

  // ----- repr() and str() -----

  function HexDigit(d: nat): char
    requires d < 16
  {
    if d < 10 then DigitChar(d) else (('a' as int) + d - 10) as char
  }

  /** Whether repr shows c as \xhh: the characters below U+0100 that Python does not
      count as printable, i.e. the C0 and C1 controls, DEL, the no-break space and the
      soft hyphen (\t, \n and \r have their own escapes). */
  predicate HexEscaped(c: char) {
    c < ' ' || ('\U{7f}' <= c <= '\U{a0}') || c == '\U{ad}'
  }

  /** The escaped form of one character inside a quoted repr. */
  function EscapeChar(c: char, quote: char): (r: string)
    ensures |r| == 1 <==> r == [c]
    ensures |r| == 1 <==> c != '\\' && c != quote && !HexEscaped(c)
    ensures forall k :: 0 <= k < |r| ==> !HexEscaped(r[k]) || r[k] == quote
  {
    if c == '\\' || c == quote then ['\\', c]
    else if c == '\t' then "\\t"
    else if c == '\n' then "\\n"
    else if c == '\r' then "\\r"
    else if HexEscaped(c) then ['\\', 'x', HexDigit(c as int / 16), HexDigit(c as int % 16)]
    else [c]
  }

  /** The characters of s, each escaped: no character that repr shows as \xhh is left
      (the quote character passed in aside). */
  function Escape(s: string, quote: char): (r: string)
    ensures |r| >= |s|
    ensures forall k :: 0 <= k < |r| ==> !HexEscaped(r[k]) || r[k] == quote
  {
    if s == [] then [] else EscapeChar(s[0], quote) + Escape(s[1..], quote)
  }

  /** repr(s) for a str: single quotes unless s holds a single quote and no double
      quote. */
  function PyStrRepr(s: string): (r: string)
    ensures |r| >= |s| + 2
    ensures r[0] == r[|r| - 1] && (r[0] == '\'' || r[0] == '"')
    ensures r[0] == '"' <==> '\'' in s && '"' !in s
    ensures forall k :: 0 <= k < |r| ==> !HexEscaped(r[k])
  {
    var quote := if '\'' in s && '"' !in s then '"' else '\'';
    [quote] + Escape(s, quote) + [quote]
  }

  /** Escaping leaves a text alone when it has no backslash, no quote character and
      nothing repr shows as \xhh. */
  lemma {:induction false} EscapeKeepsPlain(s: string, quote: char)
    requires forall i :: 0 <= i < |s| ==> s[i] != '\\' && s[i] != quote && !HexEscaped(s[i])
    ensures Escape(s, quote) == s
  {
    if s != [] {
      EscapeKeepsPlain(s[1..], quote);
    }
  }

  /** So repr of such a text, with no quote of either kind, is the text in single
      quotes; any character from U+00A1 up other than the soft hyphen is copied as it is. */
  lemma PlainRepr(s: string)
    requires forall i :: 0 <= i < |s| ==> s[i] != '\\' && s[i] != '\'' && s[i] != '"' && !HexEscaped(s[i])
    ensures PyStrRepr(s) == "'" + s + "'"
  {
    EscapeKeepsPlain(s, '\'');
  }

  const RecursionMessage := "maximum recursion depth exceeded while getting the repr of an object"

  /** The recursion budget for nested Variable reprs. */
  const ReprDepth: nat := 1000

  /** str(KeyError(name)) */
  function KeyErrorText(name: string): string {
    PyStrRepr(name)
  }

  /** repr(v). A Variable shows its variable's current value, so the repr can raise
      KeyError (a variable that is gone) or RecursionError (Variables that refer to one
      another without a list between them). A list guards itself against cycles: a
      Variable whose variable holds a list already being printed (its name is in
      entered) shows that list as [...]. */
  function Repr(v: Value, variables: map<string, Value>, depth: nat, entered: set<string>): (r: Result<string>)
    ensures r.Err? ==> r.error.HostException?
    ensures v.Str? ==> r == Ok(PyStrRepr(v.s))
    decreases depth, v
  {
    match v
    case Int(i) => Ok(IntToString(i))
    case Str(s) => Ok(PyStrRepr(s))
    case NoneValue => Ok("None")
    case List(xs) =>
      (match ReprList(xs, variables, depth, entered)
       case Ok(parts) => Ok("[" + Join(", ", parts) + "]")
       case Err(e) => Err(e))
    case Fn(c) => Ok(c.repr)
    case Func(f) => Ok(f.Repr())
    case VarRef(name) =>
      if name !in variables then Err(HostException(KeyErrorText(name)))
      else if depth == 0 then Err(HostException(RecursionMessage))
      else
        var value := variables[name];
        if value.List? && name in entered then Ok(VariableText(name, "[...]"))
        else
          (match Repr(value, variables, depth - 1, if value.List? then entered + {name} else entered)
           case Ok(r) => Ok(VariableText(name, r))
           case Err(e) => Err(e))
    case MapObject(_, _) => Ok("<map object>")
    case Opaque(_, _, r, _) => Ok(r)
  }

  /** Variable.__repr__ around the repr of its current value. */
  function VariableText(name: string, valueText: string): string {
    "Variable(" + name + ", current value: " + valueText + ")"
  }

  function ReprList(xs: seq<Value>, variables: map<string, Value>, depth: nat, entered: set<string>): (r: Result<seq<string>>)
    ensures r.Ok? ==> |r.value| == |xs|
    ensures r.Err? ==> r.error.HostException?
    decreases depth, xs
  {
    if xs == [] then Ok([])
    else
      match Repr(xs[0], variables, depth, entered)
      case Err(e) => Err(e)
      case Ok(first) =>
        match ReprList(xs[1..], variables, depth, entered)
        case Err(e) => Err(e)
        case Ok(rest) => Ok([first] + rest)
  }

  /** A value in which no Variable occurs, directly or inside a list. */
  predicate FreeOfReferences(v: Value)
    decreases v
  {
    match v
    case VarRef(_) => false
    case List(xs) => forall i :: 0 <= i < |xs| ==> FreeOfReferences(xs[i])
    case _ => true
  }

  /** repr can raise only through a Variable: without one it always succeeds. */
  lemma {:induction false} ReprFreeOfReferences(v: Value, variables: map<string, Value>, depth: nat, entered: set<string>)
    requires FreeOfReferences(v)
    ensures Repr(v, variables, depth, entered).Ok?
    decreases depth, v
  {
    if v.List? {
      ReprListFreeOfReferences(v.items, variables, depth, entered);
    }
  }

  lemma {:induction false} ReprListFreeOfReferences(xs: seq<Value>, variables: map<string, Value>, depth: nat, entered: set<string>)
    requires forall i :: 0 <= i < |xs| ==> FreeOfReferences(xs[i])
    ensures ReprList(xs, variables, depth, entered).Ok?
    decreases depth, xs
  {
    if xs != [] {
      ReprFreeOfReferences(xs[0], variables, depth, entered);
      assert forall i :: 0 <= i < |xs[1..]| ==> xs[1..][i] == xs[i + 1];
      ReprListFreeOfReferences(xs[1..], variables, depth, entered);
    }
  }

  /** So str() of such a value never raises either. */
  lemma StrOfFreeOfReferences(v: Value, variables: map<string, Value>)
    requires FreeOfReferences(v)
    ensures StrOf(v, variables).Ok?
  {
    ReprFreeOfReferences(v, variables, ReprDepth, {});
  }

  /** A list that holds a Variable for its own variable: the Variable's repr shows the
      list once, and inside it the list again as [...], where Python's list repr stops
      the cycle. So does str() of the list, and join with it succeeds. */
  lemma ListCycleShownOnce(name: string, variables: map<string, Value>)
    requires name in variables && variables[name] == List([VarRef(name)])
    ensures ReprOf(VarRef(name), variables) == Ok(VariableText(name, "[" + VariableText(name, "[...]") + "]"))
    ensures ReprOf(List([VarRef(name)]), variables) ==
      Ok("[" + VariableText(name, "[" + VariableText(name, "[...]") + "]") + "]")
  {
    var one := [VarRef(name)];
    assert one[1..] == [];
    var inner := VariableText(name, "[...]");
    assert Repr(VarRef(name), variables, ReprDepth - 1, {name}) == Ok(inner);
    assert ReprList(one[1..], variables, ReprDepth - 1, {name}) == Ok([]);
    assert Repr(one[0], variables, ReprDepth - 1, {name}) == Ok(inner);
    assert [inner] + [] == [inner];
    assert ReprList(one, variables, ReprDepth - 1, {name}) == Ok([inner]);
    assert Join(", ", [inner]) == inner;
    var outer := VariableText(name, "[" + inner + "]");
    var none: set<string> := {};
    assert none + {name} == {name};
    assert variables[name] == List(one);
    assert Repr(List(one), variables, ReprDepth - 1, {name}) == Ok("[" + inner + "]");
    assert Repr(VarRef(name), variables, ReprDepth, none) == Ok(outer);
    assert ReprList(one[1..], variables, ReprDepth, none) == Ok([]);
    assert Repr(one[0], variables, ReprDepth, none) == Ok(outer);
    assert [outer] + [] == [outer];
    assert ReprList(one, variables, ReprDepth, none) == Ok([outer]);
    assert Join(", ", [outer]) == outer;
  }

  /** Variables that refer to one another with no list between them have no end: their
      repr raises RecursionError, at any depth. */
  lemma {:induction false} VariableCycleRecursionError(name: string, variables: map<string, Value>, depth: nat, entered: set<string>)
    requires name in variables && variables[name] == VarRef(name)
    ensures Repr(VarRef(name), variables, depth, entered) == Err(HostException(RecursionMessage))
    decreases depth
  {
    if depth > 0 {
      VariableCycleRecursionError(name, variables, depth - 1, entered);
    }
  }

  /** repr(v) at the top level. */
  function ReprOf(v: Value, variables: map<string, Value>): Result<string> {
    Repr(v, variables, ReprDepth, {})
  }

  /** repr() of each of xs in turn, as the repr of a tuple or a list of them computes
      it: the first that raises ends it. */
  function ReprAll(xs: seq<Value>, variables: map<string, Value>): (r: Result<seq<string>>)
    ensures r.Ok? ==> |r.value| == |xs|
    ensures r.Err? ==> r.error.HostException?
  {
    ReprList(xs, variables, ReprDepth, {})
  }

  /** str(v): a str is itself, a host value has its own str(), everything else prints
      as its repr. */
  function StrOf(v: Value, variables: map<string, Value>): (r: Result<string>)
    ensures r.Err? ==> r.error.HostException?
    ensures v.Str? ==> r == Ok(v.s)
    ensures v.Opaque? ==> r == Ok(v.text)
  {
    match v
    case Str(s) => Ok(s)
    case Opaque(_, text, _, _) => Ok(text)
    case _ => ReprOf(v, variables)
  }

  /** map(str, xs), forced. */
  function StrAll(xs: seq<Value>, variables: map<string, Value>): (r: Result<seq<string>>)
    ensures r.Ok? ==> |r.value| == |xs|
  {
    if xs == [] then Ok([])
    else
      match StrOf(xs[0], variables)
      case Err(e) => Err(e)
      case Ok(first) =>
        match StrAll(xs[1..], variables)
        case Err(e) => Err(e)
        case Ok(rest) => Ok([first] + rest)
  }

  /** When repr() of each of xs succeeds, so does str() of each: str() is the repr
      except on a str or a host value, whose str() never raises. */
  lemma {:induction false} StrAllAfterReprAll(xs: seq<Value>, variables: map<string, Value>)
    requires ReprList(xs, variables, ReprDepth, {}).Ok?
    ensures StrAll(xs, variables).Ok?
  {
    if xs != [] {
      StrAllAfterReprAll(xs[1..], variables);
    }
  }

  // ----- iter() -----

  /** What list(iter(v)) does: v is not iterable (iter raises TypeError), or it yields
      its items, or it yields some items and then raises. */
  datatype Iteration = NotIterable | Items(items: seq<Value>) | FailedAfter(prefix: seq<Value>, error: Exc)

  /** The TypeError iter() raises on a value that is not iterable. */
  function NotIterableText(v: Value): string {
    "'" + TypeName(v) + "' object is not iterable"
  }

  /** The one-character strings of s, in order. */
  function Characters(s: string): (r: seq<Value>)
    ensures |r| == |s|
    ensures forall i :: 0 <= i < |s| ==> r[i] == Str([s[i]])
  {
    if s == [] then [] else [Str([s[0]])] + Characters(s[1..])
  }

  /** Iterating v to the end. A map object pulls its source item by item and calls its
      function on each, stopping at the first raise (from either). */
  function Iterate(h: Host, v: Value): (r: Iteration)
    ensures r.NotIterable? <==> !(v.Str? || v.List? || v.MapObject? || (v.Opaque? && v.elements.Some?))
    ensures v.Str? ==> r.Items? && |r.items| == |v.s| && forall i :: 0 <= i < |v.s| ==> r.items[i] == Str([v.s[i]])
    ensures v.List? ==> r == Items(v.items)
    ensures v.Opaque? && v.elements.Some? ==> r == Items(v.elements.value)
  {
    match v
    case Str(s) => Items(Characters(s))
    case List(xs) => Items(xs)
    case Opaque(_, _, _, Some(xs)) => Items(xs)
    case MapObject(f, source) =>
      (match Iterate(h, source)
       case NotIterable => FailedAfter([], HostException(NotIterableText(source)))
       case Items(xs) => MapItems(h, f, xs)
       case FailedAfter(prefix, e) =>
         (match MapItems(h, f, prefix)
          case Items(ys) => FailedAfter(ys, e)
          case FailedAfter(ys, e') => FailedAfter(ys, e')))
    case _ => NotIterable
  }

  /** map(f, xs) over items already at hand. */
  function MapItems(h: Host, f: Value, xs: seq<Value>): (r: Iteration)
    ensures !r.NotIterable?
    ensures r.Items? ==> |r.items| == |xs|
    ensures r.FailedAfter? ==> |r.prefix| < |xs|
  {
    if xs == [] then Items([])
    else
      match CallValue(h, f, [xs[0]])
      case Raised(m, eof) => FailedAfter([], HostError(m, eof))
      case Returned(first) =>
        match MapItems(h, f, xs[1..])
        case Items(rest) => Items([first] + rest)
        case FailedAfter(prefix, e) => FailedAfter([first] + prefix, e)
  }
}
