# rpnpy core, modelled in Dafny

rpnpy is a reverse Polish notation calculator. It reads a line and splits it into
commands. Each command may carry a `:` annotation: modifier letters plus an optional
count. The commands run against a stack of values and a dictionary of variables, and
each one is resolved in this order:

1. a registered function,
2. a variable,
3. a special command (`clear`, `dup`, `undo`, `store`, `map`, ...),
4. Python `eval`/`exec` as the last resort.

Every command that changes the stack goes through `_finalize`. `_finalize` saves an undo
snapshot, pops the arguments and pushes the result. Depending on the modifiers, the
result is pushed once, repeated, iterated, or not pushed at all.

The model has these modules:

- `ModifierGrammar` (modifiers.dfy): the eleven modifier letters, the `Modifiers` record
  and `strToModifiers`. A pure specification `Parse` sits beside the imperative parser,
  which is proved equal to it.
- `LineSegmenter` (segmenter.dfy): `findModifiers` and `findCommands`. Each is an
  imperative method proved equal to a pure segmentation of the line's fields.
- `Engine` (engine.dfy): the calculator state (stack, undo snapshot, variables, flags and
  a transcript of what was printed or reported). It defines `_finalize`,
  `convertStackArgs`, the toggles and `_findWithArgs`, the last exactly as the code is
  written.
- `Specials` (specials.dfy): every special command of functions.py, the `FUNCTIONS`
  table and `addSpecialFunctions`.
- `Dispatch` (dispatch.dfy): `register`, the four resolution steps, `_executeOneCommand`
  and `execute`. `execute` appears twice: once with its look-ahead as written, and once
  with the look-ahead corrected (see Findings). Both run special commands through
  `Specials.RunSpecial`, which uses the corrected `store`.
- `Calculators` (calculator.dfy): the `Calculator` class. Its fields are the ones the
  source updates in place. Every method is proved to leave the object in the state that
  the specification functions compute, and to leave the registries alone unless the
  method registers something.
- `Values`, `Errors`, `Text` (values.dfy, errors.dfy, text.dfy) are supporting modules:
  - the values the calculator handles, and `repr()`, `str()` and `iter()` on them;
  - the exceptions;
  - the string operations the code uses (`strip`, `split`, `rfind`, ...).

`Host` (values.dfy) is a parameter of the model. It stands for whatever Python computes
that lies outside the repository:

- calling a host callable,
- `eval`,
- `exec`,
- `EngNumber`.

Python exceptions are the `Exc` datatype. Each operation returns the new state together
with a step: the command was claimed (with or without a value), declined, or failed with
an exception. This lets the model represent failures that leave the stack partly
changed.

## Model

| member | source | states |
|---|---|---|
| Text.Least | src/rpnpy/functions.py:65 | the result is in the set and comes first in Python's order of strings, as `sorted()` puts it |
| Values.EscapeChar | src/rpnpy/calculator.py:523-552 | a character inside a repr is copied unchanged exactly when it is not a backslash, not the quote and not one of the characters below U+0100 that repr shows as `\xhh`; no such character comes out raw |
| Values.PyStrRepr | src/rpnpy/calculator.py:523-552 | repr of a str opens and closes with the same quote, a double quote exactly when the text holds `'` and no `"`, and leaves no character below U+0100 that repr escapes |
| Values.EscapeKeepsPlain | src/rpnpy/calculator.py:523-552 | escaping leaves a text alone when it has nothing to escape |
| Values.PlainRepr | src/rpnpy/calculator.py:523-552 | repr of a text with nothing to escape and no quote of either kind is the text in single quotes |
| Values.Repr | src/rpnpy/calculator.py:39-56 | repr of a str is its quoted form, and repr raises only a host exception (the KeyError or RecursionError of a Variable) |
| Values.ListCycleShownOnce | src/rpnpy/calculator.py:54-56 | a list that holds a Variable for its own variable has a repr: the list is shown once more inside the Variable, and there as `[...]`, where Python's list repr stops the cycle |
| Values.VariableCycleRecursionError | src/rpnpy/calculator.py:54-56 | a Variable whose variable holds that same Variable, with no list between, raises RecursionError |
| Values.ReprAll | src/rpnpy/calculator.py:480 | one repr per value, in order; only a host exception is raised |
| Values.ReprFreeOfReferences | src/rpnpy/calculator.py:54-56 | repr of a value with no Variable in it never raises |
| Values.ReprListFreeOfReferences | src/rpnpy/calculator.py:54-56 | repr of each item of a list with no Variable in it never raises |
| Values.StrOf | src/rpnpy/calculator.py:482-486 | str of a str is the str itself and of a host value its own str(); str raises only a host exception |
| Values.StrOfFreeOfReferences | src/rpnpy/calculator.py:482-486 | str of a value with no Variable in it never raises |
| Values.StrAllAfterReprAll | src/rpnpy/calculator.py:480-486 | when repr() of every argument succeeds, str() of every argument succeeds too |
| Values.Iterate | src/rpnpy/calculator.py:332-338 | iter() fails exactly on a value that is not a str, list, map object or iterable host value; a str yields its characters, a list its items and a host value its elements |
| ModifierGrammar.FlagOf | src/rpnpy/modifiers.py:4-16 | a known letter maps to the modifier whose letter it is |
| ModifierGrammar.FlagLetterIsPlain | src/rpnpy/modifiers.py:4-16 | no modifier letter is a digit or white space, so counts and letters cannot be confused |
| ModifierGrammar.AlphabetIsExact | src/rpnpy/modifiers.py:4-16 | there are exactly eleven modifier letters, one per modifier, all distinct, and a character is a modifier letter exactly when it is one of them |
| ModifierGrammar.FromFlags | src/rpnpy/modifiers.py:22-36 | the Modifiers built from a set of flags has a modifier on exactly when it is in the set |
| ModifierGrammar.DefaultsAreOff | src/rpnpy/modifiers.py:22-36 | every modifier defaults to off, and this is what the empty annotation parses to |
| ModifierGrammar.Equal | src/rpnpy/modifiers.py:38-51 | two Modifiers are equal exactly when all eleven fields agree |
| ModifierGrammar.FromLettersFlags | src/rpnpy/modifiers.py:61-69 | a modifier is on exactly when its letter occurs in the annotation |
| ModifierGrammar.NonFlagLettersMembers | src/rpnpy/modifiers.py:61-69 | the unknown letters collected are exactly the characters of the annotation that are not modifier letters |
| ModifierGrammar.SortDistinctMembers | src/rpnpy/modifiers.py:71-72 | sorting the unknown letters keeps exactly the same characters |
| ModifierGrammar.SortDistinctIncreasing | src/rpnpy/modifiers.py:71-72 | the unknown letters are reported sorted and without repetition |
| ModifierGrammar.InsertSortedMembers | src/rpnpy/modifiers.py:71-72 | inserting a letter into the sorted set adds exactly that letter |
| ModifierGrammar.InsertSortedIncreasing | src/rpnpy/modifiers.py:71-72 | inserting a letter keeps the set sorted and free of repeats |
| ModifierGrammar.SortedUnique | src/rpnpy/modifiers.py:71-72 | two sorted, repeat-free sequences with the same members are equal, so the report depends only on the set of letters |
| ModifierGrammar.NoNonFlagLetters | src/rpnpy/modifiers.py:61-72 | an annotation made only of modifier letters has no unknown letters |
| ModifierGrammar.StrToModifiers | src/rpnpy/modifiers.py:54-86 | the loop over the annotation computes the result of the specification Parse, error cases included |
| ModifierGrammar.CollectedLetters | src/rpnpy/modifiers.py:61-69 | the loop invariant: the flags seen so far are the letters read, and the unknown letters so far are the non-modifier characters read |
| ModifierGrammar.UnknownLettersReported | src/rpnpy/modifiers.py:71-72 | an annotation with any unknown letter raises UnknownModifiersError, listing exactly the unknown letters, sorted and without repeats |
| ModifierGrammar.UnknownExample | src/rpnpy/modifiers.py:71-72 | the annotation "yxz", whose letters are all unknown, raises UnknownModifiersError with them sorted, as "xyz" |
| ModifierGrammar.ParseKnownLetters | src/rpnpy/modifiers.py:74-86 | with only known letters: `!` with `=` raises the push/preserve error, which is checked first; then `s` with `n` raises the split/noSplit error; otherwise the result has a modifier on exactly when its letter occurs |
| ModifierGrammar.ParseSucceedsIff | src/rpnpy/modifiers.py:54-86 | parsing succeeds exactly when every letter is a modifier letter and neither incompatible pair occurs |
| ModifierGrammar.ParseDependsOnlyOnLetterSet | src/rpnpy/modifiers.py:54-86 | two annotations with the same set of characters parse alike: order and repetition do not matter |
| ModifierGrammar.ParseDoubled | src/rpnpy/modifiers.py:54-86 | repeating an annotation does not change what it parses to |
| ModifierGrammar.Parse | src/rpnpy/modifiers.py:54-86 | an accepted annotation yields the record whose modifiers are on exactly when their letters occur, and never with `!` and `=` together or `s` and `n` together; every failure is an UnknownModifiersError or an IncompatibleModifiersError |
| LineSegmenter.FindModifiers | src/rpnpy/io.py:10-50 | the imperative findModifiers computes the specification Annotate of the field, counts in any script's decimal digits included |
| LineSegmenter.TakeCount | src/rpnpy/io.py:6-31 | removing the first run of Unicode decimal digits (what `\d` matches in a str pattern) gives the letters left over and the count, as the specification RemoveCount says |
| LineSegmenter.FindModifiersAt | src/rpnpy/io.py:37-50 | the letter loop and the final check compute the specification AnnotateAt; a decimal digit of any script left over fails the check |
| LineSegmenter.FirstDigit | src/rpnpy/io.py:6-31 | the search for a count stops at the first Unicode decimal digit, or at the end |
| LineSegmenter.DigitRun | src/rpnpy/io.py:6-31 | a count is the longest run of Unicode decimal digits that starts there |
| LineSegmenter.CountLength | src/rpnpy/io.py:26-31 | the count fits in what follows the first digit |
| LineSegmenter.CountText | src/rpnpy/io.py:26-31 | the digits of the count, as text, have the count's length |
| LineSegmenter.RemoveCount | src/rpnpy/io.py:26-31 | there is no count exactly when the text has no Unicode decimal digit, and then the text is unchanged; otherwise the text loses exactly the count's characters (see RemoveCountKeeps and RemoveCountOrigin) |
| LineSegmenter.RemoveCountKeeps | src/rpnpy/io.py:26-31 | removing the count keeps every other character in place: before the count unchanged, after it shifted by the count's length |
| LineSegmenter.RemoveCountOrigin | src/rpnpy/io.py:26-31 | every character left after removing the count comes from the same place, or from just after the count |
| LineSegmenter.RemoveCountKeepsLetter | src/rpnpy/io.py:26-31 | a modifier letter survives the removal of the count exactly when it was there before |
| LineSegmenter.RemoveCountAbsent | src/rpnpy/io.py:26-31 | there is no count exactly when the text after the separator has no Unicode decimal digit |
| LineSegmenter.NoSeparator | src/rpnpy/io.py:18-23 | a field without `:` carries no annotation; a field that is only `:` carries the empty annotation at position 0 |
| LineSegmenter.RejectedLetters | src/rpnpy/io.py:37-50 | when anything after `:`, once the count is removed, is neither a modifier letter nor white space, the field is not annotated at all and stays a plain command |
| LineSegmenter.DigitNotAcceptable | src/rpnpy/io.py:37-44 | a digit left after the count is not an acceptable letter |
| LineSegmenter.ForeignCharacterKept | src/rpnpy/io.py:26-44 | a foreign character outside the count is still there after the count is removed, so the letter check sees it |
| LineSegmenter.SpoiledLetters | src/rpnpy/io.py:37-44 | one unacceptable character makes the whole letter check fail |
| LineSegmenter.LaterDigitKept | src/rpnpy/io.py:26-44 | a digit after the count is left in the letters, and the letter check fails on it |
| LineSegmenter.ForeignCharacterRejects | src/rpnpy/io.py:37-50 | a field whose text after `:` holds a character that is neither a modifier letter, a digit nor white space is not annotated, and does not raise |
| LineSegmenter.ForeignCharacterSpoils | src/rpnpy/io.py:37-50 | such a character survives into the letters the check inspects |
| LineSegmenter.SecondDigitRunRejects | src/rpnpy/io.py:26-50 | a second run of digits after the count makes the field unannotated |
| LineSegmenter.AnnotateAtNeverUnknown | src/rpnpy/io.py:37-50 | once the letters are accepted, the only error is an incompatible pair: an UnknownModifiersError cannot come out of findModifiers |
| LineSegmenter.AnnotateNeverUnknown | src/rpnpy/io.py:10-50 | findModifiers raises only IncompatibleModifiersError |
| LineSegmenter.AcceptedAt | src/rpnpy/io.py:37-50 | an accepted annotation keeps its position and count, and has a modifier on exactly when its letter occurs |
| LineSegmenter.AcceptedAnnotationPlace | src/rpnpy/io.py:18-23 | an accepted annotation sits at the last `:` of the field, and what it reads is everything after that `:` |
| LineSegmenter.AcceptedAnnotationFlags | src/rpnpy/io.py:37-50 | an accepted annotation has a modifier on exactly when that modifier's letter follows the last `:` |
| LineSegmenter.AcceptedAnnotationCount | src/rpnpy/io.py:6-31 | an accepted annotation has no count exactly when no Unicode decimal digit follows the `:`, and otherwise its count is the int() value of the first run of such digits, which is not empty |
| LineSegmenter.NonAsciiCount | src/rpnpy/io.py:6-31 | a count written in Arabic-Indic digits is read like one in ASCII digits: `sin:٣` carries the count 3, and `x:1٣` the count 13 |
| LineSegmenter.ArabicThree | src/rpnpy/io.py:26-31 | removing the count from `٣` leaves nothing and gives the count 3 |
| LineSegmenter.OneArabicThree | src/rpnpy/io.py:26-31 | removing the count from `1٣` leaves nothing and gives the count 13: one run may mix scripts |
| LineSegmenter.EmptyAnnotationAccepted | src/rpnpy/io.py:37-50 | nothing left after the count is an accepted annotation with every modifier off |
| LineSegmenter.Annotate | src/rpnpy/io.py:10-50 | an accepted annotation either sits on a `:` of the field or is no annotation at all (position -1, no modifiers, no count) |
| LineSegmenter.FlagLetters | src/rpnpy/io.py:37-44 | the letters kept are all modifier letters |
| LineSegmenter.FlagLettersMembers | src/rpnpy/io.py:37-44 | the letters kept are exactly the modifier letters of the text |
| LineSegmenter.Fields | src/rpnpy/io.py:61 | without line splitting the whole stripped line is one field; with it, the line is split on the separator or on white space |
| LineSegmenter.PyPrefix | src/rpnpy/io.py:88 | a slice of the field up to the annotation is the prefix before `:` |
| LineSegmenter.AnnotateAll | src/rpnpy/io.py:64-70 | there is one findModifiers result per field |
| LineSegmenter.AnnotateAllAt | src/rpnpy/io.py:64-70 | field k's result is findModifiers applied to field k |
| LineSegmenter.NextCommand | src/rpnpy/io.py:64-95 | reading one command consumes at least one field and no more fields than remain |
| LineSegmenter.SegmentFrom | src/rpnpy/io.py:64-97 | the segmentation yields at most one command per remaining field |
| LineSegmenter.Segment | src/rpnpy/io.py:53-97 | a line yields at most one command per field |
| LineSegmenter.SegmentStep | src/rpnpy/io.py:64-95 | a comment command ends the line with an empty command; any other field yields its command and segmentation goes on after the fields it used |
| LineSegmenter.SegmentFails | src/rpnpy/io.py:70 | a field whose findModifiers raises ends the line with that exception and yields nothing more |
| LineSegmenter.ExtendPrepend | src/rpnpy/io.py:95 | yielding a command and then the rest gives the same list of commands as collecting it first |
| LineSegmenter.FindCommands | src/rpnpy/io.py:53-97 | the generator, written as a loop, yields the commands of the specification Segment and ends with the same exception |
| LineSegmenter.ReadCommand | src/rpnpy/io.py:64-95 | one pass of the loop reads the command the specification NextCommand says |
| LineSegmenter.InCount | src/rpnpy/io.py:26-31 | every character of the count is a Unicode decimal digit |
| LineSegmenter.BeforeFirstDigit | src/rpnpy/io.py:26-31 | no character before the first digit is a Unicode decimal digit |
| LineSegmenter.InDigitRun | src/rpnpy/io.py:26-31 | every character of the digit run is a Unicode decimal digit |
| LineSegmenter.BlankLineNoCommands | src/rpnpy/io.py:61-68 | a line of white space yields no command and no error |
| LineSegmenter.UnsplitLineOneCommand | src/rpnpy/io.py:53-97 | without splitting, a line yields one command; a line without `:` yields the stripped line itself (an empty command when it is a comment) |
| LineSegmenter.AnnotatedFieldCommand | src/rpnpy/io.py:70-95 | an annotated field yields the text before `:`, stripped, with that annotation's modifiers and count |
| LineSegmenter.BareAnnotationAttaches | src/rpnpy/io.py:72-86 | a plain field followed by a field that is only an annotation takes that annotation, and both fields are used up |
| LineSegmenter.NonLeadingAnnotationStays | src/rpnpy/io.py:72-86 | a plain field followed by a field that is not a bare annotation is yielded as it is, with no modifiers |
| LineSegmenter.CommentEndsLine | src/rpnpy/io.py:90-93 | a field that starts a comment ends the line with an empty command |
| LineSegmenter.PlainFieldsFrom | src/rpnpy/io.py:64-95 | fields without `:` and without comments pass through one for one, unmodified and without error |
| LineSegmenter.PlainFieldsPassThrough | src/rpnpy/io.py:53-97 | a line of plain fields yields exactly its fields, in order |
| LineSegmenter.FailureFromAnnotations | src/rpnpy/io.py:64-95 | the only thing the segmentation can raise is an IncompatibleModifiersError from findModifiers |
| LineSegmenter.SegmentFailureIsIncompatible | src/rpnpy/io.py:53-97 | findCommands raises only IncompatibleModifiersError |
| Engine.Complain | src/rpnpy/calculator.py:94-95 | reporting errors keeps what the error channel held and adds one line per message, in order; the stack, snapshot, variables and flags do not change |
| Engine.Complaints | src/rpnpy/calculator.py:436-439 | each message of an exception becomes one line on the error channel, in order |
| Engine.WithoutTop | src/rpnpy/calculator.py:326-330 | popping n items leaves n fewer |
| Engine.TopItems | src/rpnpy/calculator.py:657-712 | the top n items are n items |
| Engine.SaveState | src/rpnpy/calculator.py:308-311 | the snapshot becomes the current stack and variables and nothing else changes (Specials.UndoRestores restores it) |
| Engine.PopFor | src/rpnpy/calculator.py:326-330 | saving the snapshot and popping change only the stack and the snapshot |
| Engine.AddResult | src/rpnpy/calculator.py:332-343 | pushing the result changes only the stack |
| Engine.Finalize | src/rpnpy/calculator.py:313-343 | _finalize changes only the stack and the undo snapshot |
| Engine.FinalizePreserveStack | src/rpnpy/calculator.py:326 | under `=` (preserve stack), _finalize changes nothing at all |
| Engine.FinalizeSavesSnapshot | src/rpnpy/calculator.py:326-330 | otherwise the snapshot saved is the stack and variables from before the command |
| Engine.FinalizeNothingToDo | src/rpnpy/calculator.py:313-343 | with nothing to pop and nothing to push, _finalize changes nothing |
| Engine.FinalizeStack | src/rpnpy/calculator.py:326-343 | without `=` and `i`, the new stack is the old one minus the popped items, plus: nothing (no value); the result repeated as often as asked (dup's and eval's counts); the result's items (extend, which is how `[value] * count` pushes several copies); an iteration that raises leaves the items that came before |
| Engine.FinalizeIterates | src/rpnpy/calculator.py:332-343 | under `i`, a result whose iteration succeeds is replaced by the list of its items; appending then pushes that one list as many times as asked |
| Engine.FinalizeClosedForm | src/rpnpy/calculator.py:313-343 | a result that needs no iteration is pushed as the closed form says, with the snapshot saved and no failure |
| Engine.ConvertStackArgsSpec | src/rpnpy/calculator.py:577-592 | the conversion succeeds exactly when every Variable on the stack names an existing variable; each Variable becomes its current value and everything else stays, item by item |
| Engine.NoVariablesConvert | src/rpnpy/calculator.py:577-592 | arguments without Variables always convert |
| Engine.ConvertStackArgs | src/rpnpy/calculator.py:577-592 | a conversion that succeeds gives one argument per stack item, and the only failure is the KeyError of an unbound Variable |
| Engine.SetVariable | src/rpnpy/calculator.py:741-748 | the name is bound to the value, every other variable keeps its value, and nothing else changes |
| Engine.TogglesFlipAndSet | src/rpnpy/calculator.py:594-632 | with no argument a toggle flips its flag, so toggling twice restores the state; with an argument it sets the flag to that value |
| Engine.ToggleAutoPrint | src/rpnpy/calculator.py:594-612 | with no argument auto-printing flips, with one it takes that value, and nothing else changes (see TogglesFlipAndSet) |
| Engine.ToggleDebug | src/rpnpy/calculator.py:614-632 | with no argument debugging flips, with one it takes that value, and nothing else changes (see TogglesFlipAndSet) |
| Engine.AboveNearest | src/rpnpy/calculator.py:688-700 | the count of items above the nearest wanted item: none of them is wanted, and the one below them is |
| Engine.AboveNearestExact | src/rpnpy/calculator.py:688-700 | that count is the only one with this property |
| Engine.FindTooShort | src/rpnpy/calculator.py:657-661 | with fewer than two items (or fewer than the count needs) _findWithArgs raises StackError naming the command and the stack length |
| Engine.FindReversed | src/rpnpy/calculator.py:663-682 | under `r` the top item must be the wanted one, and the arguments are the items below it |
| Engine.FindAllEntries | src/rpnpy/calculator.py:684-687 | under `*` the bottom item is taken as the wanted one and all the others are its arguments, even when the bottom item is not of the wanted kind, as the code is written |
| Engine.FindNearest | src/rpnpy/calculator.py:688-700 | without a count the search succeeds exactly when some item is of the wanted kind; it takes the nearest one to the top and the items above it, and otherwise raises that none was found |
| Engine.FindCounted | src/rpnpy/calculator.py:701-710 | with a count c the item c places below the top must be wanted; it is taken with the c items above it, otherwise a StackError says so |
| Engine.FindTakesTopEntries | src/rpnpy/calculator.py:634-712 | whatever _findWithArgs returns is a contiguous block of top items and, except under `*` alone, the item is of the wanted kind |
| Engine.CountedTakesTop | src/rpnpy/calculator.py:701-710 | the counted search returns the top c + 1 items, the wanted one first |
| Engine.ReversedTakesTop | src/rpnpy/calculator.py:663-682 | the reversed search returns a top block with the wanted item at the very top |
| Engine.NearestTakesTop | src/rpnpy/calculator.py:688-700 | the nearest search returns a top block headed by the wanted item |
| Engine.FindItem | src/rpnpy/calculator.py:634-712 | with fewer than two items the search fails; a found item is on the stack, with no more arguments than the stack holds, and it is of the wanted kind except under `*` alone |
| Engine.FindWithArgs | src/rpnpy/calculator.py:634-712 | the search fails exactly as the unconverted search does, or in the conversion; a success returns the item the search found, with one converted argument per item found |
| Engine.FindCallableAndArgs | src/rpnpy/calculator.py:714-724 | a stack of fewer than two items fails; a found item is on the stack with at most the stack's length of arguments, and it is callable unless `*` alone took the bottom item |
| Engine.FindStringAndArgs | src/rpnpy/calculator.py:726-739 | a stack of fewer than two items fails; a found item is on the stack with at most the stack's length of arguments, and it is a str unless `*` alone took the bottom item |
| Specials.Quit | src/rpnpy/functions.py:16-26 | quit is never declined and leaves the session flags alone; see Specials.OutputOnlyCommands |
| Specials.Functions | src/rpnpy/functions.py:29-41 | functions is never declined and leaves the session flags alone; see Specials.OutputOnlyCommands |
| Specials.Stack | src/rpnpy/functions.py:44-55 | stack is never declined and leaves the session flags alone; see Specials.OutputOnlyCommands |
| Specials.Variables | src/rpnpy/functions.py:58-70 | variables is never declined and leaves the session flags alone; see Specials.OutputOnlyCommands |
| Specials.OutputOnlyCommands | src/rpnpy/functions.py:16-70 | quit raises EOFError and changes nothing; functions changes nothing and returns NO_VALUE; variables changes nothing; stack prints the whole stack when every item has a repr, and otherwise changes nothing and fails with the first item's repr exception |
| Specials.VariablesListsInOrder | src/rpnpy/functions.py:58-70 | variables returns NO_VALUE exactly when every variable's value has a repr; otherwise it fails with the repr exception of a variable such that every variable before it in sorted order has a repr |
| Specials.Clear | src/rpnpy/functions.py:73-89 | clear is never declined and leaves the session flags alone; see Specials.ClearEmpties |
| Specials.ClearEmpties | src/rpnpy/functions.py:73-89 | clear empties a non-empty stack and saves the snapshot first; under `=` it only writes `The /= modifier makes no sense with clear` to the error channel; on an empty stack it changes nothing; it returns NO_VALUE |
| Specials.Dup | src/rpnpy/functions.py:92-111 | dup is never declined and leaves the session flags alone; see Specials.DupCopiesTop |
| Specials.DupCopiesTop | src/rpnpy/functions.py:92-111 | on an empty stack dup fails with "Cannot duplicate (stack is empty)" and changes nothing; otherwise it pushes the top item as many more times as the count says (once by default) |
| Specials.Undo | src/rpnpy/functions.py:114-134 | undo is never declined and leaves the session flags alone; see Specials.UndoRestores |
| Specials.UndoRestores | src/rpnpy/functions.py:114-134 | without a snapshot undo fails with "No undo saved" and changes nothing; otherwise it restores the saved stack and variables and keeps the snapshot |
| Specials.UndoRevertsFinalize | src/rpnpy/functions.py:114-134 | undo right after a _finalize that saved the snapshot brings back the stack and variables from before that _finalize |
| Specials.UndoTwiceIsUndo | src/rpnpy/functions.py:114-134 | undoing twice is the same as undoing once: the snapshot is kept, so the same state is restored again |
| Specials.PrintTop | src/rpnpy/functions.py:137-145 | print is never declined and leaves the session flags alone; see Specials.PrintShowsTop |
| Specials.PrintShowsTop | src/rpnpy/functions.py:137-145 | print leaves the stack and variables alone; when the top item's repr raises it changes nothing and fails with that exception; otherwise it prints the top item (or writes the empty-stack message) and returns None |
| Specials.Apply | src/rpnpy/functions.py:148-161 | apply is never declined and leaves the session flags alone; see Specials.ApplyReplacesByResult |
| Specials.ApplyReplacesByResult | src/rpnpy/functions.py:148-161 | when the callable and its arguments are found and the call returns, the callable and its arguments are replaced by the result |
| Specials.ApplyFailureChangesNothing | src/rpnpy/functions.py:148-161 | when finding the callable fails, or the call raises, apply fails and changes nothing |
| Specials.JoinItems | src/rpnpy/functions.py:164-184 | join is never declined and leaves the session flags alone; see Specials.JoinReplacesByText |
| Specials.JoinReplacesByText | src/rpnpy/functions.py:164-184 | the separator and the strings of its arguments are replaced by the arguments joined with the separator |
| Specials.JoinTextJoins | src/rpnpy/functions.py:172-179 | when the operands (the arguments, or the items of a single argument) all have a str(), the text is those strings joined with the separator |
| Specials.ReduceItems | src/rpnpy/functions.py:187-207 | reduce is never declined and leaves the session flags alone; see Specials.ReduceReplacesByFold |
| Specials.ReduceReplacesByFold | src/rpnpy/functions.py:187-207 | the callable and its arguments are replaced by the left fold of the callable over the arguments |
| Specials.FoldSnoc | src/rpnpy/functions.py:187-207 | folding one more item calls the callable on the fold so far and that item, and stops at the first raise |
| Specials.ReduceShortOperands | src/rpnpy/functions.py:187-207 | a single item reduces to itself; no items raise "reduce() of empty iterable with no initial value"; something not iterable raises "reduce() arg 2 must support iteration" |
| Specials.Pop | src/rpnpy/functions.py:210-227 | pop is never declined and leaves the session flags alone; see Specials.PopRemovesTop |
| Specials.PopRemovesTop | src/rpnpy/functions.py:210-227 | pop saves the snapshot of the stack and variables, then removes the top item, or as many as the count says, and returns the item or the list of them; a count of 0 pops nothing, saves nothing and returns the whole stack as a list; with too few items it fails with a message giving how many were asked and how many there are, changing nothing |
| Specials.ReverseItems | src/rpnpy/functions.py:230-248 | reverse is never declined and leaves the session flags alone; see Specials.ReverseReversesTop |
| Specials.ReverseReversesTop | src/rpnpy/functions.py:230-248 | reverse puts the top items (two by default, or the count) in reverse order and saves the snapshot |
| Specials.ReverseRefuses | src/rpnpy/functions.py:230-248 | with too few items reverse fails with a message giving how many it needs, and changes nothing |
| Specials.ReverseTwiceRestores | src/rpnpy/functions.py:230-248 | reversing the same number of items twice gives back the original stack |
| Specials.Swap | src/rpnpy/functions.py:251-265 | swap is never declined and leaves the session flags alone; see Specials.SwapExchangesTopTwo |
| Specials.SwapExchangesTopTwo | src/rpnpy/functions.py:251-265 | swap exchanges the top two items and saves the snapshot, with the same stack as reverse with a count of two |
| Specials.SwapRefuses | src/rpnpy/functions.py:251-265 | with fewer than two items swap fails with "Cannot swap (stack needs 2 items)" and changes nothing |
| Specials.ListItems | src/rpnpy/functions.py:268-303 | list is never declined and leaves the session flags alone; see Specials.ListCollectsTop |
| Specials.ListCollectsTop | src/rpnpy/functions.py:268-303 | on a non-empty stack, list saves the snapshot and replaces two or more items by one list of them, in stack order; one item is converted by list() when iterable, else wrapped; a count of 0 pushes the whole stack as a list |
| Specials.ListFailsUnchanged | src/rpnpy/functions.py:268-303 | on an empty stack list fails with "Cannot run list (stack is empty)", with too few items with a message giving both numbers, and when iterating its item raises with that exception; each time nothing changes |
| Specials.ListOfItems | src/rpnpy/functions.py:268-303 | pushing a collected list saves the snapshot and replaces the top k items by that one list |
| Specials.ListPushesType | src/rpnpy/functions.py:276-278 | under `!` (push), list pushes the list type itself and pops nothing |
| Specials.Store | src/rpnpy/functions.py:306-326 | store, as written, is never declined and leaves the session flags alone; see Specials.StoreBindsThenSaves |
| Specials.StoreBindsThenSaves | src/rpnpy/functions.py:306-326 | as written, store binds the name to the single argument (or to the list of several), pops the name and the arguments, and then saves the snapshot, which already holds the new binding |
| Specials.StoreThenUndoKeepsBinding | src/rpnpy/functions.py:319-322 | consequently, undo after store brings back the stack but keeps the new binding |
| Specials.StoreUndoCounterexample | src/rpnpy/functions.py:319-322 | on the stack 'x', 4 with no variables, store and then undo leave x bound to 4 |
| Specials.StoreSnapshotFirst | src/rpnpy/functions.py:306-326 | the corrected store is never declined and leaves the session flags alone; see Specials.StoreSnapshotFirstUndoes |
| Specials.StoreSnapshotFirstUndoes | src/rpnpy/functions.py:306-326 | the corrected store saves the snapshot before binding, so undo restores both the stack and the variables |
| Specials.MapOver | src/rpnpy/functions.py:329-352 | map is never declined and leaves the session flags alone; see Specials.MapExtendsByResults |
| Specials.MapExtendsByResults | src/rpnpy/functions.py:329-352 | with several arguments, the callable and the arguments are replaced by the results of calling it on each argument in order |
| Specials.MapSinglePushesLazyObject | src/rpnpy/functions.py:338-350 | with one argument the lazy map object itself is pushed, and nothing is called yet |
| Specials.MapItemsCalls | src/rpnpy/functions.py:345 | mapping succeeds exactly when every call returns, and then item i is the result of calling the function on argument i |
| Specials.RunSpecial | src/rpnpy/functions.py:355-373 | every special command claims the command or raises; none declines, and none changes the session flags (line splitting, auto-printing, debugging) |
| Specials.RegisterNamesBinds | src/rpnpy/functions.py:376-385 | registering a command under its names binds every one of those names to it and leaves every other name as it was |
| Specials.RegisterTableBinds | src/rpnpy/functions.py:355-385 | after addSpecialFunctions every name of the table is bound, to the last command in the table that has it, and every other name is untouched |
| Specials.AddSpecialFunctions | src/rpnpy/functions.py:376-385 | the names bound afterwards are the old ones plus the table's names, and a name not in the table keeps its command (RegisterTableBinds says which command each table name gets) |
| Specials.TableNamesExcluded | src/rpnpy/functions.py:355-385 | a name of no command in the table is not among the table's names |
| Dispatch.RegisteredFunctionRuns | src/rpnpy/calculator.py:146-154 | after register, the name (the given one, or else the callable's own name) resolves to a Function with the given argument count (or else the callable's) and the given module (or else "calculator-registered-method"); other names are untouched |
| Dispatch.RegisterSpecial | src/rpnpy/calculator.py:143-144 | registerSpecial binds exactly the one name to the command, keeps every other special name and leaves the functions alone |
| Dispatch.RegisteredSpecialRuns | src/rpnpy/calculator.py:143-144 | after registerSpecial, the name runs that special command, and other names behave as before |
| Dispatch.NotEnoughArgs | src/rpnpy/calculator.py:462-470 | a function that needs more arguments than the stack holds fails with a message giving both numbers, and changes nothing |
| Dispatch.CallArgs | src/rpnpy/calculator.py:472-478 | a function gets as many arguments as it takes, and the only failure is the KeyError of an unbound Variable, which needs at least one argument (CallArgsAreTopItems says which arguments) |
| Dispatch.CallArgsAreTopItems | src/rpnpy/calculator.py:472-478 | a function's arguments are its top items, reversed under `r`, each converted; the conversion fails exactly when some Variable among them is unbound |
| Dispatch.CallArgsUnfolds | src/rpnpy/calculator.py:472-478 | the arguments are those top items converted, and reversed afterwards under `r` |
| Dispatch.ReversedConversion | src/rpnpy/calculator.py:472-478 | converting item by item and reversing can be done in either order |
| Dispatch.RunFunctionReplacesArgs | src/rpnpy/calculator.py:459-489 | when repr() of every argument succeeds, a call that returns replaces its arguments by the result, with the snapshot saved |
| Dispatch.RunFunctionReprFails | src/rpnpy/calculator.py:472-480 | when repr() of an argument raises, the function is not called, nothing changes and the command fails with that exception |
| Dispatch.RunFunctionRaiseChangesNothing | src/rpnpy/calculator.py:480-486 | when repr() of the arguments succeeds and the call raises, the state is unchanged and the step fails with the CalculatorError `Exception running <name>(<str() of the arguments, comma-separated>): <exception>`, str() of the arguments being unable to raise there |
| Dispatch.TryVariablePushes | src/rpnpy/calculator.py:491-514 | when repr() of the value succeeds, a variable's value is pushed, repeated by the count; under `!` a Variable reference is pushed instead, unless the value is callable |
| Dispatch.TryVariableReprFails | src/rpnpy/calculator.py:491-497 | when repr() of a variable's value raises, nothing changes and the command fails with that exception |
| Dispatch.VariableReferenceIsLive | src/rpnpy/calculator.py:49-56 | a Variable is resolved when it is used, so it sees the variable's current value, and raises KeyError once the variable is gone |
| Dispatch.FunctionValuedVariableFails | src/rpnpy/calculator.py:491-514 | a variable holding a calculator Function raises on the missing name attribute, and this leaves execute |
| Dispatch.SpecialFailuresAreWrapped | src/rpnpy/calculator.py:516-530 | a special command never declines; it fails exactly when the command itself fails, and the failure is EOFError or a CalculatorError with one message |
| Dispatch.ApplyLetsEofThrough | src/rpnpy/calculator.py:516-527 | an EOFError raised by the callable that apply calls passes through _trySpecial; any other exception it raises becomes the special command's CalculatorError; the state is unchanged either way |
| Dispatch.EvalPushesValue | src/rpnpy/calculator.py:532-575 | when repr() of the value succeeds, a command that evaluates pushes its value, repeated by the count, onto the variables eval left; the snapshot holds the old stack and those variables |
| Dispatch.EvalReprFails | src/rpnpy/calculator.py:532-575 | when repr() of the value eval or EngNumber gave raises, nothing is pushed, the variables are as eval left them, and the command fails with that exception |
| Dispatch.ExecSetsVariables | src/rpnpy/calculator.py:532-575 | a command that only exec accepts leaves the variables as eval and then exec left them, changes nothing else and pushes nothing |
| Dispatch.EvalExecFails | src/rpnpy/calculator.py:532-575 | when eval, EngNumber and exec all fail, the command fails with both error messages (and the whitespace hint exactly when lines are split and a message reports an unexpected end of input); the stack and snapshot are unchanged, and the variables are as exec left them |
| Dispatch.EvalExecNeverDeclines | src/rpnpy/calculator.py:532-575 | eval/exec, the last resort, never declines |
| Dispatch.ResolutionOrder | src/rpnpy/calculator.py:424-435 | functions come before variables, which come before special commands, which come before eval/exec; under `c` only special commands count, and an unknown one fails |
| Dispatch.DeclineChangesNothing | src/rpnpy/calculator.py:424-435 | a step that declines leaves the state as it was, so the next step sees the same state |
| Dispatch.RunFunctionNeverDeclines | src/rpnpy/calculator.py:459-489 | once a function is found the command is claimed or fails |
| Dispatch.ForceCommandIgnoresFunctions | src/rpnpy/calculator.py:441-457 | under `c` the registered functions play no part |
| Dispatch.ConflictRefuses | src/rpnpy/calculator.py:401-408 | `*` with a count different from the stack length is reported and the command fails; only the s/n setting has changed |
| Dispatch.NothingToRun | src/rpnpy/calculator.py:410-422 | an empty command or a zero count runs nothing: only the flags change and the command succeeds |
| Dispatch.SettleReports | src/rpnpy/calculator.py:424-439 | a produced value is printed exactly when `p` is given or auto-printing is on and its repr() succeeds; when that repr raises, nothing changes and the exception leaves execute; a CalculatorError or StackError becomes its messages on the error channel and a False; any other exception leaves execute |
| Dispatch.SpecialCommandsEscapeOnlyByQuit | src/rpnpy/calculator.py:383-439 | a special command leaves execute only through quit's EOFError, or through a host exception when its value is to be printed |
| Dispatch.StopsAtFirstFailure | src/rpnpy/calculator.py:367-379 | a failed command ends the line: nothing after it runs and execute returns False (as written, unless the look-ahead raises) |
| Dispatch.AgreeOnCleanLines | src/rpnpy/calculator.py:345-381 | on such a line, the loop as written and the corrected loop do the same |
| Dispatch.CorrectedEscapesOnlyFromCommands | src/rpnpy/calculator.py:354-366 | in the corrected loop, a findCommands exception is always reported and never raised |
| Dispatch.BangEqualsAnnotation | src/rpnpy/io.py:10-50 | the annotation `:!=` raises the push/preserve IncompatibleModifiersError |
| Dispatch.PlusLineSegments | src/rpnpy/io.py:53-97 | the line `+ a b:!=` yields only `+`: reading `a` looks at the next field `b:!=` for a bare annotation, and that raises the push/preserve error |
| Dispatch.PlusFails | src/rpnpy/calculator.py:459-470 | `+` on an empty stack fails with the not-enough-arguments message |
| Dispatch.PlusRaises | src/rpnpy/calculator.py:367-379 | as written, after that failure the look-ahead raises the push/preserve error |
| Dispatch.LookAheadCounterexample | src/rpnpy/calculator.py:367-379 | as written, execute of `+ a b:!=` on an empty stack raises IncompatibleModifiersError instead of returning False |
| Dispatch.PlusReported | src/rpnpy/calculator.py:345-381 | the corrected loop reports the failure of `+` and returns False |
| Dispatch.LookAheadCorrected | src/rpnpy/calculator.py:345-381 | the corrected execute of that line reports the not-enough-arguments message and returns False |
| Dispatch.Register | src/rpnpy/calculator.py:146-154 | register binds one name more (the given one, else the callable's own), to a Function of that callable under that name, with the given argument count when one is given; every other function and every special command stays |
| Dispatch.RunFunction | src/rpnpy/calculator.py:459-489 | running a function changes only the stack and the snapshot; it never declines, and when it succeeds it produces a value |
| Dispatch.TryFunction | src/rpnpy/calculator.py:441-457 | the function step declines exactly under `c` or for a name that is not registered, and then changes nothing; otherwise it changes only the stack and the snapshot |
| Dispatch.TryVariable | src/rpnpy/calculator.py:491-514 | the variable step declines exactly under `c` or for a name that is not a variable, and then changes nothing; otherwise it changes only the stack and the snapshot |
| Dispatch.TrySpecial | src/rpnpy/calculator.py:516-530 | the special step declines exactly for a name that is not a special command without `c`, and then changes nothing; it fails only with EOFError or a CalculatorError, and never changes the session flags |
| Dispatch.TryEvalExec | src/rpnpy/calculator.py:532-575 | eval/exec never declines, changes only the stack, the snapshot and the variables, and when it produces no value (exec) leaves the stack and the snapshot alone |
| Dispatch.PushEvaluated | src/rpnpy/calculator.py:565-575 | the end of a successful eval or EngNumber changes only the stack and the snapshot, never declines, and produces the value |
| Dispatch.Resolve | src/rpnpy/calculator.py:424-435 | resolution never declines and never changes the session flags; a registered function decides unless `c` is given, and under `c` a name that is not a special command fails with "Unknown special command" |
| Dispatch.Settle | src/rpnpy/calculator.py:427-439 | settling a step only adds to the transcript: what was printed or reported stays, and nothing else changes |
| Dispatch.ExecuteCommand | src/rpnpy/calculator.py:383-439 | after a command, line splitting is on under `s`, off under `n`, else as it was, whatever the command did; an empty command that does not conflict with `*` succeeds and leaves the stack, snapshot and variables alone |
| Dispatch.RunCommands | src/rpnpy/calculator.py:345-381 | the loop with its look-ahead as written (and the corrected store) returns True only when findCommands splits the line without raising |
| Dispatch.RunCommandsCorrected | src/rpnpy/calculator.py:345-381 | the corrected loop returns True only when findCommands splits the line without raising |
| Dispatch.ExecuteAsWritten | src/rpnpy/calculator.py:345-381 | execute with its look-ahead as written (and the corrected store) returns True only for a line findCommands splits without raising, and a line with no commands only reports the segmentation's exception, if any |
| Dispatch.Execute | src/rpnpy/calculator.py:345-381 | execute returns True only for a line findCommands splits without raising, and a line with no commands only reports the segmentation's exception, if any |
| Calculators.Calculator.constructor | src/rpnpy/calculator.py:67-86 | a new calculator has an empty stack, no snapshot, the given variables and flags, the given functions and the special commands of the table |
| Calculators.Calculator.AddSpecialFunctions | src/rpnpy/functions.py:376-385 | the loop registers every name of the table, as Specials.RegisterTable says, and changes nothing else |
| Calculators.Calculator.RegisterSpecial | src/rpnpy/calculator.py:143-144 | updates the registries as Dispatch.RegisterSpecial says, and nothing else |
| Calculators.Calculator.Register | src/rpnpy/calculator.py:146-154 | updates the registries as Dispatch.Register says, and nothing else |
| Calculators.Calculator.SaveState | src/rpnpy/calculator.py:308-311 | the snapshot becomes the current stack and variables; nothing else changes |
| Calculators.Calculator.Complain | src/rpnpy/calculator.py:94-95 | the loop appends the messages to the error channel one by one, as Engine.Complain says |
| Calculators.Calculator.Repeated | src/rpnpy/calculator.py:340-343 | pushes a value the given number of times |
| Calculators.Calculator.Extended | src/rpnpy/calculator.py:332-338 | pushes the items in order |
| Calculators.Calculator.PopFor | src/rpnpy/calculator.py:326-330 | saves the snapshot and pops, as Engine.PopFor says |
| Calculators.Calculator.AddResult | src/rpnpy/calculator.py:332-343 | pushes the result as Engine.AddResult says, iterating it when asked |
| Calculators.Calculator.Finalize | src/rpnpy/calculator.py:313-343 | the new state and failure are those of Engine.Finalize |
| Calculators.Calculator.ConvertStackArgs | src/rpnpy/calculator.py:577-592 | the loop converts the arguments as Engine.ConvertStackArgs says |
| Calculators.Calculator.ToggleAutoPrint | src/rpnpy/calculator.py:594-612 | flips or sets auto-printing as Engine.ToggleAutoPrint says |
| Calculators.Calculator.ToggleDebug | src/rpnpy/calculator.py:614-632 | flips or sets debugging as Engine.ToggleDebug says |
| Calculators.Calculator.SetVariable | src/rpnpy/calculator.py:741-748 | binds the variable and changes nothing else |
| Calculators.Calculator.Nearest | src/rpnpy/calculator.py:688-700 | the loop down the stack finds how many items lie above the nearest wanted item, and collects them |
| Calculators.Calculator.FindItem | src/rpnpy/calculator.py:634-712 | computes Engine.FindItem |
| Calculators.Calculator.FindOnTop | src/rpnpy/calculator.py:663-700 | the reversed, `*` and nearest cases of Engine.FindItem |
| Calculators.Calculator.FindBelowCount | src/rpnpy/calculator.py:701-710 | the counted case of Engine.FindItem |
| Calculators.Calculator.FindWithArgs | src/rpnpy/calculator.py:634-712 | computes Engine.FindWithArgs, conversion included |
| Calculators.Calculator.FindCallableAndArgs | src/rpnpy/calculator.py:714-724 | computes Engine.FindCallableAndArgs |
| Calculators.Calculator.FindStringAndArgs | src/rpnpy/calculator.py:726-739 | computes Engine.FindStringAndArgs |
| Calculators.Calculator.Quit | src/rpnpy/functions.py:16-26 | the state and step of Specials.Quit |
| Calculators.Calculator.Functions | src/rpnpy/functions.py:29-41 | the state and step of Specials.Functions |
| Calculators.Calculator.Stack | src/rpnpy/functions.py:44-55 | the state and step of Specials.Stack |
| Calculators.Calculator.Variables | src/rpnpy/functions.py:58-70 | the loop over the variables in sorted order computes the state and step of Specials.Variables |
| Calculators.Calculator.Clear | src/rpnpy/functions.py:73-89 | the state and step of Specials.Clear |
| Calculators.Calculator.Dup | src/rpnpy/functions.py:92-111 | the state and step of Specials.Dup |
| Calculators.Calculator.Undo | src/rpnpy/functions.py:114-134 | the state and step of Specials.Undo |
| Calculators.Calculator.PrintTop | src/rpnpy/functions.py:137-145 | the state and step of Specials.PrintTop |
| Calculators.Calculator.Apply | src/rpnpy/functions.py:148-161 | the state and step of Specials.Apply |
| Calculators.Calculator.JoinItems | src/rpnpy/functions.py:164-184 | the state and step of Specials.JoinItems |
| Calculators.Calculator.ReduceItems | src/rpnpy/functions.py:187-207 | the state and step of Specials.ReduceItems |
| Calculators.Calculator.Pop | src/rpnpy/functions.py:210-227 | the state and step of Specials.Pop |
| Calculators.Calculator.ReverseItems | src/rpnpy/functions.py:230-248 | the state and step of Specials.ReverseItems |
| Calculators.Calculator.Swap | src/rpnpy/functions.py:251-265 | the state and step of Specials.Swap |
| Calculators.Calculator.ListItems | src/rpnpy/functions.py:268-303 | the state and step of Specials.ListItems |
| Calculators.Calculator.ListTop | src/rpnpy/functions.py:268-303 | the one-item case of list, as Specials.ListItems says |
| Calculators.Calculator.ListSeveral | src/rpnpy/functions.py:268-303 | the several-items case of list, as Specials.ListItems says |
| Calculators.Calculator.Store | src/rpnpy/functions.py:306-326 | the state and step of the corrected Specials.StoreSnapshotFirst |
| Calculators.Calculator.MapOver | src/rpnpy/functions.py:329-352 | the state and step of Specials.MapOver |
| Calculators.Calculator.RunSpecial | src/rpnpy/functions.py:355-373 | runs the special command as Specials.RunSpecial says |
| Calculators.Calculator.CallArgs | src/rpnpy/calculator.py:472-478 | the arguments of Dispatch.CallArgs |
| Calculators.Calculator.RunFunction | src/rpnpy/calculator.py:459-489 | the state and step of Dispatch.RunFunction |
| Calculators.Calculator.TryFunction | src/rpnpy/calculator.py:441-457 | the state and step of Dispatch.TryFunction |
| Calculators.Calculator.TryVariable | src/rpnpy/calculator.py:491-514 | the state and step of Dispatch.TryVariable |
| Calculators.Calculator.TrySpecial | src/rpnpy/calculator.py:516-530 | the state and step of Dispatch.TrySpecial |
| Calculators.Calculator.TryEvalExec | src/rpnpy/calculator.py:532-575 | the state and step of Dispatch.TryEvalExec |
| Calculators.Calculator.Settle | src/rpnpy/calculator.py:427-439 | prints or reports as Dispatch.Settle says |
| Calculators.Calculator.SetSplitting | src/rpnpy/calculator.py:392-399 | `s` switches line splitting on, otherwise `n` switches it off |
| Calculators.Calculator.ApplyToggles | src/rpnpy/calculator.py:410-414 | `P` toggles auto-printing and `D` toggles debugging |
| Calculators.Calculator.Resolve | src/rpnpy/calculator.py:424-435 | the resolution loop computes Dispatch.Resolve |
| Calculators.Calculator.ExecuteOneCommand | src/rpnpy/calculator.py:383-439 | the state and result of Dispatch.ExecuteCommand |
| Calculators.Calculator.Execute | src/rpnpy/calculator.py:345-381 | the state and result of the corrected Dispatch.Execute |
| Calculators.Calculator.EndOfLine | src/rpnpy/calculator.py:354-366 | reports a findCommands exception as Dispatch.EndOfLine says |

Helper lemmas and predicates without a row, each a step in the proof of a lemma that has one:
LineSegmenter.NextCommandFailsFrom, LaterCharacterSpoils, RaisesOnlyIncompatible and
RaisesOnlyIncompatibleAt; Text.SpaceNotDigit, StripUnpadded, SplitWhitespaceWord and
SplitWhitespaceSkip; Specials.JoinItemsUnfolds, ReverseItemsUnfolds, ReverseTopTwice,
ReverseTopTwo, ListOfOne and ListOfMany; Dispatch.ThreeWords, SpacedWords and
PlusLineFields; Engine.FinalizeExtendsByItems; Text.AtMostReflexive, AtMostTotal,
AtMostAntisymmetric, AtMostTransitive, LeastExists and LeastUnique; Specials.UnprintableNames;
and Calculators.FoundBelowCount, FoundWithoutCount, MapOverFound, ConvertedOne,
ComplaintsGrow and FirstUnprintable.

## Left out

- Host callables, `eval`, `exec` and `EngNumber` are external to the repository. They are the fields of the `Host` parameter: deterministic functions of their inputs, each of which returns or raises. `eval` and `exec` also return the variables as they leave them, whether they succeed or raise (an assignment expression, or `x=1;1/0`, binds before the raise). A raised exception is known by its `str()` and by whether it is an EOFError.
- In-place mutation is not modelled. Values are immutable in the model, so a host call or an `exec` that mutates a list held on the stack or in a variable (and shared with the undo snapshot, whose copies are shallow) has no counterpart; undo then restores what the model saved.
- Every callable has a `__name__` in the model. A callable without one (a `functools.partial`, say) makes `register` without a name (calculator.py:148) and `_tryVariable` (calculator.py:501) raise AttributeError; the model does not produce that error.
- `repr()` of a Variable reads the dictionary the Variable was created with (calculator.py:54-56). After undo rebinds the calculator's variables to a copy (functions.py:132), an older Variable's repr in Python still shows the old dictionary; the model looks the name up in the current variables, as `convertStackArgs` does.
- The reflection registries (`importCallables`, `addAbbrevs`, `addSpecialCases`, `addConstants`) inspect Python modules at run time. These are not modelled; the constructor takes the functions and variables they would produce.
- `countArgs` inspects signatures. It is not modelled; each callable carries its arity (or `None`) as data.
- Floats, `Decimal`, tuples and other host values are opaque: they carry a type name, `str()`, `repr()` and their elements if iterable. Arithmetic on them belongs to the host.
- Printing is a transcript of entries (a printed value or an error line). `pprint` formatting and output streams are not modelled.
- The debug channel is not modelled, except for the exception a `%r` in its messages raises (see below). This includes the "Ignoring commands" message that the look-ahead in `execute` (calculator.py:372-378) exists to print.
- `functions` and `variables` only print listings; the model records neither listing. The exception a value's repr() raises in the `variables` listing is modelled.
- `batch`, `repl`, the readline, tui, cli and utils modules, and the older copy of the package are not part of this model.
- `printStack` is modelled for the two calls the special commands make: the whole stack (`stack`) and the top item (`print`), with the empty-stack message of calculator.py:300-306 (Specials.Stack, Specials.PrintTop). Other indices and slices are not.
- A map object is iterated once, when `_finalize` extends the stack with it. Iterating one a second time, which in Python yields nothing, is not modelled.
- `store` under `*` takes the bottom item as the name unchecked (calculator.py:684-687). A list there raises the unhashable-type error, as in Python. Any other value that is not a string would become a dictionary key in Python; the model's variables are keyed by strings, so it pops without binding anything. Opaque host values are all treated as hashable.
- Dispatch.ExecuteAsWritten, Specials.RunSpecial: `execute` with both as-written behaviours together is not modelled. The as-written loop reaches `store` through `Specials.RunSpecial`, which runs the corrected `Specials.StoreSnapshotFirst`. So on a line such as `store undo` over the stack `'x'`, `4` it leaves x unbound, where the program (functions.py:319-322, then undo) leaves x bound to 4. The as-written store on its own is `Specials.Store`, and `Specials.StoreThenUndoKeepsBinding` states what undo does after it.
- Values.PyStrRepr: escapes exactly the characters below U+0100 that Python's repr escapes. Above U+00FF it copies every character raw, where Python writes the ones it does not count as printable as `\uhhhh` or `\Uhhhhhhhh`: format characters such as U+200B, the line and paragraph separators U+2028 and U+2029, other spaces, private-use and unassigned code points. Python's printable set comes from the Unicode character database, which is not part of this model. So for a command holding such a character, the `%r` texts differ (`Could not eval(...)`, `Could not exec(...)`, `Could not run special command ...`, `Cannot run ...` and the key of a KeyError).
- Values.Repr: the repr of a map object is `<map object>`. Python's is `<map object at 0x...>`, and the address is not modelled. This shows wherever a map object is printed, joined or named in an error message.
- Text.DigitsValue, LineSegmenter.AcceptedAnnotationCount: a count may have any number of digits. Since Python 3.11, `int()` raises ValueError on a string of more than 4300 digits, so a longer count would raise inside findModifiers (io.py:26-31); like the `reduce` messages below, the model follows one Python version.
- The exact `reduce` error messages follow one Python version.
- The separator is a single character.
- `FUNCTIONS` is assumed to give each name once; if two commands share a name, the last one registered wins, as in the source.
- findCommands is a generator that `execute` pulls one command at a time. The model segments the whole line before running any command. This gives the same result because findModifiers is pure and the split setting is read only when findCommands starts.
- `Text.DigitsValue` gives the value of a string of digits; it is applied only to digit runs.
- Values.Repr, Values.StrOf: lists have no identity in the model. Python's list repr shows a list as `[...]` when that same list object is already being printed. The model shows `[...]` for a Variable whose variable holds a list that is being printed as that variable's value. When the outermost list printed is itself a variable's value, or two variables hold the same list, Python stops one level sooner: the model shows the list once more. This changes the text that `print`, `stack`, `join`, `Exception running ...` and `Cannot run ... item ...` write for such a list, not whether they succeed.
- Values.Repr: Variables that refer to one another with no list between them raise RecursionError in both. The model raises it at a nesting depth of 1000 Variables, standing in for Python's recursion limit; the exact depth at which Python raises is not modelled.
- Specials.Quit, Specials.Functions, Specials.Stack, Specials.Variables: their own ensures states only that the command is never declined and does not change the session flags; what each does is stated by Specials.OutputOnlyCommands and Specials.VariablesListsInOrder.
- Specials.Clear, Specials.Dup, Specials.Undo, Specials.PrintTop, Specials.Pop: their own ensures states only that the command is never declined and does not change the session flags; the lemmas named in their rows state what they do.
- Specials.Apply, Specials.JoinItems, Specials.ReduceItems, Specials.ReverseItems, Specials.Swap: their own ensures states only that the command is never declined and does not change the session flags; their behaviour is stated by the lemmas named in their rows.
- Specials.ListItems, Specials.Store, Specials.StoreSnapshotFirst, Specials.MapOver, Specials.RunSpecial: their own ensures states only that the command is never declined and does not change the session flags; their behaviour is stated by the lemmas named in their rows.

## Where the documented behaviour and the code differ

The model follows the code in every case below.

- Annotations. The documentation describes one annotation per line, shared by every token. In the code, each field has its own annotation, and a field that is only an annotation attaches to the field before it (io.py:72-86).
- The `r` modifier. The documentation says `r` makes the top item the last argument. In the code, `_runFunction` reverses the arguments, so the top item becomes the first argument (calculator.py:474-478).
- Rollback. The documentation says a failed command leaves the stack as it was. The code has no rollback. A lazy `map` that raises while `_finalize` extends the stack leaves the stack popped and partly extended (calculator.py:332-338).
- Undo after undo. The documentation says a second undo fails. The code keeps the snapshot, so a second undo restores it again (functions.py:114-134).
- What leaves `execute`. The documentation says only the end of the session leaves `execute`. In the code these also escape:
  - the KeyError from `convertStackArgs` (unbound Variable arguments) inside `_runFunction`;
  - the AttributeError for a variable holding a calculator Function;
  - outside special commands (which wrap it in a CalculatorError), an exception raised while `_finalize` iterates a result under `i` (calculator.py:332-338), or while it extends the stack with a lazy `map` whose function raises;
  - an EOFError raised by a host callable that `apply`, `map` or `reduce` calls, which `_trySpecial` lets through (calculator.py:519-520);
  - the KeyError or RecursionError of a repr() computed outside any handler. The debug messages of `_runFunction`, `_tryVariable` and `_tryEvalExec` (calculator.py:480, 496-497, 567, 572) format their text even when debugging is off. `pprint` prints a value under `p` or auto-printing (calculator.py:429-431). Inside the special commands `stack`, `print` and `variables`, the same exception is wrapped in a CalculatorError;
  - the look-ahead exception of Finding 1.

## Findings

| source | as written | input that shows it | evidently intended | confidence | as-written member | corrected member |
|---|---|---|---|---|---|---|
| src/rpnpy/calculator.py:367-379 | after a failed command, `execute` calls `next(commands)` to print a debug message, outside the `try` that reports modifier errors | the line `+ a b:!=` on an empty stack with `+` registered as a two-argument function: `+` fails, and reading the next command raises IncompatibleModifiersError out of `execute` | report the failure and return False, as for any failed command | not executed | Dispatch.LookAheadCounterexample | Dispatch.LookAheadCorrected |
| src/rpnpy/functions.py:319-322 | `store` binds the variable before `_finalize` saves the undo snapshot, so the snapshot already has the new binding | the stack `'x'`, `4` with no variables, then `store` and `undo`: the stack comes back but x stays bound to 4 | undo after store restores the variables as well | not executed | Specials.StoreUndoCounterexample | Specials.StoreSnapshotFirstUndoes |

Elsewhere the model uses the corrected members:

- `Dispatch.Execute` and `Calculators.Calculator.Execute` use the corrected loop; `Dispatch.ExecuteAsWritten` keeps the original look-ahead.
- `Specials.RunSpecial` and `Calculators.Calculator.Store` use `Specials.StoreSnapshotFirst`; `Specials.Store` keeps the original.
