/** The line segmenter (src/rpnpy/io.py): finding the modifier annotation at the end of
    a field, and cutting an input line into commands, each with its own modifiers and
    count. */
module LineSegmenter {
  import opened Text
  import opened Errors
  import opened ModifierGrammar

  const ModifierSeparator: char := ':'

  /** The triple findModifiers returns: the offset of the separator (-1 when there is no
      annotation), the modifiers and the optional count. */
  datatype Annotation = Annotation(index: int, modifiers: Modifiers, count: Option<nat>)

  /** (-1, Modifiers(), None) */
  const NoAnnotation := Annotation(-1, NoModifiers, None)

  /** The offset of the first decimal digit of s, or |s| when there is none. */
  function FirstDigit(s: string): (i: nat)
    ensures i <= |s|
    ensures i < |s| ==> IsDigit(s[i])
  {
    if s == [] || IsDigit(s[0]) then 0 else 1 + FirstDigit(s[1..])
  }

  /** The length of the run of decimal digits that starts s. */
  function DigitRun(s: string): (n: nat)
    ensures n <= |s|
    ensures n < |s| ==> !IsDigit(s[n])
    ensures s != [] && IsDigit(s[0]) ==> n > 0
  {
    if s == [] || !IsDigit(s[0]) then 0 else 1 + DigitRun(s[1..])
  }

  /** No character before FirstDigit(s) is a digit. */
  lemma {:induction false} BeforeFirstDigit(s: string, k: nat)
    requires k < FirstDigit(s)
    ensures !IsDigit(s[k])
  {
    if k > 0 {
      BeforeFirstDigit(s[1..], k - 1);
    }
  }

  /** Every character of the run DigitRun(s) measures is a digit. */
  lemma {:induction false} InDigitRun(s: string, k: nat)
    requires k < DigitRun(s)
    ensures IsDigit(s[k])
  {
    if k > 0 {
      InDigitRun(s[1..], k - 1);
    }
  }

  /** A character that may stand after the separator once the count is removed. */
  predicate Acceptable(c: char) {
    IsFlagLetter(c) || IsSpace(c)
  }

  /** The flag letters of s, in order (the letters findModifiers collects in seen). */
  function FlagLetters(s: string): (r: string)
    ensures forall k :: 0 <= k < |r| ==> IsFlagLetter(r[k])
  {
    if s == [] then []
    else FlagLetters(s[..|s| - 1]) + (if IsFlagLetter(s[|s| - 1]) then [s[|s| - 1]] else [])
  }

  /** FlagLetters keeps exactly the flag letters of s. */
  lemma {:induction false} FlagLettersMembers(s: string)
    ensures forall c :: c in FlagLetters(s) <==> c in s && IsFlagLetter(c)
  {
    if s != [] {
      FlagLettersMembers(s[..|s| - 1]);
      assert s == s[..|s| - 1] + [s[|s| - 1]];
    }
  }

  /** The text after the separator with its first run of digits taken out, and the
      value of that run, if there is one. */
  function RemoveCount(rest: string): (r: (string, Option<nat>))
    ensures r.1.None? <==> FirstDigit(rest) == |rest|
    ensures r.1.None? ==> r.0 == rest
    ensures |r.0| == |rest| - CountLength(rest)
  {
    var start := FirstDigit(rest);
    if start == |rest| then (rest, None)
    else (rest[..start] + rest[start + CountLength(rest)..], Some(DigitsValue(CountText(rest))))
  }

  /** The length of the first run of digits of rest (0 when it has no digit). */
  function CountLength(rest: string): (n: nat)
    ensures n <= |rest| - FirstDigit(rest)
  {
    var start := FirstDigit(rest);
    if start == |rest| then 0 else DigitRun(rest[start..])
  }

  /** The first run of digits of rest (empty when it has no digit). */
  function CountText(rest: string): (d: string)
    ensures |d| == CountLength(rest)
  {
    var start := FirstDigit(rest);
    var d := rest[start..start + CountLength(rest)];
    assert start < |rest| ==> d == rest[start..][..DigitRun(rest[start..])];
    d
  }

  predicate AllAcceptable(letters: string) {
    forall k :: 0 <= k < |letters| ==> Acceptable(letters[k])
  }

  /** The outcome for a separator at offset index, followed by letters once the count
      has been taken out. */
  function AnnotateAt(index: int, letters: string, count: Option<nat>): Result<Annotation> {
    if AllAcceptable(letters) then
      match Parse(FlagLetters(letters))
      case Ok(m) => Ok(Annotation(index, m, count))
      case Err(e) => Err(e)
    else Ok(NoAnnotation)
  }

  /** The text after the rightmost separator (all of line when there is none). */
  function AfterSeparator(line: string): string {
    line[RFind(line, ModifierSeparator) + 1..]
  }

  /** An annotation found in line either sits on one of its separators or is no
      annotation at all. */
  predicate Placed(line: string, a: Annotation) {
    if a.index == -1 then a == NoAnnotation
    else 0 <= a.index < |line| && line[a.index] == ModifierSeparator
  }

  /** What findModifiers(line) returns or raises. */
  function Annotate(line: string): (r: Result<Annotation>)
    ensures r.Ok? ==> Placed(line, r.value)
  {
    var index := RFind(line, ModifierSeparator);
    if index == -1 then Ok(NoAnnotation)
    else
      var rest := AfterSeparator(line);
      AnnotateAt(index, RemoveCount(rest).0, RemoveCount(rest).1)
  }

  /** findModifiers: find the rightmost separator, take out the first number after it,
      and accept the annotation only when the remaining characters are flag letters or
      whitespace. The source collects the letters in a set; collecting them in a
      sequence gives strToModifiers the same letters, which is all it depends on. */
  method FindModifiers(line: string) returns (r: Result<Annotation>)
    ensures r == Annotate(line)
  {
    var index := RFind(line, ModifierSeparator);
    if index == -1 {
      return Ok(NoAnnotation);
    }
    assert line[index + 1..] == AfterSeparator(line);
    var letters, count := TakeCount(line[index + 1..]);
    r := FindModifiersAt(index, letters, count);
  }

  /** The first number after the separator, if any, taken out of the text. */
  method TakeCount(rest: string) returns (letters: string, count: Option<nat>)
    ensures (letters, count) == RemoveCount(rest)
  {
    letters, count := rest, None;
    var start := FirstDigit(rest);
    if start < |rest| {
      var end := start + DigitRun(rest[start..]);
      assert rest[start..end] == CountText(rest);
      count := Some(DigitsValue(rest[start..end]));
      letters := rest[..start] + rest[end..];
    }
  }

  /** The for/else loop of findModifiers over the text after the separator. */
  method FindModifiersAt(index: int, rest: string, count: Option<nat>) returns (r: Result<Annotation>)
    ensures r == AnnotateAt(index, rest, count)
  {
    var seen: string := [];
    var i := 0;
    while i < |rest|
      invariant 0 <= i <= |rest|
      invariant forall k :: 0 <= k < i ==> Acceptable(rest[k])
      invariant seen == FlagLetters(rest[..i])
    {
      assert rest[..i + 1][..i] == rest[..i];
      if IsFlagLetter(rest[i]) {
        seen := seen + [rest[i]];
      } else if !IsSpace(rest[i]) {
        assert !Acceptable(rest[i]);
        return Ok(NoAnnotation);
      }
      i := i + 1;
    }
    assert rest[..i] == rest;
    var modifiers := StrToModifiers(seen);
    match modifiers {
      case Ok(m) => return Ok(Annotation(index, m, count));
      case Err(e) => return Err(e);
    }
  }

  // ----- findCommands -----

  /** One command of a line: its text, its modifiers and its count. */
  datatype Command = Command(text: string, modifiers: Modifiers, count: Option<nat>)

  /** The commands the generator findCommands yields, and the exception it raises after
      them, if any. */
  datatype Segmentation = Segmentation(commands: seq<Command>, failure: Option<Exc>)

  /** The fields of the stripped line: the whole of it when splitting is off, otherwise
      its pieces between separators (whitespace runs when no separator is given). The
      separator is modelled as a single character. */
  function Fields(line: string, splitLines: bool, separator: Option<char>): (fields: seq<string>)
    ensures !splitLines ==> fields == [Strip(line)]
  {
    if !splitLines then [Strip(line)]
    else match separator
      case None => SplitWhitespace(Strip(line))
      case Some(sep) => SplitOn(Strip(line), sep)
  }

  predicate IsComment(text: string) {
    text != [] && text[0] == '#'
  }

  /** Python's s[:k]: the first k characters, counting a negative k from the end, and
      all of s when k is past its end. */
  function PyPrefix(s: string, k: int): (r: string)
    ensures 0 <= k <= |s| ==> r == s[..k]
  {
    if k >= 0 then (if k <= |s| then s[..k] else s)
    else if |s| + k >= 0 then s[..|s| + k] else []
  }

  /** findModifiers applied to each field, in order. findCommands calls it as its walk
      reaches a field; it is a function of the field alone, so the walk below consults
      these results instead, and an exception only matters once the walk gets to it. */
  function AnnotateAll(fields: seq<string>): (anns: seq<Result<Annotation>>)
    ensures |anns| == |fields|
  {
    if fields == [] then [] else [Annotate(fields[0])] + AnnotateAll(fields[1..])
  }

  lemma {:induction false} AnnotateAllAt(fields: seq<string>, k: nat)
    requires k < |fields|
    ensures AnnotateAll(fields)[k] == Annotate(fields[k])
  {
    if k > 0 {
      AnnotateAllAt(fields[1..], k - 1);
    }
  }

  /** The command that starts at fields[i], given the annotations of the fields, and
      how many fields it uses (one, or two when the next field is a bare annotation
      that attaches back to it). */
  function NextCommand(fields: seq<string>, anns: seq<Result<Annotation>>, i: nat): (r: Result<(Command, nat)>)
    requires |anns| == |fields| && i < |fields|
    ensures r.Ok? ==> 1 <= r.value.1 <= |fields| - i
  {
    match anns[i]
    case Err(e) => Err(e)
    case Ok(a) =>
      if a.index != -1 then
        Ok((Command(Strip(PyPrefix(fields[i], a.index)), a.modifiers, a.count), 1))
      else if i + 1 == |fields| then
        Ok((Command(fields[i], a.modifiers, a.count), 1))
      else
        match anns[i + 1]
        case Err(e) => Err(e)
        case Ok(b) =>
          if b.index == 0 then Ok((Command(fields[i], b.modifiers, b.count), 2))
          else Ok((Command(fields[i], a.modifiers, a.count), 1))
  }

  /** The commands findCommands yields for the fields from fields[i] on. */
  function SegmentFrom(fields: seq<string>, anns: seq<Result<Annotation>>, i: nat): (s: Segmentation)
    requires |anns| == |fields| && i <= |fields|
    ensures |s.commands| <= |fields| - i
    decreases |fields| - i
  {
    if i == |fields| then Segmentation([], None)
    else match NextCommand(fields, anns, i)
      case Err(e) => Segmentation([], Some(e))
      case Ok((c, n)) =>
        if IsComment(c.text) then Segmentation([Command("", c.modifiers, c.count)], None)
        else Prepend(c, SegmentFrom(fields, anns, i + n))
  }

  /** The commands findCommands yields for the given fields. */
  function Segment(fields: seq<string>): (s: Segmentation)
    ensures |s.commands| <= |fields|
  {
    SegmentFrom(fields, AnnotateAll(fields), 0)
  }

  function Prepend(c: Command, s: Segmentation): Segmentation {
    Segmentation([c] + s.commands, s.failure)
  }

  function Extend(cs: seq<Command>, s: Segmentation): Segmentation {
    Segmentation(cs + s.commands, s.failure)
  }

  /** One step of SegmentFrom: what the command that starts at fields[i] makes of the
      rest. */
  lemma SegmentStep(fields: seq<string>, anns: seq<Result<Annotation>>, i: nat, c: Command, n: nat)
    requires |anns| == |fields| && i < |fields| && NextCommand(fields, anns, i) == Ok((c, n))
    ensures IsComment(c.text) ==> SegmentFrom(fields, anns, i) == Segmentation([Command("", c.modifiers, c.count)], None)
    ensures !IsComment(c.text) ==> i + n <= |fields| && SegmentFrom(fields, anns, i) == Prepend(c, SegmentFrom(fields, anns, i + n))
  {
  }

  /** A step of SegmentFrom that raises ends the segmentation with no command. */
  lemma SegmentFails(fields: seq<string>, anns: seq<Result<Annotation>>, i: nat, e: Exc)
    requires |anns| == |fields| && i < |fields| && NextCommand(fields, anns, i) == Err(e)
    ensures SegmentFrom(fields, anns, i) == Segmentation([], Some(e))
  {
  }

  lemma ExtendPrepend(commands: seq<Command>, c: Command, s: Segmentation)
    ensures Extend(commands, Prepend(c, s)) == Extend(commands + [c], s)
  {
    assert (commands + [c]) + s.commands == commands + ([c] + s.commands);
  }

  /** The loop of findCommands from field i on, with commands produced so far, when the
      step at i raises: the walk ends with what it has. */
  lemma FailedWalk(fields: seq<string>, anns: seq<Result<Annotation>>, i: nat, e: Exc, commands: seq<Command>)
    requires |anns| == |fields| && i < |fields| && NextCommand(fields, anns, i) == Err(e)
    requires Segment(fields) == Extend(commands, SegmentFrom(fields, anns, i))
    ensures Segmentation(commands, Some(e)) == Segment(fields)
  {
    SegmentFails(fields, anns, i, e);
    assert commands + [] == commands;
  }

  /** The same when the step at i reads a comment: the walk ends with an empty command. */
  lemma CommentWalk(fields: seq<string>, anns: seq<Result<Annotation>>, i: nat, c: Command, n: nat, commands: seq<Command>)
    requires |anns| == |fields| && i < |fields| && NextCommand(fields, anns, i) == Ok((c, n)) && IsComment(c.text)
    requires Segment(fields) == Extend(commands, SegmentFrom(fields, anns, i))
    ensures Segmentation(commands + [Command("", c.modifiers, c.count)], None) == Segment(fields)
  {
    SegmentStep(fields, anns, i, c, n);
  }

  /** The same when the step at i reads any other command: the walk goes on after it. */
  lemma CommandWalk(fields: seq<string>, anns: seq<Result<Annotation>>, i: nat, c: Command, n: nat, commands: seq<Command>)
    requires |anns| == |fields| && i < |fields| && NextCommand(fields, anns, i) == Ok((c, n)) && !IsComment(c.text)
    requires Segment(fields) == Extend(commands, SegmentFrom(fields, anns, i))
    ensures i + n <= |fields| && Segment(fields) == Extend(commands + [c], SegmentFrom(fields, anns, i + n))
  {
    SegmentStep(fields, anns, i, c, n);
    ExtendPrepend(commands, c, SegmentFrom(fields, anns, i + n));
  }

  /** findCommands: walk the fields, producing one command per field, attaching a bare
      annotation in the next field to a field without one, and stopping at a comment.
      An exception from findModifiers ends the walk after the commands produced so far. */
  method FindCommands(line: string, splitLines: bool, separator: Option<char>)
    returns (commands: seq<Command>, failure: Option<Exc>)
    ensures Segmentation(commands, failure) == Segment(Fields(line, splitLines, separator))
  {
    var fields := Fields(line, splitLines, separator);
    commands, failure := WalkFields(fields);
  }

  /** The loop of findCommands over the fields of the line. */
  method WalkFields(fields: seq<string>) returns (commands: seq<Command>, failure: Option<Exc>)
    ensures Segmentation(commands, failure) == Segment(fields)
  {
    ghost var anns := AnnotateAll(fields);
    commands := [];
    var fieldIndex := 0;
    while fieldIndex < |fields|
      invariant 0 <= fieldIndex <= |fields|
      invariant Segment(fields) == Extend(commands, SegmentFrom(fields, anns, fieldIndex))
      decreases |fields| - fieldIndex
    {
      var next := ReadCommand(fields, fieldIndex);
      if next.Err? {
        FailedWalk(fields, anns, fieldIndex, next.error, commands);
        return commands, Some(next.error);
      }
      var command, used := next.value.0, next.value.1;
      if IsComment(command.text) {
        // A comment: an empty command, and nothing after it.
        CommentWalk(fields, anns, fieldIndex, command, used, commands);
        commands := commands + [Command("", command.modifiers, command.count)];
        return commands, None;
      }
      CommandWalk(fields, anns, fieldIndex, command, used, commands);
      commands := commands + [command];
      fieldIndex := fieldIndex + used;
    }
    assert commands + [] == commands;
    return commands, None;
  }

  /** One round of the loop of findCommands before the yield: the command that starts
      at fields[fieldIndex] and the number of fields it uses. */
  method ReadCommand(fields: seq<string>, fieldIndex: nat) returns (r: Result<(Command, nat)>)
    requires fieldIndex < |fields|
    ensures r == NextCommand(fields, AnnotateAll(fields), fieldIndex)
  {
    AnnotateAllAt(fields, fieldIndex);
    var field := fields[fieldIndex];
    var found := FindModifiers(field);
    if found.Err? {
      return Err(found.error);
    }
    var annotation := found.value;
    var command: string;
    var used := 1;
    if annotation.index == -1 {
      // No annotation here: look for one at the very start of the next field.
      command := field;
      if fieldIndex + 1 < |fields| {
        AnnotateAllAt(fields, fieldIndex + 1);
        var next := FindModifiers(fields[fieldIndex + 1]);
        if next.Err? {
          return Err(next.error);
        }
        if next.value.index == 0 {
          annotation := next.value;
          used := 2;
        }
      }
    } else {
      command := Strip(field[..annotation.index]);
    }
    return Ok((Command(command, annotation.modifiers, annotation.count), used));
  }

  // ----- properties of findModifiers -----

  /** A line without a separator has no annotation; a lone separator is an empty
      annotation at offset 0. */
  lemma NoSeparator(line: string)
    ensures ModifierSeparator !in line ==> Annotate(line) == Ok(NoAnnotation)
    ensures line == [ModifierSeparator] ==> Annotate(line) == Ok(Annotation(0, NoModifiers, None))
  {
    if line == [ModifierSeparator] {
      assert line[1..] == [];
      assert RemoveCount([]) == ([], None);
      assert FlagLetters([]) == [];
      assert FromLetters([]) == NoModifiers;
    }
  }

  /** The characters RemoveCount takes out are digits. */
  lemma InCount(rest: string, k: nat)
    requires FirstDigit(rest) <= k < FirstDigit(rest) + CountLength(rest)
    ensures IsDigit(rest[k])
  {
    var start := FirstDigit(rest);
    InDigitRun(rest[start..], k - start);
  }

  /** RemoveCount keeps the text before the first digit run and the text after it. */
  lemma RemoveCountKeeps(rest: string, k: nat)
    requires k < |rest|
    requires k < FirstDigit(rest) || FirstDigit(rest) + CountLength(rest) <= k
    ensures var letters := RemoveCount(rest).0;
      |letters| == |rest| - CountLength(rest)
      && (k < FirstDigit(rest) ==> letters[k] == rest[k])
      && (k >= FirstDigit(rest) ==> letters[k - CountLength(rest)] == rest[k])
  {
  }

  /** Every kept letter comes from rest, outside the digit run. */
  lemma RemoveCountOrigin(rest: string, k: nat)
    requires k < |RemoveCount(rest).0|
    ensures var letters := RemoveCount(rest).0;
      var start := FirstDigit(rest);
      (k < start ==> letters[k] == rest[k])
      && (k >= start ==> k + CountLength(rest) < |rest| && letters[k] == rest[k + CountLength(rest)])
  {
  }

  /** Letters that are not all flag letters or whitespace give no annotation. */
  lemma RejectedLetters(line: string)
    requires RFind(line, ModifierSeparator) >= 0
    requires !AllAcceptable(RemoveCount(AfterSeparator(line)).0)
    ensures Annotate(line) == Ok(NoAnnotation)
  {
  }

  /** A character that is neither a digit, a flag letter nor whitespace survives the
      removal of the count and spoils the letters. */
  lemma ForeignCharacterKept(rest: string, p: nat, c: char)
    requires p < |rest| && rest[p] == c && !IsDigit(c) && !Acceptable(c)
    ensures !AllAcceptable(RemoveCount(rest).0)
  {
    var letters := RemoveCount(rest).0;
    var start := FirstDigit(rest);
    if start <= p < start + CountLength(rest) {
      InCount(rest, p);
    }
    RemoveCountKeeps(rest, p);
    var q := if p < start then p else p - CountLength(rest);
    assert q < |letters| && letters[q] == c;
    SpoiledLetters(letters, q);
  }

  /** One character that is neither a flag letter nor whitespace spoils the letters. */
  lemma SpoiledLetters(letters: string, q: nat)
    requires q < |letters| && !Acceptable(letters[q])
    ensures !AllAcceptable(letters)
  {
  }

  /** A digit after the first digit run survives the removal of the count and spoils
      the letters. */
  lemma LaterDigitKept(rest: string, j: nat)
    requires FirstDigit(rest) + CountLength(rest) < j < |rest| && IsDigit(rest[j])
    ensures !AllAcceptable(RemoveCount(rest).0)
  {
    DigitNotAcceptable(rest[j]);
    LaterCharacterSpoils(rest, j);
  }

  /** A character after the first digit run keeps its place, shifted by the count; one
      that is neither a flag letter nor whitespace spoils the letters. */
  lemma LaterCharacterSpoils(rest: string, j: nat)
    requires FirstDigit(rest) + CountLength(rest) < j < |rest| && !Acceptable(rest[j])
    ensures !AllAcceptable(RemoveCount(rest).0)
  {
    RemoveCountKeeps(rest, j);
    SpoiledLetters(RemoveCount(rest).0, j - CountLength(rest));
  }

  /** No digit may stand among the modifier letters. */
  lemma DigitNotAcceptable(c: char)
    requires IsDigit(c)
    ensures !Acceptable(c)
  {
    FlagLetterIsPlain(c);
    if IsSpace(c) {
      SpaceNotDigit(c);
    }
  }

  /** A character after the separator that is neither a digit, a flag letter nor
      whitespace means the line has no annotation (the dict literal case); the source
      never reports it as an unknown modifier. */
  lemma ForeignCharacterRejects(line: string, j: nat)
    requires RFind(line, ModifierSeparator) < j < |line|
    requires !IsDigit(line[j]) && !Acceptable(line[j])
    ensures Annotate(line) == Ok(NoAnnotation)
  {
    if RFind(line, ModifierSeparator) >= 0 {
      ForeignCharacterSpoils(line, j);
      RejectedLetters(line);
    }
  }

  lemma ForeignCharacterSpoils(line: string, j: nat)
    requires 0 <= RFind(line, ModifierSeparator) < j < |line|
    requires !IsDigit(line[j]) && !Acceptable(line[j])
    ensures !AllAcceptable(RemoveCount(AfterSeparator(line)).0)
  {
    var index := RFind(line, ModifierSeparator);
    var rest := AfterSeparator(line);
    assert rest[j - index - 1] == line[j];
    ForeignCharacterKept(rest, j - index - 1, line[j]);
  }

  /** Only the first run of digits is a count: a digit after it ends the annotation. */
  lemma SecondDigitRunRejects(line: string, j: nat)
    requires RFind(line, ModifierSeparator) >= 0
    requires var rest := AfterSeparator(line);
      FirstDigit(rest) + CountLength(rest) < j < |rest| && IsDigit(rest[j])
    ensures Annotate(line) == Ok(NoAnnotation)
  {
    LaterDigitKept(AfterSeparator(line), j);
    RejectedLetters(line);
  }

  /** The letters handed to strToModifiers are all known, so only the compatibility
      tests can fail. */
  lemma AnnotateAtNeverUnknown(index: int, letters: string, count: Option<nat>)
    ensures AnnotateAt(index, letters, count).Err? ==>
      AnnotateAt(index, letters, count).error.IncompatibleModifiersError?
  {
    NoNonFlagLetters(FlagLetters(letters));
  }

  /** findModifiers can only raise IncompatibleModifiersError: every letter it hands to
      strToModifiers is a known one. */
  lemma AnnotateNeverUnknown(line: string)
    ensures Annotate(line).Err? ==> Annotate(line).error.IncompatibleModifiersError?
  {
    var index := RFind(line, ModifierSeparator);
    if index != -1 {
      var rest := line[index + 1..];
      AnnotateAtNeverUnknown(index, RemoveCount(rest).0, RemoveCount(rest).1);
    }
  }

  /** An accepted annotation after a separator sets exactly the flags whose letters
      remain. */
  lemma AcceptedAt(index: int, letters: string, count: Option<nat>)
    requires index >= 0 && AnnotateAt(index, letters, count).Ok?
    requires AnnotateAt(index, letters, count).value.index != -1
    ensures var a := AnnotateAt(index, letters, count).value;
      && a.index == index && a.count == count
      && forall f :: Get(a.modifiers, f) <==> Letter(f) in letters
  {
    var known := FlagLetters(letters);
    FlagLettersMembers(letters);
    NoNonFlagLetters(known);
    ParseKnownLetters(known);
    AlphabetIsExact();
  }

  /** Taking out the count keeps every flag letter: flag letters are not digits. */
  lemma {:induction false} RemoveCountKeepsLetter(rest: string, f: Flag)
    ensures Letter(f) in RemoveCount(rest).0 <==> Letter(f) in rest
  {
    var letters := RemoveCount(rest).0;
    var start := FirstDigit(rest);
    var n := CountLength(rest);
    var c := Letter(f);
    FlagLetterIsPlain(c);
    if c in letters {
      var k :| 0 <= k < |letters| && letters[k] == c;
      RemoveCountOrigin(rest, k);
    }
    if c in rest {
      var k :| 0 <= k < |rest| && rest[k] == c;
      if start <= k < start + n {
        InCount(rest, k);
      }
      RemoveCountKeeps(rest, k);
      if k < start {
        assert letters[k] == c;
      } else {
        assert letters[k - n] == c;
      }
    }
  }

  /** The count is absent exactly when rest has no digit. */
  lemma RemoveCountAbsent(rest: string)
    ensures RemoveCount(rest).1.None? <==> forall k :: 0 <= k < |rest| ==> !IsDigit(rest[k])
  {
    if FirstDigit(rest) == |rest| {
      forall k | 0 <= k < |rest| ensures !IsDigit(rest[k]) {
        BeforeFirstDigit(rest, k);
      }
    }
  }

  /** An accepted annotation sits at the rightmost separator. */
  lemma AcceptedAnnotationPlace(line: string)
    requires Annotate(line).Ok? && Annotate(line).value.index != -1
    ensures var a := Annotate(line).value;
      var rest := AfterSeparator(line);
      && 0 <= a.index < |line| && line[a.index] == ModifierSeparator
      && rest == line[a.index + 1..]
      && (forall k :: 0 <= k < |rest| ==> rest[k] != ModifierSeparator)
  {
  }

  /** An accepted annotation sets exactly the flags whose letters follow the separator. */
  lemma AcceptedAnnotationFlags(line: string)
    requires Annotate(line).Ok? && Annotate(line).value.index != -1
    ensures forall f :: Get(Annotate(line).value.modifiers, f) <==> Letter(f) in AfterSeparator(line)
  {
    var rest := AfterSeparator(line);
    AcceptedAt(RFind(line, ModifierSeparator), RemoveCount(rest).0, RemoveCount(rest).1);
    forall f ensures Letter(f) in RemoveCount(rest).0 <==> Letter(f) in rest {
      RemoveCountKeepsLetter(rest, f);
    }
  }

  /** The count of an accepted annotation is the value of the first digit run after the
      separator, and None when there is no digit there. */
  lemma AcceptedAnnotationCount(line: string)
    requires Annotate(line).Ok? && Annotate(line).value.index != -1
    ensures var a := Annotate(line).value;
      var rest := AfterSeparator(line);
      && (a.count.None? <==> forall k :: 0 <= k < |rest| ==> !IsDigit(rest[k]))
      && (a.count.Some? ==> CountText(rest) != [] && a.count.value == DigitsValue(CountText(rest)))
  {
    var rest := AfterSeparator(line);
    AcceptedAt(RFind(line, ModifierSeparator), RemoveCount(rest).0, RemoveCount(rest).1);
    RemoveCountAbsent(rest);
  }

  /** A count may be written in any script's decimal digits, as \d and int() accept
      them: sin:٣ (ARABIC-INDIC DIGIT THREE) carries the count 3, and x:1٣ the
      count 13. */
  lemma NonAsciiCount()
    ensures Annotate("sin:\U{663}") == Ok(Annotation(3, NoModifiers, Some(3)))
    ensures Annotate("x:1\U{663}") == Ok(Annotation(1, NoModifiers, Some(13)))
  {
    var a := "sin:\U{663}";
    assert a[..|a| - 1] == "sin:";
    assert RFind(a, ModifierSeparator) == 3;
    assert AfterSeparator(a) == a[4..] == "\U{663}";
    ArabicThree();
    EmptyAnnotationAccepted(3, Some(3));
    var b := "x:1\U{663}";
    assert b[..|b| - 1] == "x:1" && b[..|b| - 1][..2] == "x:";
    assert RFind(b, ModifierSeparator) == 1;
    assert AfterSeparator(b) == b[2..] == "1\U{663}";
    OneArabicThree();
    EmptyAnnotationAccepted(1, Some(13));
  }

  lemma ArabicThree()
    ensures RemoveCount("\U{663}") == ("", Some(3))
  {
    var d := "\U{663}";
    assert IsDigit(d[0]) && d[1..] == [] && DigitRun(d[1..]) == 0;
    assert FirstDigit(d) == 0 && d[0..] == d && DigitRun(d) == 1 && CountLength(d) == 1;
    assert CountText(d) == d && d[..0] == [] && d[1..] == [];
    assert DigitValue(d[0]) == 3;
    assert DigitsValue(d) == DigitsValue(d[..0]) * 10 + DigitValue(d[0]) == 3;
    assert d[..FirstDigit(d)] + d[FirstDigit(d) + CountLength(d)..] == "";
    assert RemoveCount(d) == (d[..FirstDigit(d)] + d[FirstDigit(d) + CountLength(d)..], Some(DigitsValue(CountText(d))));
  }

  lemma OneArabicThree()
    ensures RemoveCount("1\U{663}") == ("", Some(13))
  {
    var d := "1\U{663}";
    assert IsDigit(d[0]) && IsDigit(d[1]) && d[1..][1..] == [] && d[1..][0] == d[1];
    assert DigitRun(d[1..]) == 1 && DigitRun(d) == 2;
    assert FirstDigit(d) == 0 && d[0..] == d && CountLength(d) == 2;
    assert CountText(d) == d && d[..0] == [] && d[2..] == [];
    assert d[..1] == "1" && "1"[..0] == [] && d[..|d| - 1] == "1";
    assert DigitValue(d[0]) == 1 && DigitValue(d[1]) == 3;
    assert DigitsValue("1") == DigitsValue("1"[..0]) * 10 + DigitValue('1') == 1;
    assert DigitsValue(d) == DigitsValue(d[..|d| - 1]) * 10 + DigitValue(d[1]) == 13;
    assert d[..FirstDigit(d)] + d[FirstDigit(d) + CountLength(d)..] == "";
    assert RemoveCount(d) == (d[..FirstDigit(d)] + d[FirstDigit(d) + CountLength(d)..], Some(DigitsValue(CountText(d))));
  }

  lemma EmptyAnnotationAccepted(index: int, count: Option<nat>)
    ensures AnnotateAt(index, "", count) == Ok(Annotation(index, NoModifiers, count))
  {
    assert FlagLetters("") == "";
    ParseKnownLetters("");
    var m := Parse("").value;
    assert forall f :: !Get(m, f);
    assert !Get(m, All) && !Get(m, ForceCommand) && !Get(m, Debug) && !Get(m, Iterate) && !Get(m, NoSplit)
      && !Get(m, PreserveStack) && !Get(m, Print) && !Get(m, AutoPrint) && !Get(m, Push)
      && !Get(m, Reverse) && !Get(m, Split);
  }

  // ----- properties of findCommands -----

  /** With splitting on and no separator, a blank line yields no commands at all. */
  lemma BlankLineNoCommands(line: string)
    requires forall i :: 0 <= i < |line| ==> IsSpace(line[i])
    ensures Segment(Fields(line, true, None)) == Segmentation([], None)
  {
    assert Strip(line) == [];
  }

  /** With splitting off, the whole stripped line is one field and yields one command
      (unless findModifiers raises); without a separator in it, that command is the
      stripped line itself, or the empty command of a comment. */
  lemma UnsplitLineOneCommand(line: string, separator: Option<char>)
    ensures var s := Segment(Fields(line, false, separator));
      s.failure.None? ==> |s.commands| == 1
    ensures ModifierSeparator !in Strip(line) ==>
      Segment(Fields(line, false, separator)) ==
        Segmentation([Command(if IsComment(Strip(line)) then "" else Strip(line), NoModifiers, None)], None)
  {
    var fields := Fields(line, false, separator);
    var anns := AnnotateAll(fields);
    AnnotateAllAt(fields, 0);
    NoSeparator(Strip(line));
    var r := NextCommand(fields, anns, 0);
    if r.Ok? {
      SegmentStep(fields, anns, 0, r.value.0, r.value.1);
      assert SegmentFrom(fields, anns, 1) == Segmentation([], None);
    } else {
      SegmentFails(fields, anns, 0, r.error);
    }
  }

  /** A field with an annotation yields the stripped text before the separator with the
      annotation's own modifiers and count, and the walk goes on at the next field. */
  lemma AnnotatedFieldCommand(fields: seq<string>, i: nat)
    requires i < |fields| && Annotate(fields[i]).Ok? && Annotate(fields[i]).value.index != -1
    requires !IsComment(Strip(fields[i][..Annotate(fields[i]).value.index]))
    ensures var a := Annotate(fields[i]).value;
      SegmentFrom(fields, AnnotateAll(fields), i)
        == Prepend(Command(Strip(fields[i][..a.index]), a.modifiers, a.count), SegmentFrom(fields, AnnotateAll(fields), i + 1))
  {
    var a := Annotate(fields[i]).value;
    var anns := AnnotateAll(fields);
    assert anns[i] == Ok(a) by {
      AnnotateAllAt(fields, i);
    }
    assert PyPrefix(fields[i], a.index) == fields[i][..a.index];
    assert NextCommand(fields, anns, i) == Ok((Command(Strip(fields[i][..a.index]), a.modifiers, a.count), 1));
    SegmentStep(fields, anns, i, Command(Strip(fields[i][..a.index]), a.modifiers, a.count), 1);
  }

  /** A field without an annotation followed by a field that starts with the separator
      takes that field's modifiers and count, and both fields are used up. */
  lemma BareAnnotationAttaches(fields: seq<string>, i: nat)
    requires i + 1 < |fields| && ModifierSeparator !in fields[i] && !IsComment(fields[i])
    requires Annotate(fields[i + 1]).Ok? && Annotate(fields[i + 1]).value.index == 0
    ensures var b := Annotate(fields[i + 1]).value;
      SegmentFrom(fields, AnnotateAll(fields), i)
        == Prepend(Command(fields[i], b.modifiers, b.count), SegmentFrom(fields, AnnotateAll(fields), i + 2))
  {
    var b := Annotate(fields[i + 1]).value;
    var anns := AnnotateAll(fields);
    assert anns[i] == Ok(NoAnnotation) by {
      NoSeparator(fields[i]);
      AnnotateAllAt(fields, i);
    }
    assert anns[i + 1] == Ok(b) by {
      AnnotateAllAt(fields, i + 1);
    }
    SegmentStep(fields, anns, i, Command(fields[i], b.modifiers, b.count), 2);
  }

  /** A field without an annotation keeps no modifiers when the next field's annotation
      (if any) does not start at its first character; the next field is then a command
      of its own. */
  lemma NonLeadingAnnotationStays(fields: seq<string>, i: nat)
    requires i + 1 < |fields| && ModifierSeparator !in fields[i] && !IsComment(fields[i])
    requires Annotate(fields[i + 1]).Ok? && Annotate(fields[i + 1]).value.index != 0
    ensures SegmentFrom(fields, AnnotateAll(fields), i)
      == Prepend(Command(fields[i], NoModifiers, None), SegmentFrom(fields, AnnotateAll(fields), i + 1))
  {
    var anns := AnnotateAll(fields);
    assert anns[i] == Ok(NoAnnotation) by {
      NoSeparator(fields[i]);
      AnnotateAllAt(fields, i);
    }
    assert anns[i + 1] == Annotate(fields[i + 1]) by {
      AnnotateAllAt(fields, i + 1);
    }
    SegmentStep(fields, anns, i, Command(fields[i], NoModifiers, None), 1);
  }

  /** A comment yields one empty command and ends the line: whatever follows it (here, a
      next field without a separator and anything after that) is ignored. */
  lemma CommentEndsLine(fields: seq<string>, i: nat)
    requires i < |fields| && IsComment(fields[i]) && ModifierSeparator !in fields[i]
    requires i + 1 < |fields| ==> ModifierSeparator !in fields[i + 1]
    ensures SegmentFrom(fields, AnnotateAll(fields), i) == Segmentation([Command("", NoModifiers, None)], None)
  {
    var anns := AnnotateAll(fields);
    assert anns[i] == Ok(NoAnnotation) by {
      NoSeparator(fields[i]);
      AnnotateAllAt(fields, i);
    }
    if i + 1 < |fields| {
      assert anns[i + 1] == Ok(NoAnnotation) by {
        NoSeparator(fields[i + 1]);
        AnnotateAllAt(fields, i + 1);
      }
    }
    SegmentStep(fields, anns, i, Command(fields[i], NoModifiers, None), 1);
  }

  /** Fields that are not comments and carry no annotation come out one command per
      field, given the fields' annotations. */
  lemma {:induction false} PlainFieldsFrom(fields: seq<string>, anns: seq<Result<Annotation>>, i: nat)
    requires |anns| == |fields| && i <= |fields|
    requires forall k :: i <= k < |fields| ==> anns[k] == Ok(NoAnnotation) && !IsComment(fields[k])
    ensures SegmentFrom(fields, anns, i).failure.None?
    ensures |SegmentFrom(fields, anns, i).commands| == |fields| - i
    ensures forall k :: i <= k < |fields| ==> SegmentFrom(fields, anns, i).commands[k - i] == Command(fields[k], NoModifiers, None)
    decreases |fields| - i
  {
    if i < |fields| {
      var c := Command(fields[i], NoModifiers, None);
      assert anns[i] == Ok(NoAnnotation) && (i + 1 < |fields| ==> anns[i + 1] == Ok(NoAnnotation));
      assert NextCommand(fields, anns, i) == Ok((c, 1));
      SegmentStep(fields, anns, i, c, 1);
      PlainFieldsFrom(fields, anns, i + 1);
      var s, t := SegmentFrom(fields, anns, i), SegmentFrom(fields, anns, i + 1);
      assert s.commands == [c] + t.commands;
      forall k | i < k < |fields| ensures s.commands[k - i] == Command(fields[k], NoModifiers, None) {
        assert s.commands[k - i] == t.commands[k - (i + 1)];
      }
    }
  }

  /** Fields with no separator and no comment come out one command per field, in
      order and unchanged, with no modifiers and no count. */
  lemma PlainFieldsPassThrough(fields: seq<string>)
    requires forall k :: 0 <= k < |fields| ==> ModifierSeparator !in fields[k] && !IsComment(fields[k])
    ensures Segment(fields).failure.None?
    ensures |Segment(fields).commands| == |fields|
    ensures forall k :: 0 <= k < |fields| ==> Segment(fields).commands[k] == Command(fields[k], NoModifiers, None)
  {
    var anns := AnnotateAll(fields);
    forall k | 0 <= k < |fields| ensures anns[k] == Ok(NoAnnotation) {
      NoSeparator(fields[k]);
      AnnotateAllAt(fields, k);
    }
    PlainFieldsFrom(fields, anns, 0);
  }

  /** An annotation result that is either accepted or IncompatibleModifiersError. */
  predicate RaisesOnlyIncompatibleAt(r: Result<Annotation>) {
    r.Err? ==> r.error.IncompatibleModifiersError?
  }

  /** The walk ends normally or with IncompatibleModifiersError. */
  predicate RaisesOnlyIncompatible(s: Segmentation) {
    s.failure.Some? ==> s.failure.value.IncompatibleModifiersError?
  }

  /** A step that raises passes on the exception of this field's annotation or of the next one's. */
  lemma NextCommandFailsFrom(fields: seq<string>, anns: seq<Result<Annotation>>, i: nat)
    requires |anns| == |fields| && i < |fields| && NextCommand(fields, anns, i).Err?
    ensures var e := NextCommand(fields, anns, i).error;
      anns[i] == Err(e) || (i + 1 < |fields| && anns[i + 1] == Err(e))
  {
  }

  /** The walk raises nothing but what the annotations raise. */
  lemma {:induction false} FailureFromAnnotations(fields: seq<string>, anns: seq<Result<Annotation>>, i: nat)
    requires |anns| == |fields| && i <= |fields|
    requires forall k :: 0 <= k < |anns| ==> RaisesOnlyIncompatibleAt(anns[k])
    ensures RaisesOnlyIncompatible(SegmentFrom(fields, anns, i))
    decreases |fields| - i
  {
    if i < |fields| {
      var r := NextCommand(fields, anns, i);
      if r.Err? {
        NextCommandFailsFrom(fields, anns, i);
        assert RaisesOnlyIncompatibleAt(anns[i]);
        assert i + 1 < |fields| ==> RaisesOnlyIncompatibleAt(anns[i + 1]);
        SegmentFails(fields, anns, i, r.error);
      } else {
        var c, n := r.value.0, r.value.1;
        SegmentStep(fields, anns, i, c, n);
        if !IsComment(c.text) {
          FailureFromAnnotations(fields, anns, i + n);
        }
      }
    }
  }

  /** The only exception a line can raise is IncompatibleModifiersError. */
  lemma SegmentFailureIsIncompatible(fields: seq<string>)
    ensures RaisesOnlyIncompatible(Segment(fields))
  {
    var anns := AnnotateAll(fields);
    forall k | 0 <= k < |anns| ensures RaisesOnlyIncompatibleAt(anns[k]) {
      AnnotateAllAt(fields, k);
      AnnotateNeverUnknown(fields[k]);
    }
    FailureFromAnnotations(fields, anns, 0);
  }
}
