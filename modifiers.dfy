/** The modifier grammar (src/rpnpy/modifiers.py): eleven one-letter flags, the record
    that holds them, and the parser from a string of letters to that record, which
    reports every unknown letter at once and rejects two contradictory pairs. */
module ModifierGrammar {
  import opened Text
  import opened Errors

  /** The record of eleven boolean flags; Dafny's structural equality on it is the
      source's field-wise __eq__. */
  datatype Modifiers = Modifiers(
    all: bool, forceCommand: bool, debug: bool, iterate: bool, noSplit: bool,
    preserveStack: bool, printValue: bool, autoPrint: bool, push: bool, reverse: bool,
    split: bool)

  /** Modifiers(): every flag off. */
  const NoModifiers := Modifiers(false, false, false, false, false, false, false, false, false, false, false)

  datatype Flag = All | ForceCommand | Debug | Iterate | NoSplit | PreserveStack | Print
                | AutoPrint | Push | Reverse | Split

  /** The letters of the MODIFIERS table, in the table's order. */
  const Alphabet: string := "*cDin=pP!rs"

  /** The MODIFIERS table read from letter to flag. */
  function FlagOf(c: char): (f: Option<Flag>)
    ensures f.Some? ==> Letter(f.value) == c
  {
    match c
    case '*' => Some(All)
    case 'c' => Some(ForceCommand)
    case 'D' => Some(Debug)
    case 'i' => Some(Iterate)
    case 'n' => Some(NoSplit)
    case '=' => Some(PreserveStack)
    case 'p' => Some(Print)
    case 'P' => Some(AutoPrint)
    case '!' => Some(Push)
    case 'r' => Some(Reverse)
    case 's' => Some(Split)
    case _ => None
  }

  /** The MODIFIERS table read from flag to letter. */
  function Letter(f: Flag): char {
    match f
    case All => '*'
    case ForceCommand => 'c'
    case Debug => 'D'
    case Iterate => 'i'
    case NoSplit => 'n'
    case PreserveStack => '='
    case Print => 'p'
    case AutoPrint => 'P'
    case Push => '!'
    case Reverse => 'r'
    case Split => 's'
  }

  /** No flag letter is a decimal digit or whitespace. */
  lemma FlagLetterIsPlain(c: char)
    ensures FlagOf(c).Some? ==> !IsDigit(c) && !IsSpace(c)
  {
  }

  /** The attribute name the table gives each letter. */
  function Name(f: Flag): string {
    match f
    case All => "all"
    case ForceCommand => "forceCommand"
    case Debug => "debug"
    case Iterate => "iterate"
    case NoSplit => "noSplit"
    case PreserveStack => "preserveStack"
    case Print => "print"
    case AutoPrint => "autoPrint"
    case Push => "push"
    case Reverse => "reverse"
    case Split => "split"
  }

  predicate IsFlagLetter(c: char) {
    FlagOf(c).Some?
  }

  /** The value of the attribute that flag f names. */
  function Get(m: Modifiers, f: Flag): bool {
    match f
    case All => m.all
    case ForceCommand => m.forceCommand
    case Debug => m.debug
    case Iterate => m.iterate
    case NoSplit => m.noSplit
    case PreserveStack => m.preserveStack
    case Print => m.printValue
    case AutoPrint => m.autoPrint
    case Push => m.push
    case Reverse => m.reverse
    case Split => m.split
  }

  /** Modifiers(**d) for the dictionary d whose keys (all mapped to True) are the
      attribute names of the flags in d. */
  function FromFlags(d: set<Flag>): (m: Modifiers)
    ensures forall f :: Get(m, f) <==> f in d
  {
    Modifiers(All in d, ForceCommand in d, Debug in d, Iterate in d, NoSplit in d,
              PreserveStack in d, Print in d, AutoPrint in d, Push in d, Reverse in d,
              Split in d)
  }

  /** Modifiers.__eq__: the conjunction of the eleven field comparisons. */
  function Equal(a: Modifiers, b: Modifiers): (r: bool)
    ensures r <==> a == b
  {
    a.all == b.all && a.forceCommand == b.forceCommand && a.debug == b.debug
    && a.iterate == b.iterate && a.noSplit == b.noSplit && a.preserveStack == b.preserveStack
    && a.printValue == b.printValue && a.autoPrint == b.autoPrint && a.push == b.push
    && a.reverse == b.reverse && a.split == b.split
  }

  /** The record whose flags are exactly the letters of s that are in the table. */
  function FromLetters(s: string): Modifiers {
    Modifiers('*' in s, 'c' in s, 'D' in s, 'i' in s, 'n' in s, '=' in s, 'p' in s,
              'P' in s, '!' in s, 'r' in s, 's' in s)
  }

  const PushPreserveMessage := "= (preserve stack) makes no sense with ! (push)"
  const SplitNoSplitMessage := "s (split lines) makes no sense with n (do not split lines)"

  // ----- sorted() of the unknown letters -----

  predicate StrictlyIncreasing(r: seq<char>) {
    forall i, j :: 0 <= i < j < |r| ==> r[i] < r[j]
  }

  /** The letters of s that are not in the table, in order of appearance. */
  function NonFlagLetters(s: string): string {
    if s == [] then []
    else (if IsFlagLetter(s[0]) then [] else [s[0]]) + NonFlagLetters(s[1..])
  }

  /** c inserted into r before the first larger element, unless it is already there. */
  function InsertSorted(r: seq<char>, c: char): seq<char> {
    if r == [] then [c]
    else if c == r[0] then r
    else if c < r[0] then [c] + r
    else [r[0]] + InsertSorted(r[1..], c)
  }

  /** sorted(set(xs)): the distinct elements of xs in increasing order. */
  function SortDistinct(xs: seq<char>): seq<char> {
    if xs == [] then [] else InsertSorted(SortDistinct(xs[..|xs| - 1]), xs[|xs| - 1])
  }

  /** FromLetters sets a flag exactly when its letter occurs in s. */
  lemma FromLettersFlags(s: string)
    ensures forall f :: Get(FromLetters(s), f) <==> Letter(f) in s
  {
  }

  /** NonFlagLetters keeps exactly the letters of s outside the table. */
  lemma {:induction false} NonFlagLettersMembers(s: string)
    ensures forall c :: c in NonFlagLetters(s) <==> c in s && !IsFlagLetter(c)
  {
    if s != [] {
      NonFlagLettersMembers(s[1..]);
      assert s == [s[0]] + s[1..];
    }
  }

  /** InsertSorted adds c to the elements of r and nothing else. */
  lemma {:induction false} InsertSortedMembers(r: seq<char>, c: char)
    ensures forall x :: x in InsertSorted(r, c) <==> x in r || x == c
  {
    if r != [] && c != r[0] && c > r[0] {
      InsertSortedMembers(r[1..], c);
      assert r == [r[0]] + r[1..];
    }
  }

  /** SortDistinct keeps exactly the elements of xs. */
  lemma {:induction false} SortDistinctMembers(xs: seq<char>)
    ensures forall x :: x in SortDistinct(xs) <==> x in xs
  {
    if xs != [] {
      var init := xs[..|xs| - 1];
      SortDistinctMembers(init);
      InsertSortedMembers(SortDistinct(init), xs[|xs| - 1]);
      assert xs == init + [xs[|xs| - 1]];
    }
  }

  lemma {:induction false} InsertSortedIncreasing(r: seq<char>, c: char)
    requires StrictlyIncreasing(r)
    ensures StrictlyIncreasing(InsertSorted(r, c))
  {
    if r != [] && c > r[0] {
      var t := InsertSorted(r[1..], c);
      InsertSortedIncreasing(r[1..], c);
      InsertSortedMembers(r[1..], c);
      forall k | 0 <= k < |t| ensures r[0] < t[k] {
        assert t[k] in t;
      }
    }
  }

  /** The result of SortDistinct is strictly increasing, so it has no repeats. */
  lemma {:induction false} SortDistinctIncreasing(xs: seq<char>)
    ensures StrictlyIncreasing(SortDistinct(xs))
  {
    if xs != [] {
      SortDistinctIncreasing(xs[..|xs| - 1]);
      InsertSortedIncreasing(SortDistinct(xs[..|xs| - 1]), xs[|xs| - 1]);
    }
  }

  /** A strictly increasing sequence is determined by its set of elements. */
  lemma {:induction false} SortedUnique(a: seq<char>, b: seq<char>)
    requires StrictlyIncreasing(a) && StrictlyIncreasing(b)
    requires forall x :: x in a <==> x in b
    ensures a == b
  {
    if a != [] {
      assert a[0] in b;
    }
    if b != [] {
      assert b[0] in a;
    }
    if a != [] {
      // The first elements are both the least element of the common set.
      assert a[0] == b[0] by {
        var k :| 0 <= k < |b| && b[k] == a[0];
        var l :| 0 <= l < |a| && a[l] == b[0];
        assert b[0] <= a[0] && a[0] <= b[0];
      }
      forall x ensures x in a[1..] <==> x in b[1..] {
        if x in a[1..] {
          var k :| 1 <= k < |a| && a[k] == x;
          assert x in b;
          assert x != b[0];
        }
        if x in b[1..] {
          var k :| 1 <= k < |b| && b[k] == x;
          assert x in a;
          assert x != a[0];
        }
      }
      SortedUnique(a[1..], b[1..]);
      assert a == [a[0]] + a[1..];
      assert b == [b[0]] + b[1..];
    }
  }

  /** A string of known letters has no unknown letters. */
  lemma {:induction false} NoNonFlagLetters(s: string)
    requires forall i :: 0 <= i < |s| ==> IsFlagLetter(s[i])
    ensures NonFlagLetters(s) == []
  {
    if s != [] {
      NoNonFlagLetters(s[1..]);
    }
  }

  // ----- strToModifiers -----

  /** The value strToModifiers(s) returns or raises. */
  function Parse(s: string): (r: Result<Modifiers>)
    ensures r.Ok? ==> forall f :: Get(r.value, f) <==> Letter(f) in s
    ensures r.Ok? ==> !(r.value.push && r.value.preserveStack) && !(r.value.split && r.value.noSplit)
    ensures r.Err? ==> r.error.UnknownModifiersError? || r.error.IncompatibleModifiersError?
  {
    var unknown := SortDistinct(NonFlagLetters(s));
    if unknown != [] then Err(UnknownModifiersError(unknown))
    else
      var m := FromLetters(s);
      if m.push && m.preserveStack then Err(IncompatibleModifiersError(PushPreserveMessage))
      else if m.split && m.noSplit then Err(IncompatibleModifiersError(SplitNoSplitMessage))
      else Ok(m)
  }

  /** strToModifiers: one pass over the letters collecting the flags that are set and
      the letters that are unknown, then the two compatibility tests. The source walks
      set(s); walking s itself visits the same letters, possibly more than once, which
      neither the flag record nor the sorted set of unknown letters can observe. */
  method StrToModifiers(s: string) returns (r: Result<Modifiers>)
    ensures r == Parse(s)
  {
    var d: set<Flag> := {};
    var unknown: seq<char> := [];
    var i := 0;
    while i < |s|
      invariant 0 <= i <= |s|
      invariant forall f :: f in d <==> Letter(f) in s[..i]
      invariant forall c :: c in unknown <==> c in s[..i] && !IsFlagLetter(c)
    {
      assert s[..i + 1] == s[..i] + [s[i]];
      var letter := s[i];
      match FlagOf(letter) {
        case Some(f) =>
          d := d + {f};
        case None =>
          unknown := unknown + [letter];
      }
      i := i + 1;
    }
    assert s[..i] == s;
    CollectedLetters(s, d, unknown);
    if unknown != [] {
      return Err(UnknownModifiersError(SortDistinct(unknown)));
    }
    var modifiers := FromFlags(d);
    if modifiers.push {
      if modifiers.preserveStack {
        return Err(IncompatibleModifiersError(PushPreserveMessage));
      }
    }
    if modifiers.split && modifiers.noSplit {
      return Err(IncompatibleModifiersError(SplitNoSplitMessage));
    }
    return Ok(modifiers);
  }

  /** What the loop of strToModifiers has collected once it has seen every letter. */
  lemma CollectedLetters(s: string, d: set<Flag>, unknown: seq<char>)
    requires forall f :: f in d <==> Letter(f) in s
    requires forall c :: c in unknown <==> c in s && !IsFlagLetter(c)
    ensures FromFlags(d) == FromLetters(s)
    ensures SortDistinct(unknown) == SortDistinct(NonFlagLetters(s))
    ensures unknown == [] <==> SortDistinct(NonFlagLetters(s)) == []
  {
    assert Equal(FromFlags(d), FromLetters(s));
    NonFlagLettersMembers(s);
    SortDistinctMembers(unknown);
    SortDistinctMembers(NonFlagLetters(s));
    SortDistinctIncreasing(unknown);
    SortDistinctIncreasing(NonFlagLetters(s));
    SortedUnique(SortDistinct(unknown), SortDistinct(NonFlagLetters(s)));
    if unknown != [] {
      assert unknown[0] in SortDistinct(unknown);
    }
  }

  // ----- properties -----

  /** The table has eleven distinct letters, each naming its own flag. */
  lemma AlphabetIsExact()
    ensures |Alphabet| == 11
    ensures forall f :: Letter(f) in Alphabet && FlagOf(Letter(f)) == Some(f)
    ensures forall f, g :: Letter(f) == Letter(g) ==> f == g
    ensures forall c :: IsFlagLetter(c) <==> c in Alphabet
  {
    forall f ensures FlagOf(Letter(f)) == Some(f) {
    }
  }

  /** Modifiers() has every flag off. */
  lemma DefaultsAreOff()
    ensures forall f :: !Get(NoModifiers, f)
    ensures NoModifiers == FromLetters("")
  {
  }

  /** Only the set of letters in s matters: neither order nor repetition changes the
      outcome, so in particular strToModifiers(s) == strToModifiers(s + s). */
  lemma {:induction false} ParseDependsOnlyOnLetterSet(s: string, t: string)
    requires forall c :: c in s <==> c in t
    ensures Parse(s) == Parse(t)
  {
    NonFlagLettersMembers(s);
    NonFlagLettersMembers(t);
    SortDistinctMembers(NonFlagLetters(s));
    SortDistinctMembers(NonFlagLetters(t));
    SortDistinctIncreasing(NonFlagLetters(s));
    SortDistinctIncreasing(NonFlagLetters(t));
    SortedUnique(SortDistinct(NonFlagLetters(s)), SortDistinct(NonFlagLetters(t)));
    assert Equal(FromLetters(s), FromLetters(t));
  }

  lemma ParseDoubled(s: string)
    ensures Parse(s + s) == Parse(s)
  {
    ParseDependsOnlyOnLetterSet(s + s, s);
  }

  /** Any letter outside the table is an error, whatever else s holds, and the error
      names the distinct unknown letters in increasing order; this test comes before
      both compatibility tests. */
  lemma UnknownLettersReported(s: string)
    requires exists i :: 0 <= i < |s| && !IsFlagLetter(s[i])
    ensures Parse(s).Err? && Parse(s).error.UnknownModifiersError?
    ensures StrictlyIncreasing(Parse(s).error.letters)
    ensures forall c :: c in Parse(s).error.letters <==> c in s && !IsFlagLetter(c)
  {
    var i :| 0 <= i < |s| && !IsFlagLetter(s[i]);
    NonFlagLettersMembers(s);
    SortDistinctMembers(NonFlagLetters(s));
    SortDistinctIncreasing(NonFlagLetters(s));
    assert s[i] in SortDistinct(NonFlagLetters(s));
  }

  /** strToModifiers("yxz") raises UnknownModifiersError('x', 'y', 'z'). */
  lemma UnknownExample(s: string)
    requires s == "yxz"
    ensures Parse(s) == Err(UnknownModifiersError("xyz"))
  {
    assert !IsFlagLetter(s[0]);
    UnknownLettersReported(s);
    SortedUnique(Parse(s).error.letters, "xyz");
  }

  /** When every letter is known, the outcome is exactly: the push/preserveStack error,
      else the split/noSplit error, else the record of the letters present. */
  lemma ParseKnownLetters(s: string)
    requires forall i :: 0 <= i < |s| ==> IsFlagLetter(s[i])
    ensures '!' in s && '=' in s ==> Parse(s) == Err(IncompatibleModifiersError(PushPreserveMessage))
    ensures !('!' in s && '=' in s) && 's' in s && 'n' in s ==>
              Parse(s) == Err(IncompatibleModifiersError(SplitNoSplitMessage))
    ensures !('!' in s && '=' in s) && !('s' in s && 'n' in s) ==>
              Parse(s).Ok? && forall f :: Get(Parse(s).value, f) <==> Letter(f) in s
  {
    NoNonFlagLetters(s);
    FromLettersFlags(s);
  }

  /** A string is accepted exactly when all its letters are known and neither
      contradictory pair is present. */
  lemma ParseSucceedsIff(s: string)
    ensures Parse(s).Ok? <==>
      (forall i :: 0 <= i < |s| ==> IsFlagLetter(s[i]))
      && !('!' in s && '=' in s) && !('s' in s && 'n' in s)
  {
    if forall i :: 0 <= i < |s| ==> IsFlagLetter(s[i]) {
      ParseKnownLetters(s);
    } else {
      UnknownLettersReported(s);
    }
  }
}
