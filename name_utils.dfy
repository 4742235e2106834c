/** The name utilities of central-repo/src/utils.ts (compiled unchanged to
    central-repo/dist/src/utils.js): project-name validation and the
    PascalCase / camelCase conversions used to derive class names. Text is
    ASCII; the two regular expressions are matched by hand. */
module NameUtils {
  import opened Basics

  // ---------------------------------------------------------------------
  // ensureValidProjectName
  // ---------------------------------------------------------------------

  /** A member of the class `[a-zA-Z0-9_-]`. */
  predicate IsNameChar(c: char) {
    IsUpper(c) || IsLower(c) || IsDigit(c) || c == '_' || c == '-'
  }

  /** Every character of `s` is in `[a-zA-Z0-9_-]`, scanned left to right. */
  function AllNameChars(s: string): (r: bool)
    ensures r <==> forall i :: 0 <= i < |s| ==> IsNameChar(s[i])
  {
    if s == [] then true
    else IsNameChar(s[0]) && AllNameChars(s[1..])
  }

  /** `/^[a-zA-Z0-9_-]+$/.test(s)`: one or more class characters and nothing
      else. */
  function MatchesNamePattern(s: string): (r: bool)
    ensures r <==> |s| >= 1 && forall i :: 0 <= i < |s| ==> IsNameChar(s[i])
  {
    |s| >= 1 && AllNameChars(s)
  }

  /** `ensureValidProjectName(name)`: the three checks in source order. */
  function EnsureValidProjectName(name: string): (r: bool)
    ensures r <==> 1 <= |name| <= 100 && forall i :: 0 <= i < |name| ==> IsNameChar(name[i])
  {
    if |name| == 0 then false
    else if !MatchesNamePattern(name) then false
    else if |name| > 100 then false
    else true
  }

  // ---------------------------------------------------------------------
  // toPascalCase
  // ---------------------------------------------------------------------

  predicate NoUpper(s: string) {
    forall i :: 0 <= i < |s| ==> !IsUpper(s[i])
  }

  /** A member of the class `[-_\s]`. */
  predicate IsSeparator(c: char) {
    c == '-' || c == '_' || IsSpace(c)
  }

  /** The text after the separator run that starts `s`. */
  function DropSeparators(s: string): (r: string)
    ensures |r| <= |s| && r == s[|s| - |r|..]
    ensures s != [] && IsSeparator(s[0]) ==> |r| < |s|
  {
    if s != [] && IsSeparator(s[0]) then DropSeparators(s[1..]) else s
  }

  /** What is dropped is a run of separators, and what is kept does not
      start with one. */
  lemma {:induction false} DropSeparatorsSpec(s: string)
    ensures var r := DropSeparators(s);
      && (r == [] || !IsSeparator(r[0]))
      && forall i :: 0 <= i < |s| - |r| ==> IsSeparator(s[i])
    decreases |s|
  {
    if s != [] && IsSeparator(s[0]) {
      DropSeparatorsSpec(s[1..]);
      var r := DropSeparators(s);
      forall i | 0 <= i < |s| - |r| ensures IsSeparator(s[i]) {
        if i > 0 { assert s[i] == s[1..][i - 1]; }
      }
    }
  }

  /** `s.split(/[-_\s]+/)`: the pieces between maximal separator runs,
      keeping the empty pieces before a leading run and after a trailing
      one, so there is always at least one piece. */
  function Split(s: string): (r: seq<string>)
    ensures |r| >= 1
    decreases |s|
  {
    if s == [] then [""]
    else if IsSeparator(s[0]) then [""] + Split(DropSeparators(s))
    else
      var rest := Split(s[1..]);
      [[s[0]] + rest[0]] + rest[1..]
  }

  /** A text starting with a non-separator: that character begins the
      first piece of the rest. */
  lemma SplitCons(c: char, t: string)
    requires !IsSeparator(c)
    ensures Split([c] + t) == [[c] + Split(t)[0]] + Split(t)[1..]
  {
    assert ([c] + t)[1..] == t;
  }

  /** A text starting with a separator run: an empty first piece, then the
      pieces after the run. */
  lemma SplitRun(run: string, rest: string)
    requires |run| > 0 && forall i :: 0 <= i < |run| ==> IsSeparator(run[i])
    requires rest == [] || !IsSeparator(rest[0])
    ensures Split(run + rest) == [""] + Split(rest)
  {
    DropRun(run, rest);
    assert (run + rest)[0] == run[0];
  }

  /** Every character of `w` has property `p`. */
  predicate AllChars(w: string, p: char -> bool) {
    forall i :: 0 <= i < |w| ==> p(w[i])
  }

  predicate NotSeparator(c: char) { !IsSeparator(c) }

  predicate NotUpper(c: char) { !IsUpper(c) }

  lemma AllCharsCons(c: char, w: string, p: char -> bool)
    requires p(c) && AllChars(w, p)
    ensures AllChars([c] + w, p)
  {
    forall i | 0 <= i < |[c] + w| ensures p(([c] + w)[i]) {
      if i > 0 { assert ([c] + w)[i] == w[i - 1]; }
    }
  }

  /** Every piece of `Split(s)` has only characters with property `p`. */
  predicate PiecesHave(s: string, p: char -> bool) {
    forall k :: 0 <= k < |Split(s)| ==> AllChars(Split(s)[k], p)
  }

  /** Every non-separator character of `s` has property `p`. */
  predicate WordsHave(s: string, p: char -> bool) {
    forall i :: 0 <= i < |s| ==> IsSeparator(s[i]) || p(s[i])
  }

  /** A leading separator run adds an empty piece in front of the pieces
      after it. */
  lemma SplitKeepsAfterRun(s: string, p: char -> bool)
    requires s != [] && IsSeparator(s[0]) && PiecesHave(DropSeparators(s), p)
    ensures PiecesHave(s, p)
  {
    var r, d := Split(s), DropSeparators(s);
    assert r == [""] + Split(d);
    forall k | 0 <= k < |r| ensures AllChars(r[k], p) {
      if k > 0 { assert r[k] == Split(d)[k - 1]; }
    }
  }

  /** A leading word character with property `p` joins the first piece. */
  lemma SplitKeepsAfterChar(s: string, p: char -> bool)
    requires s != [] && !IsSeparator(s[0]) && p(s[0]) && PiecesHave(s[1..], p)
    ensures PiecesHave(s, p)
  {
    var r, t := Split(s), s[1..];
    var rest := Split(t);
    SplitCons(s[0], t);
    assert [s[0]] + t == s;
    forall k | 0 <= k < |r| ensures AllChars(r[k], p) {
      if k == 0 {
        AllCharsCons(s[0], rest[0], p);
      } else {
        assert r[k] == rest[k];
      }
    }
  }

  /** When every non-separator character of `s` has property `p`, every
      character of every piece has it. */
  lemma {:induction false} SplitKeeps(s: string, p: char -> bool)
    requires WordsHave(s, p)
    ensures PiecesHave(s, p)
    decreases |s|
  {
    if s == [] {
      assert Split(s) == [""];
    } else if IsSeparator(s[0]) {
      var d := DropSeparators(s);
      assert WordsHave(d, p) by {
        forall i | 0 <= i < |d| ensures IsSeparator(d[i]) || p(d[i]) {
          assert d[i] == s[|s| - |d| + i];
        }
      }
      SplitKeeps(d, p);
      SplitKeepsAfterRun(s, p);
    } else {
      var t := s[1..];
      assert WordsHave(t, p) by {
        forall i | 0 <= i < |t| ensures IsSeparator(t[i]) || p(t[i]) {
          assert t[i] == s[i + 1];
        }
      }
      SplitKeeps(t, p);
      SplitKeepsAfterChar(s, p);
    }
  }

  /** No piece of a split holds a separator. */
  lemma SplitPieces(s: string)
    ensures forall k, i :: 0 <= k < |Split(s)| && 0 <= i < |Split(s)[k]| ==> !IsSeparator(Split(s)[k][i])
  {
    SplitKeeps(s, NotSeparator);
    assert PiecesHave(s, NotSeparator);
    forall k, i | 0 <= k < |Split(s)| && 0 <= i < |Split(s)[k]|
      ensures !IsSeparator(Split(s)[k][i])
    {
      assert AllChars(Split(s)[k], NotSeparator);
      assert NotSeparator(Split(s)[k][i]);
    }
  }

  /** The pieces of a text with no upper-case letter have none either. */
  lemma SplitNoUpper(s: string)
    requires NoUpper(s)
    ensures forall k :: 0 <= k < |Split(s)| ==> NoUpper(Split(s)[k])
  {
    assert WordsHave(s, NotUpper) by {
      forall i | 0 <= i < |s| ensures IsSeparator(s[i]) || NotUpper(s[i]) {
      }
    }
    SplitKeeps(s, NotUpper);
    forall k | 0 <= k < |Split(s)|
      ensures NoUpper(Split(s)[k])
    {
      var w := Split(s)[k];
      assert AllChars(w, NotUpper);
      forall i | 0 <= i < |w| ensures !IsUpper(w[i]) {
        assert NotUpper(w[i]);
      }
    }
  }

  /** `word.charAt(0).toUpperCase() + word.slice(1)`. */
  function Capitalize(word: string): (r: string)
    ensures |r| == |word|
    ensures |word| > 0 ==> r[0] == UpperChar(word[0]) && r[1..] == word[1..]
  {
    if word == [] then [] else [UpperChar(word[0])] + word[1..]
  }

  /** `.map(Capitalize).join('')`. */
  function JoinCapitalized(words: seq<string>): string {
    if words == [] then "" else Capitalize(words[0]) + JoinCapitalized(words[1..])
  }

  /** `toPascalCase(str)`. */
  function ToPascalCase(str: string): (r: string)
    ensures forall i :: 0 <= i < |r| ==> !IsSeparator(r[i])
  {
    var words := Split(ToLower(str));
    SplitPieces(ToLower(str));
    JoinCapitalizedKeepsWords(words);
    JoinCapitalized(words)
  }

  /** The joined text contains no separator when no piece does. */
  lemma {:induction false} JoinCapitalizedKeepsWords(words: seq<string>)
    requires forall k, i :: 0 <= k < |words| && 0 <= i < |words[k]| ==> !IsSeparator(words[k][i])
    ensures forall i :: 0 <= i < |JoinCapitalized(words)| ==> !IsSeparator(JoinCapitalized(words)[i])
  {
    if words != [] {
      JoinCapitalizedKeepsWords(words[1..]);
      var w := words[0];
      var c := Capitalize(w);
      assert forall i :: 0 <= i < |c| ==> !IsSeparator(c[i]) by {
        forall i | 0 <= i < |c| ensures !IsSeparator(c[i]) {
          if i == 0 {
            assert !IsSeparator(w[0]);
          } else {
            assert c[i] == w[i];
          }
        }
      }
    }
  }

  /** `toPascalCase` read one character at a time, as a reference: every
      separator is dropped, and a character is upper-cased exactly when it
      starts a piece, that is when it comes first (`atStart` initially) or
      right after a separator. */
  function CapitalizeStarts(s: string, atStart: bool): string {
    if s == [] then ""
    else if IsSeparator(s[0]) then CapitalizeStarts(s[1..], true)
    else [if atStart then UpperChar(s[0]) else s[0]] + CapitalizeStarts(s[1..], false)
  }

  /** A separator run reads as one piece boundary. */
  lemma {:induction false} CapitalizeStartsAfterRun(s: string, atStart: bool)
    requires s != [] && IsSeparator(s[0])
    ensures CapitalizeStarts(s, atStart) == CapitalizeStarts(DropSeparators(s), true)
    decreases |s|
  {
    var t := s[1..];
    if t != [] && IsSeparator(t[0]) {
      CapitalizeStartsAfterRun(t, true);
    }
  }

  /** Splitting, capitalising each piece and joining agrees with the
      reference: after a piece boundary the text is the capitalised pieces;
      inside the first piece, that piece as it is and then the capitalised
      rest. */
  lemma {:induction false} JoinCapitalizedSplit(s: string)
    ensures CapitalizeStarts(s, true) == JoinCapitalized(Split(s))
    ensures CapitalizeStarts(s, false) == Split(s)[0] + JoinCapitalized(Split(s)[1..])
    decreases |s|
  {
    if s == [] {
      assert JoinCapitalized([""]) == "";
    } else if IsSeparator(s[0]) {
      JoinCapitalizedSplit(DropSeparators(s));
      JoinCapitalizedAfterRun(s);
    } else {
      JoinCapitalizedSplit(s[1..]);
      JoinCapitalizedAfterChar(s);
    }
  }

  /** The step of `JoinCapitalizedSplit` for a leading separator run. */
  lemma JoinCapitalizedAfterRun(s: string)
    requires s != [] && IsSeparator(s[0])
    requires CapitalizeStarts(DropSeparators(s), true) == JoinCapitalized(Split(DropSeparators(s)))
    ensures CapitalizeStarts(s, true) == JoinCapitalized(Split(s))
    ensures CapitalizeStarts(s, false) == Split(s)[0] + JoinCapitalized(Split(s)[1..])
  {
    var d := DropSeparators(s);
    CapitalizeStartsAfterRun(s, true);
    CapitalizeStartsAfterRun(s, false);
    var r := Split(s);
    assert r == [""] + Split(d);
    assert r[1..] == Split(d);
    assert JoinCapitalized(r) == Capitalize("") + JoinCapitalized(Split(d));
  }

  /** The step of `JoinCapitalizedSplit` for a leading word character. */
  lemma JoinCapitalizedAfterChar(s: string)
    requires s != [] && !IsSeparator(s[0])
    requires CapitalizeStarts(s[1..], false) == Split(s[1..])[0] + JoinCapitalized(Split(s[1..])[1..])
    ensures CapitalizeStarts(s, true) == JoinCapitalized(Split(s))
    ensures CapitalizeStarts(s, false) == Split(s)[0] + JoinCapitalized(Split(s)[1..])
  {
    var c, t := s[0], s[1..];
    assert [c] + t == s;
    var rest := Split(t);
    SplitCons(c, t);
    CapitalizeStartsCons(c, t, true);
    CapitalizeStartsCons(c, t, false);
    PieceAfterChar(c, rest[0], rest[1..]);
  }

  /** A non-separator at the front is kept, upper-cased when it starts a
      piece. */
  lemma CapitalizeStartsCons(c: char, t: string, atStart: bool)
    requires !IsSeparator(c)
    ensures CapitalizeStarts([c] + t, atStart) == [if atStart then UpperChar(c) else c] + CapitalizeStarts(t, false)
  {
    assert ([c] + t)[1..] == t;
  }

  /** The pieces `[c] + p` and then `more`, capitalised and joined. */
  lemma PieceAfterChar(c: char, p: string, more: seq<string>)
    ensures JoinCapitalized([[c] + p] + more) == [UpperChar(c)] + (p + JoinCapitalized(more))
    ensures ([[c] + p] + more)[0] + JoinCapitalized(([[c] + p] + more)[1..]) == [c] + (p + JoinCapitalized(more))
  {
    var w := [c] + p;
    var j := JoinCapitalized(more);
    CapitalizeFirstPiece(w, more);
    CapitalizeCons(c, p);
    AppendAssoc([UpperChar(c)], p, j);
    AppendAssoc([c], p, j);
    assert ([w] + more)[0] == w && ([w] + more)[1..] == more;
  }

  lemma CapitalizeCons(c: char, p: string)
    ensures Capitalize([c] + p) == [UpperChar(c)] + p
  {
    assert ([c] + p)[1..] == p;
  }

  lemma AppendAssoc(x: string, y: string, z: string)
    ensures (x + y) + z == x + (y + z)
  {
  }

  lemma CapitalizeFirstPiece(w: string, more: seq<string>)
    ensures JoinCapitalized([w] + more) == Capitalize(w) + JoinCapitalized(more)
  {
    assert ([w] + more)[1..] == more;
  }

  /** A separator-free word at the start: its first character is
      upper-cased when it starts a piece, and the rest follows it. */
  lemma {:induction false} CapitalizeStartsWord(w: string, rest: string, atStart: bool)
    requires w != [] && forall i :: 0 <= i < |w| ==> !IsSeparator(w[i])
    ensures CapitalizeStarts(w + rest, atStart) == [if atStart then UpperChar(w[0]) else w[0]] + w[1..] + CapitalizeStarts(rest, false)
    decreases |w|
  {
    assert (w + rest)[0] == w[0] && (w + rest)[1..] == w[1..] + rest;
    if |w| > 1 {
      CapitalizeStartsWord(w[1..], rest, false);
    }
  }

  /** A single separator: the text after it starts a piece. */
  lemma CapitalizeStartsSeparator(c: char, rest: string, atStart: bool)
    requires IsSeparator(c)
    ensures CapitalizeStarts([c] + rest, atStart) == CapitalizeStarts(rest, true)
  {
    assert ([c] + rest)[1..] == rest;
  }

  /** `toPascalCase` lowers the input, drops every separator, and
      upper-cases each character that starts a piece, leaving every other
      character lowered. */
  lemma PascalCaseByCharacter(str: string)
    ensures ToPascalCase(str) == CapitalizeStarts(ToLower(str), true)
  {
    JoinCapitalizedSplit(ToLower(str));
  }

  /** Mixed separators and letter case: `Foo_BAR baz` gives `FooBarBaz`. */
  lemma PascalCaseMixed()
    ensures ToPascalCase("Foo_BAR baz") == "FooBarBaz"
  {
    PascalCaseByCharacter("Foo_BAR baz");
    LowerMixed();
    CapitalizeStartsMixed();
  }

  lemma LowerMixed()
    ensures ToLower("Foo_BAR baz") == "foo_bar baz"
  {
  }

  lemma CapitalizeStartsMixed()
    ensures CapitalizeStarts("foo_bar baz", true) == "FooBarBaz"
  {
    CapitalizeStartsBarBaz();
    CapitalizeStartsSeparator('_', "bar baz", false);
    assert CapitalizeStarts("_bar baz", false) == "BarBaz";
    WordStarts('f', "oo", "_bar baz", "Foo");
    assert ['f'] + "oo" + "_bar baz" == "foo_bar baz";
    assert "Foo" + "BarBaz" == "FooBarBaz";
  }

  lemma CapitalizeStartsBarBaz()
    ensures CapitalizeStarts("bar baz", true) == "BarBaz"
  {
    CapitalizeStartsBaz();
    CapitalizeStartsSeparator(' ', "baz", false);
    assert CapitalizeStarts(" baz", false) == "Baz";
    WordStarts('b', "ar", " baz", "Bar");
    assert ['b'] + "ar" + " baz" == "bar baz";
    assert "Bar" + "Baz" == "BarBaz";
  }

  lemma CapitalizeStartsBaz()
    ensures CapitalizeStarts("baz", true) == "Baz"
  {
    WordStarts('b', "az", "", "Baz");
    assert "baz" == ['b'] + "az" + "";
  }

  /** The word `[c] + w` starting a piece, then `rest`. */
  lemma WordStarts(c: char, w: string, rest: string, cap: string)
    requires !IsSeparator(c) && forall i :: 0 <= i < |w| ==> !IsSeparator(w[i])
    requires cap == [UpperChar(c)] + w
    ensures CapitalizeStarts([c] + w + rest, true) == cap + CapitalizeStarts(rest, false)
  {
    CapitalizeStartsWord([c] + w, rest, true);
    assert ([c] + w)[1..] == w;
  }

  /** The input with every separator character deleted. */
  function RemoveSeparators(s: string): (r: string)
    ensures |r| <= |s|
  {
    if s == [] then ""
    else (if IsSeparator(s[0]) then "" else [s[0]]) + RemoveSeparators(s[1..])
  }

  /** How many separator characters `s` holds. */
  function SeparatorCount(s: string): nat {
    if s == [] then 0 else (if IsSeparator(s[0]) then 1 else 0) + SeparatorCount(s[1..])
  }

  function Concat(words: seq<string>): string {
    if words == [] then "" else words[0] + Concat(words[1..])
  }

  lemma {:induction false} RemoveSeparatorsAfterRun(s: string)
    ensures RemoveSeparators(DropSeparators(s)) == RemoveSeparators(s)
    decreases |s|
  {
    if s != [] && IsSeparator(s[0]) {
      RemoveSeparatorsAfterRun(s[1..]);
    }
  }

  /** Gluing the pieces of a split back together deletes exactly the
      separators. */
  lemma {:induction false} ConcatSplit(s: string)
    ensures Concat(Split(s)) == RemoveSeparators(s)
    decreases |s|
  {
    if s == [] {
    } else if IsSeparator(s[0]) {
      ConcatSplit(DropSeparators(s));
      RemoveSeparatorsAfterRun(s);
    } else {
      var rest := Split(s[1..]);
      ConcatSplit(s[1..]);
      calc {
        Concat(Split(s));
        ([s[0]] + rest[0]) + Concat(rest[1..]);
        [s[0]] + (rest[0] + Concat(rest[1..]));
        [s[0]] + Concat(rest);
        RemoveSeparators(s);
      }
    }
  }

  lemma ToLowerAppend(a: string, b: string)
    ensures ToLower(a + b) == ToLower(a) + ToLower(b)
  {
  }

  /** Lowering undoes capitalisation of a word with no upper-case letter. */
  lemma ToLowerCapitalize(word: string)
    requires NoUpper(word)
    ensures ToLower(Capitalize(word)) == word
  {
    if word != [] {
      assert ToLower(Capitalize(word))[0] == word[0];
    }
  }

  lemma {:induction false} ToLowerJoinCapitalized(words: seq<string>)
    requires forall k :: 0 <= k < |words| ==> NoUpper(words[k])
    ensures ToLower(JoinCapitalized(words)) == Concat(words)
  {
    if words != [] {
      ToLowerJoinCapitalized(words[1..]);
      ToLowerAppend(Capitalize(words[0]), JoinCapitalized(words[1..]));
      ToLowerCapitalize(words[0]);
    }
  }

  /** Up to letter case, `toPascalCase` is its lower-cased input with every
      separator deleted: the pieces are kept whole and in order. */
  lemma PascalCaseLowered(str: string)
    ensures ToLower(ToPascalCase(str)) == RemoveSeparators(ToLower(str))
  {
    var t := ToLower(str);
    SplitNoUpper(t);
    ToLowerJoinCapitalized(Split(t));
    ConcatSplit(t);
  }

  lemma {:induction false} RemoveSeparatorsLength(s: string)
    ensures |RemoveSeparators(s)| == |s| - SeparatorCount(s)
  {
    if s != [] {
      RemoveSeparatorsLength(s[1..]);
    }
  }

  lemma {:induction false} SeparatorCountToLower(s: string)
    ensures SeparatorCount(ToLower(s)) == SeparatorCount(s)
  {
    if s != [] {
      assert ToLower(s)[1..] == ToLower(s[1..]);
      SeparatorCountToLower(s[1..]);
    }
  }

  /** `toPascalCase` shortens its input by exactly the number of separator
      characters. */
  lemma PascalCaseLength(str: string)
    ensures |ToPascalCase(str)| == |str| - SeparatorCount(str)
  {
    PascalCaseLowered(str);
    RemoveSeparatorsLength(ToLower(str));
    SeparatorCountToLower(str);
  }

  /** A name that starts with a letter gives a PascalCase name starting with
      that letter in upper case. */
  lemma PascalCaseInitial(str: string)
    requires |str| > 0 && (IsLower(str[0]) || IsUpper(str[0]))
    ensures |ToPascalCase(str)| > 0 && IsUpper(ToPascalCase(str)[0])
    ensures ToPascalCase(str)[0] == UpperChar(LowerChar(str[0]))
  {
    var t := ToLower(str);
    var words := Split(t);
    assert words[0][0] == t[0];
  }

  lemma ToLowerOfNoUpper(s: string)
    requires NoUpper(s)
    ensures ToLower(s) == s
  {
  }

  lemma SplitKebab(a: string, b: string, c: string)
    requires forall i :: 0 <= i < |a| ==> IsLower(a[i])
    requires forall i :: 0 <= i < |b| ==> IsLower(b[i])
    requires forall i :: 0 <= i < |c| ==> IsLower(c[i])
    requires |b| > 0
    ensures Split(a + "-" + b + "-" + c) == [a, b, c]
  {
    var bc := b + "-" + c;
    LowerWordHasNoSeparator(a);
    LowerWordHasNoSeparator(b);
    LowerWordHasNoSeparator(c);
    assert IsSeparator("-"[0]);
    SplitWord(c);
    SplitWordThenRun(b, "-", c);
    assert Split(bc) == [b] + [c];
    assert bc[0] == b[0];
    assert a + "-" + b + "-" + c == a + "-" + bc;
    SplitWordThenRun(a, "-", bc);
  }

  lemma LowerWordHasNoSeparator(w: string)
    requires forall i :: 0 <= i < |w| ==> IsLower(w[i])
    ensures forall i :: 0 <= i < |w| ==> !IsSeparator(w[i])
  {
  }

  lemma JoinCapitalizedThree(a: string, b: string, c: string)
    ensures JoinCapitalized([a, b, c]) == Capitalize(a) + Capitalize(b) + Capitalize(c)
  {
    var abc, bc := [a, b, c], [b, c];
    assert abc[0] == a && abc[1..] == bc;
    assert bc[0] == b && bc[1..] == [c];
    assert [c][0] == c && [c][1..] == [];
    assert JoinCapitalized([c]) == Capitalize(c) + "";
    assert JoinCapitalized(bc) == Capitalize(b) + JoinCapitalized([c]);
    assert JoinCapitalized(abc) == Capitalize(a) + JoinCapitalized(bc);
  }

  /** Three lower-case words joined by `-` become the three words
      capitalised and glued together. */
  lemma PascalCaseOfKebab(a: string, b: string, c: string)
    requires forall i :: 0 <= i < |a| ==> IsLower(a[i])
    requires forall i :: 0 <= i < |b| ==> IsLower(b[i])
    requires forall i :: 0 <= i < |c| ==> IsLower(c[i])
    requires |b| > 0
    ensures ToPascalCase(a + "-" + b + "-" + c) == Capitalize(a) + Capitalize(b) + Capitalize(c)
  {
    var s := a + "-" + b + "-" + c;
    ToLowerOfNoUpper(s);
    SplitKebab(a, b, c);
    JoinCapitalizedThree(a, b, c);
  }

  /** `toPascalCase("blind-dex-pro")` is `BlindDexPro`: the upper-case
      letters of an acronym are lost, so the result differs from the
      registry's contract name `BlindDEXPro`. */
  lemma PascalCaseLosesAcronyms()
    ensures ToPascalCase("blind-dex-pro") == "BlindDexPro"
    ensures ToPascalCase("blind-dex-pro") != "BlindDEXPro"
  {
    PascalCaseOfKebab("blind", "dex", "pro");
    assert "blind" + "-" + "dex" + "-" + "pro" == "blind-dex-pro";
    assert Capitalize("blind") + Capitalize("dex") + Capitalize("pro") == "BlindDexPro";
  }

  /** A word with no separator splits into itself. */
  lemma {:induction false} SplitWord(w: string)
    requires forall i :: 0 <= i < |w| ==> !IsSeparator(w[i])
    ensures Split(w) == [w]
  {
    if w != [] {
      SplitWord(w[1..]);
      assert [w[0]] + w[1..] == w;
    }
  }

  /** A separator-free word, one separator run, and the rest: the word is the
      first piece and the rest splits on its own. */
  lemma {:induction false} SplitWordThenRun(w: string, run: string, rest: string)
    requires forall i :: 0 <= i < |w| ==> !IsSeparator(w[i])
    requires |run| > 0 && forall i :: 0 <= i < |run| ==> IsSeparator(run[i])
    requires rest == [] || !IsSeparator(rest[0])
    ensures Split(w + run + rest) == [w] + Split(rest)
  {
    if w == [] {
      assert w + run + rest == run + rest;
      SplitRun(run, rest);
    } else {
      var t := w[1..] + run + rest;
      assert w + run + rest == [w[0]] + t;
      SplitWordThenRun(w[1..], run, rest);
      SplitCons(w[0], t);
      assert [w[0]] + w[1..] == w;
    }
  }

  lemma {:induction false} DropRun(run: string, rest: string)
    requires forall i :: 0 <= i < |run| ==> IsSeparator(run[i])
    requires rest == [] || !IsSeparator(rest[0])
    ensures DropSeparators(run + rest) == rest
  {
    if run != [] {
      assert (run + rest)[1..] == run[1..] + rest;
      DropRun(run[1..], rest);
    }
  }

  // ---------------------------------------------------------------------
  // toCamelCase and the class-name helpers
  // ---------------------------------------------------------------------

  /** `toCamelCase(str)`: the PascalCase form with its first character
      lowered. */
  function ToCamelCase(str: string): (r: string)
    ensures |r| > 0 ==> !IsUpper(r[0])
  {
    var pascal := ToPascalCase(str);
    if pascal == [] then "" else [LowerChar(pascal[0])] + pascal[1..]
  }

  /** `toCamelCase` and `toPascalCase` agree everywhere but in the case of
      their first character. */
  lemma CamelCaseAgreesWithPascalCase(str: string)
    ensures |ToCamelCase(str)| == |ToPascalCase(str)|
    ensures |ToCamelCase(str)| > 0 ==> ToCamelCase(str)[1..] == ToPascalCase(str)[1..]
    ensures ToLower(ToCamelCase(str)) == ToLower(ToPascalCase(str))
  {
    var p := ToPascalCase(str);
    if p != [] {
      var c := ToCamelCase(str);
      assert ToLower(c)[0] == ToLower(p)[0];
      assert forall i :: 1 <= i < |c| ==> c[i] == p[i];
    }
  }

  /** `getContractClassName(categoryName)`. */
  function GetContractClassName(categoryName: string): (r: string)
    ensures forall i :: 0 <= i < |r| ==> !IsSeparator(r[i])
  {
    ToPascalCase(categoryName)
  }

  /** `getTestClassName(categoryName)`: the contract class name followed by
      `Test`. */
  function GetTestClassName(categoryName: string): (r: string)
    ensures EndsWith(r, "Test")
    ensures r[..|r| - 4] == GetContractClassName(categoryName)
  {
    ToPascalCase(categoryName) + "Test"
  }
}
