/** The string normalisations the scripts apply to what the user types:
    `str.lower()` for product names and answers, `str.title()` for book
    titles. Only ASCII letters are cased here. */
module Text {

  predicate IsUpper(c: char)
  {
    'A' <= c <= 'Z'
  }

  predicate IsLower(c: char)
  {
    'a' <= c <= 'z'
  }

  /** A cased character: the only kind `title()` treats as part of a word. */
  predicate IsLetter(c: char)
  {
    IsUpper(c) || IsLower(c)
  }

  /** The ASCII lower case of `c`: an upper-case letter moves 32 code points
      up to its lower-case partner, anything else is kept. */
  function LowerChar(c: char): (r: char)
    ensures IsLetter(c) ==> IsLower(r)
    ensures IsUpper(c) ==> r as int == c as int + 32
    ensures !IsUpper(c) ==> r == c
  {
    if IsUpper(c) then (c as int + 32) as char else c
  }

  /** The ASCII upper case of `c`: a lower-case letter moves 32 code points
      down to its upper-case partner, anything else is kept. */
  function UpperChar(c: char): (r: char)
    ensures IsLetter(c) ==> IsUpper(r)
    ensures IsLower(c) ==> r as int == c as int - 32
    ensures !IsLower(c) ==> r == c
  {
    if IsLower(c) then (c as int - 32) as char else c
  }

  /** `str.lower()`. */
  function Lower(s: string): (r: string)
    ensures |r| == |s|
    ensures forall i :: 0 <= i < |s| ==> (IsLetter(s[i]) ==> IsLower(r[i]))
    ensures forall i :: 0 <= i < |s| ==> (IsUpper(s[i]) ==> r[i] as int == s[i] as int + 32)
    ensures forall i :: 0 <= i < |s| ==> (!IsUpper(s[i]) ==> r[i] == s[i])
  {
    seq(|s|, i requires 0 <= i < |s| => LowerChar(s[i]))
  }

  /** `x` and `y` are the same character, or the upper- and lower-case forms
      of one ASCII letter. */
  predicate SameIgnoringCase(x: char, y: char)
  {
    x == y || (IsLetter(x) && IsLetter(y) && (x as int - y as int == 32 || y as int - x as int == 32))
  }

  /** Two characters lower-case alike exactly when they are equal up to
      case. */
  lemma LowerCharMatch(x: char, y: char)
    ensures LowerChar(x) == LowerChar(y) <==> SameIgnoringCase(x, y)
  {
  }

  /** Two strings lower-case alike exactly when they have the same length
      and agree position by position up to case. */
  lemma LowerMatch(a: string, b: string)
    ensures Lower(a) == Lower(b) <==>
      |a| == |b| && forall i :: 0 <= i < |a| ==> SameIgnoringCase(a[i], b[i])
  {
    if Lower(a) == Lower(b) {
      forall i | 0 <= i < |a| ensures SameIgnoringCase(a[i], b[i]) {
        assert Lower(a)[i] == LowerChar(a[i]) && Lower(b)[i] == LowerChar(b[i]);
        LowerCharMatch(a[i], b[i]);
      }
    }
    if |a| == |b| && forall i :: 0 <= i < |a| ==> SameIgnoringCase(a[i], b[i]) {
      forall i | 0 <= i < |a| ensures Lower(a)[i] == Lower(b)[i] {
        LowerCharMatch(a[i], b[i]);
      }
    }
  }

  /** Lower-casing twice is lower-casing once. */
  lemma LowerIdempotent(s: string)
    ensures Lower(Lower(s)) == Lower(s)
  {
    forall i | 0 <= i < |s| ensures LowerChar(LowerChar(s[i])) == LowerChar(s[i]) {
    }
  }

  /** A character `str.strip()` removes: the ASCII whitespace and separator
      characters (tab to carriage return, the four separators 0x1C to 0x1F,
      and the space). */
  predicate IsSpace(c: char)
  {
    '\t' <= c <= '\r' || '\U{1C}' <= c <= ' '
  }

  /** Leading whitespace removed. */
  function StripStart(s: string): string
  {
    if s != [] && IsSpace(s[0]) then StripStart(s[1..]) else s
  }

  /** What is left after removing leading whitespace is a suffix of `s`,
      everything dropped is whitespace, and what is left does not start with
      any. */
  lemma {:induction false} StripStartFacts(s: string)
    ensures var r := StripStart(s);
      && |r| <= |s| && r == s[|s| - |r|..]
      && (forall i :: 0 <= i < |s| - |r| ==> IsSpace(s[i]))
      && (r != [] ==> !IsSpace(r[0]))
  {
    if s != [] && IsSpace(s[0]) {
      var t := s[1..];
      StripStartFacts(t);
      var r := StripStart(t);
      assert StripStart(s) == r;
      assert t[|t| - |r|..] == s[|s| - |r|..];
      forall i | 0 <= i < |s| - |r| ensures IsSpace(s[i]) {
        if i > 0 {
          assert s[i] == t[i - 1];
        }
      }
    }
  }

  /** Trailing whitespace removed. */
  function StripEnd(s: string): string
  {
    if s != [] && IsSpace(s[|s| - 1]) then StripEnd(s[..|s| - 1]) else s
  }

  /** What is left after removing trailing whitespace is a prefix of `s`,
      everything dropped is whitespace, and what is left does not end with
      any. */
  lemma {:induction false} StripEndFacts(s: string)
    ensures var r := StripEnd(s);
      && |r| <= |s| && r == s[..|r|]
      && (forall i :: |r| <= i < |s| ==> IsSpace(s[i]))
      && (r != [] ==> !IsSpace(r[|r| - 1]))
  {
    if s != [] && IsSpace(s[|s| - 1]) {
      var t := s[..|s| - 1];
      StripEndFacts(t);
      var r := StripEnd(t);
      assert StripEnd(s) == r;
      assert t[..|r|] == s[..|r|];
      forall i | |r| <= i < |s| ensures IsSpace(s[i]) {
        if i < |s| - 1 {
          assert s[i] == t[i];
        }
      }
    }
  }

  /** `r` is the slice of `s` starting at `i`, with only whitespace before
      and after it. */
  ghost predicate SliceBetweenSpaces(s: string, r: string, i: int)
  {
    && 0 <= i <= |s| - |r| && r == s[i..i + |r|]
    && (forall j :: 0 <= j < i ==> IsSpace(s[j]))
    && (forall j :: i + |r| <= j < |s| ==> IsSpace(s[j]))
  }

  /** `r` is what is left of `s` with the whitespace around it removed: a
      slice of `s` with only whitespace around it, neither starting nor ending
      with whitespace itself. */
  ghost predicate TrimmedFrom(s: string, r: string)
  {
    && (exists i :: SliceBetweenSpaces(s, r, i))
    && (r != [] ==> !IsSpace(r[0]) && !IsSpace(r[|r| - 1]))
  }

  /** `str.strip()`: leading, then trailing whitespace removed. */
  function Strip(s: string): string
  {
    StripEnd(StripStart(s))
  }

  /** The strip of `s` is the slice of `s` that neither starts nor ends with
      whitespace, everything around it being whitespace. */
  lemma StripSlice(s: string)
    ensures exists i :: SliceBetweenSpaces(s, Strip(s), i)
    ensures Strip(s) != [] ==> !IsSpace(Strip(s)[0]) && !IsSpace(Strip(s)[|Strip(s)| - 1])
  {
    var t := StripStart(s);
    var r := StripEnd(t);
    StripStartFacts(s);
    StripEndFacts(t);
    assert s[|s| - |t|..][..|r|] == s[|s| - |t|..|s| - |t| + |r|];
    forall j | |s| - |t| + |r| <= j < |s| ensures IsSpace(s[j]) {
      assert s[j] == t[j - (|s| - |t|)];
    }
    assert Strip(s) == r;
    assert SliceBetweenSpaces(s, r, |s| - |t|);
  }

  /** A string that neither starts nor ends with whitespace is its own
      strip. */
  lemma StripKeeps(s: string)
    requires s != [] && !IsSpace(s[0]) && !IsSpace(s[|s| - 1])
    ensures Strip(s) == s
  {
  }

  /** `str.title()`: a letter that follows a letter is lower-cased, any other
      letter (the first of a word) is upper-cased, and every other character
      is kept and ends the word. */
  function TitleCase(s: string): string
  {
    seq(|s|, i requires 0 <= i < |s| =>
      if !IsLetter(s[i]) then s[i]
      else if i > 0 && IsLetter(s[i - 1]) then LowerChar(s[i])
      else UpperChar(s[i]))
  }

  /** What title casing does at one position. */
  lemma TitleCaseAt(s: string, i: int)
    requires 0 <= i < |s|
    ensures !IsLetter(s[i]) ==> TitleCase(s)[i] == s[i]
    ensures (i == 0 || !IsLetter(s[i - 1])) ==> TitleCase(s)[i] == UpperChar(s[i])
    ensures (i > 0 && IsLetter(s[i - 1])) ==> TitleCase(s)[i] == LowerChar(s[i])
    ensures IsLetter(TitleCase(s)[i]) <==> IsLetter(s[i])
    ensures IsLetter(s[i]) && (i == 0 || !IsLetter(s[i - 1])) ==> IsUpper(TitleCase(s)[i])
    ensures i > 0 && IsLetter(s[i]) && IsLetter(s[i - 1]) ==> IsLower(TitleCase(s)[i])
  {
  }

  /** What title casing does, position by position: the length and which
      positions hold letters are kept; a letter that starts a word becomes
      upper case, a letter inside a word lower case; any other character is
      kept. */
  lemma TitleCaseFacts(s: string)
    ensures |TitleCase(s)| == |s|
    ensures forall i :: 0 <= i < |s| ==> (IsLetter(TitleCase(s)[i]) <==> IsLetter(s[i]))
    ensures forall i :: 0 <= i < |s| && IsLetter(s[i]) && (i == 0 || !IsLetter(s[i - 1])) ==> IsUpper(TitleCase(s)[i])
    ensures forall i :: 0 < i < |s| && IsLetter(s[i]) && IsLetter(s[i - 1]) ==> IsLower(TitleCase(s)[i])
    ensures forall i :: 0 <= i < |s| && !IsLetter(s[i]) ==> TitleCase(s)[i] == s[i]
    ensures |s| > 0 ==> TitleCase(s)[0] == UpperChar(s[0])
    ensures forall i :: 0 < i < |s| && !IsLetter(s[i - 1]) ==> TitleCase(s)[i] == UpperChar(s[i])
    ensures forall i :: 0 < i < |s| && IsLetter(s[i - 1]) ==> TitleCase(s)[i] == LowerChar(s[i])
  {
    var r := TitleCase(s);
    forall i | 0 <= i < |s| ensures IsLetter(r[i]) <==> IsLetter(s[i]) {
      TitleCaseAt(s, i);
    }
    forall i | 0 <= i < |s| && IsLetter(s[i]) && (i == 0 || !IsLetter(s[i - 1])) ensures IsUpper(r[i]) {
      TitleCaseAt(s, i);
    }
    forall i | 0 < i < |s| && IsLetter(s[i]) && IsLetter(s[i - 1]) ensures IsLower(r[i]) {
      TitleCaseAt(s, i);
    }
    forall i | 0 <= i < |s| && !IsLetter(s[i]) ensures r[i] == s[i] {
      TitleCaseAt(s, i);
    }
    if |s| > 0 {
      TitleCaseAt(s, 0);
    }
    forall i | 0 < i < |s| && !IsLetter(s[i - 1]) ensures r[i] == UpperChar(s[i]) {
      TitleCaseAt(s, i);
    }
    forall i | 0 < i < |s| && IsLetter(s[i - 1]) ensures r[i] == LowerChar(s[i]) {
      TitleCaseAt(s, i);
    }
  }

  /** A word made of one letter followed by lower-case letters title-cases to
      its first letter in upper case followed by the rest as it is. */
  lemma TitleCaseWord(w: string)
    requires w != [] && IsLetter(w[0])
    requires forall i :: 0 < i < |w| ==> IsLower(w[i])
    ensures TitleCase(w) == [UpperChar(w[0])] + w[1..]
  {
    var r := [UpperChar(w[0])] + w[1..];
    forall i | 0 <= i < |w| ensures TitleCase(w)[i] == r[i] {
      if i > 0 {
        assert IsLetter(w[i - 1]) && r[i] == w[i];
      }
    }
  }

  /** Title-casing a title-cased string changes nothing. */
  lemma {:induction false} TitleCaseIdempotent(s: string)
    ensures TitleCase(TitleCase(s)) == TitleCase(s)
  {
    var r := TitleCase(s);
    TitleCaseFacts(s);
    TitleCaseFacts(r);
    forall i | 0 <= i < |s| ensures TitleCase(r)[i] == r[i] {
      if IsLetter(s[i]) {
        if i > 0 && IsLetter(s[i - 1]) {
          assert IsLetter(r[i - 1]) && IsLower(r[i]);
        } else {
          assert i == 0 || !IsLetter(r[i - 1]);
          assert IsUpper(r[i]);
        }
      }
    }
  }

  /** Title casing works word by word: a non-letter separates what comes
      before it from what comes after. */
  lemma TitleCaseSplit(a: string, c: char, b: string)
    requires !IsLetter(c)
    ensures TitleCase(a + [c] + b) == TitleCase(a) + [c] + TitleCase(b)
  {
    var s := a + [c] + b;
    var r := TitleCase(a) + [c] + TitleCase(b);
    forall i | 0 <= i < |s| ensures TitleCase(s)[i] == r[i] {
      if i > |a| {
        assert s[i] == b[i - |a| - 1];
        assert i - 1 == |a| ==> s[i - 1] == c;
        assert i - 1 > |a| ==> s[i - 1] == b[i - |a| - 2];
      } else if i < |a| {
        assert s[i] == a[i];
      }
    }
  }

  /** Title casing never turns whitespace into anything else, nor anything
      else into whitespace. */
  lemma TitleCaseKeepsSpaces(s: string)
    ensures |TitleCase(s)| == |s|
    ensures forall i :: 0 <= i < |s| ==> (IsSpace(TitleCase(s)[i]) <==> IsSpace(s[i]))
  {
  }

  /** In a title-cased string a lower-case letter always follows a letter:
      no word starts with one. */
  lemma TitleCaseNoLowerWordStart(s: string, i: int)
    requires 0 <= i < |s| && IsLower(TitleCase(s)[i])
    ensures i > 0 && IsLetter(TitleCase(s)[i - 1])
  {
    TitleCaseFacts(s);
    assert IsLetter(s[i]);
  }
}
