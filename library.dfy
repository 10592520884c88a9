/** The library lending tracker: a title to copies map with add, borrow (only
    while copies remain) and return. Every typed title is stripped and put in
    title case before any lookup; the transition functions below take the
    normalised title, the class methods the typed one. */
module Library {
  import opened Text

  /** The `library_inventory` the script starts with. */
  const SeededCopies: map<string, int> :=
    map["The Great Gatsby" := 3, "1984" := 2, "Pride and Prejudice" := 4, "Moby Dick" := 0]

  /** The same table with every title in the form a typed title takes after
      normalisation. */
  const NormalisedCopies: map<string, int> :=
    map["The Great Gatsby" := 3, "1984" := 2, "Pride And Prejudice" := 4, "Moby Dick" := 0]

  /** The title every typed title is looked up under: already in title
      case, and with no whitespace at either end. */
  function NormaliseTitle(entered: string): (title: string)
    ensures TitleCase(title) == title
    ensures title != [] ==> !IsSpace(title[0]) && !IsSpace(title[|title| - 1])
  {
    var stripped := Strip(entered);
    TitleCaseIdempotent(stripped);
    StripSlice(entered);
    TitleCaseKeepsSpaces(stripped);
    TitleCase(stripped)
  }

  /** Only `title` may differ between the two maps: every other title is
      present in both or in neither, with the same count. */
  ghost predicate OnlyTitleChanged(m: map<string, int>, m': map<string, int>, title: string)
  {
    forall t :: t != title ==> (t in m <==> t in m') && (t in m ==> m[t] == m'[t])
  }

  /** No count is negative. */
  ghost predicate NonNegative(m: map<string, int>)
  {
    forall t :: t in m ==> m[t] >= 0
  }

  // ---------------------------------------------------------------------
  // Adding

  datatype AddOutcome = EmptyTitle | NegativeQuantity | Restocked | Inserted

  /** `add_book` with the entered title and quantity as parameters: an empty
      title or a negative quantity changes nothing; otherwise a known title
      gains the copies and an unknown one is inserted with them. */
  function AddBookTo(m: map<string, int>, title: string, quantity: int): (r: (AddOutcome, map<string, int>))
    ensures r.0 == EmptyTitle <==> title == ""
    ensures r.0 == NegativeQuantity <==> title != "" && quantity < 0
    ensures r.0 == Restocked <==> title != "" && quantity >= 0 && title in m
    ensures r.0 == EmptyTitle || r.0 == NegativeQuantity ==> r.1 == m
    ensures r.0 == Restocked ==> title in r.1 && r.1[title] == m[title] + quantity
    ensures r.0 == Inserted ==> title !in m && title in r.1 && r.1[title] == quantity
    ensures OnlyTitleChanged(m, r.1, title)
    ensures NonNegative(m) ==> NonNegative(r.1)
  {
    if title == "" then (EmptyTitle, m)
    else if quantity < 0 then (NegativeQuantity, m)
    else if title in m then (Restocked, m[title := m[title] + quantity])
    else (Inserted, m[title := quantity])
  }

  // ---------------------------------------------------------------------
  // Borrowing

  datatype BorrowOutcome = NotInCollection | AllBorrowed | Borrowed

  /** `borrow_book`: an unknown title, or one with no copies left, changes
      nothing; otherwise exactly that title loses one copy. */
  function BorrowFrom(m: map<string, int>, title: string): (r: (BorrowOutcome, map<string, int>))
    ensures r.0 == NotInCollection <==> title !in m
    ensures r.0 == Borrowed <==> title in m && m[title] > 0
    ensures !r.0.Borrowed? ==> r.1 == m
    ensures r.0.Borrowed? ==> title in r.1 && r.1[title] == m[title] - 1
    ensures OnlyTitleChanged(m, r.1, title)
    ensures NonNegative(m) ==> NonNegative(r.1)
  {
    if title !in m then (NotInCollection, m)
    else if m[title] > 0 then (Borrowed, m[title := m[title] - 1])
    else (AllBorrowed, m)
  }

  // ---------------------------------------------------------------------
  // Returning

  datatype ReturnOutcome = Returned | AddedOnReturn | ReturnCanceled

  /** `return_book` with the answer to "add it?" as a parameter (already
      lower-cased and stripped, see `ReturnBook`): a known title gains one copy; an unknown one
      is inserted with one copy only on "y"; any other answer changes nothing. */
  function ReturnTo(m: map<string, int>, title: string, answer: string): (r: (ReturnOutcome, map<string, int>))
    ensures r.0 == Returned <==> title in m
    ensures r.0 == AddedOnReturn <==> title !in m && answer == "y"
    ensures r.0 == Returned ==> title in r.1 && r.1[title] == m[title] + 1
    ensures r.0 == AddedOnReturn ==> r.1 == m[title := 1]
    ensures r.0 == ReturnCanceled ==> r.1 == m
    ensures OnlyTitleChanged(m, r.1, title)
    ensures NonNegative(m) ==> NonNegative(r.1)
  {
    if title !in m then
      if answer == "y" then (AddedOnReturn, m[title := 1]) else (ReturnCanceled, m)
    else (Returned, m[title := m[title] + 1])
  }

  /** Returning a borrowed title restores the table as it was before the
      borrow. */
  lemma ReturnUndoesBorrow(m: map<string, int>, title: string, answer: string)
    requires BorrowFrom(m, title).0 == Borrowed
    ensures ReturnTo(BorrowFrom(m, title).1, title, answer) == (Returned, m)
  {
    var m' := BorrowFrom(m, title).1;
    assert m'[title := m'[title] + 1] == m;
  }

  /** A borrow right after a return of a known title always succeeds and
      restores the table. */
  lemma BorrowUndoesReturn(m: map<string, int>, title: string, answer: string)
    requires NonNegative(m) && title in m
    ensures BorrowFrom(ReturnTo(m, title, answer).1, title) == (Borrowed, m)
  {
    var m' := ReturnTo(m, title, answer).1;
    assert m'[title := m'[title] - 1] == m;
  }

  // ---------------------------------------------------------------------
  // The lending table

  class LibraryInventory {
    var copies: map<string, int>

    /** Every count stays non-negative. */
    ghost predicate Valid()
      reads this
    {
      NonNegative(copies)
    }

    /** The table the script starts with, as written. */
    constructor ()
      ensures copies == SeededCopies
      ensures Valid()
    {
      copies := SeededCopies;
    }

    /** The starting table with its titles in normalised form, so that every
        seeded title can be reached. */
    constructor Normalised()
      ensures copies == NormalisedCopies
      ensures Valid()
    {
      copies := NormalisedCopies;
    }

    /** `add_book` with the typed title and quantity. */
    method AddBook(entered: string, quantity: int) returns (outcome: AddOutcome)
      requires Valid()
      modifies this
      ensures (outcome, copies) == AddBookTo(old(copies), NormaliseTitle(entered), quantity)
      ensures Valid()
    {
      var title := NormaliseTitle(entered);
      if title == "" {
        return EmptyTitle;
      }
      if quantity < 0 {
        return NegativeQuantity;
      }
      if title in copies {
        copies := copies[title := copies[title] + quantity];
        outcome := Restocked;
      } else {
        copies := copies[title := quantity];
        outcome := Inserted;
      }
    }

    /** `borrow_book` with the typed title. */
    method BorrowBook(entered: string) returns (outcome: BorrowOutcome)
      requires Valid()
      modifies this
      ensures (outcome, copies) == BorrowFrom(old(copies), NormaliseTitle(entered))
      ensures Valid()
    {
      var title := NormaliseTitle(entered);
      if title !in copies {
        return NotInCollection;
      }
      var current := copies[title];
      if current > 0 {
        copies := copies[title := current - 1];
        outcome := Borrowed;
      } else {
        outcome := AllBorrowed;
      }
    }

    /** `return_book` with the typed title and the typed answer, which is
        lower-cased and stripped before it is compared with "y". */
    method ReturnBook(entered: string, typedAnswer: string) returns (outcome: ReturnOutcome)
      requires Valid()
      modifies this
      ensures (outcome, copies) == ReturnTo(old(copies), NormaliseTitle(entered), Strip(Lower(typedAnswer)))
      ensures Valid()
    {
      var title := NormaliseTitle(entered);
      if title !in copies {
        var answer := Strip(Lower(typedAnswer));
        if answer == "y" {
          copies := copies[title := 1];
          outcome := AddedOnReturn;
        } else {
          outcome := ReturnCanceled;
        }
        return;
      }
      copies := copies[title := copies[title] + 1];
      outcome := Returned;
    }
  }

  /** No typed title reaches the seeded "Pride and Prejudice": after title
      casing, the letter that follows the space before "and" is upper case. */
  lemma SeededTitleUnreachable(entered: string)
    ensures NormaliseTitle(entered) != "Pride and Prejudice"
    ensures "Pride and Prejudice" in SeededCopies
  {
    var t := NormaliseTitle(entered);
    if t == "Pride and Prejudice" {
      assert t[5] == ' ' && t[6] == 'a';
      TitleCaseNoLowerWordStart(Strip(entered), 6);
    }
  }

  /** A word of lower-case letters `w` and the same word capitalised, `t`,
      both title-case to `t`. */
  lemma WordTitleCase(w: string, t: string)
    requires w != [] && |t| == |w| && IsLower(w[0]) && t[0] == UpperChar(w[0]) && t[1..] == w[1..]
    requires forall i :: 0 < i < |w| ==> IsLower(w[i])
    ensures TitleCase(w) == t && TitleCase(t) == t
  {
    TitleCaseWord(w);
    TitleCaseWord(t);
    assert t == [UpperChar(w[0])] + w[1..] == [UpperChar(t[0])] + t[1..];
  }

  /** Three words separated by single spaces title-case word by word. */
  lemma TitleCaseThreeWords(a: string, b: string, c: string)
    ensures TitleCase(a + " " + b + " " + c) == TitleCase(a) + " " + TitleCase(b) + " " + TitleCase(c)
  {
    TitleCaseSplit(b, ' ', c);
    TitleCaseSplit(a, ' ', b + [' '] + c);
    assert a + " " + b + " " + c == a + [' '] + (b + [' '] + c);
    assert TitleCase(a) + " " + TitleCase(b) + " " + TitleCase(c)
      == TitleCase(a) + [' '] + (TitleCase(b) + [' '] + TitleCase(c));
  }

  /** A typed title of three words separated by single spaces, with no
      surrounding whitespace, is looked up under its words in title case. */
  lemma NormaliseThreeWords(a: string, b: string, c: string)
    requires a != [] && !IsSpace(a[0]) && c != [] && !IsSpace(c[|c| - 1])
    ensures NormaliseTitle(a + " " + b + " " + c) == TitleCase(a) + " " + TitleCase(b) + " " + TitleCase(c)
  {
    var s := a + " " + b + " " + c;
    assert s[0] == a[0] && s[|s| - 1] == c[|c| - 1];
    StripKeeps(s);
    TitleCaseThreeWords(a, b, c);
  }

  /** The words of the seeded titles, typed in lower case or capitalised,
      title-case to their capitalised form. */
  lemma TheWord()
    ensures TitleCase("the") == "The" && TitleCase("The") == "The"
  {
    WordTitleCase("the", "The");
  }

  lemma GreatWord()
    ensures TitleCase("great") == "Great" && TitleCase("Great") == "Great"
  {
    WordTitleCase("great", "Great");
  }

  lemma GatsbyWord()
    ensures TitleCase("gatsby") == "Gatsby" && TitleCase("Gatsby") == "Gatsby"
  {
    WordTitleCase("gatsby", "Gatsby");
  }

  lemma PrideWord()
    ensures TitleCase("pride") == "Pride" && TitleCase("Pride") == "Pride"
  {
    WordTitleCase("pride", "Pride");
  }

  lemma AndWord()
    ensures TitleCase("and") == "And" && TitleCase("And") == "And"
  {
    WordTitleCase("and", "And");
  }

  lemma PrejudiceWord()
    ensures TitleCase("prejudice") == "Prejudice" && TitleCase("Prejudice") == "Prejudice"
  {
    WordTitleCase("prejudice", "Prejudice");
  }

  lemma MobyWord()
    ensures TitleCase("moby") == "Moby" && TitleCase("Moby") == "Moby"
  {
    WordTitleCase("moby", "Moby");
  }

  lemma DickWord()
    ensures TitleCase("dick") == "Dick" && TitleCase("Dick") == "Dick"
  {
    WordTitleCase("dick", "Dick");
  }

  lemma GatsbyNormal()
    ensures NormaliseTitle("The Great Gatsby") == "The Great Gatsby"
  {
    assert "The Great Gatsby" == "The" + " " + "Great" + " " + "Gatsby";
    NormaliseThreeWords("The", "Great", "Gatsby");
    TheWord();
    GreatWord();
    GatsbyWord();
  }

  lemma NineteenEightyFourNormal()
    ensures NormaliseTitle("1984") == "1984"
  {
    assert Strip("1984") == "1984";
    forall i | 0 <= i < 4 ensures TitleCase("1984")[i] == "1984"[i] {
    }
  }

  lemma PrideNormal()
    ensures NormaliseTitle("Pride And Prejudice") == "Pride And Prejudice"
  {
    PrideWords();
    NormaliseThreeWords("Pride", "And", "Prejudice");
    PrideWord();
    AndWord();
    PrejudiceWord();
  }

  lemma PrideWords()
    ensures "pride and prejudice" == "pride" + " " + "and" + " " + "prejudice"
    ensures "Pride And Prejudice" == "Pride" + " " + "And" + " " + "Prejudice"
  {
  }

  /** Typed in lower case, the title is looked up as "Pride And Prejudice". */
  lemma PrideTyped()
    ensures NormaliseTitle("pride and prejudice") == "Pride And Prejudice"
  {
    PrideWords();
    NormaliseThreeWords("pride", "and", "prejudice");
    PrideWord();
    AndWord();
    PrejudiceWord();
  }

  lemma MobyNormal(w: string)
    requires w == "moby dick" || w == "Moby Dick"
    ensures NormaliseTitle(w) == "Moby Dick"
  {
    MobyWord();
    DickWord();
    var a, b := w[..4], w[5..];
    assert a == "moby" || a == "Moby";
    assert b == "dick" || b == "Dick";
    TitleCaseSplit(a, ' ', b);
    assert w == a + [' '] + b;
    assert Strip(w) == w;
  }

  /** Every title of the normalised starting table is its own normal form, so
      typing it exactly finds it. */
  lemma NormalisedTitlesReachable(t: string)
    requires t in NormalisedCopies
    ensures NormaliseTitle(t) == t
  {
    if t == "The Great Gatsby" {
      GatsbyNormal();
    } else if t == "1984" {
      NineteenEightyFourNormal();
    } else if t == "Pride And Prejudice" {
      PrideNormal();
    } else {
      MobyNormal(t);
    }
  }

  /** "Moby Dick" starts with no copies: borrowing it is refused until one is
      returned; the title is typed in lower case. */
  method MobyDickScenario()
  {
    MobyNormal("moby dick");
    var library := new LibraryInventory();
    assert "Moby Dick" in library.copies && library.copies["Moby Dick"] == 0;
    var first := library.BorrowBook("moby dick");
    assert first == AllBorrowed;
    assert Lower("n") == "n";
    StripKeeps("n");
    var back := library.ReturnBook("moby dick", "n");
    assert back == Returned;
    assert library.copies["Moby Dick"] == 1;
    var second := library.BorrowBook("moby dick");
    assert second == Borrowed;
    assert library.copies["Moby Dick"] == 0;
  }

  /** As written, the seeded "Pride and Prejudice" is out of reach of any
      typed title; in the normalised table it is found. */
  method SeededTitleScenario()
  {
    SeededTitleUnreachable("pride and prejudice");
    PrideTyped();
    var library := new LibraryInventory();
    var missing := library.BorrowBook("pride and prejudice");
    assert missing == NotInCollection;

    var normalised := new LibraryInventory.Normalised();
    var found := normalised.BorrowBook("pride and prejudice");
    assert found == Borrowed;
  }
}
