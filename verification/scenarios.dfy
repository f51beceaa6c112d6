/**
  Concrete interactions with the contact form: four example submissions
  (all valid, empty name, malformed e-mail, all empty) and the edge cases
  of the unanchored e-mail pattern.
 */
module Scenarios {
  import opened EmailPattern
  import opened ContactForm

  /** A form holding the given values, with no popup and no error message. */
  function Filled(name: string, email: string, message: string): Form {
    Form(name, email, message, false, false, false, false)
  }

  /** Characters around a match do not matter, because the pattern is unanchored. */
  lemma SurroundedAddressMatches()
    ensures ContainsMatch("x a@b.c!")
  {
    assert MatchSpan("x a@b.c!", 2, 3, 5, 7);
  }

  /** Two dots in a row break the last `\w+`: "a@b..c" has no match. */
  lemma DoubleDotFails()
    ensures !ContainsMatch("a@b..c")
  {
    var s := "a@b..c";
    assert !FindFrom(s, 0) by {
      assert WordRunEnd(s, 2) == 3;
    }
    FindFromDecidesMatch(s);
  }

  /**
    Nothing before the `@`: "@bb.cc" has no match, although it is long
    enough and has word runs on both sides of the `.`.
   */
  lemma MissingLocalPartFails()
    ensures !ContainsMatch("@bb.cc")
  {
    var s := "@bb.cc";
    assert !FindFrom(s, 0);
    FindFromDecidesMatch(s);
  }

  /** ("Ann", "a@b.com", "hi"): popup shown, no error; dismissal blanks the form. */
  lemma AllValidShowsPopupThenClears()
    ensures var g := Submit(Filled("Ann", "a@b.com", "hi"));
            g.popupShown && !g.nameError && !g.emailError && !g.messageError
            && ClosePopup(g) == Filled("", "", "")
  {
  }

  /** ("", "a@b.com", "hi"): only the name error is shown. */
  lemma EmptyNameShowsOnlyNameError()
    ensures var g := Submit(Filled("", "a@b.com", "hi"));
            !g.popupShown && g.nameError && !g.emailError && !g.messageError
  {
  }

  /** ("Ann", "bad-email", "hi"): only the e-mail error is shown. */
  lemma BadEmailShowsOnlyEmailError()
    ensures var g := Submit(Filled("Ann", "bad-email", "hi"));
            !g.popupShown && !g.nameError && g.emailError && !g.messageError
  {
  }

  /** ("", "", ""): all three error messages are shown. */
  lemma AllEmptyShowsAllErrors()
    ensures var g := Submit(Filled("", "", ""));
            !g.popupShown && g.nameError && g.emailError && g.messageError
  {
  }
}
