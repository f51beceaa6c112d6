/**
  The contact form of index.js as a pure state machine: the three field
  values, whether the success popup is shown, and which of the three
  per-field error messages are shown. The DOM updates of the script
  (adding and removing the `show-popup` and `show` classes, assigning to
  the inputs' values) become functions from one form state to the next.
 */
module ContactForm {
  import opened EmailPattern

  /** The three inputs of the form, which are also the keys of the error messages. */
  datatype Field = Name | Email | Message

  datatype Form = Form(
    name: string,
    email: string,
    message: string,
    popupShown: bool,
    nameError: bool,
    emailError: bool,
    messageError: bool)
  {
    /** The current value of one input. */
    function Value(fld: Field): string {
      match fld
      case Name => name
      case Email => email
      case Message => message
    }

    /** Whether the error message of one input is shown. */
    predicate ErrorShown(fld: Field) {
      match fld
      case Name => nameError
      case Email => emailError
      case Message => messageError
    }
  }

  /** The three inputs hold the same values in f and g. */
  predicate SameValues(f: Form, g: Form) {
    f.name == g.name && f.email == g.email && f.message == g.message
  }

  /** The same error messages are shown in f and g. */
  predicate SameErrors(f: Form, g: Form) {
    f.nameError == g.nameError && f.emailError == g.emailError && f.messageError == g.messageError
  }

  // ---------------------------------------------------------------------
  // Validation
  // ---------------------------------------------------------------------

  /** The name check: present and not the empty string. */
  function NameValid(name: string): (r: bool)
    ensures r <==> |name| > 0
  {
    name != ""
  }

  /**
    A non-empty address on which the pattern test succeeds. The explicit
    emptiness test is subsumed by the pattern, which needs five characters.
   */
  function EmailValid(email: string): (r: bool)
    ensures r <==> ContainsMatch(email)
  {
    MatchNeedsFiveChars(email);
    email != "" && Search(email)
  }

  /** The message check: present and not the empty string. */
  function MessageValid(message: string): (r: bool)
    ensures r <==> |message| > 0
  {
    message != ""
  }

  /** The validity of the current value of one input. */
  predicate FieldValid(f: Form, fld: Field) {
    match fld
    case Name => NameValid(f.name)
    case Email => EmailValid(f.email)
    case Message => MessageValid(f.message)
  }

  /** The condition under which a submission succeeds. */
  function AllValid(f: Form): (r: bool)
    ensures r <==> forall fld :: FieldValid(f, fld)
  {
    assert FieldValid(f, Name) && FieldValid(f, Email) && FieldValid(f, Message) ==> forall fld :: FieldValid(f, fld);
    NameValid(f.name) && EmailValid(f.email) && MessageValid(f.message)
  }

  /** What each input's validity means, stated independently of the checks. */
  lemma ValidityCharacterisation(f: Form)
    ensures FieldValid(f, Name) <==> |f.name| > 0
    ensures FieldValid(f, Email) <==> ContainsMatch(f.email)
    ensures FieldValid(f, Message) <==> |f.message| > 0
    ensures AllValid(f) <==> forall fld :: FieldValid(f, fld)
  {
  }

  // ---------------------------------------------------------------------
  // Display updates
  // ---------------------------------------------------------------------

  /** showPopup: the popup becomes visible; nothing else changes. */
  function ShowPopup(f: Form): (g: Form)
    ensures g.popupShown
    ensures SameValues(f, g) && SameErrors(f, g)
  {
    f.(popupShown := true)
  }

  /** clearContactForm: all three inputs become empty; nothing else changes. */
  function ClearContactForm(f: Form): (g: Form)
    ensures forall fld :: g.Value(fld) == ""
    ensures g.popupShown == f.popupShown && SameErrors(f, g)
  {
    f.(name := "", email := "", message := "")
  }

  /** closePopup: the popup is hidden and the inputs are cleared; error messages stay. */
  function ClosePopup(f: Form): (g: Form)
    ensures !g.popupShown
    ensures forall fld :: g.Value(fld) == ""
    ensures SameErrors(f, g)
  {
    ClearContactForm(f.(popupShown := false))
  }

  /** clearErrorMessages: every error message is hidden; nothing else changes. */
  function ClearErrorMessages(f: Form): (g: Form)
    ensures forall fld :: !g.ErrorShown(fld)
    ensures SameValues(f, g) && g.popupShown == f.popupShown
  {
    f.(nameError := false, emailError := false, messageError := false)
  }

  /** showErrorMessage: the error message of one input is shown; nothing else changes. */
  function ShowErrorMessage(f: Form, fld: Field): (g: Form)
    ensures g.ErrorShown(fld)
    ensures forall other :: other != fld ==> g.ErrorShown(other) == f.ErrorShown(other)
    ensures SameValues(f, g) && g.popupShown == f.popupShown
  {
    match fld
    case Name => f.(nameError := true)
    case Email => f.(emailError := true)
    case Message => f.(messageError := true)
  }

  // ---------------------------------------------------------------------
  // Submitting
  // ---------------------------------------------------------------------

  /**
    handleSubmit: hide every error message, validate the three inputs, then
    show the popup if all are valid and otherwise show the error message of
    each invalid input, one after the other.
   */
  function Submit(f: Form): (g: Form)
    ensures SameValues(f, g)
    ensures forall fld :: g.ErrorShown(fld) <==> !FieldValid(f, fld)
    ensures AllValid(f) ==> g.popupShown
    ensures !AllValid(f) ==> g.popupShown == f.popupShown
  {
    var cleared := ClearErrorMessages(f);
    var nameValid := NameValid(f.name);
    var emailValid := EmailValid(f.email);
    var messageValid := MessageValid(f.message);
    if nameValid && emailValid && messageValid then
      ShowPopup(cleared)
    else
      var g1 := if !nameValid then ShowErrorMessage(cleared, Name) else cleared;
      var g2 := if !emailValid then ShowErrorMessage(g1, Email) else g1;
      if !messageValid then ShowErrorMessage(g2, Message) else g2
  }

  /** A successful submission shows the popup and no error message. */
  lemma SubmitValidShowsOnlyPopup(f: Form)
    requires ContainsMatch(f.email) && |f.name| > 0 && |f.message| > 0
    ensures Submit(f).popupShown
    ensures forall fld :: !Submit(f).ErrorShown(fld)
  {
  }

  /** The outcome of a submission depends on the inputs and the popup only. */
  lemma SubmitIgnoresPriorErrors(f: Form, f': Form)
    requires SameValues(f, f') && f.popupShown == f'.popupShown
    ensures Submit(f) == Submit(f')
  {
  }

  /** Submitting twice in a row is the same as submitting once. */
  lemma SubmitIdempotent(f: Form)
    ensures Submit(Submit(f)) == Submit(f)
  {
  }

  /** Dismissing the popup twice is the same as dismissing it once. */
  lemma CloseIdempotent(f: Form)
    ensures ClosePopup(ClosePopup(f)) == ClosePopup(f)
  {
  }

  /** After dismissal every input is invalid, so a submission shows all three errors. */
  lemma SubmitAfterCloseShowsAllErrors(f: Form)
    ensures var g := Submit(ClosePopup(f));
            !g.popupShown && forall fld :: g.ErrorShown(fld)
  {
  }

  /** A successful submission followed by dismissal returns to the blank form. */
  lemma SubmitThenCloseResets(f: Form)
    requires AllValid(f)
    ensures ClosePopup(Submit(f)) == Form("", "", "", false, false, false, false)
  {
  }
}
