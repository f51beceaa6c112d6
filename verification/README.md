# Contact form: validation and popup state machine

This project models the logic of a client-side contact form (`index.js`).
The form has three inputs: name, e-mail and message. On submit, the script
hides every error message and validates the three values:

- the name must be non-empty;
- the message must be non-empty;
- the e-mail must be non-empty and pass the regular expression `/\w+@\w+\.\w+/`.

If all three are valid, a confirmation popup is shown. Otherwise, the error
message of each invalid input is shown. Dismissing the popup hides it and
blanks the three inputs.

The model has three modules:

- `EmailPattern` (`email_pattern.dfy`) covers the regular expression test.
  Its meaning is stated once, as an existential over the positions of a
  matching substring (`ContainsMatch`: a run of word characters, `@`, a run,
  `.`, a run, each run non-empty). The match may occur anywhere in the string,
  because the expression is not anchored. `\w` is `[A-Za-z0-9_]`
  (`IsWordChar`): JavaScript widens it only when the `u` and `i` flags are
  both set, and this expression has no flags. An executable search
  (`Search`) tries every `@` position and is proved to decide exactly
  `ContainsMatch`.
- `ContactForm` (`contact_form.dfy`) covers the form state. The state is a
  record of the three values, the popup flag and the three error-message
  flags. Each DOM update of the script is a pure function from one state to
  the next: `showPopup`, `clearContactForm`, `closePopup`,
  `clearErrorMessages`, `showErrorMessage` and `handleSubmit`.
- `Scenarios` (`scenarios.dfy`) holds four example submissions (all valid,
  empty name, malformed e-mail, all empty) and the edge cases of the
  unanchored pattern.

The check `email != ""` in the source is redundant. The pattern cannot match
fewer than five characters (`MatchNeedsFiveChars`), so `EmailValid` is exactly
`ContainsMatch`.

## Model

| member | source | states |
|---|---|---|
| EmailPattern.WordRunEnd | index.js:49 | the returned index ends a run of word characters that starts at the given index, and is the first non-word position (or the end of the string) |
| EmailPattern.WordRunEndIsFirstBreak | index.js:49 | a word run followed by a non-word character is exactly where the maximal run ends, so the middle `\w+` has only one candidate end |
| EmailPattern.AtSignMatchSound | index.js:49 | an `@` position accepted by the scan yields a substring matching `\w+@\w+\.\w+` |
| EmailPattern.MatchSpanFoundAtSign | index.js:49 | every substring matching the pattern is accepted by the scan at the position of its `@` |
| EmailPattern.FindFrom | index.js:49 | scanning from a position succeeds exactly when some later `@` position starts a match |
| EmailPattern.FindFromDecidesMatch | index.js:49 | the full scan succeeds exactly when some substring matches the pattern, in both directions |
| EmailPattern.Search | index.js:49 | the regular expression test succeeds exactly when some substring is word-chars, `@`, word-chars, `.`, word-chars (unanchored) |
| EmailPattern.MatchNeedsFiveChars | index.js:49 | a string containing a match has at least five characters, so in particular it is non-empty |
| EmailPattern.MatchShape | index.js:49 | a matching string has an `@` preceded by a word character and, after it, a `.` followed by a word character |
| EmailPattern.PaddingKeepsMatch | index.js:49 | any text before and after a matching string keeps it matching, because the pattern is unanchored |
| EmailPattern.SubstringMatchIsMatch | index.js:49 | a match inside any substring is a match of the whole string |
| ContactForm.NameValid | index.js:48 | the name is valid exactly when it is non-empty |
| ContactForm.EmailValid | index.js:49 | the e-mail is valid exactly when some substring matches the pattern; the non-empty test adds nothing |
| ContactForm.MessageValid | index.js:50 | the message is valid exactly when it is non-empty |
| ContactForm.AllValid | index.js:52 | a submission succeeds exactly when every one of the three inputs is valid |
| ContactForm.ValidityCharacterisation | index.js:48-50 | the name is valid iff non-empty, the message is valid iff non-empty, the e-mail is valid iff it contains a match, and the form is valid iff every input is |
| ContactForm.ShowPopup | index.js:15-17 | the popup is shown afterwards; values and error messages are unchanged |
| ContactForm.ClearContactForm | index.js:24-28 | all three inputs are empty afterwards; popup and error messages are unchanged |
| ContactForm.ClosePopup | index.js:19-22 | the popup is hidden and all three inputs are empty whatever they held; error messages are unchanged |
| ContactForm.ClearErrorMessages | index.js:30-34 | no error message is shown afterwards; values and popup are unchanged |
| ContactForm.ShowErrorMessage | index.js:36-38 | the chosen input's error message is shown; every other error message, the values and the popup are unchanged |
| ContactForm.Submit | index.js:40-67 | values are unchanged; each error message is shown exactly when its input is invalid, whatever was shown before; the popup is shown when all inputs are valid and otherwise keeps its previous state |
| ContactForm.SubmitValidShowsOnlyPopup | index.js:52-55 | with a non-empty name and message and a matching e-mail, submission shows the popup and no error message |
| ContactForm.SubmitIgnoresPriorErrors | index.js:42-66 | two forms that differ only in the error messages shown give the same state after submission |
| ContactForm.SubmitIdempotent | index.js:40-67 | submitting twice gives the same state as submitting once |
| ContactForm.CloseIdempotent | index.js:19-28 | dismissing the popup twice gives the same state as dismissing it once |
| ContactForm.SubmitAfterCloseShowsAllErrors | index.js:19-67 | submitting right after dismissal shows all three error messages and leaves the popup hidden |
| ContactForm.SubmitThenCloseResets | index.js:19-67 | a successful submission followed by dismissal returns to the blank form with no popup and no error message |
| Scenarios.SurroundedAddressMatches | index.js:49 | `x a@b.c!` passes the pattern test, despite the characters around the address |
| Scenarios.DoubleDotFails | index.js:49 | `a@b..c` fails the pattern test |
| Scenarios.MissingLocalPartFails | index.js:49 | `@bb.cc` fails the pattern test: it is long enough, but nothing precedes the `@` |
| Scenarios.AllValidShowsPopupThenClears | index.js:40-67 | (`Ann`, `a@b.com`, `hi`) shows the popup with no error message, and dismissal blanks the form |
| Scenarios.EmptyNameShowsOnlyNameError | index.js:57-65 | (empty, `a@b.com`, `hi`) shows only the name error |
| Scenarios.BadEmailShowsOnlyEmailError | index.js:57-65 | (`Ann`, `bad-email`, `hi`) shows only the e-mail error |
| Scenarios.AllEmptyShowsAllErrors | index.js:57-65 | three empty inputs show all three error messages |

## Left out

- The DOM lookups, the `addEventListener` wiring and `event.preventDefault()` (index.js:1-13, 41, 69-71) are left out. They are browser plumbing with no logic; the model's transitions are the two handlers themselves.
- The `console.log` output on success (index.js:53-54) is left out. It is a side effect that stands in for a server call that does not exist.
- CSS classes are modelled as boolean flags, not as class lists on elements.
- `null` and `""` are not distinguished. Assigning `null` to an input's value yields `""`, so the inputs are plain strings and the `!= null` tests are always true.
- `EmailPattern.IsWordChar` (`\w` at index.js:49) has no row. It is a plain definition of the character class `[A-Za-z0-9_]`, and its body is its whole meaning.
- Characters are Unicode scalar values, while JavaScript strings are UTF-16 code units. For this pattern the difference changes no verdict: a character outside the Basic Multilingual Plane becomes two surrogate code units, and neither of them is a word character, `@` or `.`.
- Full JavaScript regular expression semantics are left out. Only the one fixed pattern is modelled, as a hand-written predicate.
