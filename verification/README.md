# Date handling of the document translator

`DocumentTranslator` in `tranlater_deepL.py` translates PowerPoint
paragraphs with DeepL. Paragraphs that look like dates bypass the
translator. `is_date` decides whether a paragraph holds a date, and
`translate_date` rewrites the first date it finds into the layout the
target language uses. This project models those two methods, and the part
of the slide loop that applies them to one paragraph, in Dafny.

Modules:

- `Text` (`text.dfy`): the character classes of the regular expressions.
  - `\d` is restricted to ASCII digits.
  - `[-/.]` is the separator class.
  - `\s` is the exact set of characters for which Python's `str.isspace()`
    holds.
  - The module also defines digit and whitespace runs.
- `Decimal` (`decimal.dfy`):
  - `int()` on a digit string (`Value`);
  - `str()` on a natural number (`ToDecimal`);
  - the `:02d` format specification (`Pad2`).
- `DatePatterns` (`patterns.dfy`): the four regular expressions, each given
  two readings.
  - The shape predicates read each pattern literally: a match at `i` is any
    choice of repetition counts under which every character lines up. The
    ghost predicates `Matches` and `Occurs` are built on them.
  - The `...At` functions compute what the matcher returns at a position.
    The separators and the marks `년` `월` `일` are not digits, so a field
    followed by a separator or a mark runs from its start to that
    character, and `\s*` spans the whole whitespace run. The trailing
    fields are capped: two digits for the year-first pattern, four for the
    day-first pattern, and at most four, greedily, for the generic one. A
    match may begin inside a longer digit run.
  - `Search` is `re.search`: the leftmost position at which `MatchAt`
    succeeds.
  - `IsDate` is `is_date`.
- `DateTranslation` (`translate_date.dfy`):
  - `TranslateDate` is `translate_date`, returning a `Result`.
  - `ParagraphWith` is what the slide loop does with one paragraph: send it
    to the translator, keep it, or replace it. `DateParagraph` applies it
    with `translate_date` as written.
  - `TranslateDateIntended` and `DateParagraphIntended` are the corrected
    versions described under Findings.

## Model

| member | source | states |
|---|---|---|
| DatePatterns.YearFirstAt | tranlater_deepL.py:228 | a match it reports is a literal match of `\d{4}[-/.]\d{1,2}[-/.]\d{1,2}` at the position, with digit-only fields |
| DatePatterns.DayFirstAt | tranlater_deepL.py:229 | a match it reports is a literal match of `\d{1,2}[-/.]\d{1,2}[-/.]\d{4}` at the position |
| DatePatterns.KoreanCountsAt | tranlater_deepL.py:230 | the repetition counts it reports make `\d{4}년\s*\d{1,2}월\s*\d{1,2}일` line up at the position |
| DatePatterns.GenericCountsAt | tranlater_deepL.py:251 | the counts it reports make `(\d{1,4})[-/.](\d{1,2})[-/.](\d{1,4})` line up, and the last group stops at four digits or at a non-digit |
| DatePatterns.MatchAt | tranlater_deepL.py:228-230 | every reported group is a non-empty digit string, at most 4, 2 and 4 characters long |
| DatePatterns.MatchAtIff | tranlater_deepL.py:228-230 | the matcher succeeds at a position if and only if the pattern, read literally, matches there (all four patterns, both directions) |
| DatePatterns.KoreanAtSound | tranlater_deepL.py:240-242 | the groups reported for a Korean match are the captures of a literal match |
| DatePatterns.KoreanCountsComplete | tranlater_deepL.py:240 | any literal Korean match has exactly the counts the matcher reports, so the counts are unique |
| DatePatterns.KoreanAtComplete | tranlater_deepL.py:240-242 | every literal Korean match yields the same year, month and day captures, and they are the ones reported |
| DatePatterns.GenericAtComplete | tranlater_deepL.py:251 | any literal generic match has the reported first two groups and a last group no longer than the reported one |
| DatePatterns.GenericAtGreedy | tranlater_deepL.py:251 | a literal generic match whose last group cannot take another digit is the reported match |
| DatePatterns.SearchFrom | tranlater_deepL.py:232 | a hit matches at its position, and no position between the start and the hit matches |
| DatePatterns.SearchIsLeftmost | tranlater_deepL.py:232 | `re.search` succeeds exactly when the pattern occurs somewhere; then it reports a literal match with none further left |
| DatePatterns.SearchFindsLeftmost | tranlater_deepL.py:240 | a match at `i` with none before is the hit the search reports, with the matcher's groups |
| DatePatterns.KoreanLeftmost | tranlater_deepL.py:240-242 | the leftmost literal Korean match is the search hit, with its captures as groups |
| DatePatterns.IsDateIff | tranlater_deepL.py:224-232 | `is_date` holds exactly when one of the three patterns occurs as a substring, not necessarily the whole text |
| DatePatterns.DatePatternsAreGeneric | tranlater_deepL.py:228-229 | wherever the year-first or day-first pattern matches, the generic pattern of line 251 matches at the same position |
| DatePatterns.DateOccurrenceIsGeneric | tranlater_deepL.py:228-229 | a text holding a year-first or day-first date holds a generic date |
| Decimal.ToDecimal | tranlater_deepL.py:263 | `str(n)` is a non-empty digit string without a leading zero whose `int()` value is `n` |
| Decimal.ValueLeadingZero | tranlater_deepL.py:263 | a leading zero does not change the value `int()` reads |
| Decimal.Pad2 | tranlater_deepL.py:263 | `:02d` gives a digit string of at least two characters with the same value, padded only when shorter than two |
| Decimal.Pad2KeepsTwoDigits | tranlater_deepL.py:263 | a two-digit field comes back verbatim through `int()` and `:02d` |
| Decimal.Pad2PadsOneDigit | tranlater_deepL.py:263 | a one-digit field gains exactly one leading zero |
| Decimal.Pad2NotLonger | tranlater_deepL.py:263 | the padded field is no longer than the original, or two characters |
| DateTranslation.YearFirstOrder | tranlater_deepL.py:253-256 | the reorder keeps the middle group, permutes the outer two and keeps all groups digit strings |
| DateTranslation.TranslateDate | tranlater_deepL.py:234-265 | the call raises exactly for a Korean source, a Korean date and a target other than ES, EN-US or EN-GB; it changes the text only when a pattern it consults matches |
| DateTranslation.KoreanDateLayout | tranlater_deepL.py:239-248 | for a Korean source, the leftmost Korean date becomes `day/month/year` for ES and `month/day/year` for EN-US and EN-GB, captures verbatim; any other target raises |
| DateTranslation.KoreanPatternOnlyForKorean | tranlater_deepL.py:239-251 | for any other source, and for a Korean source without a Korean date, the result does not depend on the source |
| DateTranslation.GenericDateLayout | tranlater_deepL.py:251-263 | the leftmost generic date is reversed exactly when its first group has one or two digits, then laid out as `p2/p1/p0` (ES), `p1/p2/p0` (English) or `p0-NN-NN` with zero-padded values |
| DateTranslation.NoDateUnchanged | tranlater_deepL.py:239-265 | when neither consulted pattern occurs, the text comes back unchanged |
| DateTranslation.GenericLayoutIsBare | tranlater_deepL.py:258-263 | every generic layout is 5 to 14 characters of digits, `/` and `-` |
| DateTranslation.MatchedResultIsBareDate | tranlater_deepL.py:239-263 | when a consulted pattern matches, a returned result holds the reformatted date and nothing else |
| DateTranslation.ChangedResultIsBareDate | tranlater_deepL.py:234-265 | whenever the text is changed, the text around the date is dropped |
| DateTranslation.YearOrDayFirstIsRewritten | tranlater_deepL.py:228-229 | for a text with a year-first or day-first date the generic search always succeeds, so line 265 is never reached: unless a Korean date is consulted first the result is the leftmost generic date laid out for the target, and any returned result is a bare date |
| DateTranslation.JoinedDateShape | tranlater_deepL.py:251 | three digit fields joined by separators match the generic pattern at 0 with those fields as groups |
| DateTranslation.NoKoreanAmongDigits | tranlater_deepL.py:240 | text made only of digits and separators holds no Korean date |
| DateTranslation.JoinedDateReparses | tranlater_deepL.py:251 | three digit fields joined by separators, with a middle field of one or two digits, are found again at position 0 with those fields, and hold no Korean date |
| DateTranslation.JoinedDateToSpanish | tranlater_deepL.py:251-259 | a joined date becomes `x/y/z` for ES when its first field has at most two digits, `z/y/x` otherwise |
| DateTranslation.SpanishRewriteIsStable | tranlater_deepL.py:243-259 | running the tool again on its own Spanish output: a result whose leading field has at most two digits comes back unchanged from a second Spanish pass |
| DateTranslation.SpanishRewriteCanFlip | tranlater_deepL.py:253-259 | running the tool again on its own Spanish output: with three- or four-digit outer fields each pass swaps the outer fields, so repeated runs alternate between two texts |
| DateTranslation.KoreanOtherTargetRaises | tranlater_deepL.py:247-248 | `2024년 1월 5일` from KO to JA raises instead of giving a date |
| DateTranslation.IntendedAgreesWhereDefined | tranlater_deepL.py:243-248 | the corrected function returns the same text wherever the original returns |
| DateTranslation.IntendedKoreanLayout | tranlater_deepL.py:247-248 | corrected, a Korean date for another target is `year-MM-DD` from the captures |
| DateTranslation.IntendedKoreanIsYearFirst | tranlater_deepL.py:247-248 | corrected, the result is a 10-character year-first date with the captured year and the padded month and day values |
| DateTranslation.ParagraphWith | tranlater_deepL.py:155-213 | a paragraph goes to the translator exactly when it is not blank and not a date; it is replaced exactly when it is a non-blank date whose translation returns a non-empty changed text, and then by that text; otherwise it is kept |
| DateTranslation.DateParagraph | tranlater_deepL.py:155-213 | with `translate_date` as written, a replaced date paragraph holds only a reformatted date, different from the original |
| DateTranslation.DateParagraphIntended | tranlater_deepL.py:155-213 | with the corrected `translate_date`, a replaced paragraph is a date replaced by the corrected result |
| DateTranslation.IntendedKoreanParagraphReplaced | tranlater_deepL.py:173-190 | corrected, a paragraph with a Korean date for a target other than ES or English is replaced by a year-first date instead of being kept |
| DateTranslation.DigitIsNotBlank | tranlater_deepL.py:156 | a paragraph with a digit in it is not skipped as blank |
| DateTranslation.KoreanDateNotBlank | tranlater_deepL.py:156 | a paragraph holding a Korean date is not blank |
| DateTranslation.KoreanDateKeptForOtherTargets | tranlater_deepL.py:173-213 | from KO to a target other than ES or English, a paragraph with a Korean date is kept as it is, because the error is caught |
| DateTranslation.KoreanOnlyDateKeptForOtherSources | tranlater_deepL.py:173-188 | for another source, a paragraph whose only date is Korean is neither rewritten nor sent to the translator |

## Left out

- DeepL translation (`translate_text`): a network call. `DateParagraph`
  only says that a paragraph is handed to it.
- Optical character recognition, PDF, Word and Excel conversion, slide
  formatting (fonts, sizes, alignment, frame sizes), saving files, and the
  tkinter interface: foreign libraries and I/O.
- The progress percentages: floating point that feeds only UI callbacks.
- The error message printed by the slide loop, and its `processed` counter:
  output only.
- Text.IsDigit: `\d` and `int()` also accept non-ASCII decimal digits in
  Python. The model only accepts `'0'..'9'`, so digits from other scripts
  are not recognised as dates.
- Decimal.Value: `int()` also accepts surrounding whitespace, a sign and
  underscores. The model reads a plain digit string only, because the
  generic captures never hold anything else.
- DateTranslation.DateParagraph: the DeepL call itself is not modelled.
  `translate_text` catches its own errors (tranlater_deepL.py:30-32) and
  returns the input, so such a paragraph comes back unchanged and is kept
  by the check at line 187. Only the date path is modelled.
- DateTranslation.GenericDateLayout: stated for the greedy last group, the
  only one the engine produces (`GenericAtGreedy`). A literal match with a
  shorter last group is a different match and is not the search hit.

## Findings

| source | as written | input that shows it | evidently intended | confidence | as-written member | corrected member |
|---|---|---|---|---|---|---|
| tranlater_deepL.py:247-248 | for a Korean source, a Korean date and a target other than ES, EN-US or EN-GB, `f"{year}-{month:02d}-{day:02d}"` applies the integer format code `d` to the `str` captures and raises `ValueError`; the slide loop catches it and leaves the paragraph untranslated | `translate_date("2024년 1월 5일", "KO", "JA")` | `"2024-01-05"`, the `YYYY-MM-DD` layout with month and day zero-padded, as the generic branch does at line 263 with `int()` | not executed | DateTranslation.KoreanOtherTargetRaises | DateTranslation.IntendedKoreanIsYearFirst |
