/** `DocumentTranslator.translate_date`, and how the PowerPoint translator
    applies it (together with `is_date`) to one paragraph. */
module DateTranslation {
  import opened Text
  import opened Decimal
  import opened DatePatterns

  /** The exception `translate_date` raises: the format code `d` applied to a
      `str` (Python's `ValueError: Unknown format code 'd'`). */
  datatype DateError = FormatCodeOnString

  datatype Result<+T> = Success(value: T) | Failure(error: DateError)

  predicate IsEnglish(target: string) {
    target == "EN-US" || target == "EN-GB"
  }

  /** Lines 243-248: the layout of a Korean date's (year, month, day) captures.
      Any target other than Spanish or English reaches `f"{month:02d}"` with a
      `str` and raises. */
  function KoreanLayout(g: Groups, target: string): Result<string> {
    if target == "ES" then Success(g.third + "/" + g.second + "/" + g.first)
    else if IsEnglish(target) then Success(g.second + "/" + g.third + "/" + g.first)
    else Failure(FormatCodeOnString)
  }

  /** Lines 253-256: a short leading field means the year is last, so the
      fields are reversed to put it first. */
  function YearFirstOrder(g: Groups): (r: Groups)
    ensures r.second == g.second
    ensures multiset{r.first, r.third} == multiset{g.first, g.third}
    ensures FieldsAreDigits(g) ==> FieldsAreDigits(r)
  {
    if |g.first| == 2 || |g.first| == 1 then Groups(g.third, g.second, g.first) else g
  }

  /** Lines 258-263: the layout of the (year, x, y) fields for the target. */
  function GenericLayout(p: Groups, target: string): string
    requires AllDigits(p.second) && AllDigits(p.third)
  {
    if target == "ES" then p.third + "/" + p.second + "/" + p.first
    else if IsEnglish(target) then p.second + "/" + p.third + "/" + p.first
    else p.first + "-" + Pad2(Value(p.second)) + "-" + Pad2(Value(p.third))
  }

  /** Lines 250-265: rewrite the leftmost generic date, or keep the text. */
  function GenericRewrite(text: string, target: string): string {
    match Search(Generic, text)
    case None => text
    case Some(f) => GenericLayout(YearFirstOrder(f.groups), target)
  }

  /** `translate_date(date_text, source_lang, target_lang)`, lines 234-265. */
  function TranslateDate(text: string, source: string, target: string): (r: Result<string>)
    ensures r.Failure? <==> source == "KO" && Search(Korean, text).Some? && target != "ES" && !IsEnglish(target)
    ensures r.Success? && r.value != text ==> (source == "KO" && Search(Korean, text).Some?) || Search(Generic, text).Some?
  {
    var korean := if source == "KO" then Search(Korean, text) else None;
    if korean.Some? then KoreanLayout(korean.value.groups, target)
    else Success(GenericRewrite(text, target))
  }

  // ---------------------------------------------------------------------
  // What translate_date returns, stated against the literal patterns

  /** A Korean source with a Korean date: the captured strings are laid out
      verbatim, month-first for English, day-first for Spanish; any other
      target raises. */
  lemma KoreanDateLayout(text: string, target: string, i: nat, w: nat, b: nat, v: nat, c: nat)
    requires KoreanShape(text, i, w, b, v, c)
    requires forall j :: 0 <= j < i ==> !Matches(Korean, text, j)
    ensures var g := KoreanCaptures(text, i, w, b, v, c);
            && (target == "ES" ==> TranslateDate(text, "KO", target) == Success(g.third + "/" + g.second + "/" + g.first))
            && (IsEnglish(target) ==> TranslateDate(text, "KO", target) == Success(g.second + "/" + g.third + "/" + g.first))
            && (target != "ES" && !IsEnglish(target) ==> TranslateDate(text, "KO", target) == Failure(FormatCodeOnString))
  {
    KoreanLeftmost(text, i, w, b, v, c);
  }

  /** The Korean pattern is looked at only for a Korean source: otherwise, and
      for a Korean source without a Korean date, the result is the same as for
      any non-Korean source. */
  lemma KoreanPatternOnlyForKorean(text: string, source: string, other: string, target: string)
    requires other != "KO"
    requires source != "KO" || !Occurs(Korean, text)
    ensures TranslateDate(text, source, target) == TranslateDate(text, other, target)
  {
    SearchIsLeftmost(Korean, text);
  }

  /** The generic branch, for the leftmost match of the generic pattern whose
      last group has taken as many digits as it can (at most four): the
      fields are reversed exactly when the first has one or two digits, and
      then laid out for the target. */
  lemma GenericDateLayout(text: string, source: string, target: string, i: nat, a: nat, b: nat, c: nat)
    requires source != "KO" || !Occurs(Korean, text)
    requires GenericShape(text, i, a, b, c)
    requires c == 4 || !DigitAt(text, i + a + b + 2 + c)
    requires forall j :: 0 <= j < i ==> !Matches(Generic, text, j)
    ensures var g := GenericCaptures(text, i, a, b, c);
            var p := if a <= 2 then Groups(g.third, g.second, g.first) else g;
            && AllDigits(p.second) && AllDigits(p.third)
            && (target == "ES" ==> TranslateDate(text, source, target) == Success(p.third + "/" + p.second + "/" + p.first))
            && (IsEnglish(target) ==> TranslateDate(text, source, target) == Success(p.second + "/" + p.third + "/" + p.first))
            && (target != "ES" && !IsEnglish(target) ==>
                  TranslateDate(text, source, target) == Success(p.first + "-" + Pad2(Value(p.second)) + "-" + Pad2(Value(p.third))))
  {
    SearchIsLeftmost(Korean, text);
    assert Matches(Generic, text, i);
    SearchFindsLeftmost(Generic, text, i);
    GenericAtGreedy(text, i, a, b, c);
    GenericCapturesAreDigits(text, i, a, b, c);
  }

  /** When no pattern the call consults occurs, the text comes back unchanged. */
  lemma NoDateUnchanged(text: string, source: string, target: string)
    requires source != "KO" || !Occurs(Korean, text)
    requires !Occurs(Generic, text)
    ensures TranslateDate(text, source, target) == Success(text)
  {
    SearchIsLeftmost(Korean, text);
    SearchIsLeftmost(Generic, text);
  }

  // ---------------------------------------------------------------------
  // A rewritten text is nothing but the date

  /** Every character of `r` is a digit, `a` or `b`. */
  predicate DigitsOr(r: string, a: char, b: char) {
    forall k :: 0 <= k < |r| ==> DigitAt(r, k) || r[k] == a || r[k] == b
  }

  /** Digits and the two separators the layouts emit; at most 14 characters
      (a four-digit field, two fields of up to four, two separators). */
  predicate BareDate(r: string) {
    5 <= |r| <= 14 && DigitsOr(r, '/', '-')
  }

  /** Every character of `x`, `y`, `z` joined by `s1` and `s2` is a digit or
      one of the two joiners. */
  lemma JoinedChars(x: string, s1: char, y: string, s2: char, z: string)
    requires AllDigits(x) && AllDigits(y) && AllDigits(z)
    ensures DigitsOr(x + [s1] + y + [s2] + z, s1, s2)
  {
    var r := x + [s1] + y + [s2] + z;
    var a, b := |x|, |y|;
    forall k | 0 <= k < |r|
      ensures DigitAt(r, k) || r[k] == s1 || r[k] == s2
    {
      if k < a {
        assert r[k] == x[k];
      } else if k == a {
        assert r[k] == s1;
      } else if k < a + 1 + b {
        assert r[k] == y[k - a - 1];
      } else if k == a + 1 + b {
        assert r[k] == s2;
      } else {
        assert r[k] == z[k - a - b - 2];
      }
    }
  }

  lemma JoinedIsBare(x: string, sep: char, y: string, z: string)
    requires sep == '/' || sep == '-'
    requires AllDigits(x) && AllDigits(y) && AllDigits(z)
    requires 1 <= |x| && 1 <= |y| && 1 <= |z| && |x| + |y| + |z| <= 12
    ensures BareDate(x + [sep] + y + [sep] + z)
  {
    JoinedChars(x, sep, y, sep, z);
  }

  lemma GenericLayoutIsBare(p: Groups, target: string)
    requires FieldsAreDigits(p) && |p.first| <= 4 && |p.second| <= 4 && |p.third| <= 4
    ensures BareDate(GenericLayout(p, target))
  {
    if target == "ES" {
      JoinedIsBare(p.third, '/', p.second, p.first);
    } else if IsEnglish(target) {
      JoinedIsBare(p.second, '/', p.third, p.first);
    } else {
      Pad2NotLonger(p.second);
      Pad2NotLonger(p.third);
      JoinedIsBare(p.first, '-', Pad2(Value(p.second)), Pad2(Value(p.third)));
    }
  }

  /** When the call consults a pattern that matches, a result it returns
      holds the reformatted date and nothing else. */
  lemma MatchedResultIsBareDate(text: string, source: string, target: string)
    requires (source == "KO" && Search(Korean, text).Some?) || Search(Generic, text).Some?
    requires TranslateDate(text, source, target).Success?
    ensures BareDate(TranslateDate(text, source, target).value)
  {
    if source == "KO" && Search(Korean, text).Some? {
      var g := Search(Korean, text).value.groups;
      if target == "ES" {
        JoinedIsBare(g.third, '/', g.second, g.first);
      } else {
        JoinedIsBare(g.second, '/', g.third, g.first);
      }
    } else {
      var f := Search(Generic, text).value;
      GenericLayoutIsBare(YearFirstOrder(f.groups), target);
    }
  }

  /** Whenever translate_date changes the text, the result holds the
      reformatted date and nothing else: text around the date is dropped. */
  lemma ChangedResultIsBareDate(text: string, source: string, target: string)
    requires TranslateDate(text, source, target).Success?
    requires TranslateDate(text, source, target).value != text
    ensures BareDate(TranslateDate(text, source, target).value)
  {
    MatchedResultIsBareDate(text, source, target);
  }

  /** A text holding a year-first or day-first date never takes the
      unchanged-text exit: the generic search always succeeds, so unless a
      Korean date is consulted first, the leftmost generic date is laid out
      for the target; any result returned is a bare date. */
  lemma YearOrDayFirstIsRewritten(text: string, source: string, target: string)
    requires Occurs(YearFirst, text) || Occurs(DayFirst, text)
    ensures Search(Generic, text).Some?
    ensures source != "KO" || Search(Korean, text).None? ==>
      TranslateDate(text, source, target) == Success(GenericLayout(YearFirstOrder(Search(Generic, text).value.groups), target))
    ensures TranslateDate(text, source, target).Success? ==> BareDate(TranslateDate(text, source, target).value)
  {
    DateOccurrenceIsGeneric(text);
    SearchIsLeftmost(Generic, text);
    if TranslateDate(text, source, target).Success? {
      MatchedResultIsBareDate(text, source, target);
    }
  }

  // ---------------------------------------------------------------------
  // Re-reading a rewritten date

  /** `x`, `y`, `z` joined by two separators match the generic pattern at 0
      with `x`, `y`, `z` as the groups. */
  lemma JoinedDateShape(x: string, s1: char, y: string, s2: char, z: string)
    requires IsSeparator(s1) && IsSeparator(s2)
    requires AllDigits(x) && AllDigits(y) && AllDigits(z)
    requires 1 <= |x| <= 4 && 1 <= |y| <= 2 && 1 <= |z| <= 4
    ensures GenericShape(x + [s1] + y + [s2] + z, 0, |x|, |y|, |z|)
    ensures GenericCaptures(x + [s1] + y + [s2] + z, 0, |x|, |y|, |z|) == Groups(x, y, z)
  {
    var r := x + [s1] + y + [s2] + z;
    var a, b, c := |x|, |y|, |z|;
    var i, j, k := 0, 0 + a + 1, 0 + a + b + 2;
    assert r[i..i + a] == x && r[j..j + b] == y && r[k..k + c] == z;
    DigitsOfSlice(r, i, x);
    DigitsOfSlice(r, j, y);
    DigitsOfSlice(r, k, z);
    assert r[0 + a] == s1 && r[0 + a + 1 + b] == s2;
  }

  /** Text made only of digits and separators holds no Korean date. */
  lemma NoKoreanAmongDigits(r: string, s1: char, s2: char)
    requires IsSeparator(s1) && IsSeparator(s2) && DigitsOr(r, s1, s2)
    ensures !Occurs(Korean, r)
  {
    forall i | 0 <= i < |r|
      ensures r[i] != YearMark
    {
      assert DigitAt(r, i) || r[i] == s1 || r[i] == s2;
    }
  }

  /** `x`, `y`, `z` joined by two separators: the generic pattern reads the
      three fields back from position 0, and no Korean date is present. */
  lemma JoinedDateReparses(x: string, s1: char, y: string, s2: char, z: string)
    requires IsSeparator(s1) && IsSeparator(s2)
    requires AllDigits(x) && AllDigits(y) && AllDigits(z)
    requires 1 <= |x| <= 4 && 1 <= |y| <= 2 && 1 <= |z| <= 4
    ensures Search(Generic, x + [s1] + y + [s2] + z) == Some(Found(0, Groups(x, y, z)))
    ensures !Occurs(Korean, x + [s1] + y + [s2] + z)
  {
    var r := x + [s1] + y + [s2] + z;
    JoinedDateShape(x, s1, y, s2, z);
    JoinedChars(x, s1, y, s2, z);
    NoKoreanAmongDigits(r, s1, s2);
    SearchFindsLeftmost(Generic, r, 0);
    GenericAtGreedy(r, 0, |x|, |y|, |z|);
  }

  /** The digit run at the start of a joined date is its leading field. */
  lemma JoinedLeadingRun(x: string, y: string, z: string)
    requires 1 <= |x| && AllDigits(x)
    ensures DigitRun(x + "/" + y + "/" + z, 0) == |x|
  {
    var r := x + "/" + y + "/" + z;
    forall k | 0 <= k < |x|
      ensures DigitAt(r, k)
    {
      assert r[k] == x[k];
    }
    DigitsOf(r, 0, |x|);
    assert r[|x|] == '/';
    DigitRunExact(r, 0, |x|);
  }

  /** Running the tool again on its own Spanish output file (a date paragraph
      that now holds the rewritten date, translated to Spanish once more):
      when the leading (day) field has at most two digits, the second pass
      gives the same text back. */
  lemma SpanishRewriteIsStable(text: string, source: string)
    requires TranslateDate(text, source, "ES").Success?
    requires DigitRun(TranslateDate(text, source, "ES").value, 0) <= 2
    ensures TranslateDate(TranslateDate(text, source, "ES").value, source, "ES")
            == TranslateDate(text, source, "ES")
  {
    var korean := if source == "KO" then Search(Korean, text) else None;
    var g: Groups;
    if korean.Some? {
      g := korean.value.groups;
    } else if Search(Generic, text).Some? {
      g := YearFirstOrder(Search(Generic, text).value.groups);
    } else {
      return;
    }
    assert TranslateDate(text, source, "ES").value == g.third + "/" + g.second + "/" + g.first;
    JoinedLeadingRun(g.third, g.second, g.first);
    assert g.third + "/" + g.second + "/" + g.first == g.third + ['/'] + g.second + ['/'] + g.first;
    JoinedDateToSpanish(g.third, '/', g.second, '/', g.first, source);
  }

  /** A date made of three digit fields is rewritten for Spanish with the
      leading field last, unless it has at most two digits (then it is the
      day and the order stays). */
  lemma JoinedDateToSpanish(x: string, s1: char, y: string, s2: char, z: string, source: string)
    requires IsSeparator(s1) && IsSeparator(s2)
    requires AllDigits(x) && AllDigits(y) && AllDigits(z)
    requires 1 <= |x| <= 4 && 1 <= |y| <= 2 && 1 <= |z| <= 4
    ensures |x| <= 2 ==> TranslateDate(x + [s1] + y + [s2] + z, source, "ES") == Success(x + "/" + y + "/" + z)
    ensures |x| > 2 ==> TranslateDate(x + [s1] + y + [s2] + z, source, "ES") == Success(z + "/" + y + "/" + x)
  {
    JoinedDateReparses(x, s1, y, s2, z);
    SearchIsLeftmost(Korean, x + [s1] + y + [s2] + z);
  }

  /** Without the two-digit bound a second pass of the tool over its own
      Spanish output is not stable: when both outer fields have three or four
      digits, each pass swaps them, so repeated runs flip between two texts. */
  lemma SpanishRewriteCanFlip(x: string, y: string, z: string, sep: char, source: string)
    requires IsSeparator(sep)
    requires AllDigits(x) && AllDigits(y) && AllDigits(z)
    requires 3 <= |x| <= 4 && 1 <= |y| <= 2 && 3 <= |z| <= 4
    ensures TranslateDate(x + [sep] + y + [sep] + z, source, "ES") == Success(z + "/" + y + "/" + x)
    ensures TranslateDate(z + "/" + y + "/" + x, source, "ES") == Success(x + "/" + y + "/" + z)
  {
    JoinedDateToSpanish(x, sep, y, sep, z, source);
    assert z + "/" + y + "/" + x == z + ['/'] + y + ['/'] + x;
    JoinedDateToSpanish(z, '/', y, '/', x, source);
  }

  // ---------------------------------------------------------------------
  // Lines 247-248 as evidently intended

  /** The Korean layout with the zero-padding the `:02d` specs ask for
      applied to the numbers the captures denote. */
  function KoreanLayoutIntended(g: Groups, target: string): string
    requires AllDigits(g.second) && AllDigits(g.third)
  {
    match KoreanLayout(g, target)
    case Success(t) => t
    case Failure(_) => g.first + "-" + Pad2(Value(g.second)) + "-" + Pad2(Value(g.third))
  }

  function TranslateDateIntended(text: string, source: string, target: string): string {
    var korean := if source == "KO" then Search(Korean, text) else None;
    if korean.Some? then KoreanLayoutIntended(korean.value.groups, target)
    else GenericRewrite(text, target)
  }

  /** The corrected function agrees with translate_date wherever the latter
      returns. */
  lemma IntendedAgreesWhereDefined(text: string, source: string, target: string)
    requires TranslateDate(text, source, target).Success?
    ensures TranslateDateIntended(text, source, target) == TranslateDate(text, source, target).value
  {
  }

  /** As written, a Korean date for a target other than Spanish or English
      raises instead of being rewritten. */
  lemma KoreanOtherTargetRaises()
    ensures TranslateDate("2024년 1월 5일", "KO", "JA") == Failure(FormatCodeOnString)
  {
    var s := "2024년 1월 5일";
    assert KoreanShape(s, 0, 1, 1, 1, 1);
    KoreanDateLayout(s, "JA", 0, 1, 1, 1, 1);
  }

  /** A four-digit and two two-digit fields joined by hyphens. */
  lemma HyphenDateShape(y: string, mm: string, dd: string)
    requires |y| == 4 && |mm| == 2 && |dd| == 2
    requires AllDigits(y) && AllDigits(mm) && AllDigits(dd)
    ensures var out := y + "-" + mm + "-" + dd;
            && |out| == 10 && out[..4] == y && out[5..7] == mm && out[8..10] == dd
            && YearFirstShape(out, 0, 2, 2)
  {
    var out := y + "-" + mm + "-" + dd;
    assert out[..4] == y && out[5..7] == mm && out[8..10] == dd;
    forall k | 0 <= k < 10 && k != 4 && k != 7
      ensures DigitAt(out, k)
    {
      if k < 4 {
        assert out[k] == y[k];
      } else if k < 7 {
        assert out[k] == mm[k - 5];
      } else {
        assert out[k] == dd[k - 8];
      }
    }
    assert out[4] == '-' && out[7] == '-';
  }

  /** Corrected, that date becomes `YYYY-MM-DD`: the year verbatim, month and
      day zero-padded to exactly two digits (`Pad2` keeps their values), and
      the result is itself a year-first date. */
  lemma IntendedKoreanIsYearFirst(text: string, target: string, i: nat, w: nat, b: nat, v: nat, c: nat)
    requires KoreanShape(text, i, w, b, v, c)
    requires forall j :: 0 <= j < i ==> !Matches(Korean, text, j)
    requires target != "ES" && !IsEnglish(target)
    ensures FieldsAreDigits(KoreanCaptures(text, i, w, b, v, c))
    ensures |TranslateDateIntended(text, "KO", target)| == 10
    ensures YearFirstShape(TranslateDateIntended(text, "KO", target), 0, 2, 2)
    ensures TranslateDateIntended(text, "KO", target)[..4] == KoreanCaptures(text, i, w, b, v, c).first
    ensures TranslateDateIntended(text, "KO", target)[5..7] == Pad2(Value(KoreanCaptures(text, i, w, b, v, c).second))
    ensures TranslateDateIntended(text, "KO", target)[8..10] == Pad2(Value(KoreanCaptures(text, i, w, b, v, c).third))
  {
    var g := KoreanCaptures(text, i, w, b, v, c);
    IntendedKoreanLayout(text, target, i, w, b, v, c);
    Pad2NotLonger(g.second);
    Pad2NotLonger(g.third);
    var mm, dd := Pad2(Value(g.second)), Pad2(Value(g.third));
    HyphenDateShape(g.first, mm, dd);
  }

  lemma IntendedKoreanLayout(text: string, target: string, i: nat, w: nat, b: nat, v: nat, c: nat)
    requires KoreanShape(text, i, w, b, v, c)
    requires forall j :: 0 <= j < i ==> !Matches(Korean, text, j)
    requires target != "ES" && !IsEnglish(target)
    ensures var g := KoreanCaptures(text, i, w, b, v, c);
            && FieldsAreDigits(g) && |g.first| == 4 && |g.second| <= 2 && |g.third| <= 2
            && TranslateDateIntended(text, "KO", target)
               == g.first + "-" + Pad2(Value(g.second)) + "-" + Pad2(Value(g.third))
  {
    KoreanLeftmost(text, i, w, b, v, c);
    KoreanCapturesAreDigits(text, i, w, b, v, c);
  }

  // ---------------------------------------------------------------------
  // The PowerPoint paragraph loop (lines 155-213), for date paragraphs

  /** What happens to one paragraph: it is handed to the DeepL translator
      (not modelled here), kept as it is, or replaced by a rewritten date. */
  datatype ParagraphStep = Translate | Keep | Replace(text: string)

  /** `paragraph.text.strip()` is empty. */
  predicate IsBlank(text: string) {
    SpaceRun(text, 0) == |text|
  }

  /** One paragraph of the slide loop, given what `translate_date` does with
      its text: blank paragraphs are skipped, non-dates go to the translator,
      and a date is replaced by a non-empty changed result; an exception is
      caught and the paragraph kept. */
  function ParagraphWith(text: string, translated: Result<string>): (r: ParagraphStep)
    ensures r.Translate? <==> !IsBlank(text) && !IsDate(text)
    ensures r.Replace? <==> !IsBlank(text) && IsDate(text) && translated.Success?
                            && translated.value != [] && translated.value != text
    ensures r.Replace? ==> translated == Success(r.text)
  {
    if IsBlank(text) then Keep
    else if !IsDate(text) then Translate
    else match translated
      case Failure(_) => Keep
      case Success(t) => if |t| > 0 && t != text then Replace(t) else Keep
  }

  /** The paragraph step with `translate_date` as written. */
  function DateParagraph(text: string, source: string, target: string): (r: ParagraphStep)
    ensures r.Translate? <==> !IsBlank(text) && !IsDate(text)
    ensures r.Replace? ==> IsDate(text) && r.text != text && BareDate(r.text)
  {
    var r := ParagraphWith(text, TranslateDate(text, source, target));
    if r.Replace? then
      ChangedResultIsBareDate(text, source, target);
      r
    else r
  }

  /** The paragraph step with the corrected Korean layout. */
  function DateParagraphIntended(text: string, source: string, target: string): (r: ParagraphStep)
    ensures r.Translate? <==> !IsBlank(text) && !IsDate(text)
    ensures r.Replace? ==> IsDate(text) && r.text != text && r.text == TranslateDateIntended(text, source, target)
  {
    ParagraphWith(text, Success(TranslateDateIntended(text, source, target)))
  }

  /** A text with a digit in it is not blank. */
  lemma DigitIsNotBlank(text: string, i: nat)
    requires DigitAt(text, i)
    ensures !IsBlank(text)
  {
    SpaceRunStops(text, 0, i);
  }

  lemma KoreanDateNotBlank(text: string)
    requires Occurs(Korean, text)
    ensures !IsBlank(text)
  {
    var i: nat :| Matches(Korean, text, i);
    var w: nat, b: nat, v: nat, c: nat :| KoreanShape(text, i, w, b, v, c);
    assert DigitAt(text, i);
    DigitIsNotBlank(text, i);
  }

  /** For a Korean source, a paragraph with a Korean date and a target other
      than Spanish or English is left as it is: the exception is caught. */
  lemma KoreanDateKeptForOtherTargets(text: string, target: string)
    requires Occurs(Korean, text)
    requires target != "ES" && !IsEnglish(target)
    ensures DateParagraph(text, "KO", target) == Keep
  {
    SearchIsLeftmost(Korean, text);
    KoreanDateNotBlank(text);
    assert IsDate(text);
    assert TranslateDate(text, "KO", target) == Failure(FormatCodeOnString);
  }

  /** For any other source, a paragraph whose only date is Korean is neither
      rewritten nor sent to the translator. */
  lemma KoreanOnlyDateKeptForOtherSources(text: string, source: string, target: string)
    requires source != "KO"
    requires Occurs(Korean, text) && !Occurs(Generic, text)
    ensures DateParagraph(text, source, target) == Keep
  {
    IsDateIff(text);
    NoDateUnchanged(text, source, target);
  }

  /** The ten characters of a `YYYY-MM-DD` layout are digits and separators. */
  lemma YearFirstChars(out: string)
    requires |out| == 10 && YearFirstShape(out, 0, 2, 2)
    ensures IsSeparator(out[4]) && IsSeparator(out[7]) && DigitsOr(out, out[4], out[7])
  {
    forall k | 0 <= k < |out|
      ensures DigitAt(out, k) || out[k] == out[4] || out[k] == out[7]
    {
      if k < 4 {
        DigitsAt(out, 0, 4, k);
      } else if 5 <= k < 7 {
        DigitsAt(out, 5, 2, k);
      } else if 8 <= k {
        DigitsAt(out, 8, 2, k);
      }
    }
  }

  /** Corrected, a paragraph with a Korean date and a target other than
      Spanish or English is replaced by its year-first date instead of being
      left untranslated. */
  lemma IntendedKoreanParagraphReplaced(text: string, target: string, i: nat, w: nat, b: nat, v: nat, c: nat)
    requires KoreanShape(text, i, w, b, v, c)
    requires forall j :: 0 <= j < i ==> !Matches(Korean, text, j)
    requires target != "ES" && !IsEnglish(target)
    ensures DateParagraphIntended(text, "KO", target) == Replace(TranslateDateIntended(text, "KO", target))
    ensures YearFirstShape(TranslateDateIntended(text, "KO", target), 0, 2, 2)
  {
    var out := TranslateDateIntended(text, "KO", target);
    IntendedKoreanIsYearFirst(text, target, i, w, b, v, c);
    YearFirstChars(out);
    NoKoreanAmongDigits(out, out[4], out[7]);
    assert Matches(Korean, text, i);
    assert out != text;
    SearchIsLeftmost(Korean, text);
    KoreanDateNotBlank(text);
  }
}
