/** The four regular expressions of the date handler, as matchers at a
    position plus a leftmost search (Python's `re.search`).

    Two readings of each pattern are given. The shape predicates are the
    literal reading of the regular expression: a match at `i` is any choice of
    repetition counts for its quantifiers under which every character lines
    up. The `...At` functions are what the backtracking engine computes: the
    digit run before a separator (or before `년`, `월`, `일`) has exactly one
    admissible length, `\s*` always takes every whitespace character, and only
    the trailing quantifier can have more than one admissible length (it
    takes the longest, as every quantifier here is greedy). The lemmas below show the two agree. */
module DatePatterns {
  import opened Text

  /** What a matcher returns: no match, or what it found. */
  datatype Option<+T> = None | Some(value: T)

  /** The three digit fields of a match, in pattern order. */
  datatype Groups = Groups(first: string, second: string, third: string)

  /** A search hit: the start position and the fields matched there. */
  datatype Found = Found(pos: nat, groups: Groups)

  /** Where a digit field starts and how many digits it has. */
  datatype Field = Field(start: nat, len: nat)

  function FieldText(s: string, f: Field): string
    requires f.start + f.len <= |s|
  {
    s[f.start..f.start + f.len]
  }

  datatype Pattern =
    | YearFirst  // \d{4}[-/.]\d{1,2}[-/.]\d{1,2}
    | DayFirst   // \d{1,2}[-/.]\d{1,2}[-/.]\d{4}
    | Korean     // (\d{4})년\s*(\d{1,2})월\s*(\d{1,2})일
    | Generic    // (\d{1,4})[-/.](\d{1,2})[-/.](\d{1,4})

  const YearMark: char := '년'
  const MonthMark: char := '월'
  const DayMark: char := '일'

  predicate SepAt(s: string, i: nat) {
    i < |s| && IsSeparator(s[i])
  }

  predicate CharAt(s: string, i: nat, c: char) {
    i < |s| && s[i] == c
  }

  // ---------------------------------------------------------------------
  // Literal reading: one predicate per pattern, one parameter per quantifier

  predicate YearFirstShape(s: string, i: nat, b: nat, c: nat) {
    && Digits(s, i, 4) && SepAt(s, i + 4)
    && 1 <= b <= 2 && Digits(s, i + 5, b) && SepAt(s, i + 5 + b)
    && 1 <= c <= 2 && Digits(s, i + 6 + b, c)
  }

  predicate DayFirstShape(s: string, i: nat, a: nat, b: nat) {
    && 1 <= a <= 2 && Digits(s, i, a) && SepAt(s, i + a)
    && 1 <= b <= 2 && Digits(s, i + a + 1, b) && SepAt(s, i + a + 1 + b)
    && Digits(s, i + a + b + 2, 4)
  }

  /** `\s*\d{1,2}` followed by `mark`, with `w` spaces and `n` digits. */
  predicate SpacedShape(s: string, i: nat, w: nat, n: nat, mark: char) {
    Spaces(s, i, w) && 1 <= n <= 2 && Digits(s, i + w, n) && CharAt(s, i + w + n, mark)
  }

  /** `w` and `v` are the repetition counts of the two `\s*`. */
  predicate KoreanShape(s: string, i: nat, w: nat, b: nat, v: nat, c: nat) {
    && Digits(s, i, 4) && CharAt(s, i + 4, YearMark)
    && SpacedShape(s, i + 5, w, b, MonthMark)
    && SpacedShape(s, i + 6 + w + b, v, c, DayMark)
  }

  predicate GenericShape(s: string, i: nat, a: nat, b: nat, c: nat) {
    && 1 <= a <= 4 && Digits(s, i, a) && SepAt(s, i + a)
    && 1 <= b <= 2 && Digits(s, i + a + 1, b) && SepAt(s, i + a + 1 + b)
    && 1 <= c <= 4 && Digits(s, i + a + b + 2, c)
  }

  /** The capture groups (year, month, day) of a Korean match with the given counts. */
  function KoreanCaptures(s: string, i: nat, w: nat, b: nat, v: nat, c: nat): Groups
    requires KoreanShape(s, i, w, b, v, c)
  {
    Groups(s[i..i + 4], FieldText(s, Field(i + 5 + w, b)), FieldText(s, Field(i + 6 + w + b + v, c)))
  }

  /** The three capture groups of a generic match with the given counts. */
  function GenericCaptures(s: string, i: nat, a: nat, b: nat, c: nat): Groups
    requires GenericShape(s, i, a, b, c)
  {
    Groups(s[i..i + a], s[i + a + 1..i + a + 1 + b], s[i + a + b + 2..i + a + b + 2 + c])
  }

  /** The pattern matches `s` at position `i` under some choice of counts. */
  ghost predicate Matches(p: Pattern, s: string, i: nat) {
    match p
    case YearFirst => exists b, c :: YearFirstShape(s, i, b, c)
    case DayFirst => exists a, b :: DayFirstShape(s, i, a, b)
    case Korean => exists w, b, v, c :: KoreanShape(s, i, w, b, v, c)
    case Generic => exists a, b, c :: GenericShape(s, i, a, b, c)
  }

  /** `re.search(p, s)` succeeds. */
  ghost predicate Occurs(p: Pattern, s: string) {
    exists i :: Matches(p, s, i)
  }

  // ---------------------------------------------------------------------
  // The engine's reading: each match is a function of its start position

  predicate FieldsAreDigits(g: Groups) {
    && 1 <= |g.first| && AllDigits(g.first)
    && 1 <= |g.second| && AllDigits(g.second)
    && 1 <= |g.third| && AllDigits(g.third)
  }

  /** `\d{lo,hi}` at `i` followed by a separator: the number of digits taken.
      The separator is not a digit, so only the whole digit run can qualify. */
  function SepField(s: string, i: nat, lo: nat, hi: nat): (r: Option<nat>)
    requires i <= |s|
    ensures r.Some? ==> lo <= r.value <= hi && Digits(s, i, r.value) && SepAt(s, i + r.value)
  {
    var n := DigitRun(s, i);
    if lo <= n <= hi && SepAt(s, i + n) then Some(n) else None
  }

  lemma SepFieldComplete(s: string, i: nat, lo: nat, hi: nat, n: nat)
    requires lo <= n <= hi && Digits(s, i, n) && SepAt(s, i + n)
    ensures SepField(s, i, lo, hi) == Some(n)
  {
    DigitRunExact(s, i, n);
  }

  /** `\d{lo,hi}` at `i` followed by the character `mark`. */
  function MarkField(s: string, i: nat, lo: nat, hi: nat, mark: char): (r: Option<nat>)
    requires i <= |s|
    requires !IsDigit(mark)
    ensures r.Some? ==> lo <= r.value <= hi && Digits(s, i, r.value) && CharAt(s, i + r.value, mark)
  {
    var n := DigitRun(s, i);
    if lo <= n <= hi && CharAt(s, i + n, mark) then Some(n) else None
  }

  lemma MarkFieldComplete(s: string, i: nat, lo: nat, hi: nat, mark: char, n: nat)
    requires !IsDigit(mark)
    requires lo <= n <= hi && Digits(s, i, n) && CharAt(s, i + n, mark)
    ensures MarkField(s, i, lo, hi, mark) == Some(n)
  {
    DigitRunExact(s, i, n);
  }

  /** `\s*\d{1,2}` at `i` followed by `mark`. */
  function SpacedField(s: string, i: nat, mark: char): (r: Option<Field>)
    requires i <= |s|
    requires !IsDigit(mark)
    ensures r.Some? ==> i <= r.value.start && SpacedShape(s, i, r.value.start - i, r.value.len, mark)
  {
    var m := i + SpaceRun(s, i);
    match MarkField(s, m, 1, 2, mark)
    case None => None
    case Some(n) => Some(Field(m, n))
  }

  lemma SpacedFieldComplete(s: string, i: nat, mark: char, w: nat, n: nat)
    requires !IsDigit(mark)
    requires SpacedShape(s, i, w, n, mark)
    ensures SpacedField(s, i, mark) == Some(Field(i + w, n))
  {
    assert DigitAt(s, i + w);
    SpaceRunExact(s, i, w);
    MarkFieldComplete(s, i + w, 1, 2, mark, n);
  }

  function YearFirstAt(s: string, i: nat): (r: Option<Groups>)
    ensures r.Some? ==> i < |s| && FieldsAreDigits(r.value)
    ensures r.Some? ==> YearFirstShape(s, i, |r.value.second|, |r.value.third|)
  {
    if i > |s| then None else
    match SepField(s, i, 4, 4)
    case None => None
    case Some(_) =>
      match SepField(s, i + 5, 1, 2)
      case None => None
      case Some(b) =>
        var k := i + b + 6;
        var c := Min(DigitRun(s, k), 2);
        if c == 0 then None else
        DigitsPrefix(s, k, DigitRun(s, k), c);
        DigitsSlice(s, i, 4);
        DigitsSlice(s, i + 5, b);
        DigitsSlice(s, k, c);
        Some(Groups(s[i..i + 4], s[i + 5..i + 5 + b], s[k..k + c]))
  }

  function DayFirstAt(s: string, i: nat): (r: Option<Groups>)
    ensures r.Some? ==> i < |s| && FieldsAreDigits(r.value)
    ensures r.Some? ==> DayFirstShape(s, i, |r.value.first|, |r.value.second|)
  {
    if i > |s| then None else
    match SepField(s, i, 1, 2)
    case None => None
    case Some(a) =>
      match SepField(s, i + a + 1, 1, 2)
      case None => None
      case Some(b) =>
        var k := i + a + b + 2;
        if DigitRun(s, k) < 4 then None else
        DigitsPrefix(s, k, DigitRun(s, k), 4);
        DigitsSlice(s, i, a);
        DigitsSlice(s, i + a + 1, b);
        DigitsSlice(s, k, 4);
        Some(Groups(s[i..i + a], s[i + a + 1..i + a + 1 + b], s[k..k + 4]))
  }

  /** `\s*(\d{1,2})월\s*(\d{1,2})일` from position `j`: the month and day fields. */
  function MonthDayFields(s: string, j: nat): (r: Option<(Field, Field)>)
    requires j <= |s|
    ensures r.Some? ==>
              && j <= r.value.0.start
              && SpacedShape(s, j, r.value.0.start - j, r.value.0.len, MonthMark)
              && r.value.0.start + r.value.0.len + 1 <= r.value.1.start
              && SpacedShape(s, r.value.0.start + r.value.0.len + 1,
                             r.value.1.start - (r.value.0.start + r.value.0.len + 1), r.value.1.len, DayMark)
  {
    match SpacedField(s, j, MonthMark)
    case None => None
    case Some(month) =>
      match SpacedField(s, month.start + month.len + 1, DayMark)
      case None => None
      case Some(day) => Some((month, day))
  }

  lemma MonthDayFieldsOf(s: string, j: nat, month: Field, day: Field)
    requires j <= |s|
    requires SpacedField(s, j, MonthMark) == Some(month)
    requires SpacedField(s, month.start + month.len + 1, DayMark) == Some(day)
    ensures MonthDayFields(s, j) == Some((month, day))
  {
  }

  /** The month and day parts of a Korean match at `i` (they start just past
      the year mark) are the fields `MonthDayFields` reports. */
  lemma MonthDayFieldsComplete(s: string, i: nat, w: nat, b: nat, v: nat, c: nat)
    requires SpacedShape(s, i + 5, w, b, MonthMark)
    requires SpacedShape(s, i + 6 + w + b, v, c, DayMark)
    ensures MonthDayFields(s, i + 5) == Some((Field(i + 5 + w, b), Field(i + 6 + w + b + v, c)))
  {
    var month, day := Field(i + 5 + w, b), Field(i + 6 + w + b + v, c);
    SpacedFieldComplete(s, i + 5, MonthMark, w, b);
    SpacedFieldComplete(s, month.start + month.len + 1, DayMark, v, c);
    MonthDayFieldsOf(s, i + 5, month, day);
  }

  /** The repetition counts of a Korean match: `w` and `v` spaces before the
      month and the day, `b` and `c` digits in them. */
  datatype KoreanCounts = KoreanCounts(w: nat, b: nat, v: nat, c: nat)

  /** `(\d{4})년\s*(\d{1,2})월\s*(\d{1,2})일` at `i`: the counts the engine settles on. */
  function KoreanCountsAt(s: string, i: nat): (r: Option<KoreanCounts>)
    ensures r.Some? ==> KoreanShape(s, i, r.value.w, r.value.b, r.value.v, r.value.c)
  {
    if i > |s| then None else
    match MarkField(s, i, 4, 4, YearMark)
    case None => None
    case Some(_) =>
      match MonthDayFields(s, i + 5)
      case None => None
      case Some(md) =>
        Some(KoreanCounts(md.0.start - (i + 5), md.0.len, md.1.start - (md.0.start + md.0.len + 1), md.1.len))
  }

  lemma KoreanCapturesAreDigits(s: string, i: nat, w: nat, b: nat, v: nat, c: nat)
    requires KoreanShape(s, i, w, b, v, c)
    ensures i < |s| && FieldsAreDigits(KoreanCaptures(s, i, w, b, v, c))
    ensures |KoreanCaptures(s, i, w, b, v, c).first| == 4
    ensures |KoreanCaptures(s, i, w, b, v, c).second| == b
    ensures |KoreanCaptures(s, i, w, b, v, c).third| == c
  {
    DigitsSlice(s, i, 4);
    DigitsSlice(s, i + 5 + w, b);
    DigitsSlice(s, i + 6 + w + b + v, c);
  }

  function KoreanAt(s: string, i: nat): (r: Option<Groups>)
    ensures r.Some? ==> i < |s| && FieldsAreDigits(r.value)
    ensures r.Some? ==> |r.value.first| == 4 && |r.value.second| <= 2 && |r.value.third| <= 2
  {
    match KoreanCountsAt(s, i)
    case None => None
    case Some(n) =>
      KoreanCapturesAreDigits(s, i, n.w, n.b, n.v, n.c);
      Some(KoreanCaptures(s, i, n.w, n.b, n.v, n.c))
  }

  /** `(\d{1,4})[-/.](\d{1,2})[-/.](\d{1,4})` at `i`: the three digit counts
      the engine settles on; the last one takes as many digits as it can. */
  function GenericCountsAt(s: string, i: nat): (r: Option<(nat, nat, nat)>)
    ensures r.Some? ==> GenericShape(s, i, r.value.0, r.value.1, r.value.2)
    ensures r.Some? ==> r.value.2 == 4 || !DigitAt(s, i + r.value.0 + r.value.1 + 2 + r.value.2)
  {
    if i > |s| then None else
    match SepField(s, i, 1, 4)
    case None => None
    case Some(a) =>
      match SepField(s, i + a + 1, 1, 2)
      case None => None
      case Some(b) =>
        var c := Min(DigitRun(s, i + a + b + 2), 4);
        if c == 0 then None else
        DigitsPrefix(s, i + a + b + 2, DigitRun(s, i + a + b + 2), c);
        Some((a, b, c))
  }

  lemma GenericCapturesAreDigits(s: string, i: nat, a: nat, b: nat, c: nat)
    requires GenericShape(s, i, a, b, c)
    ensures i < |s| && FieldsAreDigits(GenericCaptures(s, i, a, b, c))
    ensures |GenericCaptures(s, i, a, b, c).first| == a
    ensures |GenericCaptures(s, i, a, b, c).second| == b
    ensures |GenericCaptures(s, i, a, b, c).third| == c
  {
    DigitsSlice(s, i, a);
    DigitsSlice(s, i + a + 1, b);
    DigitsSlice(s, i + a + b + 2, c);
  }

  function GenericAt(s: string, i: nat): (r: Option<Groups>)
    ensures r.Some? ==> i < |s| && FieldsAreDigits(r.value)
    ensures r.Some? ==> |r.value.first| <= 4 && |r.value.second| <= 2 && |r.value.third| <= 4
  {
    match GenericCountsAt(s, i)
    case None => None
    case Some(n) =>
      GenericCapturesAreDigits(s, i, n.0, n.1, n.2);
      Some(GenericCaptures(s, i, n.0, n.1, n.2))
  }

  function MatchAt(p: Pattern, s: string, i: nat): (r: Option<Groups>)
    ensures r.Some? ==> i < |s| && FieldsAreDigits(r.value)
    ensures r.Some? ==> |r.value.first| <= 4 && |r.value.second| <= 2 && |r.value.third| <= 4
  {
    match p
    case YearFirst => YearFirstAt(s, i)
    case DayFirst => DayFirstAt(s, i)
    case Korean => KoreanAt(s, i)
    case Generic => GenericAt(s, i)
  }

  // ---------------------------------------------------------------------
  // The two readings agree

  /** The fields found by the engine satisfy the Korean shape. */
  lemma KoreanAtSound(s: string, i: nat)
    requires KoreanAt(s, i).Some?
    ensures exists w, b, v, c :: KoreanShape(s, i, w, b, v, c) && KoreanAt(s, i).value == KoreanCaptures(s, i, w, b, v, c)
  {
    var n := KoreanCountsAt(s, i).value;
    assert KoreanShape(s, i, n.w, n.b, n.v, n.c);
  }

  lemma YearFirstAtComplete(s: string, i: nat, b: nat, c: nat)
    requires YearFirstShape(s, i, b, c)
    ensures YearFirstAt(s, i).Some?
  {
    SepFieldComplete(s, i, 4, 4, 4);
    SepFieldComplete(s, i + 5, 1, 2, b);
  }

  lemma DayFirstAtComplete(s: string, i: nat, a: nat, b: nat)
    requires DayFirstShape(s, i, a, b)
    ensures DayFirstAt(s, i).Some?
  {
    SepFieldComplete(s, i, 1, 2, a);
    SepFieldComplete(s, i + a + 1, 1, 2, b);
  }

  lemma KoreanCountsOf(s: string, i: nat, w: nat, b: nat, v: nat, c: nat)
    requires i + 5 <= |s|
    requires MarkField(s, i, 4, 4, YearMark) == Some(4)
    requires MonthDayFields(s, i + 5) == Some((Field(i + 5 + w, b), Field(i + 6 + w + b + v, c)))
    ensures KoreanCountsAt(s, i) == Some(KoreanCounts(w, b, v, c))
  {
    var md := MonthDayFields(s, i + 5).value;
    assert md.0.start - (i + 5) == w && md.0.len == b;
    assert md.1.start - (md.0.start + md.0.len + 1) == v && md.1.len == c;
  }

  /** The engine settles on the counts of any literal Korean match: they are
      unique. */
  lemma KoreanCountsComplete(s: string, i: nat, w: nat, b: nat, v: nat, c: nat)
    requires KoreanShape(s, i, w, b, v, c)
    ensures KoreanCountsAt(s, i) == Some(KoreanCounts(w, b, v, c))
  {
    assert MarkField(s, i, 4, 4, YearMark) == Some(4) by {
      MarkFieldComplete(s, i, 4, 4, YearMark, 4);
    }
    MonthDayFieldsComplete(s, i, w, b, v, c);
    KoreanCountsOf(s, i, w, b, v, c);
  }

  /** Every way of matching the Korean pattern at `i` yields the same groups,
      and they are the ones the engine reports. */
  lemma KoreanAtComplete(s: string, i: nat, w: nat, b: nat, v: nat, c: nat)
    requires KoreanShape(s, i, w, b, v, c)
    ensures KoreanAt(s, i) == Some(KoreanCaptures(s, i, w, b, v, c))
  {
    KoreanCountsComplete(s, i, w, b, v, c);
  }

  /** Every way of matching the generic pattern at `i` has the same first two
      counts as the engine's match, and a last count no larger than the
      engine's. */
  lemma GenericAtComplete(s: string, i: nat, a: nat, b: nat, c: nat)
    requires GenericShape(s, i, a, b, c)
    ensures GenericCountsAt(s, i).Some?
    ensures GenericCountsAt(s, i).value.0 == a && GenericCountsAt(s, i).value.1 == b
    ensures c <= GenericCountsAt(s, i).value.2
  {
    SepFieldComplete(s, i, 1, 4, a);
    SepFieldComplete(s, i + a + 1, 1, 2, b);
  }

  /** A literal generic match whose last group cannot take another digit is
      the one the engine reports. */
  lemma GenericAtGreedy(s: string, i: nat, a: nat, b: nat, c: nat)
    requires GenericShape(s, i, a, b, c)
    requires c == 4 || !DigitAt(s, i + a + b + 2 + c)
    ensures GenericAt(s, i) == Some(GenericCaptures(s, i, a, b, c))
  {
    GenericAtComplete(s, i, a, b, c);
    if c < 4 {
      DigitRunExact(s, i + a + b + 2, c);
    }
    assert GenericCountsAt(s, i) == Some((a, b, c));
  }

  /** The engine finds a match at `i` exactly when the pattern, read
      literally, matches at `i`. */
  lemma MatchAtIff(p: Pattern, s: string, i: nat)
    ensures MatchAt(p, s, i).Some? <==> Matches(p, s, i)
  {
    match p
    case YearFirst =>
      if Matches(p, s, i) {
        var b, c :| YearFirstShape(s, i, b, c);
        YearFirstAtComplete(s, i, b, c);
      }
    case DayFirst =>
      if Matches(p, s, i) {
        var a, b :| DayFirstShape(s, i, a, b);
        DayFirstAtComplete(s, i, a, b);
      }
    case Korean =>
      if Matches(p, s, i) {
        var w, b, v, c :| KoreanShape(s, i, w, b, v, c);
        KoreanAtComplete(s, i, w, b, v, c);
      }
      if KoreanAt(s, i).Some? {
        KoreanAtSound(s, i);
      }
    case Generic =>
      if Matches(p, s, i) {
        var a, b, c :| GenericShape(s, i, a, b, c);
        GenericAtComplete(s, i, a, b, c);
      }
  }

  // ---------------------------------------------------------------------
  // Leftmost search

  function SearchFrom(p: Pattern, s: string, i: nat): (r: Option<Found>)
    requires i <= |s| + 1
    ensures r.Some? ==> i <= r.value.pos < |s| && MatchAt(p, s, r.value.pos) == Some(r.value.groups)
    ensures forall k :: i <= k <= |s| && (r.None? || k < r.value.pos) ==> MatchAt(p, s, k).None?
    decreases |s| + 1 - i
  {
    if i > |s| then None
    else match MatchAt(p, s, i)
      case Some(g) => Some(Found(i, g))
      case None => SearchFrom(p, s, i + 1)
  }

  /** `re.search(p, s)`: the match that starts leftmost. */
  function Search(p: Pattern, s: string): Option<Found> {
    SearchFrom(p, s, 0)
  }

  /** The search succeeds exactly when the pattern occurs, and then reports
      the leftmost position at which it matches. */
  lemma SearchIsLeftmost(p: Pattern, s: string)
    ensures Search(p, s).Some? <==> Occurs(p, s)
    ensures Search(p, s).Some? ==>
              && Matches(p, s, Search(p, s).value.pos)
              && forall j :: 0 <= j < Search(p, s).value.pos ==> !Matches(p, s, j)
  {
    var r := Search(p, s);
    if r.Some? {
      MatchAtIff(p, s, r.value.pos);
      forall j | 0 <= j < r.value.pos
        ensures !Matches(p, s, j)
      {
        MatchAtIff(p, s, j);
      }
    }
    if Occurs(p, s) {
      var i :| Matches(p, s, i);
      MatchAtIff(p, s, i);
    }
  }

  /** The leftmost Korean date, read through the literal pattern. */
  lemma KoreanLeftmost(s: string, i: nat, w: nat, b: nat, v: nat, c: nat)
    requires KoreanShape(s, i, w, b, v, c)
    requires forall j :: 0 <= j < i ==> !Matches(Korean, s, j)
    ensures Search(Korean, s) == Some(Found(i, KoreanCaptures(s, i, w, b, v, c)))
  {
    assert Matches(Korean, s, i);
    SearchFindsLeftmost(Korean, s, i);
    KoreanAtComplete(s, i, w, b, v, c);
  }

  /** The leftmost match is at `i`, given a match at `i` and none before. */
  lemma SearchFindsLeftmost(p: Pattern, s: string, i: nat)
    requires Matches(p, s, i)
    requires forall j :: 0 <= j < i ==> !Matches(p, s, j)
    ensures Search(p, s).Some? && Search(p, s).value.pos == i
    ensures Search(p, s).value.groups == MatchAt(p, s, i).value
  {
    SearchIsLeftmost(p, s);
    MatchAtIff(p, s, i);
  }

  // ---------------------------------------------------------------------
  // is_date

  /** `any(re.search(p, text) for p in date_patterns)` */
  predicate IsDate(text: string) {
    Search(YearFirst, text).Some? || Search(DayFirst, text).Some? || Search(Korean, text).Some?
  }

  /** A text is a date exactly when one of the three patterns occurs in it
      somewhere (a search, not a full match). */
  lemma IsDateIff(text: string)
    ensures IsDate(text) <==> Occurs(YearFirst, text) || Occurs(DayFirst, text) || Occurs(Korean, text)
  {
    SearchIsLeftmost(YearFirst, text);
    SearchIsLeftmost(DayFirst, text);
    SearchIsLeftmost(Korean, text);
  }

  /** Wherever the first or second date pattern matches, the generic pattern
      matches too. */
  lemma DatePatternsAreGeneric(s: string, i: nat)
    requires Matches(YearFirst, s, i) || Matches(DayFirst, s, i)
    ensures Matches(Generic, s, i)
  {
    if Matches(YearFirst, s, i) {
      var b, c :| YearFirstShape(s, i, b, c);
      assert GenericShape(s, i, 4, b, c);
    } else {
      var a, b :| DayFirstShape(s, i, a, b);
      assert GenericShape(s, i, a, b, 4);
    }
  }

  lemma DateOccurrenceIsGeneric(s: string)
    requires Occurs(YearFirst, s) || Occurs(DayFirst, s)
    ensures Occurs(Generic, s)
  {
    var i :| Matches(YearFirst, s, i) || Matches(DayFirst, s, i);
    DatePatternsAreGeneric(s, i);
  }
}
