/** The frontend's duration label (`formatDuration` in
    frontend/src/utils/format.ts): the components of the first
    `PT(\d+H)?(\d+M)?(\d+S)?` match copied verbatim with lower-case unit
    letters. Unlike the backend formatter it does not normalise, so "PT90S"
    shows as "90s". */
module Display {
  import opened Wrappers
  import opened Decimal
  import opened Strings
  import opened Duration

  /** The pattern `PT(\d+H)?(\d+M)?(\d+S)?` captures each designator with
      its digits and `.replace('H', '')` drops it again, so its groups are
      exactly the digit captures of the backend pattern. */
  function Shown(c: Option<string>, unit: char): seq<string> {
    if c.Some? then [c.value + [unit]] else []
  }

  /** The words shown for one match, in h, m, s order. */
  function ShownWords(c: Captures): seq<string> {
    Shown(c.hours, 'h') + Shown(c.minutes, 'm') + Shown(c.seconds, 's')
  }

  predicate Captured(c: Captures) {
    DigitCapture(c.hours) && DigitCapture(c.minutes) && DigitCapture(c.seconds)
  }

  lemma ShownWord(c: Option<string>, unit: char)
    requires DigitCapture(c) && !IsWhitespace(unit) && !IsDigit(unit)
    ensures AreWords(Shown(c, unit))
    ensures SumWordSeconds(Shown(c, unit)) == CaptureValue(c) * UnitSeconds(unit)
  {
    if c.Some? {
      var w := c.value + [unit];
      assert w[..|w|-1] == c.value;
      assert Shown(c, unit)[1..] == [];
      assert NoWhitespace(w) by {
        forall i | 0 <= i < |w| ensures !IsWhitespace(w[i]) {
          if i < |w| - 1 { assert IsDigit(c.value[i]); }
        }
      }
    }
  }

  lemma ShownAreWords(c: Captures)
    requires Captured(c)
    ensures AreWords(ShownWords(c))
  {
    ShownWord(c.hours, 'h');
    ShownWord(c.minutes, 'm');
    ShownWord(c.seconds, 's');
    AreWordsAppend(Shown(c.hours, 'h'), Shown(c.minutes, 'm'));
    AreWordsAppend(Shown(c.hours, 'h') + Shown(c.minutes, 'm'), Shown(c.seconds, 's'));
  }

  /** The label of a duration text; `None` stands for a null duration.
      Null or empty gives "unknown", text without "PT" is shown as it is,
      and otherwise the label is the captured components, single-spaced. */
  function Format(d: Option<string>): (r: string)
    ensures d.None? || d.value == "" ==> r == "unknown"
    ensures d.Some? && d.value != "" && !ContainsPT(d.value) ==> r == d.value
    ensures d.Some? && d.value != "" && ContainsPT(d.value) ==>
      SingleSpaced(r) && Words(r) == ShownWords(Match(d.value).value)
  {
    if d.None? || d.value == "" then "unknown"
    else
      match Match(d.value)
      case None => d.value
      case Some(c) =>
        ShownAreWords(c);
        JoinWordsSingleSpaced(ShownWords(c));
        WordsOfJoin(ShownWords(c));
        Join(ShownWords(c), " ")
  }

  /** The label of a written duration lists exactly its components, digits
      copied verbatim, in h, m, s order. */
  lemma FormatRender(h: Option<string>, m: Option<string>, s: Option<string>)
    requires DigitCapture(h) && DigitCapture(m) && DigitCapture(s)
    ensures Format(Some(Render(h, m, s))) == Join(Shown(h, 'h') + Shown(m, 'm') + Shown(s, 's'), " ")
  {
    MatchRender(h, m, s);
  }

  /** "PT" alone is labelled with the empty text. */
  lemma FormatBareDesignator()
    ensures Render(None, None, None) == "PT"
    ensures Format(Some("PT")) == ""
  {
    RenderParts(None, None, None);
    FormatRender(None, None, None);
  }

  lemma ShownSum(c: Captures)
    requires Captured(c)
    ensures SumWordSeconds(ShownWords(c)) ==
      CaptureValue(c.hours) * 3600 + CaptureValue(c.minutes) * 60 + CaptureValue(c.seconds)
  {
    ShownWord(c.hours, 'h');
    ShownWord(c.minutes, 'm');
    ShownWord(c.seconds, 's');
    UnitSecondsOfLetters();
    SumWordSecondsThree(Shown(c.hours, 'h'), Shown(c.minutes, 'm'), Shown(c.seconds, 's'));
  }

  /** Reading the label back gives the seconds `parseDuration` finds: the two
      formatters disagree on the layout, never on the length. */
  lemma FormatReadsBack(s: string)
    requires ContainsPT(s)
    ensures ReadDisplay(Format(Some(s))) == Parse(s)
  {
    var c := Match(s).value;
    ShownSum(c);
  }

  /** On a canonical duration, such as the result of `addDurations`, the
      frontend label and the backend's `formatDuration` coincide. */
  lemma FormatCanonical(n: nat)
    ensures Format(Some(Canonical(n))) == Duration.Format(Canonical(n))
  {
    var c := Captures(NonZero(n / 3600), NonZero(n % 3600 / 60), NonZero(n % 60), |Canonical(n)|);
    MatchCanonical(n);
    FormatOfMatch(Canonical(n), c);
    CanonicalShown(n, c);
    ParseCanonical(n);
  }

  /** The label of a text with a match lists the match's components. */
  lemma FormatOfMatch(d: string, c: Captures)
    requires Match(d) == Some(c)
    ensures Format(Some(d)) == Join(ShownWords(c), " ")
  {
  }

  /** The components of a canonical duration are shown as the backend's
      unit words. */
  lemma CanonicalShown(n: nat, c: Captures)
    requires c.hours == NonZero(n / 3600) && c.minutes == NonZero(n % 3600 / 60) && c.seconds == NonZero(n % 60)
    ensures ShownWords(c) == Units(n)
  {
    ShownNonZero(n / 3600, 'h');
    ShownNonZero(n % 3600 / 60, 'm');
    ShownNonZero(n % 60, 's');
  }

  /** A component left out when zero is shown as the backend's unit word. */
  lemma ShownNonZero(x: nat, unit: char)
    ensures Shown(NonZero(x), unit) == Unit(x, unit)
  {
  }
}
