/** ISO 8601 durations restricted to the time designators: `PT[nH][nM][nS]`
    (ISO 8601:2004 section 4.4.3.2), read leniently and written canonically
    (src/utils/duration.ts). */
module Duration {
  import opened Wrappers
  import opened Decimal
  import opened Strings

  /** "PT" starts at index `i` of `s`. */
  predicate PTAt(s: string, i: nat) {
    i + 1 < |s| && s[i] == 'P' && s[i+1] == 'T'
  }

  predicate ContainsPT(s: string) {
    exists i: nat | i < |s| :: PTAt(s, i)
  }

  /** Leftmost "PT" at or after `from`. */
  function FindPT(s: string, from: nat): (r: Option<nat>)
    ensures r.Some? ==> from <= r.value && PTAt(s, r.value)
    ensures forall i: nat :: from <= i && (r.None? || i < r.value) ==> !PTAt(s, i)
    decreases |s| - from
  {
    if from + 1 >= |s| then None
    else if PTAt(s, from) then Some(from)
    else FindPT(s, from + 1)
  }

  /** Length of the maximal run of ASCII digits starting at `i`: what a
      greedy `\d+` consumes. */
  function DigitRun(s: string, i: nat): (n: nat)
    requires i <= |s|
    ensures i + n <= |s| && AllDigits(s[i..i+n])
    ensures i + n < |s| ==> !IsDigit(s[i+n])
    decreases |s| - i
  {
    if i < |s| && IsDigit(s[i]) then
      var n := 1 + DigitRun(s, i + 1);
      assert s[i..i+n] == [s[i]] + s[i+1..i+n];
      n
    else 0
  }

  /** A digit run is determined by where it starts. */
  lemma {:induction false} DigitRunIs(s: string, i: nat, d: string)
    requires i + |d| <= |s| && s[i..i+|d|] == d && AllDigits(d)
    requires i + |d| < |s| ==> !IsDigit(s[i+|d|])
    ensures DigitRun(s, i) == |d|
    decreases |d|
  {
    if |d| > 0 {
      assert s[i] == d[0];
      assert s[i+1..i+|d|] == d[1..];
      DigitRunIs(s, i + 1, d[1..]);
    }
  }

  /** The captures of one match of `PT(?:(\d+)H)?(?:(\d+)M)?(?:(\d+)S)?`,
      and the index just past it. */
  datatype Captures = Captures(hours: Option<string>, minutes: Option<string>, seconds: Option<string>, end: nat)

  predicate DigitCapture(c: Option<string>) {
    c.Some? ==> |c.value| > 0 && AllDigits(c.value)
  }

  predicate DigitCaptures(cs: seq<Option<string>>)
    decreases |cs|
  {
    |cs| == 0 || (DigitCapture(cs[0]) && DigitCaptures(cs[1..]))
  }

  /** Designators are never digits, and no two are alike. */
  predicate Designators(ds: string)
    decreases |ds|
  {
    |ds| == 0 || (!IsDigit(ds[0]) && ds[0] !in ds[1..] && Designators(ds[1..]))
  }

  /** The designators of the time part, in the order the pattern tries them. */
  const TimeDesignators: string := "HMS"

  /** `(\d+)X` can match the first `n + 1` characters of `x`: `n` digits,
      then the designator. */
  predicate GroupAt(x: string, designator: char, n: nat) {
    0 < n < |x| && AllDigits(x[..n]) && x[n] == designator
  }

  /** One optional group `(?:(\d+)X)?` tried at the start of `x`: greedy
      digits followed by the designator, or nothing. Returns the capture and
      how many characters the group consumed. */
  function Group(x: string, designator: char): (r: (Option<string>, nat))
    requires !IsDigit(designator)
    ensures DigitCapture(r.0) && r.1 <= |x|
    ensures r.0.None? ==> r.1 == 0
    ensures r.0.Some? ==> r.1 == |r.0.value| + 1 && x[..r.1] == r.0.value + [designator]
  {
    var n := DigitRun(x, 0);
    if n > 0 && n < |x| && x[n] == designator then
      assert x[..n+1] == x[0..n] + [designator];
      (Some(x[0..n]), n + 1)
    else (None, 0)
  }

  /** The group matches exactly when some digits followed by the
      designator start `x`, and then those digits are the capture: a shorter
      digit run is followed by a digit, never by a designator, so
      backtracking cannot find another match. */
  lemma {:induction false} GroupMeaning(x: string, designator: char)
    requires !IsDigit(designator)
    ensures Group(x, designator).0.Some? <==> exists n: nat :: GroupAt(x, designator, n)
    ensures forall n: nat :: GroupAt(x, designator, n) ==> Group(x, designator) == (Some(x[..n]), n + 1)
  {
    var n := DigitRun(x, 0);
    forall m: nat | GroupAt(x, designator, m) ensures m == n {
      DigitRunIs(x, 0, x[..m]);
    }
    if n > 0 && n < |x| && x[n] == designator {
      assert GroupAt(x, designator, n);
    }
  }

  /** `s.match(/PT(?:(\d+)H)?(?:(\d+)M)?(?:(\d+)S)?/)`. Every group is
      optional, so the match starts at the leftmost "PT" and never fails
      there; the H, M and S groups are then tried in turn after it
      (`GroupsAfter`, and `GroupMeaning` for what one group captures);
      `end` is the index just past the match. */
  function Match(s: string): (r: Option<Captures>)
    ensures r.None? <==> !ContainsPT(s)
    ensures r.Some? ==>
      DigitCapture(r.value.hours) && DigitCapture(r.value.minutes) && DigitCapture(r.value.seconds) && r.value.end <= |s|
  {
    match FindPT(s, 0)
    case None => None
    case Some(p) =>
      TimeDesignatorsDistinct();
      Some(GroupsAfter(s[p+2..], TimeDesignators, p + 2))
  }

  /** Three optional groups for the designators `ds` tried on `x`, the
      text after a "PT" that ends at `offset`: the first group at the start
      of `x`, the second where the first ended, the third where the second
      ended, and the index just past the last. */
  function GroupsAfter(x: string, ds: string, offset: nat): (c: Captures)
    requires Designators(ds) && |ds| == 3
    ensures DigitCapture(c.hours) && DigitCapture(c.minutes) && DigitCapture(c.seconds)
    ensures offset <= c.end <= offset + |x|
  {
    DesignatorsThree(ds);
    var h := Group(x, ds[0]);
    var m := Group(x[h.1..], ds[1]);
    var sec := Group(x[h.1..][m.1..], ds[2]);
    Captures(h.0, m.0, sec.0, offset + h.1 + m.1 + sec.1)
  }

  lemma DesignatorsThree(ds: string)
    requires Designators(ds) && |ds| == 3
    ensures !IsDigit(ds[0]) && !IsDigit(ds[1]) && !IsDigit(ds[2])
  {
    var ms := ds[1..];
    assert Designators(ms) && ms[0] == ds[1];
    assert Designators(ms[1..]) && ms[1..][0] == ds[2];
  }

  /** The match is taken at the leftmost "PT", index `p`, and its captures
      are the three time groups tried in turn on the text after it. */
  lemma MatchAtLeftmost(s: string, p: nat)
    requires PTAt(s, p) && forall i: nat :: i < p ==> !PTAt(s, i)
    ensures Designators(TimeDesignators)
    ensures Match(s) == Some(GroupsAfter(s[p+2..], TimeDesignators, p + 2))
  {
    TimeDesignatorsDistinct();
    assert FindPT(s, 0) == Some(p);
  }

  /** Components out of order: in "xPT5M3H" the hours group finds "5"
      closed by M, so it matches nothing; the minutes group takes "5M"; the
      seconds group finds "3" closed by H and matches nothing. The match is
      "PT5M", and the trailing "3H" is never read. */
  lemma MatchOutOfOrder()
    ensures Match("xPT5M3H") == Some(Captures(None, Some("5"), None, 5))
  {
    var s := "xPT5M3H";
    assert !PTAt(s, 0) && PTAt(s, 1);
    assert FindPT(s, 0) == Some(1);
    var x := s[3..];
    assert x == "5M3H";
    assert DigitRun(x, 0) == 1 by { assert DigitRun(x, 1) == 0; }
    assert Group(x, 'H') == (None, 0);
    assert Group(x, 'M') == (Some("5"), 2) by { assert x[0..1] == "5"; }
    var y := x[2..];
    assert y == "3H";
    assert DigitRun(y, 0) == 1 by { assert DigitRun(y, 1) == 0; }
    assert Group(y, 'S') == (None, 0);
    TimeDesignatorsDistinct();
    assert TimeDesignators[0] == 'H' && TimeDesignators[1] == 'M' && TimeDesignators[2] == 'S';
    assert x[0..][2..] == y;
  }

  /** `parseInt(c || '0')` of one capture. */
  function CaptureValue(c: Option<string>): nat
    requires DigitCapture(c)
  {
    if c.Some? then Value(c.value) else 0
  }

  /** `parseDuration`: 3600·H + 60·M + S over the captured components, 0 when
      the text holds no "PT". */
  function Parse(s: string): (r: nat)
    ensures !ContainsPT(s) ==> r == 0
  {
    match Match(s)
    case None => 0
    case Some(c) => CaptureValue(c.hours) * 3600 + CaptureValue(c.minutes) * 60 + CaptureValue(c.seconds)
  }

  /** `compareDurations`: a comparator whose sign is that of the difference
      in seconds. */
  function Compare(a: string, b: string): (r: int)
    ensures r == 0 <==> Parse(a) == Parse(b)
    ensures r < 0 <==> Parse(a) < Parse(b)
    ensures r > 0 <==> Parse(a) > Parse(b)
  {
    Parse(a) - Parse(b)
  }

  lemma CompareAntisymmetric(a: string, b: string)
    ensures Compare(a, b) == -Compare(b, a)
    ensures Compare(a, a) == 0
  {
  }

  // ---------------------------------------------------------------------
  // Writing durations.

  /** One written component: its digits and designator, or nothing. */
  function Part(c: Option<string>, designator: char): string {
    if c.Some? then c.value + [designator] else ""
  }

  /** The components `cs` written in order, each present one followed by its
      designator from `ds`. */
  function Written(cs: seq<Option<string>>, ds: string): string
    requires |cs| == |ds|
    decreases |ds|
  {
    if |ds| == 0 then "" else Part(cs[0], ds[0]) + Written(cs[1..], ds[1..])
  }

  /** `PT` followed by the components present, in H, M, S order. */
  function Render(h: Option<string>, m: Option<string>, s: Option<string>): string {
    "PT" + Written([h, m, s], TimeDesignators)
  }

  lemma {:induction false} WrittenOne(c: Option<string>, ds: string)
    requires |ds| == 1
    ensures Written([c], ds) == Part(c, ds[0])
  {
    assert [c][1..] == [];
  }

  lemma {:induction false} WrittenThree(h: Option<string>, m: Option<string>, s: Option<string>, ds: string)
    requires |ds| == 3
    ensures Written([h, m, s], ds) == Part(h, ds[0]) + Part(m, ds[1]) + Part(s, ds[2])
  {
    var t := ds[1..];
    assert [h, m, s][1..] == [m, s];
    assert [m, s][1..] == [s];
    WrittenStep([h, m, s], ds);
    WrittenStep([m, s], t);
    WrittenOne(s, t[1..]);
    var a, b, c := Part(h, ds[0]), Part(m, ds[1]), Part(s, ds[2]);
    assert a + (b + c) == a + b + c;
  }

  lemma {:induction false} WrittenStep(cs: seq<Option<string>>, ds: string)
    requires |cs| == |ds| > 0
    ensures Written(cs, ds) == Part(cs[0], ds[0]) + Written(cs[1..], ds[1..])
  {
  }

  /** The written form is the template `PT${h}${m}${s}` of `addDurations`. */
  lemma RenderParts(h: Option<string>, m: Option<string>, s: Option<string>)
    ensures Render(h, m, s) == "PT" + Part(h, 'H') + Part(m, 'M') + Part(s, 'S')
  {
    WrittenThree(h, m, s, TimeDesignators);
  }

  lemma DropPrefix(a: string, b: string)
    ensures (a + b)[|a|..] == b
  {
  }

  lemma TimeDesignatorsDistinct()
    ensures Designators(TimeDesignators)
  {
  }

  /** What the group for `probe` finds at the start of a present written
      component: the component itself if `probe` is its designator,
      nothing otherwise. */
  lemma GroupOfPart(d: string, designator: char, after: string, probe: char)
    requires |d| > 0 && AllDigits(d) && !IsDigit(designator) && !IsDigit(probe)
    ensures Group(d + [designator] + after, probe) == if probe == designator then (Some(d), |d| + 1) else (None, 0)
  {
    var x := d + [designator] + after;
    assert x[0..|d|] == d;
    assert x[|d|] == designator;
    DigitRunIs(x, 0, d);
  }

  /** A group whose designator is not among the written ones finds nothing:
      the text starts with digits closed by another designator, or is empty. */
  lemma {:induction false} GroupOfOther(cs: seq<Option<string>>, ds: string, probe: char)
    requires |cs| == |ds| && DigitCaptures(cs) && Designators(ds)
    requires !IsDigit(probe) && probe !in ds
    ensures Group(Written(cs, ds), probe) == (None, 0)
    decreases |ds|
  {
    if |ds| == 0 {
      assert DigitRun("", 0) == 0;
    } else if cs[0].Some? {
      GroupOfPart(cs[0].value, ds[0], Written(cs[1..], ds[1..]), probe);
    } else {
      assert Written(cs, ds) == Written(cs[1..], ds[1..]);
      assert probe !in ds[1..] by { assert forall c :: c in ds[1..] ==> c in ds; }
      GroupOfOther(cs[1..], ds[1..], probe);
    }
  }

  /** The first group finds the first written component. */
  lemma GroupOfHead(cs: seq<Option<string>>, ds: string)
    requires |cs| == |ds| > 0 && DigitCaptures(cs) && Designators(ds)
    ensures Group(Written(cs, ds), ds[0]) == (cs[0], |Part(cs[0], ds[0])|)
  {
    var w' := Written(cs[1..], ds[1..]);
    if cs[0].Some? {
      GroupOfPart(cs[0].value, ds[0], w', ds[0]);
    } else {
      assert Written(cs, ds) == w';
      GroupOfOther(cs[1..], ds[1..], ds[0]);
    }
  }

  /** What follows the first written component is the rest written. */
  lemma WrittenAfterHead(cs: seq<Option<string>>, ds: string)
    requires |cs| == |ds| > 0
    ensures Written(cs, ds)[|Part(cs[0], ds[0])|..] == Written(cs[1..], ds[1..])
    ensures |Written(cs, ds)| == |Part(cs[0], ds[0])| + |Written(cs[1..], ds[1..])|
  {
    DropPrefix(Part(cs[0], ds[0]), Written(cs[1..], ds[1..]));
  }

  lemma PTAtStart(x: string)
    ensures PTAt("PT" + x, 0)
  {
  }

  lemma FindPTAtStart(x: string)
    ensures FindPT("PT" + x, 0) == Some(0)
  {
    PTAtStart(x);
  }

  /** The three groups read three written components back one by one. */
  lemma ReadWritten(cs: seq<Option<string>>, ds: string)
    requires |cs| == |ds| == 3 && DigitCaptures(cs) && Designators(ds)
    ensures GroupsAfter(Written(cs, ds), ds, 2) == Captures(cs[0], cs[1], cs[2], 2 + |Written(cs, ds)|)
  {
    DesignatorsThree(ds);
    var x := Written(cs, ds);
    var cs1, ds1 := cs[1..], ds[1..];
    var cs2, ds2 := cs1[1..], ds1[1..];
    assert DigitCaptures(cs1) && Designators(ds1) && DigitCaptures(cs2) && Designators(ds2);
    assert cs1[0] == cs[1] && ds1[0] == ds[1] && cs2[0] == cs[2] && ds2[0] == ds[2];
    var h := Group(x, ds[0]);
    assert h == (cs[0], |Part(cs[0], ds[0])|) by { GroupOfHead(cs, ds); }
    var y := x[h.1..];
    assert y == Written(cs1, ds1) && |x| == h.1 + |y| by { WrittenAfterHead(cs, ds); }
    var m := Group(y, ds[1]);
    assert m == (cs[1], |Part(cs[1], ds[1])|) by { GroupOfHead(cs1, ds1); }
    var z := y[m.1..];
    assert z == Written(cs2, ds2) && |y| == m.1 + |z| by { WrittenAfterHead(cs1, ds1); }
    var sec := Group(z, ds[2]);
    assert sec == (cs[2], |Part(cs[2], ds[2])|) by { GroupOfHead(cs2, ds2); }
    assert |z| == sec.1 by {
      WrittenAfterHead(cs2, ds2);
      assert |cs2[1..]| == 0;
    }
  }

  lemma ThreeCaptures(h: Option<string>, m: Option<string>, s: Option<string>)
    requires DigitCapture(h) && DigitCapture(m) && DigitCapture(s)
    ensures DigitCaptures([h, m, s])
  {
    assert [s][1..] == [];
    assert DigitCaptures([s]);
    assert [m, s][1..] == [s];
    assert DigitCaptures([m, s]);
    assert [h, m, s][1..] == [m, s];
  }

  /** Reading a written duration recovers its components. */
  lemma MatchRender(h: Option<string>, m: Option<string>, s: Option<string>)
    requires DigitCapture(h) && DigitCapture(m) && DigitCapture(s)
    ensures Match(Render(h, m, s)) == Some(Captures(h, m, s, |Render(h, m, s)|))
  {
    ReadRendered(h, m, s);
    MatchOfWritten(Render(h, m, s), Written([h, m, s], TimeDesignators), Captures(h, m, s, |Render(h, m, s)|));
  }

  /** A text "PT" + `w` whose groups read `c` back is matched as `c`. */
  lemma MatchOfWritten(r: string, w: string, c: Captures)
    requires r == "PT" + w
    requires Designators(TimeDesignators) && GroupsAfter(w, TimeDesignators, 2) == c
    ensures Match(r) == Some(c)
  {
    MatchAfterPT(w);
  }

  /** A text that starts with "PT" is matched there. */
  lemma MatchAfterPT(x: string)
    ensures Designators(TimeDesignators)
    ensures Match("PT" + x) == Some(GroupsAfter(x, TimeDesignators, 2))
  {
    PTAtStart(x);
    DropPrefix("PT", x);
    MatchAtLeftmost("PT" + x, 0);
  }

  /** The groups read a written duration back. */
  lemma ReadRendered(h: Option<string>, m: Option<string>, s: Option<string>)
    requires DigitCapture(h) && DigitCapture(m) && DigitCapture(s)
    ensures Designators(TimeDesignators)
    ensures var w := Written([h, m, s], TimeDesignators);
      GroupsAfter(w, TimeDesignators, 2) == Captures(h, m, s, 2 + |w|)
  {
    TimeDesignatorsDistinct();
    ThreeCaptures(h, m, s);
    ReadWritten([h, m, s], TimeDesignators);
  }

  /** The value of a written duration. */
  lemma ParseRender(h: Option<string>, m: Option<string>, s: Option<string>)
    requires DigitCapture(h) && DigitCapture(m) && DigitCapture(s)
    ensures Parse(Render(h, m, s)) == CaptureValue(h) * 3600 + CaptureValue(m) * 60 + CaptureValue(s)
  {
    MatchRender(h, m, s);
  }

  // ---------------------------------------------------------------------
  // Canonical form and addition.

  /** A number written as a component: omitted when zero (`h ? h + 'H' : ''`). */
  function NonZero(x: nat): (c: Option<string>)
    ensures DigitCapture(c) && CaptureValue(c) == x
    ensures c.Some? <==> x != 0
  {
    if x == 0 then None else Some(Show(x))
  }

  /** The serialisation at the end of `addDurations`: whole hours, then the
      remaining minutes and seconds, zero components left out. */
  function Canonical(total: nat): string {
    Render(NonZero(total / 3600), NonZero(total % 3600 / 60), NonZero(total % 60))
  }

  /** A present component is a numeral without a leading zero denoting a
      positive number. */
  predicate PositiveNumeral(c: Option<string>) {
    c.Some? ==> |c.value| > 0 && AllDigits(c.value) && c.value[0] != '0' && Value(c.value) > 0
  }

  /** A duration in canonical form: the whole text is one match starting at
      index 0, no component is zero or zero-padded, and minutes and seconds
      are below 60. */
  predicate IsCanonical(r: string) {
    match Match(r)
    case None => false
    case Some(c) =>
      && PTAt(r, 0)
      && c.end == |r|
      && PositiveNumeral(c.hours) && PositiveNumeral(c.minutes) && PositiveNumeral(c.seconds)
      && (c.minutes.Some? ==> Value(c.minutes.value) < 60)
      && (c.seconds.Some? ==> Value(c.seconds.value) < 60)
  }

  lemma SplitSeconds(n: nat)
    ensures n == n / 3600 * 3600 + n % 3600 / 60 * 60 + n % 60
    ensures n % 3600 / 60 < 60
  {
    var q, r := n / 3600, n % 3600;
    var m, s := r / 60, r % 60;
    assert n == 60 * (60 * q + m) + s;
  }

  /** The match of a canonical duration captures its non-zero components. */
  lemma MatchCanonical(n: nat)
    ensures Match(Canonical(n)) ==
      Some(Captures(NonZero(n / 3600), NonZero(n % 3600 / 60), NonZero(n % 60), |Canonical(n)|))
  {
    var h, m, s := NonZero(n / 3600), NonZero(n % 3600 / 60), NonZero(n % 60);
    MatchRender(h, m, s);
  }

  /** Writing a number of seconds canonically and reading it back gives the
      number. */
  lemma ParseCanonical(n: nat)
    ensures Parse(Canonical(n)) == n
  {
    MatchCanonical(n);
    SplitSeconds(n);
  }

  /** A non-zero component is written without leading zeros. */
  lemma NonZeroPositive(x: nat)
    ensures PositiveNumeral(NonZero(x))
  {
    if x != 0 {
      var r := Show(x);
      if |r| == 1 {
        assert r != "0";
        assert r == [r[0]];
      }
    }
  }

  /** The components of a canonical duration, read off its match. */
  lemma CanonicalComponents(n: nat, c: Captures)
    requires Match(Canonical(n)) == Some(c)
    requires c == Captures(NonZero(n / 3600), NonZero(n % 3600 / 60), NonZero(n % 60), |Canonical(n)|)
    ensures PositiveNumeral(c.hours) && PositiveNumeral(c.minutes) && PositiveNumeral(c.seconds)
    ensures c.minutes.Some? ==> Value(c.minutes.value) < 60
    ensures c.seconds.Some? ==> Value(c.seconds.value) < 60
  {
    NonZeroPositive(n / 3600);
    NonZeroPositive(n % 3600 / 60);
    NonZeroPositive(n % 60);
    SplitSeconds(n);
  }

  /** What `addDurations` writes is in canonical form. */
  lemma CanonicalIsCanonical(n: nat)
    ensures IsCanonical(Canonical(n))
  {
    var c := Captures(NonZero(n / 3600), NonZero(n % 3600 / 60), NonZero(n % 60), |Canonical(n)|);
    MatchCanonical(n);
    CanonicalComponents(n, c);
    PTAtStart(Written([c.hours, c.minutes, c.seconds], TimeDesignators));
  }

  /** Zero seconds are written as the bare designator. */
  lemma CanonicalZero()
    ensures Canonical(0) == "PT"
  {
  }

  /** `totalSeconds` in `addDurations`. */
  function TotalSeconds(a: string, b: string): nat {
    Parse(a) + Parse(b)
  }

  /** `addDurations`: the sum of two durations, in canonical form. */
  function Add(a: string, b: string): (r: string)
    ensures TotalSeconds(a, b) == 0 ==> r == "PT"
  {
    CanonicalZero();
    Canonical(TotalSeconds(a, b))
  }

  /** Reading a sum back gives the sum of the seconds of its operands. */
  lemma ParseAdd(a: string, b: string)
    ensures Parse(Add(a, b)) == Parse(a) + Parse(b)
  {
    ParseCanonical(TotalSeconds(a, b));
  }

  /** Every sum is in canonical form. */
  lemma AddIsCanonical(a: string, b: string)
    ensures IsCanonical(Add(a, b))
  {
    CanonicalIsCanonical(TotalSeconds(a, b));
  }

  lemma AddCommutative(a: string, b: string)
    ensures Add(a, b) == Add(b, a)
  {
    assert TotalSeconds(a, b) == TotalSeconds(b, a);
  }

  /** The empty text denotes no time. */
  lemma ParseEmpty()
    ensures Parse("") == 0
  {
    assert !ContainsPT("");
  }

  /** Sums over the same number of seconds are the same text. */
  lemma AddBySeconds(x: string, c: string, y: string, d: string)
    requires TotalSeconds(x, c) == TotalSeconds(y, d)
    ensures Add(x, c) == Add(y, d)
  {
  }

  /** Adding a duration of no time, such as the empty text, to a sum
      changes nothing. */
  lemma AddZeroIdentity(a: string, b: string, z: string)
    requires Parse(z) == 0
    ensures Add(Add(a, b), z) == Add(a, b)
  {
    ParseAdd(a, b);
    AddBySeconds(Add(a, b), z, a, b);
  }

  lemma AddEmptyIdentity(a: string, b: string)
    ensures Add(Add(a, b), "") == Add(a, b)
  {
    ParseEmpty();
    AddZeroIdentity(a, b, "");
  }

  /** Addition is associative on the durations it produces. */
  lemma AddAssociative(a: string, b: string, c: string)
    ensures Add(Add(a, b), c) == Add(a, Add(b, c))
  {
    ParseAdd(a, b);
    ParseAdd(b, c);
    AddBySeconds(Add(a, b), c, a, Add(b, c));
  }

  // ---------------------------------------------------------------------
  // Human-readable rendering (`formatDuration` in src/utils/duration.ts).

  /** One displayed unit, omitted when zero (`h && `${h}h``). */
  function Unit(x: nat, unit: char): seq<string> {
    if x == 0 then [] else [Show(x) + [unit]]
  }

  /** Seconds per displayed unit letter. */
  function UnitSeconds(unit: char): nat {
    if unit == 'h' then 3600 else if unit == 'm' then 60 else if unit == 's' then 1 else 0
  }

  /** The seconds one displayed word such as "90s" stands for. */
  function WordSeconds(w: string): nat {
    if |w| >= 2 && AllDigits(w[..|w|-1]) then Value(w[..|w|-1]) * UnitSeconds(w[|w|-1]) else 0
  }

  function SumWordSeconds(ws: seq<string>): nat {
    if |ws| == 0 then 0 else WordSeconds(ws[0]) + SumWordSeconds(ws[1..])
  }

  /** Reads a displayed duration back into seconds. */
  function ReadDisplay(r: string): nat {
    SumWordSeconds(Words(r))
  }

  lemma UnitWords(x: nat, unit: char)
    requires !IsWhitespace(unit) && !IsDigit(unit)
    ensures AreWords(Unit(x, unit))
    ensures SumWordSeconds(Unit(x, unit)) == x * UnitSeconds(unit)
  {
    if x != 0 {
      var w := Show(x) + [unit];
      assert w[..|w|-1] == Show(x);
      assert Unit(x, unit)[1..] == [];
      assert NoWhitespace(w) by {
        forall i | 0 <= i < |w| ensures !IsWhitespace(w[i]) {
          if i < |w| - 1 { assert IsDigit(Show(x)[i]); }
        }
      }
    }
  }

  lemma {:induction false} SumWordSecondsAppend(a: seq<string>, b: seq<string>)
    ensures SumWordSeconds(a + b) == SumWordSeconds(a) + SumWordSeconds(b)
  {
    if |a| == 0 {
      assert a + b == b;
    } else {
      assert (a + b)[1..] == a[1..] + b;
      SumWordSecondsAppend(a[1..], b);
    }
  }

  /** The displayed units of `n` seconds, largest first. */
  function Units(n: nat): seq<string> {
    Unit(n / 3600, 'h') + Unit(n % 3600 / 60, 'm') + Unit(n % 60, 's')
  }

  lemma UnitsAreWords(n: nat)
    ensures AreWords(Units(n))
  {
    UnitWords(n / 3600, 'h');
    UnitWords(n % 3600 / 60, 'm');
    UnitWords(n % 60, 's');
  }

  lemma SumWordSecondsThree(a: seq<string>, b: seq<string>, c: seq<string>)
    ensures SumWordSeconds(a + b + c) == SumWordSeconds(a) + SumWordSeconds(b) + SumWordSeconds(c)
  {
    SumWordSecondsAppend(a, b);
    SumWordSecondsAppend(a + b, c);
  }

  lemma UnitSecondsOfLetters()
    ensures UnitSeconds('h') == 3600 && UnitSeconds('m') == 60 && UnitSeconds('s') == 1
  {
  }

  lemma UnitsSumOf(h: nat, m: nat, s: nat)
    ensures SumWordSeconds(Unit(h, 'h') + Unit(m, 'm') + Unit(s, 's')) == h * 3600 + m * 60 + s
  {
    var a, b, c := Unit(h, 'h'), Unit(m, 'm'), Unit(s, 's');
    UnitSecondsOfLetters();
    UnitWords(h, 'h');
    assert SumWordSeconds(a) == h * 3600;
    UnitWords(m, 'm');
    assert SumWordSeconds(b) == m * 60;
    UnitWords(s, 's');
    assert SumWordSeconds(c) == s;
    SumWordSecondsThree(a, b, c);
  }

  /** The units add up to `n` seconds. */
  lemma UnitsSum(n: nat)
    ensures SumWordSeconds(Units(n)) == n
  {
    UnitsSumOf(n / 3600, n % 3600 / 60, n % 60);
    SplitSeconds(n);
  }

  /** There are no units exactly when `n` is zero. */
  lemma UnitsEmpty(n: nat)
    ensures |Units(n)| == 0 <==> n == 0
  {
    SplitSeconds(n);
  }

  /** The units are words that add up to `n` seconds, and there are none
      exactly when `n` is zero. */
  lemma UnitsRead(n: nat)
    ensures AreWords(Units(n))
    ensures SumWordSeconds(Units(n)) == n
    ensures |Units(n)| == 0 <==> n == 0
  {
    UnitsAreWords(n);
    UnitsSum(n);
    UnitsEmpty(n);
  }

  /** The label's words are `h`, `m` and `s` with their unit letters, in
      that order, each left out when zero. */
  predicate ListsUnits(r: string, h: nat, m: nat, s: nat) {
    Words(r) == Unit(h, 'h') + Unit(m, 'm') + Unit(s, 's')
  }

  /** `r` is the normalised label of `n` seconds: its words are the hours,
      minutes below 60 and seconds below 60 that make up `n`, zero units
      left out. */
  ghost predicate NormalLabel(r: string, n: nat) {
    exists h: nat, m: nat, s: nat :: m < 60 && s < 60 && h * 3600 + m * 60 + s == n && ListsUnits(r, h, m, s)
  }

  /** `formatDuration` on a number of seconds: hours, minutes and seconds
      with unit letters, zero units left out, separated by single spaces.
      Reading the words back gives the same number of seconds. */
  function FormatSeconds(n: nat): (r: string)
    ensures NormalLabel(r, n)
    ensures SingleSpaced(r)
    ensures r == "" <==> n == 0
    ensures ReadDisplay(r) == n
  {
    UnitsRead(n);
    JoinWordsSingleSpaced(Units(n));
    WordsOfJoin(Units(n));
    SplitSeconds(n);
    assert ListsUnits(Join(Units(n), " "), n / 3600, n % 3600 / 60, n % 60);
    Join(Units(n), " ")
  }

  /** The hours, minutes and seconds of a normalised label are determined
      by its seconds: a label listing minutes or seconds of 60 or more, such
      as "90s", is not the label of 90 seconds. */
  lemma NormalLabelUnique(r: string, n: nat, h: nat, m: nat, s: nat)
    requires m < 60 && s < 60 && h * 3600 + m * 60 + s == n
    ensures h == n / 3600 && m == n % 3600 / 60 && s == n % 60
  {
    assert n == (h * 60 + m) * 60 + s;
    assert n / 60 == h * 60 + m && n % 60 == s;
    assert n % 3600 == m * 60 + s;
  }

  /** `formatDuration`: a duration normalised through its seconds, so that
      durations of equal length display alike. */
  function Format(iso: string): (r: string)
    ensures NormalLabel(r, Parse(iso))
    ensures ReadDisplay(r) == Parse(iso)
    ensures r == "" <==> Parse(iso) == 0
    ensures SingleSpaced(r)
  {
    FormatSeconds(Parse(iso))
  }

  /** "PT90S" is shown as "1m 30s". */
  lemma FormatNinety()
    ensures Format("PT90S") == "1m 30s"
  {
    NinetySeconds();
    FormatSecondsNinety();
  }

  lemma NinetySeconds()
    ensures Parse("PT90S") == 90
  {
    var c := Some("90");
    assert Value("90") == Value("9") * 10 + 0;
    assert Written([None, None, c], TimeDesignators) == "" + Written([None, c], "MS");
    assert Written([None, c], "MS") == "" + Written([c], "S");
    assert Written([c], "S") == "90S" + Written([], "");
    assert Render(None, None, c) == "PT90S";
    ParseRender(None, None, c);
  }

  lemma FormatSecondsNinety()
    ensures FormatSeconds(90) == "1m 30s"
  {
    LabelNinety();
    assert FormatSeconds(90) == Join(Units(90), " ");
  }

  lemma LabelNinety()
    ensures Join(Units(90), " ") == "1m 30s"
  {
    UnitsNinety();
    JoinTwo("1m", "30s", " ");
  }

  lemma JoinTwo(a: string, b: string, sep: string)
    ensures Join([a, b], sep) == a + sep + b
  {
    assert [a, b][1..] == [b];
  }

  lemma UnitsNinety()
    ensures Units(90) == ["1m", "30s"]
  {
    assert 90 / 3600 == 0 && 90 % 3600 / 60 == 1 && 90 % 60 == 30;
    ShowSmall();
    assert Unit(0, 'h') == [];
    assert Unit(1, 'm') == ["1m"];
    assert Unit(30, 's') == ["30s"];
  }

  lemma ShowSmall()
    ensures Show(1) + ['m'] == "1m" && Show(30) + ['s'] == "30s"
  {
    assert Show(1) == "1";
    assert Show(3) == "3";
    assert Show(30) == Show(3) + "0";
  }
}
