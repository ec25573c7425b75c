/** `TruncatedList` (frontend/src/components/Explorer/TruncatedList.tsx): a
    list of names shown as one comma-separated line, cut to at most
    `maxItems` names and `maxLength` characters, with an ellipsis and the
    full text as a tooltip when something may be hidden. */
module TruncatedList {
  import opened Wrappers
  import opened Strings

  const DefaultMaxItems: int := 3
  const DefaultMaxLength: int := 50
  const Separator: string := ", "
  const Ellipsis: string := "..."

  /** `s.slice(0, end)` on a JavaScript array or string: a negative end
      counts back from the length, and the end is clamped to `[0, |s|]`. */
  function SliceTo<T>(s: seq<T>, end: int): (r: seq<T>)
    ensures r <= s
    ensures 0 <= end ==> |r| == if end < |s| then end else |s|
    ensures end < 0 ==> |r| == if |s| + end < 0 then 0 else |s| + end
  {
    var k := if end < 0 then (if |s| + end < 0 then 0 else |s| + end) else (if end < |s| then end else |s|);
    s[..k]
  }

  function Least(a: int, b: int): int {
    if a <= b then a else b
  }

  /** What the component renders: the text, the suffix after it and the
      `title` attribute. */
  datatype Rendered = Rendered(displayText: string, suffix: string, title: Option<string>)

  /** `TruncatedList({ items, maxItems = 3, maxLength = 50 })`: nothing for
      an absent or empty list; otherwise the first `maxItems` names joined
      and cut to `maxLength` characters, a prefix of the full text, with the
      ellipsis and the full-text title exactly when more names than allowed
      are listed or the text reaches the length limit. */
  function Render(items: Option<seq<string>>, maxItems: Option<int>, maxLength: Option<int>): (r: Option<Rendered>)
    ensures r.None? <==> items.None? || |items.value| == 0
    ensures r.Some? ==> r.value.displayText <= Join(items.value, Separator)
    ensures r.Some? && maxLength.GetOr(DefaultMaxLength) >= 0 ==> |r.value.displayText| <= maxLength.GetOr(DefaultMaxLength)
    ensures r.Some? && maxItems.GetOr(DefaultMaxItems) >= 0 && maxLength.GetOr(DefaultMaxLength) >= 0 ==>
      var listed := Join(items.value[..Least(maxItems.GetOr(DefaultMaxItems), |items.value|)], Separator);
      r.value.displayText <= listed && |r.value.displayText| == Least(maxLength.GetOr(DefaultMaxLength), |listed|)
    ensures r.Some? ==> (r.value.suffix == Ellipsis || r.value.suffix == "")
    ensures r.Some? ==> (r.value.suffix == Ellipsis <==> r.value.title.Some?)
    ensures r.Some? && r.value.title.Some? ==> r.value.title.value == Join(items.value, Separator)
    ensures r.Some? ==> (r.value.suffix == Ellipsis <==>
      |items.value| > maxItems.GetOr(DefaultMaxItems) || |r.value.displayText| >= maxLength.GetOr(DefaultMaxLength))
  {
    if items.None? || |items.value| == 0 then None
    else
      var xs, n, len := items.value, maxItems.GetOr(DefaultMaxItems), maxLength.GetOr(DefaultMaxLength);
      var listed := SliceTo(xs, n);
      var displayText := SliceTo(Join(listed, Separator), len);
      var hasMore := |xs| > n || |displayText| >= len;
      var fullText := Join(xs, Separator);
      assert listed == xs[..|listed|];
      JoinPrefix(xs, |listed|, Separator);
      Some(Rendered(displayText, if hasMore then Ellipsis else "", if hasMore then Some(fullText) else None))
  }

  /** More names than `maxItems` always get the ellipsis. */
  lemma TooManyItems(items: seq<string>, maxItems: Option<int>, maxLength: Option<int>)
    requires |items| > maxItems.GetOr(DefaultMaxItems) && |items| > 0
    ensures Render(Some(items), maxItems, maxLength).Some?
    ensures Render(Some(items), maxItems, maxLength).value.suffix == Ellipsis
  {
  }

  /** Without the ellipsis nothing is hidden: the text shown is the full
      text. */
  lemma NoEllipsisShowsAll(items: seq<string>, maxItems: Option<int>, maxLength: Option<int>)
    requires Render(Some(items), maxItems, maxLength).Some?
    requires Render(Some(items), maxItems, maxLength).value.suffix == ""
    ensures Render(Some(items), maxItems, maxLength).value.displayText == Join(items, Separator)
  {
    var n, len := maxItems.GetOr(DefaultMaxItems), maxLength.GetOr(DefaultMaxLength);
    var listed := SliceTo(items, n);
    assert |items| <= n;
    assert listed == items;
    var full := Join(items, Separator);
    assert |SliceTo(full, len)| < len;
  }

  /** Four names under the default limits show the first three and the
      ellipsis, with all four in the title. */
  lemma FourNames()
    ensures Render(Some(["a", "b", "c", "d"]), None, None) == Some(Rendered("a, b, c", Ellipsis, Some("a, b, c, d")))
  {
    var xs := ["a", "b", "c", "d"];
    assert xs[..3] == ["a", "b", "c"];
    assert Join(["c"], Separator) == "c";
    assert Join(["b", "c"], Separator) == "b, c" by { assert ["b", "c"][1..] == ["c"]; }
    assert Join(["a", "b", "c"], Separator) == "a, b, c" by { assert ["a", "b", "c"][1..] == ["b", "c"]; }
    assert Join(["d"], Separator) == "d";
    assert Join(["c", "d"], Separator) == "c, d" by { assert ["c", "d"][1..] == ["d"]; }
    assert Join(["b", "c", "d"], Separator) == "b, c, d" by { assert ["b", "c", "d"][1..] == ["c", "d"]; }
    assert Join(xs, Separator) == "a, b, c, d" by { assert xs[1..] == ["b", "c", "d"]; }
    assert SliceTo(xs, DefaultMaxItems) == ["a", "b", "c"];
    assert SliceTo("a, b, c", DefaultMaxLength) == "a, b, c";
  }
}
