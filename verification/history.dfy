/** `HistoryProcessor.process_history` (scripts/parse_youtube.py): the
    watch-history cells parsed one by one, the valid entries gathered into
    batches that are saved as they fill, the cells that give no entry kept
    as short texts. Reading the file, the progress bar and writing the batch
    files are left out; a saved batch is recorded with the processed count
    that names its file. */
module History {
  import opened Wrappers
  import opened Store
  import opened YoutubeParser

  /** The class a `content-cell` needs to count as a history entry. */
  const ContentClass: string := "mdl-typography--body-1"

  /** How much of an unparsable cell's text is kept. */
  const InvalidPrefix: nat := 100

  predicate IsContent(cell: Cell) {
    ContentClass in cell.classes
  }

  /** `_content_cell_iterator`: of the `content-cell` divs, in document
      order, those that carry the body class. */
  function ContentCells(cells: seq<Cell>): (r: seq<Cell>)
    ensures |r| <= |cells|
    ensures forall i :: 0 <= i < |r| ==> ContentClass in r[i].classes
    ensures forall c :: c in r <==> c in cells && ContentClass in c.classes
    ensures exists f :: Selects(cells, IsContent, r, f)
  {
    FilterOrder(cells, IsContent);
    Filter(cells, IsContent)
  }

  datatype LimitError = NegativeStop

  /** `if max_entries: islice(cells, max_entries)`: no cap for an absent or
      zero limit, the first `n` cells for a positive one; `islice` rejects a
      negative stop with a `ValueError`. */
  function Limit(cells: seq<Cell>, maxEntries: Option<int>): (r: Result<seq<Cell>, LimitError>)
    ensures r.Failure? <==> maxEntries.Some? && maxEntries.value < 0
    ensures r.Success? ==> r.value <= cells
    ensures r.Success? && maxEntries.Some? && maxEntries.value > 0 ==>
      |r.value| == if maxEntries.value < |cells| then maxEntries.value else |cells|
    ensures r.Success? && (maxEntries.None? || maxEntries.value == 0) ==> r.value == cells
  {
    match maxEntries
    case None => Success(cells)
    case Some(n) =>
      if n == 0 then Success(cells)
      else if n < 0 then Failure(NegativeStop)
      else Success(cells[..if n < |cells| then n else |cells|])
  }

  /** `cell.text[:100] + "..."`. */
  function InvalidText(cell: Cell): (r: string)
    ensures |r| == (if |cell.text| < InvalidPrefix then |cell.text| else InvalidPrefix) + 3
    ensures r[..|r|-3] <= cell.text && r[|r|-3..] == "..."
  {
    cell.text[..if |cell.text| < InvalidPrefix then |cell.text| else InvalidPrefix] + "..."
  }

  /** `parse_single_entry` with the timestamp parser fixed. */
  function EntryParser(parseTime: string -> TimeParse): Cell -> Option<Entry> {
    (cell: Cell) => ParseEntry(cell, parseTime)
  }

  // ---------------------------------------------------------------------
  // The reference: what the loop gathers, cell by cell.

  /** The entries of the cells that parse, in cell order. */
  function ValidOf(cells: seq<Cell>, parse: Cell -> Option<Entry>): seq<Entry> {
    if |cells| == 0 then []
    else
      var init, cell := cells[..|cells|-1], cells[|cells|-1];
      ValidOf(init, parse) + (if parse(cell).Some? then [parse(cell).value] else [])
  }

  /** The shortened texts of the cells that do not parse, in cell order. */
  function InvalidOf(cells: seq<Cell>, parse: Cell -> Option<Entry>): seq<string> {
    if |cells| == 0 then []
    else
      var init, cell := cells[..|cells|-1], cells[|cells|-1];
      InvalidOf(init, parse) + (if parse(cell).None? then [InvalidText(cell)] else [])
  }

  /** Processing the next cell extends the reference by that cell's
      entry or its shortened text. */
  lemma NextCell(cells: seq<Cell>, k: nat, parse: Cell -> Option<Entry>)
    requires k < |cells|
    ensures ValidOf(cells[..k+1], parse) ==
      ValidOf(cells[..k], parse) + (if parse(cells[k]).Some? then [parse(cells[k]).value] else [])
    ensures InvalidOf(cells[..k+1], parse) ==
      InvalidOf(cells[..k], parse) + (if parse(cells[k]).None? then [InvalidText(cells[k])] else [])
  {
    assert cells[..k+1][..k] == cells[..k];
  }

  /** Every processed cell is either a video or an invalid entry. */
  lemma {:induction false} EveryCellAccounted(cells: seq<Cell>, parse: Cell -> Option<Entry>)
    ensures |ValidOf(cells, parse)| + |InvalidOf(cells, parse)| == |cells|
  {
    if |cells| > 0 {
      EveryCellAccounted(cells[..|cells|-1], parse);
    }
  }

  /** Every parsed entry is among the videos. */
  lemma {:induction false} ParsedIsValid(cells: seq<Cell>, parse: Cell -> Option<Entry>, i: nat)
    requires i < |cells| && parse(cells[i]).Some?
    ensures parse(cells[i]).value in ValidOf(cells, parse)
  {
    var init := cells[..|cells|-1];
    if i < |cells| - 1 {
      assert init[i] == cells[i];
      ParsedIsValid(init, parse, i);
    }
  }

  // ---------------------------------------------------------------------
  // Batches.

  /** A call to `_save_batch`: the entries written and the processed count
      the file is named after. */
  datatype Saved = Saved(entries: seq<Entry>, processed: nat)

  /** The saved batches one after another. */
  function Flat(saved: seq<Saved>): seq<Entry> {
    if |saved| == 0 then [] else Flat(saved[..|saved|-1]) + saved[|saved|-1].entries
  }

  lemma FlatAppend(saved: seq<Saved>, batch: Saved)
    ensures Flat(saved + [batch]) == Flat(saved) + batch.entries
  {
    assert (saved + [batch])[..|saved|] == saved;
  }

  function EntriesOf(saved: seq<Saved>): (r: seq<seq<Entry>>)
    ensures |r| == |saved| && forall j :: 0 <= j < |saved| ==> r[j] == saved[j].entries
  {
    seq(|saved|, j requires 0 <= j < |saved| => saved[j].entries)
  }

  /** `xs` cut into consecutive pieces of `size`, the last one possibly
      shorter: the batches the loop is meant to produce. */
  function Chunks(xs: seq<Entry>, size: nat): (r: seq<seq<Entry>>)
    requires size > 0
    decreases |xs|
  {
    if |xs| == 0 then []
    else if |xs| <= size then [xs]
    else [xs[..size]] + Chunks(xs[size..], size)
  }

  /** The processed counts of the saved batches grow strictly and none
      exceeds `n`. */
  ghost predicate Ordered(saved: seq<Saved>, n: nat) {
    && (forall j :: 0 <= j < |saved| ==> 0 < saved[j].processed <= n)
    && (forall j, k :: 0 <= j < k < |saved| ==> saved[j].processed < saved[k].processed)
  }

  /** Each batch was saved when the processed cells were exactly those
      whose entries it and the earlier batches hold. */
  ghost predicate Prefixes(saved: seq<Saved>, cells: seq<Cell>, parse: Cell -> Option<Entry>) {
    |saved| == 0 ||
      (&& Prefixes(saved[..|saved|-1], cells, parse)
       && saved[|saved|-1].processed <= |cells|
       && Flat(saved) == ValidOf(cells[..saved[|saved|-1].processed], parse))
  }

  /** The same, batch by batch: the batches up to and including the `j`th
      hold the entries of the cells processed when it was saved. */
  lemma {:induction false} PrefixAt(saved: seq<Saved>, cells: seq<Cell>, parse: Cell -> Option<Entry>, j: nat)
    requires Prefixes(saved, cells, parse) && j < |saved|
    ensures saved[j].processed <= |cells|
    ensures Flat(saved[..j+1]) == ValidOf(cells[..saved[j].processed], parse)
  {
    if j < |saved| - 1 {
      var init := saved[..|saved|-1];
      PrefixAt(init, cells, parse, j);
      assert init[..j+1] == saved[..j+1];
    } else {
      assert saved[..j+1] == saved;
    }
  }

  ghost predicate Checkpoints(saved: seq<Saved>, cells: seq<Cell>, n: nat, parse: Cell -> Option<Entry>) {
    n <= |cells| && Ordered(saved, n) && Prefixes(saved, cells, parse)
  }

  /** With a positive batch size: every batch but the last is full, and the
      last is non-empty and at most full. */
  ghost predicate FullBatches(saved: seq<Saved>, size: nat) {
    && (forall j :: 0 <= j < |saved| - 1 ==> |saved[j].entries| == size)
    && (|saved| > 0 ==> 0 < |saved[|saved|-1].entries| <= size)
  }

  /** What `process_history` returns, with the batches it saved. */
  datatype Outcome = Outcome(videos: seq<Entry>, invalid: seq<string>, saved: seq<Saved>)

  /** The loop's variables: `videos`, `invalid_entries`, the batches saved
      so far, `current_batch` and `processed`. */
  datatype Progress = Progress(videos: seq<Entry>, invalid: seq<string>, saved: seq<Saved>, current: seq<Entry>, processed: nat)

  /** What holds between two cells: the saved batches followed by the
      pending ones are the entries of the processed cells, every
      checkpoint is in place, a full batch never waits, and with a batch
      size of zero or less a batch was saved after every cell. */
  ghost predicate Running(st: Progress, cells: seq<Cell>, parse: Cell -> Option<Entry>, batchSize: int) {
    && st.processed <= |cells|
    && st.videos == Flat(st.saved)
    && st.videos + st.current == ValidOf(cells[..st.processed], parse)
    && st.invalid == InvalidOf(cells[..st.processed], parse)
    && Checkpoints(st.saved, cells, st.processed, parse)
    && (forall j :: 0 <= j < |st.saved| ==> st.saved[j].processed + |st.current| <= st.processed)
    && (batchSize > 0 ==> |st.current| < batchSize && forall j :: 0 <= j < |st.saved| ==> |st.saved[j].entries| == batchSize)
    && (batchSize <= 0 ==> |st.saved| == st.processed && st.current == [])
  }

  /** Between taking a cell and checking the batch size: as `Running`, but
      the batches were saved before the cell just taken and the pending
      batch may be full. */
  ghost predicate Absorbed(st: Progress, cells: seq<Cell>, parse: Cell -> Option<Entry>, batchSize: int) {
    && 0 < st.processed <= |cells|
    && st.videos == Flat(st.saved)
    && st.videos + st.current == ValidOf(cells[..st.processed], parse)
    && st.invalid == InvalidOf(cells[..st.processed], parse)
    && Ordered(st.saved, st.processed - 1) && Prefixes(st.saved, cells, parse)
    && (forall j :: 0 <= j < |st.saved| ==> st.saved[j].processed + |st.current| <= st.processed)
    && (batchSize > 0 ==> |st.current| <= batchSize && forall j :: 0 <= j < |st.saved| ==> |st.saved[j].entries| == batchSize)
    && (batchSize <= 0 ==> |st.saved| == st.processed - 1 && |st.current| <= 1)
  }

  /** The first half of a pass of the loop: the next cell's entry joins the
      pending batch, or its shortened text the invalid entries. */
  method TakeCell(st: Progress, cells: seq<Cell>, parse: Cell -> Option<Entry>, batchSize: int) returns (next: Progress)
    requires Running(st, cells, parse, batchSize) && st.processed < |cells|
    ensures Absorbed(next, cells, parse, batchSize) && next.processed == st.processed + 1
  {
    var Progress(videos, invalid, saved, current, processed) := st;
    var cell := cells[processed];
    var entry := parse(cell);
    NextCell(cells, processed, parse);
    if entry.Some? {
      assert videos + (current + [entry.value]) == (videos + current) + [entry.value];
      current := current + [entry.value];
    } else {
      invalid := invalid + [InvalidText(cell)];
    }
    next := Progress(videos, invalid, saved, current, processed + 1);
  }

  /** The second half: a batch holding `batchSize` entries is saved under
      the processed count and moved to the videos. */
  method SaveIfFull(st: Progress, cells: seq<Cell>, parse: Cell -> Option<Entry>, batchSize: int) returns (next: Progress)
    requires Absorbed(st, cells, parse, batchSize)
    ensures Running(next, cells, parse, batchSize) && next.processed == st.processed
  {
    var Progress(videos, invalid, saved, current, processed) := st;
    if |current| >= batchSize {
      SaveKeepsCheckpoints(saved, current, cells, processed, parse);
      FlatAppend(saved, Saved(current, processed));
      saved := saved + [Saved(current, processed)];
      videos := videos + current;
      current := [];
      assert videos + current == videos;
    }
    next := Progress(videos, invalid, saved, current, processed);
  }

  /** After the last cell: the pending batch, if any, is saved with the
      final count and moved to the videos. */
  method FlushRest(st: Progress, cells: seq<Cell>, parse: Cell -> Option<Entry>, batchSize: int) returns (r: Outcome)
    requires Running(st, cells, parse, batchSize) && st.processed == |cells|
    ensures r.videos == ValidOf(cells, parse) && r.invalid == InvalidOf(cells, parse)
    ensures Flat(r.saved) == r.videos
    ensures Checkpoints(r.saved, cells, |cells|, parse)
    ensures batchSize > 0 ==> FullBatches(r.saved, batchSize)
    ensures batchSize <= 0 ==> |r.saved| == |cells|
  {
    var Progress(videos, invalid, saved, current, processed) := st;
    assert cells[..processed] == cells;
    if |current| > 0 {
      SaveKeepsCheckpoints(saved, current, cells, processed, parse);
      FlatAppend(saved, Saved(current, processed));
      saved := saved + [Saved(current, processed)];
      videos := videos + current;
    }
    r := Outcome(videos, invalid, saved);
  }

  /** The loop of `process_history` over the cells that pass the filter and
      the cap. A batch is saved as soon as it holds `batchSize` entries (for
      a batch size of zero or less, after every cell, empty or not) and the
      rest once the cells run out, if any. */
  method ProcessCells(cells: seq<Cell>, parse: Cell -> Option<Entry>, batchSize: int) returns (r: Outcome)
    ensures r.videos == ValidOf(cells, parse) && r.invalid == InvalidOf(cells, parse)
    ensures Flat(r.saved) == r.videos
    ensures Checkpoints(r.saved, cells, |cells|, parse)
    ensures batchSize > 0 ==> FullBatches(r.saved, batchSize)
    ensures batchSize > 0 ==> EntriesOf(r.saved) == Chunks(r.videos, batchSize)
    ensures batchSize <= 0 ==> |r.saved| == |cells|
  {
    var st := Progress([], [], [], [], 0);
    while st.processed < |cells|
      invariant Running(st, cells, parse, batchSize)
      decreases |cells| - st.processed
    {
      st := TakeCell(st, cells, parse, batchSize);
      st := SaveIfFull(st, cells, parse, batchSize);
    }
    r := FlushRest(st, cells, parse, batchSize);
    if batchSize > 0 {
      ChunksOfFullBatches(r.saved, batchSize);
    }
  }

  /** Saving the pending entries once the first `n` cells are accounted
      for adds a checkpoint. */
  lemma SaveKeepsCheckpoints(saved: seq<Saved>, current: seq<Entry>, cells: seq<Cell>, n: nat, parse: Cell -> Option<Entry>)
    requires 0 < n <= |cells|
    requires Ordered(saved, n - 1) && Prefixes(saved, cells, parse)
    requires Flat(saved) + current == ValidOf(cells[..n], parse)
    ensures Checkpoints(saved + [Saved(current, n)], cells, n, parse)
  {
    SavePrefixes(saved, current, cells, n, parse);
    SaveOrdered(saved, current, n);
  }

  lemma SaveOrdered(saved: seq<Saved>, current: seq<Entry>, n: nat)
    requires 0 < n && Ordered(saved, n - 1)
    ensures Ordered(saved + [Saved(current, n)], n)
  {
  }

  lemma SavePrefixes(saved: seq<Saved>, current: seq<Entry>, cells: seq<Cell>, n: nat, parse: Cell -> Option<Entry>)
    requires n <= |cells| && Prefixes(saved, cells, parse)
    requires Flat(saved) + current == ValidOf(cells[..n], parse)
    ensures Prefixes(saved + [Saved(current, n)], cells, parse)
  {
    var next := saved + [Saved(current, n)];
    assert next[..|next|-1] == saved;
    FlatAppend(saved, Saved(current, n));
  }

  /** Full batches with a short last one are exactly the chunks of what
      they hold. */
  lemma {:induction false} ChunksOfFullBatches(saved: seq<Saved>, size: nat)
    requires size > 0
    requires FullBatches(saved, size)
    ensures EntriesOf(saved) == Chunks(Flat(saved), size)
    decreases |saved|
  {
    if |saved| > 0 {
      var first, rest := saved[0], saved[1..];
      FlatFront(saved);
      assert FullBatches(rest, size) by {
        forall j | 0 <= j < |rest| - 1 ensures |rest[j].entries| == size {
          assert rest[j] == saved[j + 1];
        }
      }
      ChunksOfFullBatches(rest, size);
      var xs := Flat(saved);
      assert xs == first.entries + Flat(rest);
      if |saved| == 1 {
        assert Flat(rest) == [];
        assert xs == first.entries;
        assert EntriesOf(saved) == [xs];
      } else {
        assert |first.entries| == size;
        assert |Flat(rest)| > 0 by {
          assert Flat(rest) == Flat(rest[..|rest|-1]) + rest[|rest|-1].entries;
        }
        assert xs[..size] == first.entries && xs[size..] == Flat(rest);
        assert EntriesOf(saved) == [first.entries] + EntriesOf(rest);
      }
    }
  }

  lemma {:induction false} FlatFront(saved: seq<Saved>)
    requires |saved| > 0
    ensures Flat(saved) == saved[0].entries + Flat(saved[1..])
    decreases |saved|
  {
    if |saved| > 1 {
      var init := saved[..|saved|-1];
      FlatFront(init);
      assert init[1..] == saved[1..][..|saved[1..]|-1];
    } else {
      assert saved[1..] == [];
    }
  }

  // ---------------------------------------------------------------------
  // The whole run.

  /** `process_history(batch_size, max_entries)` on the `content-cell` divs
      of the export: filtered, capped, then processed; a negative cap is
      the `ValueError` that `islice` raises. */
  method ProcessHistory(cells: seq<Cell>, parseTime: string -> TimeParse, batchSize: int, maxEntries: Option<int>)
    returns (r: Result<Outcome, LimitError>)
    ensures r.Failure? <==> maxEntries.Some? && maxEntries.value < 0
    ensures r.Success? ==> Limit(ContentCells(cells), maxEntries).Success?
    ensures r.Success? ==>
      var taken := Limit(ContentCells(cells), maxEntries).value;
      && r.value.videos == ValidOf(taken, EntryParser(parseTime))
      && r.value.invalid == InvalidOf(taken, EntryParser(parseTime))
      && |r.value.videos| + |r.value.invalid| == |taken|
      && Flat(r.value.saved) == r.value.videos
      && (batchSize > 0 ==> EntriesOf(r.value.saved) == Chunks(r.value.videos, batchSize))
  {
    match Limit(ContentCells(cells), maxEntries)
    case Failure(e) =>
      r := Failure(e);
    case Success(taken) =>
      var outcome := ProcessCells(taken, EntryParser(parseTime), batchSize);
      EveryCellAccounted(taken, EntryParser(parseTime));
      r := Success(outcome);
  }
}
