/**
 * The batch cursor that `export_posts_batch` and `import_posts_batch` return
 * (includes/class-sync-posts.php), and the runs of batches that the
 * do-while loops of the CLI commands (commands/class-wp-cli-commands.php)
 * perform with it: the loop condition, the running total, and the run of a
 * loop whose batches count their whole page.
 */
module Batches {
  import opened Seqs

  // ---------------------------------------------------------------------
  // Batch cursor
  // ---------------------------------------------------------------------

  /** The array `export_posts_batch` and `import_posts_batch` return. */
  datatype Cursor = Cursor(processed: nat, remaining: nat, total: nat, offset: nat)

  /** includes/class-sync-posts.php lines 416-423 and 485-493: the cursor after `processed` items at `offset`. */
  function Advance(processed: nat, total: nat, offset: nat): (c: Cursor)
    ensures c.offset == offset + processed && c.processed == processed && c.total == total
    ensures c.remaining >= total - c.offset
    ensures c.remaining == 0 <==> total <= c.offset
    ensures c.remaining > 0 ==> c.offset + c.remaining == total
  {
    Cursor(processed, Max0(total - (offset + processed)), total, offset + processed)
  }

  /**
   * The cursor of a batch that counts every item of its page: `n` items in
   * the list paged through, `total` the count reported.
   */
  function PageCursor(n: nat, total: nat, batchSize: nat, offset: nat): (c: Cursor)
    ensures c.processed == Min(batchSize, Max0(n - offset))
    ensures c.offset == offset + c.processed && c.total == total
    ensures c.remaining == Max0(total - c.offset)
    ensures c.offset <= n || c.processed == 0
  {
    Advance(Min(batchSize, Max0(n - offset)), total, offset)
  }

  /** What one batch call returns: its cursor and what it produced. */
  datatype Batch<T> = Batch(cursor: Cursor, output: seq<T>)

  // ---------------------------------------------------------------------
  // Runs: the batches one command performs
  // ---------------------------------------------------------------------

  /** The loop condition `$result['remaining'] > 0 && $result['processed'] > 0`. */
  predicate Continues(c: Cursor) {
    c.remaining > 0 && c.processed > 0
  }

  /** `$total_processed` at the end of the loop: the sum of every batch's `processed`. */
  function TotalProcessed(cs: seq<Cursor>): nat {
    if |cs| == 0 then 0 else cs[0].processed + TotalProcessed(cs[1..])
  }

  function Cursors<T>(run: seq<Batch<T>>): (r: seq<Cursor>)
  {
    if |run| == 0 then [] else [run[0].cursor] + Cursors(run[1..])
  }

  /** Everything the batches of a run produced, in order. */
  function Outputs<T>(run: seq<Batch<T>>): seq<T> {
    if |run| == 0 then [] else run[0].output + Outputs(run[1..])
  }

  lemma TotalProcessedCons(c: Cursor, cs: seq<Cursor>)
    ensures TotalProcessed([c] + cs) == c.processed + TotalProcessed(cs)
  {
    assert ([c] + cs)[1..] == cs;
  }

  lemma {:induction false} TotalProcessedSnoc(cs: seq<Cursor>, c: Cursor)
    ensures TotalProcessed(cs + [c]) == TotalProcessed(cs) + c.processed
  {
    if |cs| == 0 {
      assert cs + [c] == [c];
      TotalProcessedCons(c, []);
    } else {
      assert (cs + [c])[1..] == cs[1..] + [c];
      TotalProcessedSnoc(cs[1..], c);
    }
  }

  /** A run of more than one batch splits into its first batch and the rest. */
  lemma RunCons<T>(r: seq<Batch<T>>, first: Batch<T>, rest: seq<Batch<T>>)
    requires r == [first] + rest && |rest| >= 1
    ensures r[|r| - 1] == rest[|rest| - 1]
    ensures Outputs(r) == first.output + Outputs(rest)
    ensures Cursors(r) == [first.cursor] + Cursors(rest)
    ensures TotalProcessed(Cursors(r)) == first.cursor.processed + TotalProcessed(Cursors(rest))
  {
    assert r[1..] == rest;
    TotalProcessedCons(first.cursor, Cursors(rest));
  }

  /** A run is its first batch followed by the rest, possibly empty. */
  lemma RunHead<T>(r: seq<Batch<T>>, first: Batch<T>, rest: seq<Batch<T>>)
    requires r == [first] + rest
    ensures Outputs(r) == first.output + Outputs(rest)
    ensures Cursors(r) == [first.cursor] + Cursors(rest)
  {
    assert r[1..] == rest;
  }

  lemma RunSingle<T>(r: seq<Batch<T>>, first: Batch<T>)
    requires r == [first]
    ensures r[|r| - 1] == first
    ensures Outputs(r) == first.output
    ensures Cursors(r) == [first.cursor]
    ensures TotalProcessed(Cursors(r)) == first.cursor.processed
  {
    assert r[1..] == [];
    TotalProcessedCons(first.cursor, []);
  }

  // ---------------------------------------------------------------------
  // The loop over batches that count their whole page
  // ---------------------------------------------------------------------

  /**
   * The cursors the do-while loop sees from `offset` on when every batch
   * counts its whole page (`export_posts_batch`): `n` items, a reported
   * count of `total`, batch size `b > 0`.
   */
  function PagedRun(n: nat, total: nat, b: nat, offset: nat): (r: seq<Cursor>)
    requires b > 0
    ensures |r| >= 1 && r[0] == PageCursor(n, total, b, offset)
    ensures !Continues(r[|r| - 1])
    decreases n - offset
  {
    var c := PageCursor(n, total, b, offset);
    if Continues(c) then
      var rest := PagedRun(n, total, b, c.offset);
      LastOfCons(c, rest);
      [c] + rest
    else [c]
  }

  /** What is left of a run after the batch that returned `c`. */
  function PagedRest(n: nat, total: nat, b: nat, c: Cursor): seq<Cursor>
    requires b > 0
  {
    if Continues(c) then PagedRun(n, total, b, c.offset) else []
  }

  /**
   * A run from `offset` pages through `n` items without gaps or overlaps:
   * its batches add up to the distance from `offset` to its final offset,
   * which lies inside the list, and it ends at the end of the list or once
   * the reported count `total` is reached.
   */
  ghost predicate RunCovers(r: seq<Cursor>, offset: nat, n: nat, total: nat) {
    && |r| >= 1
    && offset <= r[|r| - 1].offset <= n
    && TotalProcessed(r) == r[|r| - 1].offset - offset
    && (r[|r| - 1].offset == n || r[|r| - 1].offset >= total)
  }

  lemma CoversCons(c: Cursor, rest: seq<Cursor>, offset: nat, n: nat, total: nat)
    requires c.offset == offset + c.processed && RunCovers(rest, c.offset, n, total)
    ensures RunCovers([c] + rest, offset, n, total)
  {
    LastOfCons(c, rest);
    TotalProcessedCons(c, rest);
  }

  lemma CoversSingle(c: Cursor, offset: nat, n: nat, total: nat)
    requires c.offset == offset + c.processed && offset <= c.offset <= n
    requires c.offset == n || c.offset >= total
    ensures RunCovers([c], offset, n, total)
  {
    TotalProcessedCons(c, []);
    assert [c] + [] == [c];
  }

  /** The loop from `offset` on covers the list in the sense of `RunCovers`. */
  lemma {:induction false} PagedRunCovers(n: nat, total: nat, b: nat, offset: nat)
    requires b > 0 && offset <= n
    ensures RunCovers(PagedRun(n, total, b, offset), offset, n, total)
    decreases n - offset
  {
    var c := PageCursor(n, total, b, offset);
    if Continues(c) {
      var rest := PagedRun(n, total, b, c.offset);
      PagedRunCovers(n, total, b, c.offset);
      CoversCons(c, rest, offset, n, total);
      assert PagedRun(n, total, b, offset) == [c] + rest;
    } else {
      CoversSingle(c, offset, n, total);
      assert PagedRun(n, total, b, offset) == [c];
    }
  }

  /**
   * When the reported count is at least the length of the list, the loop
   * processes every item: it ends at offset `n` with `n` processed.
   */
  lemma PagedRunComplete(n: nat, total: nat, b: nat)
    requires b > 0 && total >= n
    ensures var r := PagedRun(n, total, b, 0);
      r[|r| - 1].offset == n && TotalProcessed(r) == n
  {
    PagedRunCovers(n, total, b, 0);
    CoversComplete(PagedRun(n, total, b, 0), n, total);
  }

  lemma CoversComplete(r: seq<Cursor>, n: nat, total: nat)
    requires RunCovers(r, 0, n, total) && total >= n
    ensures r[|r| - 1].offset == n && TotalProcessed(r) == n
  {
  }

  /** 125 items in batches of 50: (processed, remaining) is (50, 75), (50, 25), (25, 0). */
  lemma PagedRunExample()
    ensures PagedRun(125, 125, 50, 0)
      == [Cursor(50, 75, 125, 50), Cursor(50, 25, 125, 100), Cursor(25, 0, 125, 125)]
  {
    assert PageCursor(125, 125, 50, 0) == Cursor(50, 75, 125, 50);
    assert PageCursor(125, 125, 50, 50) == Cursor(50, 25, 125, 100);
    assert PageCursor(125, 125, 50, 100) == Cursor(25, 0, 125, 125);
    assert PagedRun(125, 125, 50, 100) == [Cursor(25, 0, 125, 125)];
    assert PagedRun(125, 125, 50, 50) == [Cursor(50, 25, 125, 100)] + PagedRun(125, 125, 50, 100);
  }

  /**
   * The cursors seen so far by a loop whose batches count their whole page:
   * they are the first ones of the paged run from 0, ending with `c`, and
   * their counts add up to the offset `c` reached.
   */
  ghost predicate PagedTrace(n: nat, total: nat, b: nat, c: Cursor, trace: seq<Cursor>)
    requires b > 0
  {
    && c.offset <= n
    && (c.processed == 0 ==> c.offset == n)
    && c.remaining == Max0(total - c.offset)
    && TotalProcessed(trace) == c.offset
    && trace + PagedRest(n, total, b, c) == PagedRun(n, total, b, 0)
  }

  /** The first batch starts the trace. */
  lemma PagedTraceFirst(n: nat, total: nat, b: nat)
    requires b > 0
    ensures var c := PageCursor(n, total, b, 0); PagedTrace(n, total, b, c, [c])
  {
    var c := PageCursor(n, total, b, 0);
    TotalProcessedCons(c, []);
    assert [c] + [] == [c];
  }

  /** Each further batch extends the trace by the next paged cursor. */
  lemma PagedTraceNext(n: nat, total: nat, b: nat, c: Cursor, trace: seq<Cursor>)
    requires b > 0 && PagedTrace(n, total, b, c, trace) && Continues(c)
    ensures var c' := PageCursor(n, total, b, c.offset);
      && PagedTrace(n, total, b, c', trace + [c'])
      && c.offset <= c'.offset && (c'.offset == c.offset ==> !Continues(c'))
  {
    var c' := PageCursor(n, total, b, c.offset);
    assert PagedRest(n, total, b, c) == [c'] + PagedRest(n, total, b, c');
    TotalProcessedSnoc(trace, c');
    AppendAssoc(trace, [c'], PagedRest(n, total, b, c'));
  }

  /**
   * A trace whose last cursor stops the loop is the whole run, and it stops
   * at the end of the list or once the reported count is reached.
   */
  lemma PagedTraceDone(n: nat, total: nat, b: nat, c: Cursor, trace: seq<Cursor>)
    requires b > 0 && PagedTrace(n, total, b, c, trace) && !Continues(c)
    ensures trace == PagedRun(n, total, b, 0) && TotalProcessed(trace) == c.offset <= n
    ensures c.offset == n || c.offset >= total
  {
    assert trace + [] == trace;
  }
}
