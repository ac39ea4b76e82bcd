/**
 * The `wp srdt export` and `wp srdt import` commands
 * (commands/class-wp-cli-commands.php): the `--batch-size` option with its
 * 0 sentinel for single-pass mode, and the do-while loop that threads the
 * batch cursor through repeated calls until `remaining` or `processed` is 0.
 *
 * Each driver is given twice: as a recursive function that lists the
 * batches the loop performs (the reference), and as a method with the loop
 * itself, whose result is proved equal to that list.
 */
module CliCommands {
  import opened Wrappers
  import opened Seqs
  import opened JsonData
  import opened PhpArrays
  import opened SyncPosts
  import opened Batches

  // ---------------------------------------------------------------------
  // --batch-size
  // ---------------------------------------------------------------------

  const DefaultBatchSize: nat := 50

  /**
   * `isset($assoc_args['batch-size']) ? absint(...) : 50`. The argument is
   * given as the integer PHP reads from it.
   */
  function BatchSizeOf(arg: Option<int>): (b: nat)
    ensures arg.None? ==> b == DefaultBatchSize
    ensures arg.Some? ==> b == arg.value || b == -arg.value
    ensures b == 0 <==> arg == Some(0)
  {
    match arg
    case None => DefaultBatchSize
    case Some(x) => if x < 0 then -x else x
  }

  // ---------------------------------------------------------------------
  // wp srdt export
  // ---------------------------------------------------------------------

  /** The count `export_posts_batch` reports as `total`. */
  function ReportedTotal(wp: WordPress, counts: string -> seq<nat>): nat {
    CountPostsByType(SupportedPostTypes(wp.selectedTypes), counts)
  }

  /**
   * One export batch at an offset inside the list: its cursor is the paged
   * cursor, and the files written so far grow by exactly the files of its page.
   */
  lemma ExportStep(wp: WordPress, posts: seq<Post>, counts: string -> seq<nat>, b: nat, offset: nat)
    requires b > 0 && offset <= |posts|
    ensures var r := ExportBatch(wp, posts, counts, b, offset);
      && r.cursor == PageCursor(|posts|, ReportedTotal(wp, counts), b, offset)
      && r.cursor.offset <= |posts|
      && ExportPosts(wp, posts[..offset]) + r.output == ExportPosts(wp, posts[..r.cursor.offset])
  {
    var r := ExportBatch(wp, posts, counts, b, offset);
    ExportStepFiles(wp, posts, b, offset, r);
  }

  lemma ExportStepFiles(wp: WordPress, posts: seq<Post>, b: nat, offset: nat, r: Batch<ExportFile>)
    requires offset <= |posts|
    requires r.output == ExportPosts(wp, Slice(posts, offset, b))
    requires r.cursor.offset == offset + |Slice(posts, offset, b)|
    ensures ExportPosts(wp, posts[..offset]) + r.output == ExportPosts(wp, posts[..r.cursor.offset])
  {
    CollectStep((p: Post) => ExportPost(wp, p), posts, offset, b, r.output, r.cursor.offset);
  }

  /** One call of `export_posts_batch`: its cursor and the files it wrote. */
  method ExportOnce(wp: WordPress, posts: seq<Post>, counts: string -> seq<nat>, b: nat, offset: nat)
    returns (c: Cursor, written: seq<ExportFile>)
    requires b > 0 && offset <= |posts|
    ensures c == PageCursor(|posts|, ReportedTotal(wp, counts), b, offset) && c.offset <= |posts|
    ensures ExportPosts(wp, posts[..offset]) + written == ExportPosts(wp, posts[..c.offset])
  {
    ExportStep(wp, posts, counts, b, offset);
    var r := ExportBatch(wp, posts, counts, b, offset);
    c := r.cursor;
    written := r.output;
  }

  /** The batch loop of `export`, with batch size `b > 0`. */
  method ExportLoop(wp: WordPress, posts: seq<Post>, counts: string -> seq<nat>, b: nat)
    returns (files: seq<ExportFile>, trace: seq<Cursor>, totalProcessed: nat)
    requires b > 0
    ensures trace == PagedRun(|posts|, ReportedTotal(wp, counts), b, 0)
    ensures totalProcessed == TotalProcessed(trace) <= |posts|
    ensures totalProcessed == |posts| || totalProcessed >= ReportedTotal(wp, counts)
    ensures files == ExportPosts(wp, posts[..totalProcessed])
  {
    ghost var n := |posts|;
    ghost var total := ReportedTotal(wp, counts);
    var c;
    c, files := ExportOnce(wp, posts, counts, b, 0);
    assert posts[..0] == [];
    trace := [c];
    PagedTraceFirst(n, total, b);
    while Continues(c)
      invariant c.offset <= n && files == ExportPosts(wp, posts[..c.offset])
      invariant PagedTrace(n, total, b, c, trace)
      decreases n - c.offset, if Continues(c) then 1 else 0
    {
      PagedTraceNext(n, total, b, c, trace);
      var written;
      c, written := ExportOnce(wp, posts, counts, b, c.offset);
      files := files + written;
      trace := trace + [c];
    }
    PagedTraceDone(n, total, b, c, trace);
    totalProcessed := c.offset;
  }

  /**
   * `export` after the options and menus: either every post in one pass
   * (`--batch-size=0`) or the batch loop. Returns the post files in the
   * order written, the cursors of the batches, and the count reported at
   * the end.
   */
  method Export(wp: WordPress, posts: seq<Post>, counts: string -> seq<nat>, arg: Option<int>)
    returns (files: seq<ExportFile>, trace: seq<Cursor>, totalProcessed: nat)
    ensures arg == Some(0) ==> trace == [] && files == ExportPosts(wp, posts) && totalProcessed == |posts|
    ensures arg != Some(0) ==>
      && trace == PagedRun(|posts|, ReportedTotal(wp, counts), BatchSizeOf(arg), 0)
      && totalProcessed == TotalProcessed(trace) <= |posts|
      && files == ExportPosts(wp, posts[..totalProcessed])
    ensures ReportedTotal(wp, counts) >= |posts| ==> totalProcessed == |posts| && files == ExportPosts(wp, posts)
  {
    var b := BatchSizeOf(arg);
    if b == 0 {
      files := ExportPosts(wp, posts);
      trace := [];
      totalProcessed := |posts|;
    } else {
      files, trace, totalProcessed := ExportLoop(wp, posts, counts, b);
      assert posts[..|posts|] == posts;
    }
  }

  // ---------------------------------------------------------------------
  // wp srdt import
  // ---------------------------------------------------------------------

  /** The batches `import` performs from `offset` on over the decoded files. */
  function ImportRun(docs: seq<Json>, b: nat, offset: nat): (r: seq<Batch<Json>>)
    requires b > 0
    ensures |r| >= 1 && r[0] == ImportPage(docs, b, offset)
    ensures !Continues(r[|r| - 1].cursor)
    decreases |docs| - offset
  {
    var first := ImportPage(docs, b, offset);
    if Continues(first.cursor) then
      var rest := ImportRun(docs, b, first.cursor.offset);
      LastOfCons(first, rest);
      [first] + rest
    else [first]
  }

  function ImportRest(docs: seq<Json>, b: nat, c: Cursor): seq<Batch<Json>>
    requires b > 0
  {
    if Continues(c) then ImportRun(docs, b, c.offset) else []
  }

  /** After a batch that says to continue, the rest of the run is the next page and what follows it. */
  lemma ImportRestStep(docs: seq<Json>, b: nat, c: Cursor)
    requires b > 0 && Continues(c)
    ensures var p := ImportPage(docs, b, c.offset);
      && Cursors(ImportRest(docs, b, c)) == [p.cursor] + Cursors(ImportRest(docs, b, p.cursor))
      && Outputs(ImportRest(docs, b, c)) == p.output + Outputs(ImportRest(docs, b, p.cursor))
  {
    var p := ImportPage(docs, b, c.offset);
    var rest := ImportRest(docs, b, p.cursor);
    assert ImportRest(docs, b, c) == [p] + rest;
    RunHead(ImportRest(docs, b, c), p, rest);
  }

  /**
   * What holds after each batch of the import loop: the cursors and the
   * documents so far are the first ones of the import run from 0, ending with
   * `c`; the counts add up to the offset `c` reached and to the number of
   * documents inserted, and every document inserted has the required fields.
   */
  ghost predicate ImportTrace(docs: seq<Json>, b: nat, c: Cursor, trace: seq<Cursor>, imported: seq<Json>)
    requires b > 0
  {
    && c.offset <= |docs|
    && TotalProcessed(trace) == c.offset == |imported|
    && (forall i :: 0 <= i < |imported| ==> Importable(imported[i]))
    && trace + Cursors(ImportRest(docs, b, c)) == Cursors(ImportRun(docs, b, 0))
    && imported + Outputs(ImportRest(docs, b, c)) == Outputs(ImportRun(docs, b, 0))
  }

  /** The first batch starts the import trace. */
  lemma ImportTraceFirst(docs: seq<Json>, b: nat)
    requires b > 0
    ensures var p := ImportPage(docs, b, 0); ImportTrace(docs, b, p.cursor, [p.cursor], p.output)
  {
    var p := ImportPage(docs, b, 0);
    var rest := ImportRest(docs, b, p.cursor);
    assert ImportRun(docs, b, 0) == [p] + rest;
    RunHead(ImportRun(docs, b, 0), p, rest);
    TotalProcessedCons(p.cursor, []);
    assert [p.cursor] + [] == [p.cursor];
    FilterSound(Importable, Slice(docs, 0, b));
  }

  /**
   * Each further batch extends the import trace by the next page; the offset
   * moves forward, and a batch that does not move it stops the loop.
   */
  lemma ImportTraceNext(docs: seq<Json>, b: nat, c: Cursor, trace: seq<Cursor>, imported: seq<Json>)
    requires b > 0 && ImportTrace(docs, b, c, trace, imported) && Continues(c)
    ensures var p := ImportPage(docs, b, c.offset);
      && ImportTrace(docs, b, p.cursor, trace + [p.cursor], imported + p.output)
      && c.offset <= p.cursor.offset && (p.cursor.offset == c.offset ==> !Continues(p.cursor))
  {
    var p := ImportPage(docs, b, c.offset);
    var rest := ImportRest(docs, b, p.cursor);
    ImportRestStep(docs, b, c);
    AppendAssoc(trace, [p.cursor], Cursors(rest));
    AppendAssoc(imported, p.output, Outputs(rest));
    TotalProcessedSnoc(trace, p.cursor);
    var all := imported + p.output;
    assert forall i :: 0 <= i < |all| ==> Importable(all[i]) by {
      FilterSound(Importable, Slice(docs, c.offset, b));
      assert forall i :: |imported| <= i < |all| ==> all[i] == p.output[i - |imported|];
    }
  }

  /** A trace whose last cursor stops the loop covers the whole import run. */
  lemma ImportTraceDone(docs: seq<Json>, b: nat, c: Cursor, trace: seq<Cursor>, imported: seq<Json>)
    requires b > 0 && ImportTrace(docs, b, c, trace, imported) && !Continues(c)
    ensures trace == Cursors(ImportRun(docs, b, 0)) && imported == Outputs(ImportRun(docs, b, 0))
    ensures TotalProcessed(trace) == |imported| <= |docs|
  {
    assert trace + [] == trace;
    assert imported + [] == imported;
  }

  /**
   * With every file importable, a page of the import loop is the corrected
   * page: it counts every file it reads and inserts them all.
   */
  lemma ImportPageAllValid(docs: seq<Json>, b: nat, offset: nat)
    requires offset <= |docs|
    requires forall i :: 0 <= i < |docs| ==> Importable(docs[i])
    ensures ImportPage(docs, b, offset) == CorrectedImportPage(docs, b, offset)
    ensures var r := ImportPage(docs, b, offset);
      r.cursor == PageCursor(|docs|, |docs|, b, offset) && r.output == docs[offset..r.cursor.offset]
  {
    var page := Slice(docs, offset, b);
    assert forall i :: 0 <= i < |page| ==> Importable(page[i]);
    FilterAllOrNone(Importable, page);
    SliceIsSubrange(docs, offset, b);
  }

  /**
   * With every file importable, the import loop pages through the files
   * like the export loop and inserts every file once, in order.
   */
  lemma {:induction false} ImportRunAllValid(docs: seq<Json>, b: nat, offset: nat)
    requires b > 0 && offset <= |docs|
    requires forall i :: 0 <= i < |docs| ==> Importable(docs[i])
    ensures Cursors(ImportRun(docs, b, offset)) == PagedRun(|docs|, |docs|, b, offset)
    ensures Outputs(ImportRun(docs, b, offset)) == docs[offset..]
    decreases |docs| - offset
  {
    var first := ImportPage(docs, b, offset);
    ImportPageAllValid(docs, b, offset);
    var mid := first.cursor.offset;
    if Continues(first.cursor) {
      var rest := ImportRun(docs, b, mid);
      assert ImportRun(docs, b, offset) == [first] + rest;
      ImportRunAllValid(docs, b, mid);
      RunHead(ImportRun(docs, b, offset), first, rest);
      assert PagedRun(|docs|, |docs|, b, offset) == [first.cursor] + PagedRun(|docs|, |docs|, b, mid);
      SplitAt(docs, offset, mid);
    } else {
      assert ImportRun(docs, b, offset) == [first];
      RunHead(ImportRun(docs, b, offset), first, []);
      assert mid == |docs|;
    }
  }

  /**
   * The source does not advance past skipped files. Two unimportable files
   * at the front of a batch of 2 stop the loop at once: the one batch
   * processes nothing and leaves all 3 files remaining, so the valid third
   * file is never imported.
   */
  lemma ImportStallsOnSkippedBatch(v: Json)
    requires Importable(v)
    ensures ImportRun([JNull, JNull, v], 2, 0) == [Batch(Cursor(0, 3, 3, 0), [])]
  {
    var docs := [JNull, JNull, v];
    assert Slice(docs, 0, 2) == [JNull, JNull];
    FilterAllOrNone(Importable, [JNull, JNull]);
    assert ImportPage(docs, 2, 0) == Batch(Cursor(0, 3, 3, 0), []);
  }

  lemma ImportRereadsFirstPage(v1: Json, v2: Json)
    requires Importable(v1)
    ensures ImportPage([JNull, v1, v2], 2, 0) == Batch(Cursor(1, 2, 3, 1), [v1])
  {
    assert Slice([JNull, v1, v2], 0, 2) == [JNull, v1];
    assert [JNull, v1][1..] == [v1];
    FilterAllOrNone(Importable, [v1]);
  }

  lemma ImportRereadsSecondPage(v1: Json, v2: Json)
    requires Importable(v1) && Importable(v2)
    ensures ImportPage([JNull, v1, v2], 2, 1) == Batch(Cursor(2, 0, 3, 3), [v1, v2])
  {
    assert Slice([JNull, v1, v2], 1, 2) == [v1, v2];
    FilterAllOrNone(Importable, [v1, v2]);
  }

  /** The batches of the import loop over one unimportable file followed by two valid ones, two at a time. */
  lemma ImportRereadsRun(v1: Json, v2: Json)
    requires Importable(v1) && Importable(v2)
    ensures ImportRun([JNull, v1, v2], 2, 0)
      == [Batch(Cursor(1, 2, 3, 1), [v1]), Batch(Cursor(2, 0, 3, 3), [v1, v2])]
  {
    ImportRereadsFirstPage(v1, v2);
    ImportRereadsSecondPage(v1, v2);
  }

  /**
   * A skipped file shifts the next batch back over a file already imported:
   * with one unimportable file in front of two valid ones and a batch of 2,
   * the first valid file is inserted twice.
   */
  lemma ImportRereadsAfterSkip(v1: Json, v2: Json)
    requires Importable(v1) && Importable(v2)
    ensures Outputs(ImportRun([JNull, v1, v2], 2, 0)) == [v1, v1, v2]
  {
    ImportRereadsRun(v1, v2);
    var b0 := Batch(Cursor(1, 2, 3, 1), [v1]);
    var b1 := Batch(Cursor(2, 0, 3, 3), [v1, v2]);
    RunSingle([b1], b1);
    RunCons([b0, b1], b0, [b1]);
  }

  /**
   * The same run reports more files processed than the list holds
   * importable files: 3, of which only 2 could be imported.
   */
  lemma ImportOverReportsAfterSkip(v1: Json, v2: Json)
    requires Importable(v1) && Importable(v2)
    ensures TotalProcessed(Cursors(ImportRun([JNull, v1, v2], 2, 0))) > |Filter(Importable, [JNull, v1, v2])|
  {
    var docs := [JNull, v1, v2];
    ImportRereadsRun(v1, v2);
    var b0 := Batch(Cursor(1, 2, 3, 1), [v1]);
    var b1 := Batch(Cursor(2, 0, 3, 3), [v1, v2]);
    RunSingle([b1], b1);
    RunCons([b0, b1], b0, [b1]);
    assert Filter(Importable, docs) == [v1, v2] by {
      assert docs[1..] == [v1, v2];
      FilterAllOrNone(Importable, [v1, v2]);
    }
  }

  /** One call of `import_posts_batch`: its cursor and the documents it inserted. */
  method ImportOnce(wp: WordPress, listing: string -> seq<string>, read: string -> Json, b: nat, offset: nat)
    returns (c: Cursor, inserted: seq<Json>)
    ensures Batch(c, inserted) == ImportPage(DecodedFiles(wp, listing, read), b, offset)
    ensures c.total == |CollectFiles(wp, listing)|
  {
    var r := ImportBatch(wp, listing, read, b, offset);
    c := r.cursor;
    inserted := r.output;
  }

  /** The batch loop of `import`, with batch size `b > 0`. */
  method ImportLoop(wp: WordPress, listing: string -> seq<string>, read: string -> Json, b: nat)
    returns (imported: seq<Json>, trace: seq<Cursor>, totalProcessed: nat)
    requires b > 0
    ensures var run := ImportRun(DecodedFiles(wp, listing, read), b, 0);
      trace == Cursors(run) && imported == Outputs(run)
    ensures totalProcessed == TotalProcessed(trace) == |imported| <= |DecodedFiles(wp, listing, read)|
    ensures forall i :: 0 <= i < |imported| ==> Importable(imported[i])
  {
    ghost var docs := DecodedFiles(wp, listing, read);
    var c;
    c, imported := ImportOnce(wp, listing, read, b, 0);
    trace := [c];
    ImportTraceFirst(docs, b);
    while Continues(c)
      invariant ImportTrace(docs, b, c, trace, imported)
      decreases |docs| - c.offset, if Continues(c) then 1 else 0
    {
      ImportTraceNext(docs, b, c, trace, imported);
      var inserted;
      c, inserted := ImportOnce(wp, listing, read, b, c.offset);
      imported := imported + inserted;
      trace := trace + [c];
    }
    ImportTraceDone(docs, b, c, trace, imported);
    totalProcessed := c.offset;
  }

  /**
   * `import`: either the single-pass import of every non-empty decoded file
   * (`--batch-size=0`, which reports no count) or the batch loop. Returns
   * the documents inserted, in order, the cursors of the batches and the
   * count reported at the end.
   */
  method Import(wp: WordPress, listing: string -> seq<string>, read: string -> Json, arg: Option<int>)
    returns (imported: seq<Json>, trace: seq<Cursor>, reported: Option<nat>)
    ensures arg == Some(0) ==> imported == ImportAllFiles(DecodedFiles(wp, listing, read)) && trace == [] && reported == None
    ensures arg != Some(0) ==>
      var run := ImportRun(DecodedFiles(wp, listing, read), BatchSizeOf(arg), 0);
      trace == Cursors(run) && imported == Outputs(run) && reported == Some(TotalProcessed(trace))
    ensures reported.Some? ==> reported.value == |imported| <= |DecodedFiles(wp, listing, read)|
    ensures forall i :: 0 <= i < |imported| ==> !PhpEmpty(imported[i])
  {
    var b := BatchSizeOf(arg);
    if b == 0 {
      imported := ImportAllFiles(DecodedFiles(wp, listing, read));
      trace := [];
      reported := None;
    } else {
      var totalProcessed;
      imported, trace, totalProcessed := ImportLoop(wp, listing, read, b);
      reported := Some(totalProcessed);
      forall i | 0 <= i < |imported| ensures !PhpEmpty(imported[i]) {
        RequiredFieldsImplyNonEmpty(imported[i]);
      }
    }
  }

  // ---------------------------------------------------------------------
  // wp srdt import as evidently intended
  // ---------------------------------------------------------------------

  /**
   * One corrected import batch at an offset inside the list: the documents
   * inserted so far grow by exactly the importable files of its page.
   */
  lemma CorrectedImportStep(docs: seq<Json>, b: nat, offset: nat)
    requires b > 0 && offset <= |docs|
    ensures var r := CorrectedImportPage(docs, b, offset);
      && r.cursor.offset <= |docs|
      && Filter(Importable, docs[..offset]) + r.output == Filter(Importable, docs[..r.cursor.offset])
  {
    SliceExtendsPrefix(docs, offset, b);
    FilterAppend(Importable, docs[..offset], Slice(docs, offset, b));
  }

  /** One corrected batch: its cursor and the documents it inserted. */
  method CorrectedImportOnce(wp: WordPress, listing: string -> seq<string>, read: string -> Json, b: nat, offset: nat)
    returns (c: Cursor, inserted: seq<Json>)
    requires b > 0 && offset <= |DecodedFiles(wp, listing, read)|
    ensures var docs := DecodedFiles(wp, listing, read);
      && c == PageCursor(|docs|, |docs|, b, offset) && c.offset <= |docs|
      && Filter(Importable, docs[..offset]) + inserted == Filter(Importable, docs[..c.offset])
  {
    var docs := DecodedFiles(wp, listing, read);
    CorrectedImportStep(docs, b, offset);
    var r := CorrectedImportPage(docs, b, offset);
    c := r.cursor;
    inserted := r.output;
  }

  /**
   * The corrected batch loop, with batch size `b > 0`: it pages through the
   * files like the export loop, counting every file it examines, and inserts
   * exactly the importable files, each once and in order.
   */
  method CorrectedImportLoop(wp: WordPress, listing: string -> seq<string>, read: string -> Json, b: nat)
    returns (imported: seq<Json>, trace: seq<Cursor>, totalProcessed: nat)
    requires b > 0
    ensures var docs := DecodedFiles(wp, listing, read);
      && trace == PagedRun(|docs|, |docs|, b, 0)
      && totalProcessed == TotalProcessed(trace) == |docs|
      && imported == Filter(Importable, docs)
  {
    ghost var docs := DecodedFiles(wp, listing, read);
    ghost var n := |docs|;
    var c;
    c, imported := CorrectedImportOnce(wp, listing, read, b, 0);
    assert docs[..0] == [];
    trace := [c];
    PagedTraceFirst(n, n, b);
    while Continues(c)
      invariant c.offset <= n && imported == Filter(Importable, docs[..c.offset])
      invariant PagedTrace(n, n, b, c, trace)
      decreases n - c.offset, if Continues(c) then 1 else 0
    {
      PagedTraceNext(n, n, b, c, trace);
      var inserted;
      c, inserted := CorrectedImportOnce(wp, listing, read, b, c.offset);
      imported := imported + inserted;
      trace := trace + [c];
    }
    PagedTraceDone(n, n, b, c, trace);
    assert docs[..n] == docs;
    totalProcessed := c.offset;
  }

  /**
   * `import` with the corrected batch: the single-pass mode is unchanged,
   * and the batch mode inserts every importable file exactly once and
   * reports the number of files examined.
   */
  method CorrectedImport(wp: WordPress, listing: string -> seq<string>, read: string -> Json, arg: Option<int>)
    returns (imported: seq<Json>, trace: seq<Cursor>, reported: Option<nat>)
    ensures arg == Some(0) ==> imported == ImportAllFiles(DecodedFiles(wp, listing, read)) && trace == [] && reported == None
    ensures arg != Some(0) ==>
      var docs := DecodedFiles(wp, listing, read);
      && trace == PagedRun(|docs|, |docs|, BatchSizeOf(arg), 0)
      && imported == Filter(Importable, docs)
      && reported == Some(|docs|)
  {
    var b := BatchSizeOf(arg);
    if b == 0 {
      imported := ImportAllFiles(DecodedFiles(wp, listing, read));
      trace := [];
      reported := None;
    } else {
      var totalProcessed;
      imported, trace, totalProcessed := CorrectedImportLoop(wp, listing, read, b);
      reported := Some(totalProcessed);
    }
  }
}
