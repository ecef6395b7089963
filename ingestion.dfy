/**
 * Ingestion: merging the per-building CSV exports into one table
 * (`load_and_merge_data`) and the cleaning step of `main`
 * (`dropna(subset=["timestamp", "kwh"])`).
 *
 * Reading and parsing a CSV file is not modelled: each file arrives already
 * parsed, with its column names and its cells, timestamps already coerced
 * (an unparseable timestamp is `None`, as `to_datetime(errors="coerce")`
 * yields NaT), or as the message of the exception `read_csv` raised.
 */
module Ingestion {
  import opened Wrappers
  import opened Readings

  /** The two cells of one CSV row that the pipeline reads. */
  datatype Cells = Cells(timestamp: Option<Minutes>, kwh: Option<real>)

  /** One `*.csv` file of the data folder, after `read_csv`. */
  datatype SourceFile =
    | Parsed(path: string, stem: string, columns: set<string>, cells: seq<Cells>)
    | Unreadable(path: string, message: string)

  /** A pandas frame as far as the pipeline looks at it: its column names and its rows. */
  datatype Frame = Frame(columns: set<string>, rows: seq<Row>)

  /** The merged frame together with the ingestion log. */
  datatype Ingested = Ingested(frame: Frame, logs: seq<string>)

  /** pandas' KeyError from `dropna(subset=...)`: the subset columns the frame lacks, in subset order. */
  datatype KeyError = KeyError(missing: seq<string>)

  const EMPTY_FRAME := Frame({}, [])

  /** The file is read and has a timestamp column, so its rows are merged. */
  predicate Loaded(f: SourceFile)
  {
    f.Parsed? && "timestamp" in f.columns
  }

  /** `df["building"] = file.stem`; a file without a kwh column gets NaN there once concatenated. */
  function TagRow(f: SourceFile, c: Cells): Row
    requires f.Parsed?
  {
    Row(c.timestamp, if "kwh" in f.columns then c.kwh else None, f.stem)
  }

  function Tagged(f: SourceFile): (rows: seq<Row>)
    requires f.Parsed?
  {
    seq(|f.cells|, i requires 0 <= i < |f.cells| => TagRow(f, f.cells[i]))
  }

  /** The one log line a file that is not merged produces. */
  function LogLine(f: SourceFile): string
    requires !Loaded(f)
  {
    match f
    case Unreadable(path, message) => "Error loading " + path + ": " + message
    case Parsed(path, _, _, _) => "Missing timestamp column in " + path
  }

  /** One iteration of the loop over the files. */
  function Step(acc: Ingested, f: SourceFile): Ingested
  {
    if Loaded(f) then
      Ingested(Frame(acc.frame.columns + f.columns + {"building"}, acc.frame.rows + Tagged(f)), acc.logs)
    else
      Ingested(acc.frame, acc.logs + [LogLine(f)])
  }

  /** The fold the loop of `load_and_merge_data` computes, over the files in enumeration order. */
  function Merge(files: seq<SourceFile>): Ingested
  {
    if files == [] then Ingested(EMPTY_FRAME, [])
    else Step(Merge(files[..|files| - 1]), files[|files| - 1])
  }

  /**
   * `load_and_merge_data`: loop over the files, appending each loaded file's
   * tagged rows to the growing frame and one line to the log for each file
   * that fails.
   */
  method LoadAndMergeData(files: seq<SourceFile>) returns (merged: Frame, logs: seq<string>)
    ensures Ingested(merged, logs) == Merge(files)
  {
    merged := EMPTY_FRAME;
    logs := [];
    for i := 0 to |files|
      invariant Ingested(merged, logs) == Merge(files[..i])
    {
      assert files[..i + 1][..i] == files[..i];
      var file := files[i];
      match file {
        case Unreadable(path, message) =>
          logs := logs + ["Error loading " + path + ": " + message];
        case Parsed(path, stem, columns, cells) =>
          if "timestamp" in columns {
            var df := Tagged(file);
            merged := Frame(merged.columns + columns + {"building"}, merged.rows + df);
          } else {
            logs := logs + ["Missing timestamp column in " + path];
          }
      }
    }
    assert files[..|files|] == files;
  }

  // ---------------------------------------------------------------------------
  // What the merge promises

  /** Merging two batches of files one after the other is merging them at once: file order, then row order. */
  lemma {:induction false} MergeAppend(a: seq<SourceFile>, b: seq<SourceFile>)
    ensures Merge(a + b).frame.rows == Merge(a).frame.rows + Merge(b).frame.rows
    ensures Merge(a + b).frame.columns == Merge(a).frame.columns + Merge(b).frame.columns
    ensures Merge(a + b).logs == Merge(a).logs + Merge(b).logs
    decreases |b|
  {
    if b == [] {
      assert a + b == a;
    } else {
      var n := |b| - 1;
      assert (a + b)[..|a + b| - 1] == a + b[..n];
      assert (a + b)[|a + b| - 1] == b[n];
      MergeAppend(a, b[..n]);
    }
  }

  /** One file on its own: its tagged rows and no log line, or no rows and exactly one log line. */
  lemma {:induction false} MergeOne(f: SourceFile)
    ensures Loaded(f) ==> Merge([f]) == Ingested(Frame(f.columns + {"building"}, Tagged(f)), [])
    ensures !Loaded(f) ==> Merge([f]) == Ingested(EMPTY_FRAME, [LogLine(f)])
  {
    assert [f][..0] == [];
  }

  /** A file that fails contributes one log line in its place and no rows; the others merge unchanged. */
  lemma {:induction false} FailedFileIsSkipped(a: seq<SourceFile>, f: SourceFile, b: seq<SourceFile>)
    requires !Loaded(f)
    ensures Merge(a + [f] + b).frame == Merge(a + b).frame
    ensures Merge(a + [f] + b).logs == Merge(a).logs + [LogLine(f)] + Merge(b).logs
  {
    MergeAppend(a + [f], b);
    MergeAppend(a, [f]);
    MergeAppend(a, b);
    MergeOne(f);
  }

  /** Every merged row comes from a row of a loaded file, tagged with that file's stem, and every such row is merged. */
  lemma {:induction false} MergedRowOrigin(files: seq<SourceFile>, r: Row)
    ensures r in Merge(files).frame.rows <==>
      exists i, j :: 0 <= i < |files| && Loaded(files[i]) && 0 <= j < |files[i].cells| &&
        r == TagRow(files[i], files[i].cells[j])
    decreases |files|
  {
    if files != [] {
      var n := |files| - 1;
      var init, f := files[..n], files[n];
      MergedRowOrigin(init, r);
      assert forall i :: 0 <= i < n ==> init[i] == files[i];
      var added := if Loaded(f) then Tagged(f) else [];
      assert Merge(files).frame.rows == Merge(init).frame.rows + added;
      if Loaded(f) && r in Tagged(f) {
        var j :| 0 <= j < |Tagged(f)| && Tagged(f)[j] == r;
        assert 0 <= n < |files| && Loaded(files[n]) && r == TagRow(files[n], files[n].cells[j]);
      }
      if exists i, j :: 0 <= i < |files| && Loaded(files[i]) && 0 <= j < |files[i].cells| &&
          r == TagRow(files[i], files[i].cells[j]) {
        var i, j :| 0 <= i < |files| && Loaded(files[i]) && 0 <= j < |files[i].cells| &&
          r == TagRow(files[i], files[i].cells[j]);
        if i == n {
          assert Tagged(f)[j] == r;
        }
      }
    }
  }

  /** The merged frame has a timestamp column iff some file was loaded, and a kwh column iff a loaded file had one. */
  lemma {:induction false} MergedColumns(files: seq<SourceFile>)
    ensures "timestamp" in Merge(files).frame.columns <==> exists i :: 0 <= i < |files| && Loaded(files[i])
    ensures "kwh" in Merge(files).frame.columns <==>
      exists i :: 0 <= i < |files| && Loaded(files[i]) && "kwh" in files[i].columns
    decreases |files|
  {
    if files != [] {
      var n := |files| - 1;
      MergedColumns(files[..n]);
      assert forall i :: 0 <= i < n ==> files[..n][i] == files[i];
    }
  }

  // ---------------------------------------------------------------------------
  // Cleaning

  /** The rows `dropna(subset=["timestamp", "kwh"])` keeps, in their order. */
  function Clean(rows: seq<Row>): (kept: seq<Row>)
    ensures AllPresent(kept)
    ensures |kept| <= |rows|
  {
    if rows == [] then []
    else (if Present(rows[0]) then [rows[0]] else []) + Clean(rows[1..])
  }

  /** `df.dropna(subset=["timestamp", "kwh"])`, which raises KeyError when either column is absent. */
  function DropNa(frame: Frame): (r: Result<seq<Row>, KeyError>)
    ensures r.Success? <==> "timestamp" in frame.columns && "kwh" in frame.columns
    ensures r.Success? ==> AllPresent(r.value) && |r.value| <= |frame.rows|
    ensures r.Failure? ==> r.error.missing != []
    ensures r.Failure? ==> forall c :: c in ["timestamp", "kwh"] ==> (c in r.error.missing <==> c !in frame.columns)
  {
    if "timestamp" in frame.columns && "kwh" in frame.columns then Success(Clean(frame.rows))
    else Failure(KeyError((if "timestamp" in frame.columns then [] else ["timestamp"]) +
                          (if "kwh" in frame.columns then [] else ["kwh"])))
  }

  lemma {:induction false} CleanAppend(xs: seq<Row>, ys: seq<Row>)
    ensures Clean(xs + ys) == Clean(xs) + Clean(ys)
  {
    if xs == [] {
      assert xs + ys == ys;
    } else {
      var head := if Present(xs[0]) then [xs[0]] else [];
      assert (xs + ys)[0] == xs[0];
      assert (xs + ys)[1..] == xs[1..] + ys;
      assert Clean(xs + ys) == head + Clean(xs[1..] + ys);
      CleanAppend(xs[1..], ys);
      assert head + (Clean(xs[1..]) + Clean(ys)) == (head + Clean(xs[1..])) + Clean(ys);
    }
  }

  /** A row with NaT or NaN disappears without a trace; a complete row stays where it was. */
  lemma {:induction false} CleanAround(xs: seq<Row>, r: Row, ys: seq<Row>)
    ensures !Present(r) ==> Clean(xs + [r] + ys) == Clean(xs + ys)
    ensures Present(r) ==> Clean(xs + [r] + ys) == Clean(xs) + [r] + Clean(ys)
  {
    CleanAppend(xs + [r], ys);
    CleanAppend(xs, [r]);
    CleanAppend(xs, ys);
    CleanSingle(r);
  }

  lemma {:induction false} CleanSingle(r: Row)
    ensures Clean([r]) == if Present(r) then [r] else []
  {
    assert [r][0] == r && [r][1..] == [];
  }

  /** A row is kept iff it was there and has both a timestamp and a kWh reading. */
  lemma {:induction false} CleanKeepsExactly(rows: seq<Row>, r: Row)
    ensures r in Clean(rows) <==> r in rows && Present(r)
  {
    if rows != [] {
      CleanKeepsExactly(rows[1..], r);
      assert rows == [rows[0]] + rows[1..];
    }
  }

  /** A table without missing cells is left as it is. */
  lemma {:induction false} CleanFixesComplete(rows: seq<Row>)
    requires AllPresent(rows)
    ensures Clean(rows) == rows
  {
    if rows != [] {
      assert AllPresent(rows[1..]) by {
        forall i | 0 <= i < |rows| - 1 ensures Present(rows[1..][i]) {
          assert rows[1..][i] == rows[i + 1];
        }
      }
      CleanFixesComplete(rows[1..]);
    }
  }

  /** Cleaning twice is cleaning once. */
  lemma {:induction false} CleanIdempotent(rows: seq<Row>)
    ensures Clean(Clean(rows)) == Clean(rows)
  {
    CleanFixesComplete(Clean(rows));
  }

  /** dropna succeeds on the merged frame iff some loaded file had a kwh column (so never on an empty data folder). */
  lemma {:induction false} DropNaOnMerged(files: seq<SourceFile>)
    ensures DropNa(Merge(files).frame).Success? <==>
      exists i :: 0 <= i < |files| && Loaded(files[i]) && "kwh" in files[i].columns
    ensures DropNa(Merge(files).frame).Success? ==>
      DropNa(Merge(files).frame).value == Clean(Merge(files).frame.rows)
  {
    MergedColumns(files);
  }
}
