/**
 * The batch driver `process_images_and_save` (src/util.py): for each input file, in the order
 * the directory listing yields them, run the detector, write its images under the input's stem,
 * then reopen the CSV file in truncating mode and write the header (first iteration only) and
 * the file's row. Nothing catches a failure: the first one ends the run.
 */
module Batch {
  import opened Wrappers
  import opened Text
  import opened Pixels
  import opened Geometry
  import opened Detector

  /** An input file: `in_file_path.name` and the pixels `cv2.imread` decodes from it. */
  datatype InputFile = InputFile(name: string, pixels: Grid<Bgr>)

  /** What `cv2.imwrite` is handed: the detector's (annotated, cropped) pair, as line 26 unpacks it. */
  type Written = (Grid<Bgr>, Grid<Bgr>)

  /** `name.rfind('.')`. */
  function LastDot(name: string): Option<nat>
  {
    if |name| == 0 then None
    else if name[|name| - 1] == '.' then Some(|name| - 1)
    else LastDot(name[..|name| - 1])
  }

  /** `LastDot` finds the last dot of the name, and finds none exactly when the name has no dot. */
  lemma {:induction false} LastDotFinds(name: string)
    ensures var r := LastDot(name);
      (r.Some? ==> r.value < |name| && name[r.value] == '.' && forall k :: r.value < k < |name| ==> name[k] != '.')
      && (r.None? <==> '.' !in name)
  {
    if |name| > 0 && name[|name| - 1] != '.' {
      LastDotFinds(name[..|name| - 1]);
      assert name == name[..|name| - 1] + [name[|name| - 1]];
    }
  }

  /** `PurePath.suffix`: from the last dot on, unless that dot begins or ends the name. */
  function Suffix(name: string): string
  {
    match LastDot(name)
    case Some(i) => if 0 < i < |name| - 1 then name[i..] else ""
    case None => ""
  }

  /** `PurePath.stem`: the name without its suffix. */
  function Stem(name: string): string
  {
    match LastDot(name)
    case Some(i) => if 0 < i < |name| - 1 then name[..i] else name
    case None => name
  }

  /** The stem and the suffix put back together give the name; a suffix is a dot and no further dot. */
  lemma StemAndSuffix(name: string)
    ensures Stem(name) + Suffix(name) == name
    ensures Suffix(name) == "" || (Suffix(name)[0] == '.' && '.' !in Suffix(name)[1..] && |Suffix(name)| > 1)
    ensures |Stem(name)| > 0 || name == ""
  {
    LastDotFinds(name);
    match LastDot(name)
    case Some(i) =>
      if 0 < i < |name| - 1 {
        assert name[..i] + name[i..] == name;
        assert forall k :: 0 <= k < |name[i..][1..]| ==> name[i..][1..][k] == name[i + 1 + k];
      }
    case None =>
  }

  /** `out_dir_path / (in_file_path.stem + out_suffix)`, as a name inside the output directory (line 29). */
  function OutputName(name: string, outSuffix: string): string
  {
    Stem(name) + outSuffix
  }

  /** Lines 39-40: `"file_name,"` then the record's keys joined by commas, then a newline. */
  function HeaderLine(record: Record): string
  {
    "file_name," + Join(Keys(record)) + "\n"
  }

  /** Lines 41-42: the file name and a comma, then the record's values joined by commas, then a newline. */
  function RowLine(name: string, record: Record): string
  {
    name + "," + Join(Values(record)) + "\n"
  }

  /** What iteration `i` leaves in the CSV file it opened with mode "wt" (lines 35-42). */
  function IterationText(i: nat, name: string, record: Record): string
  {
    (if i == 0 then HeaderLine(record) else "") + RowLine(name, record)
  }

  /** How many files the loop gets through: all of them, or those before the first failure. */
  function Completed(inputs: seq<InputFile>, process: Grid<Bgr> -> Result<Detection, Failure>): (n: nat)
    ensures n <= |inputs|
    ensures forall j :: 0 <= j < n ==> process(inputs[j].pixels).Ok?
    ensures n < |inputs| ==> process(inputs[n].pixels).Err?
  {
    if |inputs| == 0 || process(inputs[0].pixels).Err? then 0
    else 1 + Completed(inputs[1..], process)
  }

  /** The images in the output directory after the iterations for the first `k` inputs. */
  function SavedImages(images: map<string, Written>, inputs: seq<InputFile>, k: nat,
                       process: Grid<Bgr> -> Result<Detection, Failure>, outSuffix: string): map<string, Written>
    requires k <= |inputs|
  {
    if k == 0 then images
    else
      var prior := SavedImages(images, inputs, k - 1, process, outSuffix);
      match process(inputs[k - 1].pixels)
      case Ok(d) => prior[OutputName(inputs[k - 1].name, outSuffix) := (d.annotated, d.cropped)]
      case Err(_) => prior
  }

  /**
   * The CSV text a file reopened with mode "wt" at every iteration holds after the first `k`
   * inputs: what the last processed file's iteration wrote, or `before` if none was processed.
   */
  function TruncatedCsv(before: string, inputs: seq<InputFile>, k: nat,
                        process: Grid<Bgr> -> Result<Detection, Failure>): string
    requires k <= |inputs|
  {
    if k == 0 then before
    else
      match process(inputs[k - 1].pixels)
      case Ok(d) => IterationText(k - 1, inputs[k - 1].name, d.record)
      case Err(_) => TruncatedCsv(before, inputs, k - 1, process)
  }

  /**
   * The CSV text a file created at iteration 0 and appended to afterwards holds after the first
   * `k` inputs: each processed file adds what its iteration writes, the header coming with
   * iteration 0 only.
   */
  function AppendedCsv(inputs: seq<InputFile>, k: nat, process: Grid<Bgr> -> Result<Detection, Failure>): string
    requires k <= |inputs|
  {
    if k == 0 then ""
    else
      var prior := AppendedCsv(inputs, k - 1, process);
      match process(inputs[k - 1].pixels)
      case Ok(d) => prior + IterationText(k - 1, inputs[k - 1].name, d.record)
      case Err(_) => prior
  }

  /** The rows of the first `k` processed files, one after the other, without any header. */
  function Rows(inputs: seq<InputFile>, k: nat, process: Grid<Bgr> -> Result<Detection, Failure>): string
    requires k <= |inputs|
  {
    if k == 0 then ""
    else
      var prior := Rows(inputs, k - 1, process);
      match process(inputs[k - 1].pixels)
      case Ok(d) => prior + RowLine(inputs[k - 1].name, d.record)
      case Err(_) => prior
  }

  /**
   * When the first `k` files are all processed, appending leaves the header of the first file's
   * record once, then one row per file, in input order.
   */
  lemma {:induction false} AppendedCsvLayout(inputs: seq<InputFile>, k: nat, process: Grid<Bgr> -> Result<Detection, Failure>)
    requires 0 < k <= |inputs|
    requires forall j :: 0 <= j < k ==> process(inputs[j].pixels).Ok?
    ensures AppendedCsv(inputs, k, process) == HeaderLine(process(inputs[0].pixels).value.record) + Rows(inputs, k, process)
  {
    var header := HeaderLine(process(inputs[0].pixels).value.record);
    var row := RowLine(inputs[k - 1].name, process(inputs[k - 1].pixels).value.record);
    LayoutStep(inputs, k, process);
    if k > 1 {
      AppendedCsvLayout(inputs, k - 1, process);
      AppendAssociates(header, Rows(inputs, k - 1, process), row);
    }
  }

  /** A processed file adds its row to the rows, and its iteration's text to the appended text. */
  lemma LayoutStep(inputs: seq<InputFile>, k: nat, process: Grid<Bgr> -> Result<Detection, Failure>)
    requires 0 < k <= |inputs| && process(inputs[k - 1].pixels).Ok?
    ensures var d := process(inputs[k - 1].pixels).value;
      var row := RowLine(inputs[k - 1].name, d.record);
      Rows(inputs, k, process) == Rows(inputs, k - 1, process) + row
      && AppendedCsv(inputs, k, process)
         == if k == 1 then HeaderLine(d.record) + row else AppendedCsv(inputs, k - 1, process) + row
  {
  }

  /** Associativity of string concatenation, stated on its own so the layout proof stays small; not a property of the batch. */
  lemma AppendAssociates(a: string, b: string, c: string)
    ensures (a + b) + c == a + (b + c)
  {
  }

  /**
   * The truncating writes of lines 36-42 lose rows: once two files or more are processed,
   * what the last iteration leaves is shorter than what appending leaves, since the
   * earlier rows and the header are gone.
   */
  lemma TruncationLosesRows(before: string, inputs: seq<InputFile>, process: Grid<Bgr> -> Result<Detection, Failure>)
    requires |inputs| >= 2
    requires forall j :: 0 <= j < |inputs| ==> process(inputs[j].pixels).Ok?
    ensures var n := |inputs|;
      Completed(inputs, process) == n
      && TruncatedCsv(before, inputs, n, process) == RowLine(inputs[n - 1].name, process(inputs[n - 1].pixels).value.record)
      && |TruncatedCsv(before, inputs, n, process)| < |AppendedCsv(inputs, n, process)|
  {
    AppendedCsvLayout(inputs, |inputs| - 1, process);
    CompletedStopsAt(inputs, process, |inputs|);
  }

  /**
   * The image saved under a name is that of the LAST of the first `k` inputs writing to it: a
   * later input with the same stem overwrites an earlier one.
   */
  lemma {:induction false} LastWriteWins(images: map<string, Written>, inputs: seq<InputFile>, k: nat,
                                         process: Grid<Bgr> -> Result<Detection, Failure>, outSuffix: string, j: nat)
    requires j < k <= |inputs| && process(inputs[j].pixels).Ok?
    requires forall m :: j < m < k ==> OutputName(inputs[m].name, outSuffix) != OutputName(inputs[j].name, outSuffix)
    ensures var d := process(inputs[j].pixels).value;
      var saved := SavedImages(images, inputs, k, process, outSuffix);
      OutputName(inputs[j].name, outSuffix) in saved && saved[OutputName(inputs[j].name, outSuffix)] == (d.annotated, d.cropped)
  {
    if j < k - 1 {
      LastWriteWins(images, inputs, k - 1, process, outSuffix, j);
    }
  }

  /** Names none of the first `k` inputs writes to keep what the directory held before. */
  lemma {:induction false} OtherNamesUntouched(images: map<string, Written>, inputs: seq<InputFile>, k: nat,
                                               process: Grid<Bgr> -> Result<Detection, Failure>, outSuffix: string, key: string)
    requires k <= |inputs|
    requires forall m :: 0 <= m < k ==> OutputName(inputs[m].name, outSuffix) != key
    ensures key in SavedImages(images, inputs, k, process, outSuffix) <==> key in images
    ensures key in images ==> SavedImages(images, inputs, k, process, outSuffix)[key] == images[key]
  {
    if k > 0 {
      OtherNamesUntouched(images, inputs, k - 1, process, outSuffix, key);
      assert OutputName(inputs[k - 1].name, outSuffix) != key;
    }
  }

  /** Two inputs with one stem are saved under one name, whatever their suffixes. */
  lemma SameStemSameOutput(a: string, b: string, outSuffix: string)
    requires Stem(a) == Stem(b)
    ensures OutputName(a, outSuffix) == OutputName(b, outSuffix)
  {
  }

  lemma {:induction false} CommaCountZero(s: string)
    ensures CommaCount(s) == 0 <==> ',' !in s
  {
    if |s| > 0 {
      CommaCountZero(s[1..]);
      assert s == [s[0]] + s[1..];
    }
  }

  /**
   * Without its newline, the header splits into "file_name" and the keys, and a row into the
   * pieces of the file name and the values; both have 1 + |record| fields exactly when the file
   * name has no comma.
   */
  lemma CsvLineFields(name: string, record: Record)
    requires |record| > 0
    requires forall i :: 0 <= i < |record| ==> ',' !in Keys(record)[i] && ',' !in Values(record)[i]
    ensures var header, row := HeaderLine(record), RowLine(name, record);
      header[|header| - 1] == '\n' && row[|row| - 1] == '\n'
      && Split(header[..|header| - 1]) == ["file_name"] + Keys(record)
      && Split(row[..|row| - 1]) == Split(name) + Values(record)
      && (|Split(row[..|row| - 1])| == |Split(header[..|header| - 1])| <==> ',' !in name)
  {
    HeaderFields(record);
    RowFields(name, record);
    SplitLength(name);
    CommaCountZero(name);
  }

  lemma HeaderFields(record: Record)
    requires |record| > 0
    requires forall i :: 0 <= i < |record| ==> ',' !in Keys(record)[i]
    ensures var header := HeaderLine(record);
      header[|header| - 1] == '\n' && Split(header[..|header| - 1]) == ["file_name"] + Keys(record)
  {
    var header := HeaderLine(record);
    assert header[..|header| - 1] == "file_name" + "," + Join(Keys(record));
    SplitAtComma("file_name", Join(Keys(record)));
    SplitNoComma("file_name");
    SplitJoin(Keys(record));
  }

  lemma RowFields(name: string, record: Record)
    requires |record| > 0
    requires forall i :: 0 <= i < |record| ==> ',' !in Values(record)[i]
    ensures var row := RowLine(name, record);
      row[|row| - 1] == '\n' && Split(row[..|row| - 1]) == Split(name) + Values(record)
  {
    var row := RowLine(name, record);
    assert row[..|row| - 1] == name + "," + Join(Values(record));
    SplitAtComma(name, Join(Values(record)));
    SplitJoin(Values(record));
  }

  /** The CSV lines of a record the detector builds (see `DetectedCsvLines`). */
  lemma RecordCsvLines(c: Corners, b: Box, name: string)
    requires ',' !in name
    ensures var record := ResultRecord(c, b);
      var header, row := HeaderLine(record), RowLine(name, record);
      |header| > 0 && |row| > 0
      && Split(header[..|header| - 1]) == ["file_name"] + RecordKeys
      && Split(row[..|row| - 1]) == [name] + Values(record)
      && ReadAll(Split(row[..|row| - 1])[1..]) == Some(RecordInts(c, b))
  {
    var record := ResultRecord(c, b);
    RecordCommaFree(c, b);
    RecordReadsBack(c, b);
    CommaFreeCsvLines(name, record);
  }

  /** The lines of a comma-free record, for a file name without commas. */
  lemma CommaFreeCsvLines(name: string, record: Record)
    requires ',' !in name && |record| > 0
    requires forall i :: 0 <= i < |record| ==> ',' !in Keys(record)[i] && ',' !in Values(record)[i]
    ensures var header, row := HeaderLine(record), RowLine(name, record);
      |header| > 0 && |row| > 0
      && Split(header[..|header| - 1]) == ["file_name"] + Keys(record)
      && Split(row[..|row| - 1]) == [name] + Values(record)
      && Split(row[..|row| - 1])[1..] == Values(record)
  {
    HeaderFields(record);
    RowFields(name, record);
    SplitNoComma(name);
  }

  lemma FinishedCsvLines(lib: Library, image: Grid<Bgr>, simplified: Option<Contour>, name: string)
    requires Finish(lib, image, simplified).Ok?
    requires ',' !in name
    ensures var record := Finish(lib, image, simplified).value.record;
      var header, row := HeaderLine(record), RowLine(name, record);
      |header| > 0 && |row| > 0
      && Split(header[..|header| - 1]) == ["file_name"] + RecordKeys
      && |Split(row[..|row| - 1])| == 13 && Split(row[..|row| - 1])[0] == name
      && ReadAll(Split(row[..|row| - 1])[1..]).Some?
  {
    var quad, c := FinishParts(lib, image, simplified);
    RecordCsvLines(c, BoundingBox(quad), name);
  }

  /**
   * For the detector's record, the header has 13 fields: "file_name" and the twelve keys; a row for
   * a file name without commas has 13 too: the name, then twelve values that read back as integers.
   */
  lemma DetectedCsvLines(lib: Library, backgroundIsBlack: bool, image: Grid<Bgr>, fuel: nat, name: string)
    requires Detect(lib, backgroundIsBlack, image, fuel).Ok?
    requires ',' !in name
    ensures var record := Detect(lib, backgroundIsBlack, image, fuel).value.record;
      var header, row := HeaderLine(record), RowLine(name, record);
      |header| > 0 && |row| > 0
      && Split(header[..|header| - 1]) == ["file_name"] + RecordKeys
      && |Split(row[..|row| - 1])| == 13 && Split(row[..|row| - 1])[0] == name
      && ReadAll(Split(row[..|row| - 1])[1..]).Some?
  {
    DetectSimplified(lib, backgroundIsBlack, image, fuel);
    FinishedCsvLines(lib, image, SimplifiedLongest(lib, backgroundIsBlack, image, fuel), name);
  }

  /** The output directory: the CSV file's contents and the image files, by name. */
  class OutputDirectory {
    /** Contents of the CSV file `out_csv_file_name`; a file that does not exist reads as "". */
    var csv: string
    /** Image files written by `cv2.imwrite`, by name. */
    var images: map<string, Written>

    constructor (csv: string, images: map<string, Written>)
      ensures this.csv == csv && this.images == images
    {
      this.csv := csv;
      this.images := images;
    }

    /**
     * Lines 21-42 with `process_function` given as `process`. Returns the failure that ended the
     * run early, if any; the images are those of the files processed before it, and the CSV holds
     * only what the last completed iteration wrote: the header only if that was iteration 0.
     */
    method ProcessImagesAndSave(inputs: seq<InputFile>, process: Grid<Bgr> -> Result<Detection, Failure>, outSuffix: string)
      returns (failure: Option<Failure>)
      modifies this
      ensures var n := Completed(inputs, process);
        failure == if n < |inputs| then Some(process(inputs[n].pixels).error) else None
      ensures images == SavedImages(old(images), inputs, Completed(inputs, process), process, outSuffix)
      ensures csv == TruncatedCsv(old(csv), inputs, Completed(inputs, process), process)
    {
      ghost var start, startCsv := images, csv;
      ghost var n := Completed(inputs, process);
      var i := 0;
      while i < |inputs|
        invariant 0 <= i <= |inputs|
        invariant i <= n
        invariant images == SavedImages(start, inputs, i, process, outSuffix)
        invariant csv == TruncatedCsv(startCsv, inputs, i, process)
      {
        var file := inputs[i];
        var outcome := process(file.pixels);
        if outcome.Err? {
          assert n == i;
          return Some(outcome.error);
        }
        var d := outcome.value;
        SaveIteration(i, file, d, outSuffix);
        i := i + 1;
      }
      failure := None;
    }

    /**
     * Lines 28-42 for one processed file: save its images under the output name, then reopen
     * the CSV file in mode "wt", which truncates it, and write this iteration's text.
     */
    method SaveIteration(i: nat, file: InputFile, d: Detection, outSuffix: string)
      modifies this
      ensures images == old(images)[OutputName(file.name, outSuffix) := (d.annotated, d.cropped)]
      ensures csv == IterationText(i, file.name, d.record)
    {
      // save image
      images := images[OutputName(file.name, outSuffix) := (d.annotated, d.cropped)];
      // save data: mode "wt" truncates the file, which then holds what this iteration writes
      var text := WriteIteration(i, file.name, d.record);
      csv := text;
    }

    /** One iteration of the corrected loop: the CSV file is created at iteration 0 and appended to afterwards. */
    method AppendIteration(i: nat, file: InputFile, d: Detection, outSuffix: string)
      modifies this
      ensures images == old(images)[OutputName(file.name, outSuffix) := (d.annotated, d.cropped)]
      ensures csv == if i == 0 then IterationText(i, file.name, d.record)
                     else old(csv) + IterationText(i, file.name, d.record)
    {
      // save image
      images := images[OutputName(file.name, outSuffix) := (d.annotated, d.cropped)];
      // save data: mode "wt" on the first iteration, "at" afterwards
      var text := WriteIteration(i, file.name, d.record);
      csv := if i == 0 then text else csv + text;
    }

    /**
     * The same batch with the CSV file created once, as the header's "create csv" comment
     * intends: iteration 0 opens it in truncating mode, later iterations in append mode, so the
     * file holds the header once and then every row, and nothing from before the run.
     */
    method ProcessImagesAndAppend(inputs: seq<InputFile>, process: Grid<Bgr> -> Result<Detection, Failure>, outSuffix: string)
      returns (failure: Option<Failure>)
      modifies this
      ensures var n := Completed(inputs, process);
        failure == if n < |inputs| then Some(process(inputs[n].pixels).error) else None
      ensures images == SavedImages(old(images), inputs, Completed(inputs, process), process, outSuffix)
      ensures var n := Completed(inputs, process);
        csv == if n == 0 then old(csv) else AppendedCsv(inputs, n, process)
    {
      ghost var start, startCsv := images, csv;
      ghost var n := Completed(inputs, process);
      var i := 0;
      while i < |inputs|
        invariant 0 <= i <= |inputs|
        invariant i <= n
        invariant images == SavedImages(start, inputs, i, process, outSuffix)
        invariant i == 0 ==> csv == startCsv
        invariant 0 < i ==> csv == AppendedCsv(inputs, i, process)
      {
        var file := inputs[i];
        var outcome := process(file.pixels);
        if outcome.Err? {
          assert n == i;
          return Some(outcome.error);
        }
        var d := outcome.value;
        AppendIteration(i, file, d, outSuffix);
        i := i + 1;
      }
      failure := None;
    }
  }

  /** What one iteration writes into the CSV file (lines 37-42). */
  method WriteIteration(i: nat, name: string, record: Record) returns (text: string)
    ensures text == IterationText(i, name, record)
  {
    text := "";
    if i == 0 {
      // create csv and save header
      text := text + "file_name,";
      text := text + Join(Keys(record)) + "\n";
      assert text == HeaderLine(record);
    }
    ghost var header := text;
    text := text + name + ",";
    text := text + Join(Values(record)) + "\n";
    assert text == header + RowLine(name, record);
  }

  /** The loop gets through exactly `i` files when the first `i` succeed and the next one fails or there is none. */
  lemma {:induction false} CompletedStopsAt(inputs: seq<InputFile>, process: Grid<Bgr> -> Result<Detection, Failure>, i: nat)
    requires i <= |inputs|
    requires forall j :: 0 <= j < i ==> process(inputs[j].pixels).Ok?
    requires i < |inputs| ==> process(inputs[i].pixels).Err?
    ensures Completed(inputs, process) == i
  {
    if i > 0 {
      CompletedStopsAt(inputs[1..], process, i - 1);
    }
  }
}
