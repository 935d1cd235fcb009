/** The batch LFN analyzer: every file of a directory listing whose
    extension is wav, mp3 or mp4 is (after conversion to wav when needed)
    analysed for its low-frequency and ultrasonic peaks, and one result row
    per successfully analysed file is collected for the CSV report. */
module LfnBatch {
  import opened Results
  import opened Text
  import opened Paths
  import opened BandPeak

  const OUTPUT_CSV: string := "lfn_analysis_results.csv"
  const SPECTROGRAM_FOLDER: string := "spectrograms"

  /** `file.lower().split('.')[-1]`. */
  function Extension(file: string): (ext: string)
    ensures '.' !in ext
    ensures forall i :: 0 <= i < |ext| ==> !IsUpper(ext[i])
    ensures EndsWith(Lower(file), ext)
  {
    AfterLast(Lower(file), '.')
  }

  /** `ext in ["wav", "mp3", "mp4"]`. */
  predicate Accepted(file: string)
  {
    var ext := Extension(file);
    ext == "wav" || ext == "mp3" || ext == "mp4"
  }

  /** A text without the separator is its own last piece. */
  lemma AfterLastWhole(s: string, sep: char)
    requires sep !in s
    ensures AfterLast(s, sep) == s
  {
    AfterLastAppended([], s, sep);
    assert [] + s == s;
  }

  /** The extension is `e` exactly when the lower-cased name is `e` itself
      or ends with "." + `e`: a name without any dot is its own extension. */
  lemma ExtensionIs(file: string, e: string)
    requires '.' !in e
    ensures Extension(file) == e <==> (Lower(file) == e || EndsWith(Lower(file), "." + e))
  {
    var s := Lower(file);
    assert Extension(file) == AfterLast(s, '.');
    if s == e {
      AfterLastWhole(s, '.');
    } else if EndsWith(s, "." + e) {
      DottedSuffix(s, e);
    }
    ExtensionShape(s, e);
  }

  /** A name ending in "." + `e` has the extension `e`. */
  lemma DottedSuffix(s: string, e: string)
    requires '.' !in e && EndsWith(s, "." + e)
    ensures AfterLast(s, '.') == e
  {
    var x := s[..|s| - |e|];
    assert s[|s| - |e| - 1..] == "." + e;
    assert x[|x| - 1] == s[|s| - |e| - 1] == '.';
    assert s[|s| - |e|..] == e;
    assert x + e == s;
    AfterLastAppended(x, e, '.');
  }

  /** The last dot-separated piece is the whole name or follows a dot. */
  lemma ExtensionShape(s: string, e: string)
    ensures AfterLast(s, '.') == e ==> s == e || EndsWith(s, "." + e)
  {
    var r := AfterLast(s, '.');
    if r == e && |r| < |s| {
      var k := |s| - |e|;
      assert s[k - 1] == '.' && s[k..] == e;
      assert s[k - 1..] == [s[k - 1]] + s[k..];
    }
  }

  /** Acceptance does not depend on letter case. */
  lemma AcceptedIgnoresCase(file: string)
    ensures Accepted(file) <==> Accepted(Lower(file))
  {
    LowerIdempotent(file);
  }

  /** Where the analysed wav lives: the listed file itself for wav, and
      `<label>_converted.wav` in the same directory for mp3 and mp4. */
  function WavPath(dir: string, file: string): (p: string)
    ensures Extension(file) == "wav" ==> EndsWith(p, file)
    ensures Extension(file) != "wav" ==> EndsWith(p, SplitExtRoot(file) + "_converted.wav")
    ensures '/' !in file && dir != "" && dir[|dir| - 1] != '/' ==>
      p == dir + "/" + (if Extension(file) == "wav" then file else SplitExtRoot(file) + "_converted.wav")
  {
    var name := if Extension(file) == "wav" then file else SplitExtRoot(file) + "_converted.wav";
    assert '/' !in file && dir != "" && dir[|dir| - 1] != '/' ==> Join(dir, name) == dir + "/" + name by {
      if '/' !in file && dir != "" && dir[|dir| - 1] != '/' {
        ConvertedNameFlat(file);
        JoinFlat(dir, name);
      }
    }
    Join(dir, name)
  }

  /** A listed name (which holds no '/') keeps its directory: the wav that
      is analysed sits next to the listed file. */
  lemma WavPathBasename(dir: string, file: string)
    requires '/' !in file
    ensures Basename(WavPath(dir, file)) ==
      (if Extension(file) == "wav" then file else SplitExtRoot(file) + "_converted.wav")
  {
    var name := SplitExtRoot(file) + "_converted.wav";
    ConvertedNameFlat(file);
    BasenameJoin(dir, file);
    BasenameJoin(dir, name);
  }

  /** The converted file's name holds no '/' when the listed name has none. */
  lemma ConvertedNameFlat(file: string)
    requires '/' !in file
    ensures '/' !in SplitExtRoot(file) + "_converted.wav"
  {
    var root := SplitExtRoot(file);
    var name := root + "_converted.wav";
    assert '/' !in root;
    forall k | 0 <= k < |name| ensures name[k] != '/' {
      if k < |root| {
        assert name[k] == root[k];
      } else {
        assert name[k] == "_converted.wav"[k - |root|];
      }
    }
  }

  /** The image written for a file: `spectrograms/<root>.png`. */
  function ImagePath(fileLabel: string): (p: string)
    ensures '/' !in fileLabel ==> p == SPECTROGRAM_FOLDER + "/" + SplitExtRoot(fileLabel) + ".png"
  {
    var name := SplitExtRoot(fileLabel) + ".png";
    assert '/' !in fileLabel ==> !StartsWith(name, "/") by {
      if '/' !in fileLabel && |name| >= 1 {
        assert name[..1] == [name[0]];
        assert name[0] == '.' || name[0] in SplitExtRoot(fileLabel);
      }
    }
    Join(SPECTROGRAM_FOLDER, name)
  }

  /** The dictionary `analyze_audio` returns, with its six fixed keys. */
  datatype Row = Row(filename: string, lfnPeak: real, lfnDb: real,
                     ultrasonicPeak: real, ultrasonicDb: real, spectrogram: string)

  /** Why a file yields no row: its wav could not be read, or its LFN band
      (or a column-less ultrasonic band) made `argmax` raise. */
  datatype AnalyzeError = ReadFailed | NoPeak(e: PeakError)

  /** `analyze_audio(filepath, label)`; `spectrumAt` stands for reading the
      file and computing its dB spectrogram (None when reading fails). */
  function AnalyzeAudio(path: string, fileLabel: string, spectrumAt: string -> Option<Spectrogram>): (r: Result<Row, AnalyzeError>)
    requires forall q :: spectrumAt(q).Some? ==> WellFormed(spectrumAt(q).value)
    ensures spectrumAt(path).None? ==> r == Err(ReadFailed)
    ensures r.Ok? ==> r.value.filename == fileLabel && r.value.spectrogram == ImagePath(fileLabel)
    ensures r.Ok? ==> (spectrumAt(path).Some? &&
                       AnalyzeBands(spectrumAt(path).value) ==
                         Ok(BandPeaks(Peak(r.value.lfnPeak, r.value.lfnDb), Peak(r.value.ultrasonicPeak, r.value.ultrasonicDb))))
    ensures spectrumAt(path).Some? && AnalyzeBands(spectrumAt(path).value).Err? ==> r.Err?
    ensures spectrumAt(path).Some? && AnalyzeBands(spectrumAt(path).value).Ok? ==> r.Ok?
  {
    match spectrumAt(path)
    case None => Err(ReadFailed)
    case Some(s) =>
      match AnalyzeBands(s)
      case Err(e) => Err(NoPeak(e))
      case Ok(p) => Ok(Row(fileLabel, p.lfn.freq, p.lfn.db, p.hf.freq, p.hf.db, ImagePath(fileLabel)))
  }

  /** What one listed file contributes: nothing unless accepted, otherwise
      the row of its analysis when that succeeds. */
  function FileRow(dir: string, file: string, spectrumAt: string -> Option<Spectrogram>): (r: Option<Row>)
    requires forall q :: spectrumAt(q).Some? ==> WellFormed(spectrumAt(q).value)
    ensures r.Some? ==> Accepted(file) && r.value.filename == file
    ensures r.Some? <==> Accepted(file) && AnalyzeAudio(WavPath(dir, file), file, spectrumAt).Ok?
    ensures r.Some? ==> r.value == AnalyzeAudio(WavPath(dir, file), file, spectrumAt).value
  {
    if !Accepted(file) then None
    else match AnalyzeAudio(WavPath(dir, file), file, spectrumAt)
      case Ok(row) => Some(row)
      case Err(_) => None
  }

  /** The present results of `rowOf` over `files`, in listing order. */
  function Collect<T>(files: seq<string>, rowOf: string -> Option<T>): (rows: seq<T>)
    ensures |rows| <= |files|
    decreases |files|
  {
    if files == [] then []
    else
      var prev := Collect(files[..|files| - 1], rowOf);
      match rowOf(files[|files| - 1])
      case Some(row) => prev + [row]
      case None => prev
  }

  /** Every collected result is the result of some listed file. */
  lemma {:induction false} CollectFrom<T>(files: seq<string>, rowOf: string -> Option<T>, k: nat)
    requires k < |Collect(files, rowOf)|
    ensures exists i :: 0 <= i < |files| && rowOf(files[i]) == Some(Collect(files, rowOf)[k])
    decreases |files|
  {
    var init := files[..|files| - 1];
    var prev := Collect(init, rowOf);
    if k < |prev| {
      CollectFrom(init, rowOf, k);
      var i :| 0 <= i < |init| && rowOf(init[i]) == Some(prev[k]);
      assert files[i] == init[i];
    } else {
      assert rowOf(files[|files| - 1]) == Some(Collect(files, rowOf)[k]);
    }
  }

  /** Every listed file with a result contributes it. */
  lemma {:induction false} CollectComplete<T>(files: seq<string>, rowOf: string -> Option<T>, i: nat)
    requires i < |files| && rowOf(files[i]).Some?
    ensures rowOf(files[i]).value in Collect(files, rowOf)
    decreases |files|
  {
    var init := files[..|files| - 1];
    if i < |files| - 1 {
      CollectComplete(init, rowOf, i);
      assert init[i] == files[i];
    }
  }

  /** Results keep listing order: of two listed files with a result, the
      earlier file's result comes first. */
  lemma {:induction false} CollectOrder<T>(files: seq<string>, rowOf: string -> Option<T>, i: nat, j: nat)
    requires i < j < |files| && rowOf(files[i]).Some? && rowOf(files[j]).Some?
    ensures exists p, q :: (0 <= p < q < |Collect(files, rowOf)| &&
      Collect(files, rowOf)[p] == rowOf(files[i]).value && Collect(files, rowOf)[q] == rowOf(files[j]).value)
    decreases |files|
  {
    var rows := Collect(files, rowOf);
    var init := files[..|files| - 1];
    var prev := Collect(init, rowOf);
    assert init[i] == files[i];
    if j < |files| - 1 {
      assert init[j] == files[j];
      CollectOrder(init, rowOf, i, j);
      var p, q :| 0 <= p < q < |prev| && prev[p] == rowOf(files[i]).value && prev[q] == rowOf(files[j]).value;
      assert rows[p] == prev[p] && rows[q] == prev[q];
    } else {
      CollectComplete(init, rowOf, i);
      var p :| 0 <= p < |prev| && prev[p] == rowOf(files[i]).value;
      assert rows == prev + [rowOf(files[j]).value];
      assert rows[p] == prev[p] && rows[|prev|] == rowOf(files[j]).value;
    }
  }

  /** `FileRow` for the files of `dir`, as a function of the file name. */
  function RowOf(dir: string, spectrumAt: string -> Option<Spectrogram>): (rowOf: string -> Option<Row>)
    requires forall q :: spectrumAt(q).Some? ==> WellFormed(spectrumAt(q).value)
    ensures forall f :: rowOf(f) == FileRow(dir, f, spectrumAt)
  {
    f => FileRow(dir, f, spectrumAt)
  }

  /** The rows of a listing, one per successfully analysed file, in
      listing order; each comes from an accepted file of the listing and
      carries that file's name. */
  function BatchRows(dir: string, files: seq<string>, spectrumAt: string -> Option<Spectrogram>): (rows: seq<Row>)
    requires forall q :: spectrumAt(q).Some? ==> WellFormed(spectrumAt(q).value)
    ensures |rows| <= |files|
    ensures forall k :: 0 <= k < |rows| ==> Accepted(rows[k].filename) && rows[k].filename in files
    ensures forall k :: 0 <= k < |rows| ==>
      exists i :: 0 <= i < |files| && FileRow(dir, files[i], spectrumAt) == Some(rows[k])
  {
    var rowOf := RowOf(dir, spectrumAt);
    var rows := Collect(files, rowOf);
    forall k | 0 <= k < |rows|
      ensures Accepted(rows[k].filename) && rows[k].filename in files
      ensures exists i :: 0 <= i < |files| && FileRow(dir, files[i], spectrumAt) == Some(rows[k])
    {
      CollectFrom(files, rowOf, k);
    }
    rows
  }

  /** An accepted file whose analysis succeeds has its row in the report:
      a failure elsewhere in the listing does not stop the loop. */
  lemma BatchRowsComplete(dir: string, files: seq<string>, spectrumAt: string -> Option<Spectrogram>, i: nat)
    requires forall q :: spectrumAt(q).Some? ==> WellFormed(spectrumAt(q).value)
    requires i < |files| && Accepted(files[i])
    requires AnalyzeAudio(WavPath(dir, files[i]), files[i], spectrumAt).Ok?
    ensures AnalyzeAudio(WavPath(dir, files[i]), files[i], spectrumAt).value in BatchRows(dir, files, spectrumAt)
  {
    CollectComplete(files, RowOf(dir, spectrumAt), i);
  }

  /** Two accepted, successfully analysed files appear in the report in
      listing order. */
  lemma BatchRowsOrdered(dir: string, files: seq<string>, spectrumAt: string -> Option<Spectrogram>, i: nat, j: nat)
    requires forall q :: spectrumAt(q).Some? ==> WellFormed(spectrumAt(q).value)
    requires i < j < |files| && Accepted(files[i]) && Accepted(files[j])
    requires AnalyzeAudio(WavPath(dir, files[i]), files[i], spectrumAt).Ok?
    requires AnalyzeAudio(WavPath(dir, files[j]), files[j], spectrumAt).Ok?
    ensures exists p, q :: (0 <= p < q < |BatchRows(dir, files, spectrumAt)| &&
      BatchRows(dir, files, spectrumAt)[p] == AnalyzeAudio(WavPath(dir, files[i]), files[i], spectrumAt).value &&
      BatchRows(dir, files, spectrumAt)[q] == AnalyzeAudio(WavPath(dir, files[j]), files[j], spectrumAt).value)
  {
    var rowOf := RowOf(dir, spectrumAt);
    var rows := BatchRows(dir, files, spectrumAt);
    assert rows == Collect(files, rowOf);
    var a := AnalyzeAudio(WavPath(dir, files[i]), files[i], spectrumAt).value;
    var b := AnalyzeAudio(WavPath(dir, files[j]), files[j], spectrumAt).value;
    assert rowOf(files[i]) == Some(a) && rowOf(files[j]) == Some(b);
    CollectOrder(files, rowOf, i, j);
    var p, q :| 0 <= p < q < |rows| && rows[p] == a && rows[q] == b;
  }

  /** Under a directory not ending in '/', a '/'-free non-wav name is
      converted from `<dir>/<file>` into `<dir>/<root>_converted.wav`. */
  lemma ConvertedPaths(dir: string, file: string)
    requires '/' !in file && dir != "" && dir[|dir| - 1] != '/' && Extension(file) != "wav"
    ensures Join(dir, file) == dir + "/" + file
    ensures WavPath(dir, file) == dir + "/" + (SplitExtRoot(file) + "_converted.wav")
  {
    JoinFlat(dir, file);
  }

  /** The ffmpeg conversion one listed file asks for: (source, target)
      for an accepted file that is not already wav. The target is the wav
      that is then analysed, next to the source in the input directory. */
  function ConversionOf(dir: string, file: string): (c: Option<(string, string)>)
    ensures c.Some? <==> Accepted(file) && Extension(file) != "wav"
    ensures c.Some? ==> c.value.1 == WavPath(dir, file)
    ensures c.Some? && '/' !in file && dir != "" && dir[|dir| - 1] != '/' ==>
      c.value == (dir + "/" + file, dir + "/" + (SplitExtRoot(file) + "_converted.wav"))
  {
    if Accepted(file) && Extension(file) != "wav" then
      var source, target := Join(dir, file), WavPath(dir, file);
      if '/' !in file && dir != "" && dir[|dir| - 1] != '/' then
        ConvertedPaths(dir, file);
        Some((source, target))
      else Some((source, target))
    else None
  }

  /** The conversions of a listing, in listing order. */
  function Conversions(dir: string, files: seq<string>): (cs: seq<(string, string)>)
    ensures |cs| <= |files|
    ensures forall k :: 0 <= k < |cs| ==>
      exists i :: 0 <= i < |files| && ConversionOf(dir, files[i]) == Some(cs[k])
  {
    var conversionOf := ConversionIn(dir);
    var cs := Collect(files, conversionOf);
    forall k | 0 <= k < |cs|
      ensures exists i :: 0 <= i < |files| && ConversionOf(dir, files[i]) == Some(cs[k])
    {
      CollectFrom(files, conversionOf, k);
    }
    cs
  }

  /** Every accepted file that is not wav has its conversion run. */
  lemma ConversionsComplete(dir: string, files: seq<string>, i: nat)
    requires i < |files| && Accepted(files[i]) && Extension(files[i]) != "wav"
    ensures ConversionOf(dir, files[i]).value in Conversions(dir, files)
  {
    CollectComplete(files, ConversionIn(dir), i);
  }

  /** Conversions run in listing order. */
  lemma ConversionsOrdered(dir: string, files: seq<string>, i: nat, j: nat)
    requires i < j < |files|
    requires Accepted(files[i]) && Extension(files[i]) != "wav"
    requires Accepted(files[j]) && Extension(files[j]) != "wav"
    ensures exists p, q :: (0 <= p < q < |Conversions(dir, files)| &&
      Conversions(dir, files)[p] == ConversionOf(dir, files[i]).value &&
      Conversions(dir, files)[q] == ConversionOf(dir, files[j]).value)
  {
    var conversionOf := ConversionIn(dir);
    var cs := Conversions(dir, files);
    assert cs == Collect(files, conversionOf);
    var a, b := ConversionOf(dir, files[i]).value, ConversionOf(dir, files[j]).value;
    assert conversionOf(files[i]) == Some(a) && conversionOf(files[j]) == Some(b);
    CollectOrder(files, conversionOf, i, j);
    var p, q :| 0 <= p < q < |cs| && cs[p] == a && cs[q] == b;
  }

  /** `ConversionOf` for the files of `dir`, as a function of the file name. */
  function ConversionIn(dir: string): (conversionOf: string -> Option<(string, string)>)
    ensures forall f :: conversionOf(f) == ConversionOf(dir, f)
  {
    f => ConversionOf(dir, f)
  }

  /** Files that yield nothing contribute nothing. */
  lemma {:induction false} CollectNone<T>(files: seq<string>, rowOf: string -> Option<T>)
    requires forall i :: 0 <= i < |files| ==> rowOf(files[i]).None?
    ensures Collect(files, rowOf) == []
    decreases |files|
  {
    if files != [] {
      CollectNone(files[..|files| - 1], rowOf);
    }
  }

  /** A listing whose files are all rejected produces no row and no
      conversion. */
  lemma NothingAccepted(dir: string, files: seq<string>, spectrumAt: string -> Option<Spectrogram>)
    requires forall q :: spectrumAt(q).Some? ==> WellFormed(spectrumAt(q).value)
    requires forall i :: 0 <= i < |files| ==> !Accepted(files[i])
    ensures BatchRows(dir, files, spectrumAt) == [] && Conversions(dir, files) == []
  {
    CollectNone(files, RowOf(dir, spectrumAt));
    CollectNone(files, ConversionIn(dir));
  }

  /** What `main` leaves behind. */
  datatype BatchOutcome =
    | Usage       // fewer than two arguments: a message, nothing written
    | ListFailed  // `os.listdir` raised: the script stops, nothing written
    | Report(conversions: seq<(string, string)>, rows: seq<Row>, csvPath: string)

  /** One turn of the loop of `main()`: the conversion it runs and the
      row it appends, if any. */
  method ProcessFile(inputDir: string, file: string, spectrumAt: string -> Option<Spectrogram>)
    returns (conversion: Option<(string, string)>, row: Option<Row>)
    requires forall q :: spectrumAt(q).Some? ==> WellFormed(spectrumAt(q).value)
    ensures conversion == ConversionOf(inputDir, file)
    ensures row == FileRow(inputDir, file, spectrumAt)
  {
    conversion, row := None, None;
    var ext := Extension(file);
    if ext == "wav" || ext == "mp3" || ext == "mp4" {
      assert Accepted(file);
      var fullPath := Join(inputDir, file);
      var fileLabel := SplitExtRoot(file);
      var wavPath := fullPath;
      if ext != "wav" {
        wavPath := Join(inputDir, fileLabel + "_converted.wav");
        conversion := Some((fullPath, wavPath));
      }
      assert wavPath == WavPath(inputDir, file);
      var result := AnalyzeAudio(wavPath, file, spectrumAt);
      if result.Ok? {
        row := Some(result.value);
      }
    } else {
      assert !Accepted(file);
    }
  }

  /** The `for file in os.listdir(input_dir)` loop of `main()`: the
      conversions it runs and the rows it collects, in listing order. */
  method AnalyzeListing(inputDir: string, listing: seq<string>, spectrumAt: string -> Option<Spectrogram>)
    returns (conversions: seq<(string, string)>, results: seq<Row>)
    requires forall q :: spectrumAt(q).Some? ==> WellFormed(spectrumAt(q).value)
    ensures conversions == Conversions(inputDir, listing)
    ensures results == BatchRows(inputDir, listing, spectrumAt)
  {
    var rowOf := RowOf(inputDir, spectrumAt);
    var conversionOf := ConversionIn(inputDir);
    results, conversions := [], [];
    for i := 0 to |listing|
      invariant results == Collect(listing[..i], rowOf)
      invariant conversions == Collect(listing[..i], conversionOf)
    {
      assert listing[..i + 1][..i] == listing[..i] && listing[..i + 1][i] == listing[i];
      var conversion, row := ProcessFile(inputDir, listing[i], spectrumAt);
      assert conversionOf(listing[i]) == conversion && rowOf(listing[i]) == row;
      if conversion.Some? {
        conversions := conversions + [conversion.value];
      }
      if row.Some? {
        results := results + [row.value];
      }
    }
    assert listing[..|listing|] == listing;
  }

  /** `main()`: the usage message without a directory argument, a crash
      when the directory cannot be listed, and otherwise the report of
      the whole listing with the CSV written into the directory. */
  method RunBatch(argv: seq<string>, listDir: string -> Option<seq<string>>,
                  spectrumAt: string -> Option<Spectrogram>)
    returns (out: BatchOutcome)
    requires forall q :: spectrumAt(q).Some? ==> WellFormed(spectrumAt(q).value)
    ensures |argv| < 2 <==> out == Usage
    ensures out.Report? <==> |argv| >= 2 && listDir(argv[1]).Some?
    ensures |argv| >= 2 && listDir(argv[1]).None? ==> out == ListFailed
    ensures |argv| >= 2 && listDir(argv[1]).Some? ==>
      var listing := listDir(argv[1]).value;
      out == Report(Conversions(argv[1], listing), BatchRows(argv[1], listing, spectrumAt), Join(argv[1], OUTPUT_CSV))
  {
    if |argv| < 2 {
      return Usage;
    }
    var inputDir := argv[1];
    var listed := listDir(inputDir);
    if listed.None? {
      return ListFailed;
    }
    var conversions, results := AnalyzeListing(inputDir, listed.value, spectrumAt);
    return Report(conversions, results, Join(inputDir, OUTPUT_CSV));
  }
}
