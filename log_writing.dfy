/**
 * What the two resource log fan-outs have in common: which resource ids get
 * a watcher, how a watcher turns log lines into file text, and the files
 * it writes to.
 */
module LogWriting {
  import opened Wrappers
  import opened Text
  import opened Aspire

  /** `LogLine` from `ResourceLoggerService`. */
  datatype LogLine = LogLine(content: string, isErrorMessage: bool)

  /**
   * What `ResourceLoggerService.WatchAsync(resourceId)` yields to one watcher:
   * the batches delivered before it stopped, and how it stopped.
   */
  datatype LogStream = LogStream(batches: seq<seq<LogLine>>, end: Completion)

  /** What a log watch yields for each resource id. */
  type LogSource = string -> LogStream

  const ErrorMarker: string := "ERR: "

  /** The text written for one line before its line terminator. */
  function FormatLine(line: LogLine): string {
    if line.isErrorMessage then ErrorMarker + line.content else line.content
  }

  /**
   * The written line ends with the content, unchanged; the `ERR: ` marker
   * comes before it exactly for error lines, and nothing else is added.
   */
  lemma FormatLineShape(line: LogLine)
    ensures var text := FormatLine(line);
            && |text| == |line.content| + (if line.isErrorMessage then |ErrorMarker| else 0)
            && text[|text| - |line.content|..] == line.content
            && (line.isErrorMessage ==> StartsWith(text, ErrorMarker))
  {
  }

  /** The lines of all batches, batch after batch. */
  function Flatten(batches: seq<seq<LogLine>>): seq<LogLine> {
    if batches == [] then []
    else Flatten(batches[..|batches| - 1]) + batches[|batches| - 1]
  }

  function FormatLines(lines: seq<LogLine>): (out: seq<string>)
    ensures |out| == |lines|
    ensures forall k :: 0 <= k < |lines| ==> out[k] == FormatLine(lines[k])
  {
    seq(|lines|, k requires 0 <= k < |lines| => FormatLine(lines[k]))
  }

  /** The text a watcher writes for the batches it receives. */
  function LogFileText(batches: seq<seq<LogLine>>): string {
    Terminated(FormatLines(Flatten(batches)))
  }

  lemma {:induction false} FlattenAppend(a: seq<seq<LogLine>>, b: seq<seq<LogLine>>)
    ensures Flatten(a + b) == Flatten(a) + Flatten(b)
    decreases |b|
  {
    if b == [] {
      assert a + b == a;
    } else {
      var b' := b[..|b| - 1];
      assert (a + b)[..|a + b| - 1] == a + b';
      FlattenAppend(a, b');
    }
  }

  /**
   * Later batches only extend the file: the text for `a + b` is the text
   * for `a` followed by the text for `b`.
   */
  lemma LogFileTextAppend(a: seq<seq<LogLine>>, b: seq<seq<LogLine>>)
    ensures LogFileText(a + b) == LogFileText(a) + LogFileText(b)
  {
    FlattenAppend(a, b);
    assert FormatLines(Flatten(a) + Flatten(b)) == FormatLines(Flatten(a)) + FormatLines(Flatten(b));
    TerminatedAppend(FormatLines(Flatten(a)), FormatLines(Flatten(b)));
  }

  predicate NoLineBreaks(batches: seq<seq<LogLine>>) {
    forall i, k :: 0 <= i < |batches| && 0 <= k < |batches[i]| ==> HasNoNewLine(batches[i][k].content)
  }

  lemma {:induction false} FlattenNoLineBreaks(batches: seq<seq<LogLine>>)
    requires NoLineBreaks(batches)
    ensures forall k :: 0 <= k < |Flatten(batches)| ==> HasNoNewLine(Flatten(batches)[k].content)
    decreases |batches|
  {
    if batches != [] {
      var init := batches[..|batches| - 1];
      assert NoLineBreaks(init) by {
        forall i, k | 0 <= i < |init| && 0 <= k < |init[i]|
          ensures HasNoNewLine(init[i][k].content)
        {
          assert init[i] == batches[i];
        }
      }
      FlattenNoLineBreaks(init);
    }
  }

  /**
   * Read back line by line, the file holds one line per log line, in
   * delivery order; an error line is the marker followed by its content,
   * any other line is its content alone.
   */
  lemma LogFileLines(batches: seq<seq<LogLine>>)
    requires NoLineBreaks(batches)
    ensures var file := SplitLines(LogFileText(batches));
            var lines := Flatten(batches);
            && |file| == |lines|
            && forall k :: 0 <= k < |lines| ==>
                 file[k] == if lines[k].isErrorMessage then ErrorMarker + lines[k].content else lines[k].content
  {
    var lines := Flatten(batches);
    FlattenNoLineBreaks(batches);
    var out := FormatLines(lines);
    forall k | 0 <= k < |out| ensures HasNoNewLine(out[k]) {
      assert HasNoNewLine(lines[k].content);
      assert HasNoNewLine(ErrorMarker);
    }
    SplitTerminated(out);
  }

  /**
   * A file system holding directories and text files, as far as the
   * watchers touch it.
   */
  class FileSystem {
    var directories: set<string>
    var files: map<string, string>

    constructor (directories: set<string>, files: map<string, string>)
      ensures this.directories == directories && this.files == files
    {
      this.directories := directories;
      this.files := files;
    }

    /** `DirectoryInfo.Create()`: does nothing when the directory exists. */
    method CreateDirectory(path: string)
      modifies this
      ensures directories == old(directories) + {path}
      ensures files == old(files)
    {
      directories := directories + {path};
    }

    /** `new FileStream(path, FileMode.Create, ...)`: a new file, or an existing one truncated. */
    method CreateFile(path: string)
      modifies this
      ensures files == old(files)[path := ""]
      ensures directories == old(directories)
    {
      files := files[path := ""];
    }

    /** `StreamWriter.WriteAsync(text)`. */
    method Write(path: string, text: string)
      requires path in files
      modifies this
      ensures files == old(files)[path := old(files)[path] + text]
      ensures directories == old(directories)
    {
      files := files[path := files[path] + text];
    }

    /** `StreamWriter.WriteLineAsync(text)`. */
    method WriteLine(path: string, text: string)
      requires path in files
      modifies this
      ensures files == old(files)[path := old(files)[path] + text + NewLine]
      ensures directories == old(directories)
    {
      files := files[path := files[path] + text + NewLine];
    }
  }

  /**
   * The nested `foreach` of a watcher: for every line of every batch, the
   * error marker when it is an error line, then the content and a line
   * terminator.
   */
  method CopyLogLines(fs: FileSystem, path: string, batches: seq<seq<LogLine>>)
    requires path in fs.files
    modifies fs
    ensures fs.files == old(fs.files)[path := old(fs.files)[path] + LogFileText(batches)]
    ensures fs.directories == old(fs.directories)
  {
    ghost var before := old(fs.files)[path];
    ghost var written := "";
    var i := 0;
    LogFileTextEmpty();
    assert batches[..0] == [];
    assert before + written == before;
    while i < |batches|
      invariant 0 <= i <= |batches|
      invariant path in fs.files && fs.files == old(fs.files)[path := before + written]
      invariant written == LogFileText(batches[..i])
      invariant fs.directories == old(fs.directories)
    {
      ghost var cur := before + written;
      CopyBatch(fs, path, batches[i]);
      written := written + Terminated(FormatLines(batches[i]));
      assert before + written == cur + Terminated(FormatLines(batches[i]));
      LogFileTextSnoc(batches, i);
      i := i + 1;
    }
    assert batches[..i] == batches;
  }

  /** The inner `foreach` over the lines of one batch. */
  method CopyBatch(fs: FileSystem, path: string, batch: seq<LogLine>)
    requires path in fs.files
    modifies fs
    ensures fs.files == old(fs.files)[path := old(fs.files)[path] + Terminated(FormatLines(batch))]
    ensures fs.directories == old(fs.directories)
  {
    ghost var before := old(fs.files)[path];
    ghost var written := "";
    var j := 0;
    TerminatedLinesEmpty();
    assert batch[..0] == [];
    assert before + written == before;
    while j < |batch|
      invariant 0 <= j <= |batch|
      invariant path in fs.files && fs.files == old(fs.files)[path := before + written]
      invariant written == Terminated(FormatLines(batch[..j]))
      invariant fs.directories == old(fs.directories)
    {
      ghost var cur := before + written;
      CopyLine(fs, path, batch[j]);
      ghost var piece := FormatLine(batch[j]) + NewLine;
      TerminatedLinesSnoc(batch, j);
      written := written + piece;
      assert before + written == cur + piece;
      j := j + 1;
    }
    assert batch[..j] == batch;
  }

  /** One line: the error marker when it is an error line, then the content and a line terminator. */
  method CopyLine(fs: FileSystem, path: string, line: LogLine)
    requires path in fs.files
    modifies fs
    ensures fs.files == old(fs.files)[path := old(fs.files)[path] + (FormatLine(line) + NewLine)]
    ensures fs.directories == old(fs.directories)
  {
    if line.isErrorMessage {
      fs.Write(path, ErrorMarker);
    }
    fs.WriteLine(path, line.content);
    assert fs.files[path] == old(fs.files)[path] + (FormatLine(line) + NewLine);
  }

  lemma LogFileTextEmpty()
    ensures LogFileText([]) == ""
  {
    assert FormatLines([]) == [];
  }

  lemma TerminatedLinesEmpty()
    ensures Terminated(FormatLines([])) == ""
  {
    assert FormatLines([]) == [];
  }

  lemma TerminatedLinesSnoc(batch: seq<LogLine>, j: nat)
    requires j < |batch|
    ensures Terminated(FormatLines(batch[..j + 1]))
         == Terminated(FormatLines(batch[..j])) + (FormatLine(batch[j]) + NewLine)
  {
    var written := FormatLines(batch[..j]);
    assert FormatLines(batch[..j + 1]) == written + [FormatLine(batch[j])];
    assert (written + [FormatLine(batch[j])])[..|written|] == written;
  }

  lemma LogFileTextSnoc(batches: seq<seq<LogLine>>, i: nat)
    requires i < |batches|
    ensures LogFileText(batches[..i + 1]) == LogFileText(batches[..i]) + Terminated(FormatLines(batches[i]))
  {
    SingleBatch(batches[i]);
    LogFileTextAppend(batches[..i], [batches[i]]);
    assert batches[..i + 1] == batches[..i] + [batches[i]];
  }

  lemma SingleBatchFlatten(batch: seq<LogLine>)
    ensures Flatten([batch]) == batch
  {
    assert [batch][..0] == [];
  }

  lemma SingleBatch(batch: seq<LogLine>)
    ensures LogFileText([batch]) == Terminated(FormatLines(batch))
  {
    SingleBatchFlatten(batch);
  }
}
