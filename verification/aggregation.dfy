/**
 * The second half of collect_files_thread: the document written for the
 * selected files. The source folder's resolved path and each file's relative
 * path are inputs; the output file is an object whose text the run appends to.
 */
module Aggregation {
  import opened Extensions
  import opened Reading
  import opened Selection
  import opened Sequences

  /** A line of 80 '=' characters. */
  const RULE: string := "================================================================================"

  /** The task-prompt section: a given prompt appears verbatim right after
      its heading and the "---" line; without one, a note says so. */
  function PromptSection(prompt: string): (r: string)
    ensures prompt != [] ==> |r| > 17 + |prompt| && r[..17] == "Task Prompt:\n---\n"
    ensures prompt != [] ==> r[17..17 + |prompt|] == prompt
    ensures prompt == [] ==> r == "Task Prompt: (Not provided)\n\n"
  {
    if prompt != [] then
      SliceOfMiddle("Task Prompt:\n---\n", prompt, "\n---\n\n");
      "Task Prompt:\n---\n" + prompt + "\n---\n\n"
    else "Task Prompt: (Not provided)\n\n"
  }

  /** What precedes the file blocks: the source folder, the task prompt or a
      note that there is none, and the "Collected Files:" heading with its
      rule. The folder follows the "Source Folder: " label, and the preamble
      ends with the rule and a blank line. */
  function Preamble(sourceFolder: string, prompt: string): (r: string)
    ensures |r| > 15 + |sourceFolder| && r[15..15 + |sourceFolder|] == sourceFolder
    ensures |r| >= |RULE| + 2 && r[|r| - |RULE| - 2..] == RULE + "\n\n"
  {
    var folderLine := "Source Folder: " + sourceFolder + "\n";
    var rest := PromptSection(prompt) + "Collected Files:\n";
    var closing := RULE + "\n\n";
    SliceOfMiddle("Source Folder: ", sourceFolder, "\n");
    SliceOfMiddle(folderLine, rest, closing);
    SliceOfMiddle(folderLine + rest, closing, []);
    AppendAssoc(folderLine, PromptSection(prompt), "Collected Files:\n");
    folderLine + PromptSection(prompt) + "Collected Files:\n" + closing
  }

  /** The header line of a file's block: its relative path after the
      "==== FILE: " opening. */
  function Header(e: Entry): (r: string)
    ensures |r| > 11 + |e.relativePath| && r[11..11 + |e.relativePath|] == e.relativePath
  {
    var closing := " [" + HeaderExtension(e.name) + "] ====\n\n";
    SliceOfMiddle("==== FILE: ", e.relativePath, closing);
    AppendAssoc("==== FILE: " + e.relativePath, " [" + HeaderExtension(e.name), "] ====\n\n");
    AppendAssoc("==== FILE: " + e.relativePath, " [", HeaderExtension(e.name));
    "==== FILE: " + e.relativePath + " [" + HeaderExtension(e.name) + "] ====\n\n"
  }

  const FOOTER: string := "\n\n" + RULE + "\n\n"

  /** The block written for one file: its header, its body, and the closing rule. */
  function Block(e: Entry): string {
    Header(e) + Body(Fallback(ENCODINGS, e.attempt, None)) + FOOTER
  }

  /** The blocks of the given files, one after another in their order. */
  function Blocks(files: seq<Entry>): (r: string)
    ensures r == [] <==> files == []
  {
    if files == [] then [] else Block(files[0]) + Blocks(files[1..])
  }

  /** The whole output document. */
  function Document(sourceFolder: string, prompt: string, files: seq<Entry>): string
  {
    Preamble(sourceFolder, prompt) + Blocks(files)
  }

  lemma {:induction false} BlocksAppend(a: seq<Entry>, b: seq<Entry>)
    ensures Blocks(a + b) == Blocks(a) + Blocks(b)
  {
    AppendParts(a, b);
    if a != [] {
      BlocksAppend(a[1..], b);
      AppendAssoc(Block(a[0]), Blocks(a[1..]), Blocks(b));
    }
  }

  /** Extending the files by the next one extends the blocks by its block. */
  lemma BlocksOfLonger(files: seq<Entry>, k: nat)
    requires k < |files|
    ensures Blocks(files[..k + 1]) == Blocks(files[..k]) + Block(files[k])
  {
    SplitAt(files, k);
    BlocksAppend(files[..k], [files[k]]);
    BlocksOfOne(files[k]);
  }

  lemma BlocksOfOne(file: Entry)
    ensures Blocks([file]) == Block(file)
  {
    AppendParts([file], []);
    assert Blocks([file]) == Block(file) + Blocks([]);
  }

  /** Writing the next file's block after the blocks written so far extends
      them by exactly that block. */
  lemma DocumentGrows(start: string, files: seq<Entry>, k: nat)
    requires k < |files|
    ensures start + Blocks(files[..k + 1]) == (start + Blocks(files[..k])) + Block(files[k])
  {
    BlocksOfLonger(files, k);
    AppendAssoc(start, Blocks(files[..k]), Block(files[k]));
  }

  /** The document is the preamble followed by exactly one block per file, in
      order: the block of the k-th file starts right after the preamble and
      the blocks of the files before it. */
  lemma DocumentLayout(sourceFolder: string, prompt: string, files: seq<Entry>, k: nat)
    requires k < |files|
    ensures var doc := Document(sourceFolder, prompt, files);
      var start := |Preamble(sourceFolder, prompt)| + |Blocks(files[..k])|;
      && start + |Block(files[k])| <= |doc|
      && doc[..|Preamble(sourceFolder, prompt)|] == Preamble(sourceFolder, prompt)
      && doc[start..start + |Block(files[k])|] == Block(files[k])
  {
    var before, block, after := Blocks(files[..k]), Block(files[k]), Blocks(files[k + 1..]);
    SplitAt(files, k);
    BlocksAppend(files[..k + 1], files[k + 1..]);
    BlocksOfLonger(files, k);
    var preamble := Preamble(sourceFolder, prompt);
    assert Document(sourceFolder, prompt, files) == preamble + ((before + block) + after);
    AppendAssoc(preamble, before + block, after);
    AppendAssoc(preamble, before, block);
    SliceOfMiddle(preamble + before, block, after);
    SliceOfMiddle(preamble, before + block + after, []);
  }

  /** The output file, opened for writing: it starts empty and each write appends. */
  class OutputFile {
    var text: string

    constructor ()
      ensures text == []
    {
      text := [];
    }

    method Write(s: string)
      modifies this
      ensures text == old(text) + s
    {
      text := text + s;
    }
  }

  /** The header lines of the document, written once the output file is open. */
  method WritePreamble(outFile: OutputFile, sourceFolder: string, prompt: string)
    modifies outFile
    ensures outFile.text == old(outFile.text) + Preamble(sourceFolder, prompt)
  {
    ghost var start := outFile.text;
    var folderLine := "Source Folder: " + sourceFolder + "\n";
    outFile.Write(folderLine);
    if prompt != [] {
      outFile.Write("Task Prompt:\n---\n" + prompt + "\n---\n\n");
    } else {
      outFile.Write("Task Prompt: (Not provided)\n\n");
    }
    var heading := "Collected Files:\n";
    outFile.Write(heading);
    var rule := RULE + "\n\n";
    outFile.Write(rule);
    AppendAssoc(start, folderLine, PromptSection(prompt));
    AppendAssoc(start, folderLine + PromptSection(prompt), heading);
    AppendAssoc(start, folderLine + PromptSection(prompt) + heading, rule);
  }

  /** One turn of the per-file loop: the header, the body read with the
      encoding fallback, and the closing rule. */
  method WriteFileBlock(outFile: OutputFile, file: Entry)
    modifies outFile
    ensures outFile.text == old(outFile.text) + Block(file)
  {
    ghost var start := outFile.text;
    var fileExt := HeaderExtension(file.name);
    outFile.Write("==== FILE: " + file.relativePath + " [" + fileExt + "] ====\n\n");

    var content, errorMsg := ReadWithFallback(ENCODINGS, file.attempt);
    if content.Some? {
      outFile.Write(content.value);
    } else if errorMsg.Some? && errorMsg.value != [] {
      outFile.Write(errorMsg.value + "\n");
    } else {
      outFile.Write(UNKNOWN_ISSUE_MARKER + "\n");
    }
    ghost var body := Body(ReadResult(content, errorMsg));
    assert outFile.text == start + Header(file) + body;

    outFile.Write(FOOTER);
    AppendAssoc(start, Header(file), body);
    AppendAssoc(start, Header(file) + body, FOOTER);
  }

  /** The per-file loop of collect_files_thread: one block per file, in
      order, with processed_files counting the files written. */
  method WriteFileBlocks(outFile: OutputFile, files: seq<Entry>) returns (processedFiles: nat)
    modifies outFile
    ensures outFile.text == old(outFile.text) + Blocks(files)
    ensures processedFiles == |files|
  {
    ghost var start := outFile.text;
    processedFiles := 0;
    WholePrefixes(files);
    for i := 0 to |files|
      invariant outFile.text == start + Blocks(files[..i])
      invariant processedFiles == i
    {
      var file := files[i];
      WriteFileBlock(outFile, file);
      processedFiles := processedFiles + 1;
      DocumentGrows(start, files, i);
    }
  }

  /** How a run ends: with no matching file, before the output file is
      created, or with the document written and the number of files processed. */
  datatype RunOutcome = NoMatchingFiles | Written(document: string, processedFiles: nat)

  /** collect_files_thread on a listing of the source folder. When nothing is
      selected it returns without creating the output file; otherwise the
      output file holds the preamble and one block per selected file, in
      order, and the counter equals the number of selected files. */
  method CollectFiles(entries: seq<Entry>, criteria: Criteria, sourceFolder: string, prompt: string)
    returns (outcome: RunOutcome)
    ensures outcome == NoMatchingFiles <==> Select(entries, criteria) == []
    ensures outcome.Written? ==>
      && outcome.document == Document(sourceFolder, prompt, Select(entries, criteria))
      && outcome.processedFiles == |Select(entries, criteria)|
  {
    var filesToProcess := Select(entries, criteria);
    var totalFiles := |filesToProcess|;
    if totalFiles == 0 {
      return NoMatchingFiles;
    }

    var outFile := new OutputFile();
    WritePreamble(outFile, sourceFolder, prompt);
    AppendParts([], Preamble(sourceFolder, prompt));
    var processedFiles := WriteFileBlocks(outFile, filesToProcess);
    return Written(outFile.text, processedFiles);
  }
}
