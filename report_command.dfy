/** The output-path rule of the `report` command (src/kp_dagger/cli/commands/report.py). */
module ReportCommand {

  import opened Results
  import opened CliHelpers

  /** The extension of each report format, ".html" for any other name. */
  function ReportExtension(outputFormat: string): (ext: string)
    ensures ext in {".html", ".json", ".xlsx", ".pdf"}
  {
    var extensionMap := map["html" := ".html", "json" := ".json", "excel" := ".xlsx", "pdf" := ".pdf"];
    if outputFormat in extensionMap then extensionMap[outputFormat] else ".html"
  }

  /** _generate_output_filename: `<stem>_report<ext>` beside the input file. */
  function GenerateOutputFilename(inputFile: Path, outputFormat: string): (out: Path)
    ensures out.parent == inputFile.parent
  {
    Path(inputFile.parent, Stem(inputFile.name) + "_report" + ReportExtension(outputFormat))
  }

  /** The report name is get_output_filename's rule with suffix "report", so the output's own
      suffix is the format's extension and its stem is the input's stem plus "_report". */
  lemma ReportNameParts(inputFile: Path, outputFormat: string)
    ensures GenerateOutputFilename(inputFile, outputFormat) == GetOutputFilename(inputFile, "report", ReportExtension(outputFormat))
    ensures Suffix(GenerateOutputFilename(inputFile, outputFormat).name) == ReportExtension(outputFormat)
    ensures Stem(GenerateOutputFilename(inputFile, outputFormat).name) == Stem(inputFile.name) + "_report"
  {
    var ext := ReportExtension(outputFormat);
    assert Stem(inputFile.name) + "_report" + ext == Stem(inputFile.name) + "_" + "report" + ext;
    OutputFilenameParts(inputFile, "report", ext);
  }

  /** The format names and their extensions; an unknown format falls back to HTML. */
  lemma ReportExtensionTable(outputFormat: string)
    ensures ReportExtension(outputFormat) == ".xlsx" <==> outputFormat == "excel"
    ensures ReportExtension(outputFormat) == ".json" <==> outputFormat == "json"
    ensures ReportExtension(outputFormat) == ".pdf" <==> outputFormat == "pdf"
    ensures ReportExtension(outputFormat) == ".html" <==> outputFormat !in {"excel", "json", "pdf"}
  {
  }

  /** The command's `output`: the `--output` path when given, else the generated name. */
  function ResolveOutput(output: Option<Path>, inputFile: Path, outputFormat: string): (out: Path)
    ensures output.Some? ==> out == output.value
    ensures output.None? ==> out.parent == inputFile.parent && Suffix(out.name) == ReportExtension(outputFormat)
  {
    ReportNameParts(inputFile, outputFormat);
    if output.Some? then output.value else GenerateOutputFilename(inputFile, outputFormat)
  }
}
