/**
  The per-token Markdown reports: the wording of a token's correlation, the
  file a report is saved under, the index that links to every report, and
  the driver loop that decides which tokens the index lists.

  File writes, the clock, the download and the chart steps are outside the
  model: the date is a parameter, and the outcome of each token's steps is
  given as a `StepOutcome`.
*/
module Reports {
  import opened Quotes

  /** The heading of the interpretation section: |c| > 0.7 is strong,
      0.3 < |c| <= 0.7 moderate, anything else (NaN included) weak. */
  function Heading(c: Coefficient): (h: string)
    ensures c.Num? ==> (h == "### Strong Correlation" <==> Abs(c.value) > 0.7)
    ensures c.Num? ==> (h == "### Moderate Correlation" <==> 0.3 < Abs(c.value) <= 0.7)
    ensures h == "### Weak Correlation" <==> !AbsGreater(c, 0.3)
  {
    if AbsGreater(c, 0.7) then "### Strong Correlation"
    else if AbsGreater(c, 0.3) then "### Moderate Correlation"
    else "### Weak Correlation"
  }

  /** The strength word of the interpretation sentence, with the heading's
      thresholds written out a second time. */
  function StrengthWord(c: Coefficient): (w: string)
    ensures c.Num? ==> (w == "strong" <==> Abs(c.value) > 0.7)
    ensures c.Num? ==> (w == "moderate" <==> 0.3 < Abs(c.value) <= 0.7)
    ensures w == "weak" <==> !AbsGreater(c, 0.3)
  {
    if AbsGreater(c, 0.7) then "strong"
    else if AbsGreater(c, 0.3) then "moderate"
    else "weak"
  }

  /** The direction word: "positive" exactly when c > 0, so zero and NaN are
      described as "negative". */
  function DirectionWord(c: Coefficient): (w: string)
    ensures w == "positive" <==> Greater(c, 0.0)
    ensures w == "negative" <==> !Greater(c, 0.0)
  {
    if Greater(c, 0.0) then "positive" else "negative"
  }

  /** The heading and the sentence never disagree about the strength. */
  lemma HeadingAgreesWithSentence(c: Coefficient)
    ensures Heading(c) == "### Strong Correlation" <==> StrengthWord(c) == "strong"
    ensures Heading(c) == "### Moderate Correlation" <==> StrengthWord(c) == "moderate"
    ensures Heading(c) == "### Weak Correlation" <==> StrengthWord(c) == "weak"
  {
  }

  /** Strength depends on |c| only: c and -c read the same. */
  lemma StrengthIgnoresSign(v: real)
    ensures StrengthWord(Num(v)) == StrengthWord(Num(-v))
    ensures Heading(Num(v)) == Heading(Num(-v))
  {
  }

  const MarkdownFolder := "reports"
  const ChartFolder := "chart_images"
  const GithubRepoUrl := "https://raw.githubusercontent.com/VaporFund/weekly-reports/main"
  const GithubImagesPath := GithubRepoUrl + "/" + ChartFolder

  function ReportFileName(symbol: string): string {
    symbol + "_analysis_report.md"
  }

  /** Where a token's report ends up: directly in the reports folder. */
  function ReportPath(symbol: string): string {
    MarkdownFolder + "/" + ReportFileName(symbol)
  }

  /** The end of `generate_markdown_report`: a dated path is built, then
      overwritten before the file is opened, so the report is saved under
      the undated path whatever the date. */
  method SaveReportPath(symbol: string, currentDate: string) returns (markdownFilename: string)
    ensures markdownFilename == ReportPath(symbol)
    ensures markdownFilename != MarkdownFolder + "/" + currentDate + "/" + ReportFileName(symbol)
  {
    markdownFilename := MarkdownFolder + "/" + currentDate + "/" + symbol + "_analysis_report.md";
    markdownFilename := MarkdownFolder + "/" + symbol + "_analysis_report.md";
    assert markdownFilename == ReportPath(symbol);
    assert |markdownFilename| < |MarkdownFolder + "/" + currentDate + "/" + ReportFileName(symbol)|;
  }

  /** The target of a token's report link in the index. */
  function ReportLinkTarget(token: string): string {
    "./" + token + "_analysis_report.md"
  }

  function ReportLink(token: string): string {
    "[" + token + " Analysis Report](" + ReportLinkTarget(token) + ")"
  }

  const ChartsLink := "[Charts](" + GithubImagesPath + ")"

  /** A `./`-relative link target, resolved from the folder holding the
      document it appears in. */
  function Resolve(folder: string, target: string): (path: string)
    requires |target| >= 2 && target[..2] == "./"
    ensures |path| == |folder| + |target| - 1
    ensures path[..|folder| + 1] == folder + "/" && path[|folder| + 1..] == target[2..]
  {
    folder + "/" + target[2..]
  }

  /** The index is written as `README.md` in the reports folder, so its links
      resolve from that folder; every report link leads to the file the report
      is saved under. */
  lemma ReportLinkResolves(token: string)
    ensures var target := ReportLinkTarget(token);
      |target| >= 2 && target[..2] == "./" && Resolve(MarkdownFolder, target) == ReportPath(token)
  {
    var target := ReportLinkTarget(token);
    assert target == "./" + ReportFileName(token);
    assert target[2..] == ReportFileName(token);
  }

  /** One table row of the index: the token in bold, then its report link,
      then the charts link. */
  function IndexLine(token: string): (line: string)
    ensures "| **" + token + "** | " + ReportLink(token) <= line
    ensures |line| > 3 && line[|line| - 3..] == " |\n"
  {
    "| **" + token + "** | " + ReportLink(token) + " | " + ChartsLink + " |\n"
  }

  /** The parts of the index that depend on the processed tokens. */
  datatype IndexDoc = IndexDoc(tableLines: seq<string>, totalTokens: nat, reportsGenerated: nat)

  /** `generate_index_markdown`: one table row per processed token, in list
      order, and both summary counts equal to the number of tokens. */
  method GenerateIndex(processedTokens: seq<string>) returns (index: IndexDoc)
    ensures |index.tableLines| == |processedTokens|
    ensures forall i :: 0 <= i < |processedTokens| ==> index.tableLines[i] == IndexLine(processedTokens[i])
    ensures index.totalTokens == |processedTokens| && index.reportsGenerated == |processedTokens|
  {
    var lines: seq<string> := [];
    for i := 0 to |processedTokens|
      invariant |lines| == i
      invariant forall k :: 0 <= k < i ==> lines[k] == IndexLine(processedTokens[k])
    {
      var token := processedTokens[i];
      lines := lines + [IndexLine(token)];
    }
    index := IndexDoc(lines, |processedTokens|, |processedTokens|);
  }

  /** How one token's `try` block ended. */
  datatype StepOutcome = Completed | LinAlgError | FileNotFound | OtherError

  /** The symbol each pass of the driver loop appends, if any. */
  function StepResults(symbols: seq<string>, outcomes: seq<StepOutcome>): (opts: seq<Option<string>>)
    requires |outcomes| == |symbols|
    ensures |opts| == |symbols|
    ensures forall i :: 0 <= i < |symbols| ==>
      opts[i] == if outcomes[i] == Completed then Some(symbols[i]) else None
  {
    seq(|symbols|, i requires 0 <= i < |symbols| =>
      if outcomes[i] == Completed then Some(symbols[i]) else None)
  }

  /** `processed_tokens` after the driver loop. */
  function ProcessedTokens(symbols: seq<string>, outcomes: seq<StepOutcome>): seq<string>
    requires |outcomes| == |symbols|
  {
    Present(StepResults(symbols, outcomes))
  }

  /** `processed_tokens` holds exactly the symbols whose steps all completed,
      in input order: its `k`-th entry is the symbol at the `k`-th completed
      position, and every completed position is one of those. */
  lemma ProcessedTokensSpec(symbols: seq<string>, outcomes: seq<StepOutcome>)
    requires |outcomes| == |symbols|
    ensures var processed := ProcessedTokens(symbols, outcomes);
      var ks := PresentAt(StepResults(symbols, outcomes));
      && |ks| == |processed|
      && (forall k :: 0 <= k < |ks| ==>
            ks[k] < |symbols| && outcomes[ks[k]] == Completed && symbols[ks[k]] == processed[k])
      && (forall k, l :: 0 <= k < l < |ks| ==> ks[k] < ks[l])
      && (forall i :: 0 <= i < |symbols| && outcomes[i] == Completed ==> i in ks)
  {
    var opts := StepResults(symbols, outcomes);
  }

  /** The driver loop of `main`: run each token's steps, keep the token when
      none of them raised, and write the index only when some token was
      kept. */
  method ProcessTokens(symbols: seq<string>, outcomes: seq<StepOutcome>)
    returns (processedTokens: seq<string>, index: Option<IndexDoc>)
    requires |outcomes| == |symbols|
    ensures processedTokens == ProcessedTokens(symbols, outcomes)
    ensures index.Some? <==> |processedTokens| > 0
    ensures index.Some? ==>
      && |index.value.tableLines| == |processedTokens|
      && (forall i :: 0 <= i < |processedTokens| ==>
            index.value.tableLines[i] == IndexLine(processedTokens[i]))
      && index.value.totalTokens == |processedTokens|
      && index.value.reportsGenerated == |processedTokens|
  {
    processedTokens := [];
    ghost var results := StepResults(symbols, outcomes);
    for i := 0 to |symbols|
      invariant processedTokens == Present(results[..i])
    {
      assert results[..i + 1] == results[..i] + [results[i]];
      match outcomes[i]
      case Completed =>
        processedTokens := processedTokens + [symbols[i]];
      case LinAlgError =>
      case FileNotFound =>
      case OtherError =>
    }
    assert results[..|symbols|] == results;
    if |processedTokens| > 0 {
      var doc := GenerateIndex(processedTokens);
      index := Some(doc);
    } else {
      index := None;
    }
  }
}
