/** The schedule report the export dialog produces: a CSV file, a plain
    text file (chosen for the Excel option) or an HTML page sent to the
    browser's print dialog for PDF. Every generator appends fixed headings,
    optional blocks chosen by the form's flags, and one line per period and
    per shift. */
module ScheduleReport {
  import opened Wrappers
  import opened JsRuntime

  datatype ExportFormat = Pdf | Excel | Csv

  datatype ReportPeriod = Today | Week | Month

  /** The export form. */
  datatype ExportOptions = ExportOptions(
    format: ExportFormat,
    period: ReportPeriod,
    includeCharts: bool,
    includeSummary: bool,
    includeRecommendations: bool,
    includeHourlyBreakdown: bool)

  datatype ScheduleSummary = ScheduleSummary(totalScheduled: int, totalNeeded: int, coverage: int, gaps: int, surplus: int)

  datatype PeriodRow = PeriodRow(time: string, scheduled: int, needed: int, coverage: int, status: string)

  datatype ShiftRow = ShiftRow(name: string, scheduled: int, needed: int, coverage: int)

  datatype ScheduleData = ScheduleData(summary: ScheduleSummary, periods: seq<PeriodRow>, shifts: seq<ShiftRow>)

  /** The period's name in the report. */
  function PeriodLabel(period: ReportPeriod): string
  {
    match period
    case Today => "Hoje"
    case Week => "Semana"
    case Month => "Mês"
  }

  // ---------------------------------------------------------------------------
  // One line per item, appended in a loop

  /** The lines of all items, in order. */
  function Lines<T>(items: seq<T>, line: T -> string): string
  {
    if items == [] then "" else line(items[0]) + Lines(items[1..], line)
  }

  /** One more item adds its line at the end. */
  lemma {:induction false} LinesSnoc<T>(items: seq<T>, item: T, line: T -> string)
    ensures Lines(items + [item], line) == Lines(items, line) + line(item)
    decreases |items|
  {
    if items == [] {
      assert [item][1..] == [];
    } else {
      assert (items + [item])[1..] == items[1..] + [item];
      LinesSnoc(items[1..], item, line);
    }
  }

  /** The forEach loop: append each item's line to the content. */
  method AppendLines<T>(content: string, items: seq<T>, line: T -> string) returns (r: string)
    ensures r == content + Lines(items, line)
  {
    r := content;
    var i := 0;
    while i < |items|
      invariant 0 <= i <= |items|
      invariant r == content + Lines(items[..i], line)
    {
      LinesSnoc(items[..i], items[i], line);
      assert items[..i + 1] == items[..i] + [items[i]];
      r := r + line(items[i]);
      i := i + 1;
    }
    assert items[..i] == items;
  }

  // ---------------------------------------------------------------------------
  // CSV

  const CsvTitle: string := "RELATÓRIO ESCALA X NECESSIDADE\n\n"

  function CsvSummaryBlock(s: ScheduleSummary): string
  {
    "RESUMO EXECUTIVO\n" + "Métrica,Valor\n"
      + "HC Escalado," + IntToString(s.totalScheduled) + "\n"
      + "HC Necessário," + IntToString(s.totalNeeded) + "\n"
      + "Cobertura," + IntToString(s.coverage) + "%\n"
      + "Gaps," + IntToString(s.gaps) + "\n"
      + "Excesso," + IntToString(s.surplus) + "\n\n"
  }

  /** The fields of one hourly row: time, scheduled, needed, coverage with
      a percent sign, status. */
  function CsvPeriodFields(p: PeriodRow): seq<string>
  {
    [p.time, IntToString(p.scheduled), IntToString(p.needed), IntToString(p.coverage) + "%", p.status]
  }

  /** One hourly row without its line break: the fields joined by commas. */
  function CsvPeriodLine(p: PeriodRow): string
  {
    Join(CsvPeriodFields(p), ',')
  }

  function CsvPeriodRow(p: PeriodRow): string
  {
    CsvPeriodLine(p) + "\n"
  }

  const CsvHourlyHeader: string := "ANÁLISE POR HORÁRIO\n" + "Horário,Escalado,Necessário,Cobertura,Status\n"

  function CsvHourlyBlock(periods: seq<PeriodRow>): string
  {
    CsvHourlyHeader + Lines(periods, CsvPeriodRow) + "\n"
  }

  function CsvShiftRow(s: ShiftRow): string
  {
    s.name + "," + IntToString(s.scheduled) + "," + IntToString(s.needed) + "," + IntToString(s.coverage) + "%\n"
  }

  const CsvShiftHeader: string := "ANÁLISE POR TURNO\n" + "Turno,Escalado,Necessário,Cobertura\n"

  function CsvShiftBlock(shifts: seq<ShiftRow>): string
  {
    CsvShiftHeader + Lines(shifts, CsvShiftRow)
  }

  /** The CSV file: title, optional summary, optional hourly block, shifts. */
  function CsvReport(data: ScheduleData, options: ExportOptions): string
  {
    CsvTitle
      + (if options.includeSummary then CsvSummaryBlock(data.summary) else "")
      + (if options.includeHourlyBreakdown then CsvHourlyBlock(data.periods) else "")
      + CsvShiftBlock(data.shifts)
  }

  // ---------------------------------------------------------------------------
  // Plain text

  function TextHeader(period: ReportPeriod, date: string): string
  {
    "RELATÓRIO ESCALA X NECESSIDADE\n" + "Período: " + PeriodLabel(period) + "\n" + "Data: " + date + "\n\n"
  }

  function TextSummaryBlock(s: ScheduleSummary): string
  {
    "RESUMO EXECUTIVO\n" + "================\n"
      + "HC Escalado: " + IntToString(s.totalScheduled) + "\n"
      + "HC Necessário: " + IntToString(s.totalNeeded) + "\n"
      + "Cobertura: " + IntToString(s.coverage) + "%\n"
      + "Gaps: " + IntToString(s.gaps) + "\n"
      + "Excesso: " + IntToString(s.surplus) + "\n\n"
  }

  function TextPeriodRow(p: PeriodRow): string
  {
    p.time + ": " + IntToString(p.scheduled) + " escalado / " + IntToString(p.needed) + " necessário ("
      + IntToString(p.coverage) + "% cobertura) - " + p.status + "\n"
  }

  const TextHourlyHeader: string := "ANÁLISE POR HORÁRIO\n" + "==================\n"

  function TextShiftRow(s: ShiftRow): string
  {
    s.name + ": " + IntToString(s.scheduled) + " escalado / " + IntToString(s.needed) + " necessário ("
      + IntToString(s.coverage) + "% cobertura)\n"
  }

  const TextShiftHeader: string := "ANÁLISE POR TURNO\n" + "=================\n"

  const TextRecommendations: string :=
    "\nRECOMENDAÇÕES\n" + "=============\n"
      + "• Períodos de 07:00-09:00 apresentam déficit de HC\n"
      + "• Considere redistribuir escalas ou contratar temporários\n"
      + "• Excesso no período da manhã pode ser redistribuído\n"
      + "• Turnos da tarde e noite apresentam cobertura adequada\n"

  /** The text file: header, optional summary, optional hourly block,
      shifts, optional recommendations. */
  function TextReport(data: ScheduleData, options: ExportOptions, date: string): string
  {
    TextHeader(options.period, date)
      + (if options.includeSummary then TextSummaryBlock(data.summary) else "")
      + (if options.includeHourlyBreakdown then TextHourlyHeader + Lines(data.periods, TextPeriodRow) + "\n" else "")
      + TextShiftHeader + Lines(data.shifts, TextShiftRow)
      + (if options.includeRecommendations then TextRecommendations else "")
  }

  /** generateExportContent as a value: CSV for the csv format, text otherwise. */
  function ExportContent(data: ScheduleData, options: ExportOptions, date: string): string
  {
    if options.format == Csv then CsvReport(data, options) else TextReport(data, options, date)
  }

  /** generateExportContent: the content grows by appends, one per block
      of lines and one per row. */
  method GenerateExportContent(data: ScheduleData, options: ExportOptions, date: string) returns (content: string)
    ensures content == ExportContent(data, options, date)
  {
    if options.format == Csv {
      content := CsvTitle;
      if options.includeSummary {
        content := content + CsvSummaryBlock(data.summary);
      } else {
        AppendNothing(CsvTitle);
      }
      ghost var upToSummary := content;
      if options.includeHourlyBreakdown {
        content := content + CsvHourlyHeader;
        content := AppendLines(content, data.periods, CsvPeriodRow);
        content := content + "\n";
        AppendAssoc(upToSummary, CsvHourlyHeader, Lines(data.periods, CsvPeriodRow));
        AppendAssoc(upToSummary, CsvHourlyHeader + Lines(data.periods, CsvPeriodRow), "\n");
      } else {
        AppendNothing(upToSummary);
      }
      ghost var upToHourly := content;
      content := content + CsvShiftHeader;
      content := AppendLines(content, data.shifts, CsvShiftRow);
      AppendAssoc(upToHourly, CsvShiftHeader, Lines(data.shifts, CsvShiftRow));
    } else {
      content := TextHeader(options.period, date);
      ghost var header := content;
      if options.includeSummary {
        content := content + TextSummaryBlock(data.summary);
      } else {
        AppendNothing(header);
      }
      ghost var upToSummary := content;
      if options.includeHourlyBreakdown {
        content := content + TextHourlyHeader;
        content := AppendLines(content, data.periods, TextPeriodRow);
        content := content + "\n";
        AppendAssoc(upToSummary, TextHourlyHeader, Lines(data.periods, TextPeriodRow));
        AppendAssoc(upToSummary, TextHourlyHeader + Lines(data.periods, TextPeriodRow), "\n");
      } else {
        AppendNothing(upToSummary);
      }
      content := content + TextShiftHeader;
      content := AppendLines(content, data.shifts, TextShiftRow);
      ghost var upToShifts := content;
      if options.includeRecommendations {
        content := content + TextRecommendations;
      } else {
        AppendNothing(upToShifts);
      }
    }
  }

  // ---------------------------------------------------------------------------
  // HTML for printing to PDF

  /** A template literal: the fixed parts with the values between them,
      parts[0] + values[0] + parts[1] + ... + parts[|values|]. */
  function Fill(parts: seq<string>, values: seq<string>): (r: string)
    requires |parts| == |values| + 1
    ensures parts[0] <= r
    ensures |r| >= |parts[0]|
    decreases |values|
  {
    if values == [] then parts[0] else parts[0] + values[0] + Fill(parts[1..], values[1..])
  }

  /** The fixed text of the printed page: one template literal per part,
      split at its placeholders. */
  datatype PageText = PageText(
    head: seq<string>,            // period label, date
    summary: seq<string>,         // scheduled, needed, coverage, gaps, surplus
    hourlyOpen: string,
    periodRow: seq<string>,       // time, scheduled, needed, coverage, status
    tableClose: string,
    shiftOpen: string,
    shiftRow: seq<string>,        // name, scheduled, needed, coverage
    recommendations: string,
    close: string)

  /** Each template has one more part than it has placeholders. */
  predicate WellFormed(t: PageText)
  {
    |t.head| == 3 && |t.summary| == 6 && |t.periodRow| == 6 && |t.shiftRow| == 5
  }

  /** The text generatePDF writes. */
  const Page: PageText := PageText(
    ["\n      <html>\n        <head>\n          <meta charset=\"utf-8\">\n          <title>Relatório Escala x Necessidade</title>\n          <style>\n            body { font-family: Arial, sans-serif; margin: 20px; }\n            h1 { color: #333; border-bottom: 2px solid #007bff; padding-bottom: 10px; }\n            h2 { color: #555; margin-top: 30px; }\n            table { width: 100%; border-collapse: collapse; margin: 15px 0; }\n            th, td { border: 1px solid #ddd; padding: 8px; text-align: left; }\n            th { background-color: #f8f9fa; font-weight: bold; }\n            .summary { background-color: #f8f9fa; padding: 15px; border-radius: 5px; margin: 15px 0; }\n            .metric { display: inline-block; margin: 10px 15px 10px 0; }\n            .recommendations { background-color: #fff3cd; padding: 15px; border-radius: 5px; margin: 15px 0; }\n            ul { margin: 10px 0; padding-left: 20px; }\n          </style>\n        </head>\n        <body>\n          <h1>Relatório Escala x Necessidade</h1>\n          <p><strong>Período:</strong> ",
     "</p>\n          <p><strong>Data:</strong> ",
     "</p>\n    "],
    ["\n        <h2>Resumo Executivo</h2>\n        <div class=\"summary\">\n          <div class=\"metric\"><strong>HC Escalado:</strong> ",
     "</div>\n          <div class=\"metric\"><strong>HC Necessário:</strong> ",
     "</div>\n          <div class=\"metric\"><strong>Cobertura:</strong> ",
     "%</div>\n          <div class=\"metric\"><strong>Gaps:</strong> ",
     "</div>\n          <div class=\"metric\"><strong>Excesso:</strong> ",
     "</div>\n        </div>\n      "],
    "\n        <h2>Análise por Horário</h2>\n        <table>\n          <thead>\n            <tr>\n              <th>Horário</th>\n              <th>Escalado</th>\n              <th>Necessário</th>\n              <th>Cobertura</th>\n              <th>Status</th>\n            </tr>\n          </thead>\n          <tbody>\n      ",
    ["\n          <tr>\n            <td>",
     "</td>\n            <td>",
     "</td>\n            <td>",
     "</td>\n            <td>",
     "%</td>\n            <td>",
     "</td>\n          </tr>\n        "],
    "</tbody></table>",
    "\n      <h2>Análise por Turno</h2>\n      <table>\n        <thead>\n          <tr>\n            <th>Turno</th>\n            <th>Escalado</th>\n            <th>Necessário</th>\n            <th>Cobertura</th>\n          </tr>\n        </thead>\n        <tbody>\n    ",
    ["\n        <tr>\n          <td>",
     "</td>\n          <td>",
     "</td>\n          <td>",
     "</td>\n          <td>",
     "%</td>\n        </tr>\n      "],
    "\n        <h2>Recomendações</h2>\n        <div class=\"recommendations\">\n          <ul>\n            <li>Períodos de 07:00-09:00 apresentam déficit de HC</li>\n            <li>Considere redistribuir escalas ou contratar temporários</li>\n            <li>Excesso no período da manhã pode ser redistribuído</li>\n            <li>Turnos da tarde e noite apresentam cobertura adequada</li>\n          </ul>\n        </div>\n      ",
    "</body></html>")

  lemma {:induction false} PageWellFormed()
    ensures WellFormed(Page)
  {
  }

  /** The status cell: "gap" reads Gap, anything else Excesso. */
  function StatusLabel(status: string): (shown: string)
    ensures status == "gap" ==> shown == "Gap"
    ensures status != "gap" ==> shown == "Excesso"
  {
    if status == "gap" then "Gap" else "Excesso"
  }

  function HtmlHead(t: PageText, period: ReportPeriod, date: string): string
    requires WellFormed(t)
  {
    Fill(t.head, [PeriodLabel(period), date])
  }

  function HtmlSummary(t: PageText, s: ScheduleSummary): string
    requires WellFormed(t)
  {
    Fill(t.summary, [IntToString(s.totalScheduled), IntToString(s.totalNeeded), IntToString(s.coverage),
                     IntToString(s.gaps), IntToString(s.surplus)])
  }

  function HtmlPeriodRow(t: PageText): PeriodRow -> string
    requires WellFormed(t)
  {
    (p: PeriodRow) => Fill(t.periodRow, [p.time, IntToString(p.scheduled), IntToString(p.needed), IntToString(p.coverage),
                            StatusLabel(p.status)])
  }

  function HtmlShiftRow(t: PageText): ShiftRow -> string
    requires WellFormed(t)
  {
    (s: ShiftRow) => Fill(t.shiftRow, [s.name, IntToString(s.scheduled), IntToString(s.needed), IntToString(s.coverage)])
  }

  /** The HTML page: head, optional summary, optional hourly table, shift
      table, optional recommendations, closing tags. */
  function HtmlReport(t: PageText, data: ScheduleData, options: ExportOptions, date: string): string
    requires WellFormed(t)
  {
    HtmlHead(t, options.period, date)
      + (if options.includeSummary then HtmlSummary(t, data.summary) else "")
      + (if options.includeHourlyBreakdown then t.hourlyOpen + Lines(data.periods, HtmlPeriodRow(t)) + t.tableClose else "")
      + t.shiftOpen + Lines(data.shifts, HtmlShiftRow(t)) + t.tableClose
      + (if options.includeRecommendations then t.recommendations else "")
      + t.close
  }

  /** The page grows by appends, one per row, from any well-formed text. */
  method RenderPage(t: PageText, data: ScheduleData, options: ExportOptions, date: string) returns (html: string)
    requires WellFormed(t)
    ensures html == HtmlReport(t, data, options, date)
  {
    html := HtmlHead(t, options.period, date);
    ghost var head := html;
    if options.includeSummary {
      html := html + HtmlSummary(t, data.summary);
    } else {
      AppendNothing(head);
    }
    ghost var upToSummary := html;
    if options.includeHourlyBreakdown {
      html := html + t.hourlyOpen;
      html := AppendLines(html, data.periods, HtmlPeriodRow(t));
      html := html + t.tableClose;
      AppendAssoc(upToSummary, t.hourlyOpen, Lines(data.periods, HtmlPeriodRow(t)));
      AppendAssoc(upToSummary, t.hourlyOpen + Lines(data.periods, HtmlPeriodRow(t)), t.tableClose);
    } else {
      AppendNothing(upToSummary);
    }
    html := html + t.shiftOpen;
    html := AppendLines(html, data.shifts, HtmlShiftRow(t));
    html := html + t.tableClose;
    ghost var upToShifts := html;
    if options.includeRecommendations {
      html := html + t.recommendations;
    } else {
      AppendNothing(upToShifts);
    }
    html := html + t.close;
  }

  /** generatePDF */
  method GeneratePdf(data: ScheduleData, options: ExportOptions, date: string) returns (html: string)
    ensures WellFormed(Page)
    ensures html == HtmlReport(Page, data, options, date)
  {
    PageWellFormed();
    html := RenderPage(Page, data, options, date);
  }

  /** onSubmit's choice: the HTML page for PDF, generateExportContent otherwise. */
  function ExportedDocument(data: ScheduleData, options: ExportOptions, date: string): (document: string)
    ensures WellFormed(Page)
    ensures options.format == Pdf ==> document == HtmlReport(Page, data, options, date)
    ensures options.format == Csv ==> document == CsvReport(data, options)
    ensures options.format == Excel ==> document == TextReport(data, options, date)
  {
    PageWellFormed();
    if options.format == Pdf then HtmlReport(Page, data, options, date) else ExportContent(data, options, date)
  }

  // ---------------------------------------------------------------------------
  // What the serialisers promise

  /** The CSV file starts with the title and ends with the shift block;
      switching the summary on inserts exactly the summary block after the
      title, and switching the hourly breakdown on inserts exactly the
      hourly block before the shift block. */
  lemma {:induction false} CsvOptionalBlocks(data: ScheduleData, options: ExportOptions)
    ensures var csv := CsvReport(data, options);
            && |CsvTitle| <= |csv| && csv[..|CsvTitle|] == CsvTitle
    ensures var without := CsvReport(data, options.(includeSummary := false));
            && |CsvTitle| <= |without|
            && CsvReport(data, options.(includeSummary := true))
               == CsvTitle + CsvSummaryBlock(data.summary) + without[|CsvTitle|..]
    ensures var without := CsvReport(data, options.(includeHourlyBreakdown := false));
            var shifts := CsvShiftBlock(data.shifts);
            && |shifts| <= |without| && without[|without| - |shifts|..] == shifts
            && CsvReport(data, options.(includeHourlyBreakdown := true))
               == without[..|without| - |shifts|] + CsvHourlyBlock(data.periods) + shifts
  {
    var summary := if options.includeSummary then CsvSummaryBlock(data.summary) else "";
    var hourly := if options.includeHourlyBreakdown then CsvHourlyBlock(data.periods) else "";
    var shifts := CsvShiftBlock(data.shifts);
    AppendAssoc(CsvTitle, summary, hourly);
    AppendAssoc(CsvTitle, summary + hourly, shifts);
    SplitAppend(CsvTitle, summary + hourly + shifts);
    AppendNothing(CsvTitle);
    AppendAssoc(CsvTitle, hourly, shifts);
    AppendAssoc(CsvTitle + CsvSummaryBlock(data.summary), hourly, shifts);
    SplitAppend(CsvTitle, hourly + shifts);
    AppendNothing(CsvTitle + summary);
    SplitAppend(CsvTitle + summary, shifts);
  }

  /** The CSV file never carries the recommendations, and no generator
      reads includeCharts. */
  lemma {:induction false} FlagsNotRead(t: PageText, data: ScheduleData, options: ExportOptions, date: string, flag: bool)
    requires WellFormed(t)
    ensures CsvReport(data, options.(includeRecommendations := flag)) == CsvReport(data, options)
    ensures ExportContent(data, options.(includeCharts := flag), date) == ExportContent(data, options, date)
    ensures HtmlReport(t, data, options.(includeCharts := flag), date) == HtmlReport(t, data, options, date)
  {
  }

  /** The text file ends with the recommendations exactly when asked; the
      page carries them just before its closing tags. */
  lemma {:induction false} RecommendationsAppended(t: PageText, data: ScheduleData, options: ExportOptions, date: string)
    requires WellFormed(t)
    ensures TextReport(data, options.(includeRecommendations := true), date)
         == TextReport(data, options.(includeRecommendations := false), date) + TextRecommendations
    ensures var without := HtmlReport(t, data, options.(includeRecommendations := false), date);
            && |t.close| <= |without|
            && HtmlReport(t, data, options.(includeRecommendations := true), date)
               == without[..|without| - |t.close|] + t.recommendations + t.close
  {
    var text := TextReport(data, options.(includeRecommendations := false), date);
    var before := TextHeader(options.period, date)
      + (if options.includeSummary then TextSummaryBlock(data.summary) else "")
      + (if options.includeHourlyBreakdown then TextHourlyHeader + Lines(data.periods, TextPeriodRow) + "\n" else "")
      + TextShiftHeader + Lines(data.shifts, TextShiftRow);
    AppendNothing(before);
    var page := HtmlHead(t, options.period, date)
      + (if options.includeSummary then HtmlSummary(t, data.summary) else "")
      + (if options.includeHourlyBreakdown then t.hourlyOpen + Lines(data.periods, HtmlPeriodRow(t)) + t.tableClose else "")
      + t.shiftOpen + Lines(data.shifts, HtmlShiftRow(t)) + t.tableClose;
    AppendNothing(page);
    SplitAppend(page, t.close);
  }

  // ---------------------------------------------------------------------------
  // Reading the hourly CSV rows back

  /** A period whose text fields hold no comma and no line break. */
  predicate PlainPeriod(p: PeriodRow)
  {
    ',' !in p.time && '\n' !in p.time && ',' !in p.status && '\n' !in p.status
  }

  /** Reads one hourly CSV row: five comma-separated fields, the fourth
      ending in '%', the numeric ones decimal integers. */
  function ParseCsvPeriodLine(line: string): Option<PeriodRow>
  {
    var fields := Split(line, ',');
    if |fields| == 5 && |fields[3]| >= 1 && fields[3][|fields[3]| - 1] == '%' then
      match (ParseInteger(fields[1]), ParseInteger(fields[2]), ParseInteger(fields[3][..|fields[3]| - 1]))
      case (Some(scheduled), Some(needed), Some(coverage)) =>
        Some(PeriodRow(fields[0], scheduled, needed, coverage, fields[4]))
      case _ => None
    else None
  }

  lemma {:induction false} NoSeparatorInNumber(i: int, sep: char)
    requires sep == ',' || sep == '\n' || sep == '%'
    ensures sep !in IntToString(i)
  {
    IntToStringCharacters(i);
  }

  /** No field of a plain period's row holds a comma or a line break. */
  lemma {:induction false} CsvFieldsPlain(p: PeriodRow, sep: char)
    requires PlainPeriod(p)
    requires sep == ',' || sep == '\n'
    ensures forall k :: 0 <= k < |CsvPeriodFields(p)| ==> sep !in CsvPeriodFields(p)[k]
  {
    NoSeparatorInNumber(p.scheduled, sep);
    NoSeparatorInNumber(p.needed, sep);
    NoSeparatorInNumber(p.coverage, sep);
  }

  /** Each hourly row reads back as the period it was written from. */
  lemma {:induction false} CsvPeriodLineRoundTrip(p: PeriodRow)
    requires PlainPeriod(p)
    ensures ParseCsvPeriodLine(CsvPeriodLine(p)) == Some(p)
  {
    CsvFieldsPlain(p, ',');
    SplitJoin(CsvPeriodFields(p), ',');
    var coverage := IntToString(p.coverage) + "%";
    assert coverage[..|coverage| - 1] == IntToString(p.coverage);
    IntToStringRoundTrip(p.scheduled);
    IntToStringRoundTrip(p.needed);
    IntToStringRoundTrip(p.coverage);
  }

  /** A line built from joined fields holds no line break. */
  lemma {:induction false} JoinWithout(fields: seq<string>, sep: char, c: char)
    requires c != sep
    requires forall k :: 0 <= k < |fields| ==> c !in fields[k]
    ensures c !in Join(fields, sep)
    decreases |fields|
  {
    if |fields| > 1 {
      JoinWithout(fields[1..], sep, c);
    }
  }

  /** The hourly rows' lines, one per period, in order. */
  function CsvPeriodLines(periods: seq<PeriodRow>): (lines: seq<string>)
    ensures |lines| == |periods|
    ensures forall k :: 0 <= k < |periods| ==> lines[k] == CsvPeriodLine(periods[k])
  {
    if periods == [] then [] else [CsvPeriodLine(periods[0])] + CsvPeriodLines(periods[1..])
  }

  /** The hourly rows split on line breaks give one line per period, in
      order, and then the empty piece after the last break. */
  lemma {:induction false} CsvPeriodRowsSplit(periods: seq<PeriodRow>)
    requires forall k :: 0 <= k < |periods| ==> PlainPeriod(periods[k])
    ensures Split(Lines(periods, CsvPeriodRow), '\n') == CsvPeriodLines(periods) + [""]
    decreases |periods|
  {
    if periods != [] {
      var p := periods[0];
      CsvFieldsPlain(p, '\n');
      JoinWithout(CsvPeriodFields(p), ',', '\n');
      CsvPeriodRowsSplit(periods[1..]);
      SplitAtSeparator(CsvPeriodLine(p), '\n', Lines(periods[1..], CsvPeriodRow));
    }
  }

  /** The hourly CSV rows hold exactly one row per period, in input order,
      and each reads back as its period. */
  lemma {:induction false} CsvHourlyRowsReadBack(periods: seq<PeriodRow>)
    requires forall k :: 0 <= k < |periods| ==> PlainPeriod(periods[k])
    ensures var rows := Split(Lines(periods, CsvPeriodRow), '\n');
            && |rows| == |periods| + 1 && rows[|periods|] == ""
            && forall k :: 0 <= k < |periods| ==> ParseCsvPeriodLine(rows[k]) == Some(periods[k])
  {
    CsvPeriodRowsSplit(periods);
    forall k | 0 <= k < |periods|
      ensures ParseCsvPeriodLine(CsvPeriodLine(periods[k])) == Some(periods[k])
    {
      CsvPeriodLineRoundTrip(periods[k]);
    }
  }
}
