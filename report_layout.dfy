/**
 * What a report PDF shows, as a sequence of layout items instead of bytes: the
 * title block, the metadata lines, the sections of the report type and the
 * attachments note. Fonts, sizes, spacing and page geometry are not modelled.
 */
module ReportLayout {
  import opened Wrappers
  import opened Json

  /** The placeholder printed for missing values. */
  const Placeholder := "–"

  /**
   * The layout items, each with the argument of the helper that writes it: the
   * centred title, the centred type label under it, the horizontal rule, a section
   * heading `H2(t)`, a paragraph `P(t)` and a key/value line `KV(k, v)`. `Printed`
   * gives the text each one puts on the page.
   */
  datatype Item = H1(text: string) | Caption(text: string) | Rule | H2(title: string)
                | Para(arg: Value) | KV(key: string, value: Value)
  {
    function Printed(): string
    {
      match this
      case H1(t) => t
      case Caption(t) => t
      case Rule => ""
      case H2(t) => UpperCase(t)
      case Para(t) => ParaText(t)
      case KV(k, v) => k + ": " + KvText(v)
    }
  }

  /** A rendered report: the document title of its metadata and its items. */
  datatype Document = Document(title: string, items: seq<Item>)

  /** Why rendering throws: a null or undefined timeline entry, or table row. */
  datatype LayoutError = NullTimelineEntry | NullTableRow

  /**
   * `toUpperCase` of one character, for the letters that occur in headings: the
   * ASCII letters, the umlauts, and the sharp s, which becomes "SS".
   */
  function UpperChar(c: char): (r: string)
    ensures |r| >= 1 && forall i :: 0 <= i < |r| ==> !('a' <= r[i] <= 'z')
  {
    if 'a' <= c <= 'z' then [(c as int - 32) as char]
    else if c == 'ä' then "Ä"
    else if c == 'ö' then "Ö"
    else if c == 'ü' then "Ü"
    else if c == 'ß' then "SS"
    else [c]
  }

  /** `String(t).toUpperCase()` on text whose letters `UpperChar` covers. */
  function UpperCase(s: string): (r: string)
    ensures |r| >= |s|
    ensures forall i :: 0 <= i < |r| ==> !('a' <= r[i] <= 'z')
  {
    if |s| == 0 then "" else UpperChar(s[0]) + UpperCase(s[1..])
  }

  /** `label(t)`: the three report types get their display label; anything else is shown as is. */
  function Label(t: string): string
  {
    if t == "EARLY_WARNING" then "Early Warning (24h)"
    else if t == "INCIDENT_NOTIFICATION" then "Incident Notification (72h)"
    else if t == "FINAL_REPORT" then "Final Report (≤ 1 Monat)"
    else t
  }

  /** `arr(a)`: an array joined with ", ", anything else unchanged. */
  function JoinList(a: Value): Value
  {
    if a.Arr? then Str(ArrayJoin(a.items, ", ")) else a
  }

  /** The text `P(t)` prints: `(t && String(t)) || "–"`. */
  function ParaText(t: Value): string
  {
    if Truthy(t) && ToJsString(t) != "" then ToJsString(t) else Placeholder
  }

  /** The value `KV(k, v)` prints: `v ?? "–"`, as text. */
  function KvText(v: Value): string
  {
    ToJsString(Coalesce(v, Str(Placeholder)))
  }

  /** `section(title, text)`: a heading and one paragraph. */
  function Section(title: string, text: Value): seq<Item>
  {
    [H2(title), Para(text)]
  }

  /** One line of an array timeline: "• e" for a string, "• <time> <event>" otherwise. */
  function TimelineLine(e: Value): Option<string>
  {
    if e.Str? then Some("• " + e.s)
    else if Nullish(e) then None
    else Some("• " + ToJsString(Coalesce(Get(e, "time"), Str(""))) + " "
              + ToJsString(Coalesce(Get(e, "event"), Str(""))))
  }

  /** `tl.map(...)`: the lines of an array timeline; a null entry throws. */
  function TimelineLines(es: seq<Value>): (r: Result<seq<string>, LayoutError>)
    ensures r.Success? <==> forall i :: 0 <= i < |es| ==> !Nullish(es[i])
    ensures r.Failure? ==> r.error == NullTimelineEntry
    ensures r.Success? ==>
      (|r.value| == |es| && forall i :: 0 <= i < |es| ==> Some(r.value[i]) == TimelineLine(es[i]))
  {
    if |es| == 0 then Success([])
    else match TimelineLine(es[0])
      case None => Failure(NullTimelineEntry)
      case Some(line) =>
        match TimelineLines(es[1..])
        case Failure(e) => Failure(e)
        case Success(rest) => Success([line] + rest)
  }

  /** "• k: v" for each entry of an object timeline. */
  function EntryLines(fs: seq<Field>): (r: seq<string>)
    ensures |r| == |fs|
    ensures forall i :: 0 <= i < |fs| ==> r[i] == "• " + fs[i].key + ": " + ToJsString(fs[i].val)
  {
    if |fs| == 0 then [] else ["• " + fs[0].key + ": " + ToJsString(fs[0].val)] + EntryLines(fs[1..])
  }

  /** `renderTimeline(tl)` */
  function RenderTimeline(tl: Value): Result<string, LayoutError>
  {
    if !Truthy(tl) then Success(Placeholder)
    else if tl.Str? then Success(tl.s)
    else if tl.Arr? then
      match TimelineLines(tl.items)
      case Failure(e) => Failure(e)
      case Success(lines) => Success(JoinStrings(lines, "\n"))
    else
      match Entries(tl)
      case None => Failure(NullTimelineEntry)
      case Some(fs) => Success(JoinStrings(EntryLines(fs), "\n"))
  }

  /** `section(title, renderTimeline(tl))`: the timeline is rendered before the heading is written. */
  function TimelineSection(title: string, tl: Value): Result<seq<Item>, LayoutError>
  {
    match RenderTimeline(tl)
    case Failure(e) => Failure(e)
    case Success(text) => Success(Section(title, Str(text)))
  }

  /** One `KV("• k", String(v ?? "–"))` per entry of an object row. */
  function EntryItems(fs: seq<Field>): (r: seq<Item>)
    ensures |r| == |fs|
    ensures forall i :: 0 <= i < |fs| ==> r[i] == KV("• " + fs[i].key, Str(KvText(fs[i].val)))
  {
    if |fs| == 0 then [] else [KV("• " + fs[0].key, Str(KvText(fs[0].val)))] + EntryItems(fs[1..])
  }

  /** The items of one table row: "• row" for a string, one line per entry otherwise. */
  function RowItems(row: Value): Result<seq<Item>, LayoutError>
  {
    if row.Str? then Success([Para(Str("• " + row.s))])
    else match Entries(row)
      case None => Failure(NullTableRow)
      case Some(fs) => Success(EntryItems(fs))
  }

  /** The items of the rows, in order; the first null row throws. */
  function RowsItems(rows: seq<Value>): Result<seq<Item>, LayoutError>
  {
    if |rows| == 0 then Success([])
    else match RowsItems(rows[..|rows| - 1])
      case Failure(e) => Failure(e)
      case Success(front) =>
        match RowItems(rows[|rows| - 1])
        case Failure(e) => Failure(e)
        case Success(last) => Success(front + last)
  }

  /** `!data || (Array.isArray(data) && data.length === 0)`: when `table` writes nothing. */
  predicate TableSkipped(data: Value)
  {
    !Truthy(data) || (data.Arr? && |data.items| == 0)
  }

  /** The rows `table` walks: an array's elements, or the value itself. */
  function TableRows(data: Value): seq<Value>
  {
    if data.Arr? then data.items else [data]
  }

  /** `table(title, data)` */
  function Table(title: string, data: Value): Result<seq<Item>, LayoutError>
  {
    if TableSkipped(data) then Success([])
    else if data.Str? then Success([H2(title), Para(data)])
    else
      match RowsItems(TableRows(data))
      case Failure(e) => Failure(e)
      case Success(rows) => Success([H2(title)] + rows)
  }

  const MainTitle := "Incident Report – NIS2"
  const AttachmentsTitle := "Anhänge (optional)"
  const AttachmentsText := "Log-Auszüge, Forensik-Kurzberichte, Hash-Listen, Screenshots."
  const IocTitle := "Indicators of Compromise (IoCs)"

  /** `draft?.meta` */
  function Meta(draft: Value): Value { Get(draft, "meta") }

  /** The document title: "NIS2 <label> – <company>". */
  function DocTitle(draft: Value, reportType: string): string
  {
    "NIS2 " + Label(reportType) + " – " + ToJsString(Coalesce(Get(Meta(draft), "company"), Str("")))
  }

  /** The title, the type label and the rule. */
  function Header(reportType: string): seq<Item>
  {
    [H1(MainTitle), Caption(Label(reportType)), Rule]
  }

  /** The metadata heading and the eight lines every report shows. */
  function FixedMetadata(m: Value, reportType: string): seq<Item>
  {
    [H2("Metadaten"),
     KV("Unternehmen", Get(m, "company")),
     KV("BSI-ID", Get(m, "bsiId")),
     KV("Sektor/Kategorie", Coalesce(Get(m, "sector"), Get(m, "category"))),
     KV("Essential/Important", Get(m, "classification")),
     KV("24/7-Kontakt", Get(m, "contact")),
     KV("Awareness (ISO-8601)", Get(m, "awareness")),
     KV("Betroffene Mitgliedstaaten", Or(JoinList(Get(m, "memberStates")), Get(m, "memberStates"))),
     KV("Meldetyp", Str(Label(reportType)))]
  }

  /** The reference to a previous report, only when it is truthy. */
  function PreviousRef(m: Value): seq<Item>
  {
    if Truthy(Get(m, "previousRef")) then [KV("Ref. Vor-Meldung", Get(m, "previousRef"))] else []
  }

  /** The metadata block of a draft. */
  function Metadata(draft: Value, reportType: string): seq<Item>
  {
    FixedMetadata(Meta(draft), reportType) + PreviousRef(Meta(draft))
  }

  function EarlyWarningBody(d: Value): seq<Item>
  {
    Section("Kurzbeschreibung", Get(d, "summary"))
    + Section("Vermutete Ursache", Get(d, "likelyCause"))
    + Section("Grenzüberschreitende Auswirkungen", Get(d, "crossBorder"))
    + Section("Unterstützungsbedarf", Get(d, "support"))
  }

  function IncidentNotificationBody(d: Value): Result<seq<Item>, LayoutError>
  {
    match Table(IocTitle, Coalesce(Get(d, "iocs"), Get(d, "indicatorsOfCompromise")))
    case Failure(e) => Failure(e)
    case Success(table) =>
      match TimelineSection("Timeline (erste Punkte)", Get(d, "timeline"))
      case Failure(e) => Failure(e)
      case Success(timeline) =>
        Success(Section("Schweregrad & Auswirkungen", Coalesce(Get(d, "impact"), Get(d, "initialImpact")))
          + table
          + Section("Sofortmaßnahmen", Coalesce(Get(d, "actions"), Get(d, "mitigationSteps")))
          + Section("Abhängigkeiten / Lieferkette", Get(d, "dependencies"))
          + timeline)
  }

  function FinalReportBody(d: Value): Result<seq<Item>, LayoutError>
  {
    match Table(IocTitle, Get(d, "iocs"))
    case Failure(e) => Failure(e)
    case Success(table) =>
      match TimelineSection("Vollständige Timeline (UTC)", Coalesce(Get(d, "timeline"), Get(d, "fullTimeline")))
      case Failure(e) => Failure(e)
      case Success(timeline) =>
        Success(Section("Root Cause", Get(d, "rootCause"))
          + Section("Dauerhafte Maßnahmen", Coalesce(Get(d, "mitigation"), Get(d, "preventiveMeasures")))
          + table
          + timeline
          + Section("Lessons Learned", Coalesce(Get(d, "lessons"), Get(d, "lessonsLearned")))
          + Section("Finaler Impact", Coalesce(Get(d, "finalImpact"), Get(d, "detailedImpact"))))
  }

  /** The content of the report type; any other type has none. */
  function Body(draft: Value, reportType: string): Result<seq<Item>, LayoutError>
  {
    if reportType == "EARLY_WARNING" then Success(EarlyWarningBody(draft))
    else if reportType == "INCIDENT_NOTIFICATION" then IncidentNotificationBody(draft)
    else if reportType == "FINAL_REPORT" then FinalReportBody(draft)
    else Success([])
  }

  const Footer := [H2(AttachmentsTitle), Para(Str(AttachmentsText))]

  /** `renderIncidentPdfBuffer(draft, type)` as a document of layout items. */
  function Layout(draft: Value, reportType: string): Result<Document, LayoutError>
  {
    match Body(draft, reportType)
    case Failure(e) => Failure(e)
    case Success(body) =>
      Success(Document(DocTitle(draft, reportType),
                       Header(reportType) + Metadata(draft, reportType) + body + Footer))
  }

  /** The section headings among some items, in order. */
  function Headings(items: seq<Item>): seq<string>
  {
    if |items| == 0 then []
    else (if items[0].H2? then [items[0].title] else []) + Headings(items[1..])
  }

  /** The data the IoC table of a report type shows. */
  function IocData(d: Value, reportType: string): Value
  {
    if reportType == "INCIDENT_NOTIFICATION" then Coalesce(Get(d, "iocs"), Get(d, "indicatorsOfCompromise"))
    else Get(d, "iocs")
  }

  const EarlyWarningHeadingList :=
    ["Kurzbeschreibung", "Vermutete Ursache", "Grenzüberschreitende Auswirkungen", "Unterstützungsbedarf"]

  function IncidentNotificationHeadingList(iocs: seq<string>): seq<string>
  {
    ["Schweregrad & Auswirkungen"] + iocs + ["Sofortmaßnahmen", "Abhängigkeiten / Lieferkette", "Timeline (erste Punkte)"]
  }

  function FinalReportHeadingList(iocs: seq<string>): seq<string>
  {
    ["Root Cause", "Dauerhafte Maßnahmen"] + iocs + ["Vollständige Timeline (UTC)", "Lessons Learned", "Finaler Impact"]
  }

  /** The section headings each report type shows, in order, with or without the IoC table. */
  function BodyHeadings(reportType: string, tableShown: bool): seq<string>
  {
    var iocs := if tableShown then [IocTitle] else [];
    if reportType == "EARLY_WARNING" then EarlyWarningHeadingList
    else if reportType == "INCIDENT_NOTIFICATION" then IncidentNotificationHeadingList(iocs)
    else if reportType == "FINAL_REPORT" then FinalReportHeadingList(iocs)
    else []
  }

  /** `label` gives the three report types their labels and returns anything else unchanged. */
  lemma LabelMapping(t: string)
    ensures t == "EARLY_WARNING" ==> Label(t) == "Early Warning (24h)"
    ensures t == "INCIDENT_NOTIFICATION" ==> Label(t) == "Incident Notification (72h)"
    ensures t == "FINAL_REPORT" ==> Label(t) == "Final Report (≤ 1 Monat)"
    ensures t != "EARLY_WARNING" && t != "INCIDENT_NOTIFICATION" && t != "FINAL_REPORT" ==> Label(t) == t
  {
  }

  /** `arr` joins an array with ", " and leaves anything else alone. */
  lemma JoinListShape(a: Value)
    ensures a.Arr? ==> JoinList(a) == Str(ArrayJoin(a.items, ", "))
    ensures !a.Arr? ==> JoinList(a) == a
  {
  }

  /**
   * `P` prints the placeholder for falsy text (and for a truthy value that prints
   * empty, such as an empty array); `KV` prints it only for null and undefined.
   */
  lemma Placeholders(v: Value)
    ensures !Truthy(v) ==> ParaText(v) == Placeholder
    ensures Truthy(v) && ToJsString(v) != "" ==> ParaText(v) == ToJsString(v)
    ensures Nullish(v) ==> KvText(v) == Placeholder
    ensures !Nullish(v) ==> KvText(v) == ToJsString(v)
  {
  }

  /** A section is always a heading followed by exactly one paragraph. */
  lemma SectionShape(title: string, text: Value)
    ensures |Section(title, text)| == 2
    ensures Section(title, text)[0] == H2(title) && Section(title, text)[1] == Para(text)
    ensures Section(title, text)[1].Printed() != ""
  {
  }

  /**
   * `renderTimeline`: the placeholder for a falsy value, a string as is, one line per
   * array entry (throwing on a null entry), and one "• k: v" line per object entry.
   */
  lemma TimelineShape(tl: Value)
    ensures !Truthy(tl) ==> RenderTimeline(tl) == Success(Placeholder)
    ensures Truthy(tl) && tl.Str? ==> RenderTimeline(tl) == Success(tl.s)
    ensures tl.Arr? ==>
      (RenderTimeline(tl).Success? <==> forall i :: 0 <= i < |tl.items| ==> !Nullish(tl.items[i]))
    ensures tl.Arr? && RenderTimeline(tl).Success? ==>
      RenderTimeline(tl) == Success(JoinStrings(TimelineLines(tl.items).value, "\n"))
    ensures tl.Obj? ==> RenderTimeline(tl) == Success(JoinStrings(EntryLines(tl.fields), "\n"))
    ensures RenderTimeline(tl).Failure? <==> tl.Arr? && exists i :: 0 <= i < |tl.items| && Nullish(tl.items[i])
  {
  }

  /** An array timeline entry: "• e" for a string, "• <time> <event>" with missing parts empty. */
  lemma TimelineLineShape(e: Value)
    ensures e.Str? ==> TimelineLine(e) == Some("• " + e.s)
    ensures !e.Str? && !Nullish(e) && Nullish(Get(e, "time")) && Nullish(Get(e, "event")) ==>
      TimelineLine(e) == Some("•  ")
    ensures Nullish(e) <==> TimelineLine(e).None?
  {
    if !e.Str? && !Nullish(e) && Nullish(Get(e, "time")) && Nullish(Get(e, "event")) {
      assert "• " + ToJsString(Str("")) + " " + ToJsString(Str("")) == "•  ";
    }
  }

  /** The rows of a table fail exactly when one of them is null or undefined. */
  lemma {:induction false} RowsFail(rows: seq<Value>)
    ensures RowsItems(rows).Failure? <==> exists i :: 0 <= i < |rows| && Nullish(rows[i])
    ensures RowsItems(rows).Failure? ==> RowsItems(rows).error == NullTableRow
  {
    if |rows| > 0 {
      var front := rows[..|rows| - 1];
      RowsFail(front);
      if exists i :: 0 <= i < |front| && Nullish(front[i]) {
        var i :| 0 <= i < |front| && Nullish(front[i]);
        assert rows[i] == front[i];
      }
      if exists i :: 0 <= i < |rows| && Nullish(rows[i]) {
        var i :| 0 <= i < |rows| && Nullish(rows[i]);
        if i < |front| {
          assert front[i] == rows[i];
        }
      }
    }
  }

  /** String rows show as one bullet paragraph each, in order. */
  lemma {:induction false} StringRows(rows: seq<Value>)
    requires forall i :: 0 <= i < |rows| ==> rows[i].Str?
    ensures RowsItems(rows).Success?
    ensures |RowsItems(rows).value| == |rows|
    ensures forall i :: 0 <= i < |rows| ==> RowsItems(rows).value[i] == Para(Str("• " + rows[i].s))
  {
    if |rows| > 0 {
      var front := rows[..|rows| - 1];
      StringRows(front);
      var r := RowsItems(rows).value;
      forall i | 0 <= i < |rows|
        ensures r[i] == Para(Str("• " + rows[i].s))
      {
        if i < |front| {
          assert r[i] == RowsItems(front).value[i];
        }
      }
    }
  }

  lemma {:induction false} HeadingsAppend(a: seq<Item>, b: seq<Item>)
    ensures Headings(a + b) == Headings(a) + Headings(b)
  {
    if |a| > 0 {
      HeadingsAppend(a[1..], b);
      assert (a + b)[0] == a[0];
      assert (a + b)[1..] == a[1..] + b;
    } else {
      assert a + b == b;
    }
  }

  lemma {:induction false} EntriesHaveNoHeadings(fs: seq<Field>)
    ensures Headings(EntryItems(fs)) == []
  {
    if |fs| > 0 {
      EntriesHaveNoHeadings(fs[1..]);
      assert EntryItems(fs)[1..] == EntryItems(fs[1..]);
    }
  }

  /** Table rows never add a heading. */
  lemma {:induction false} RowsHaveNoHeadings(rows: seq<Value>)
    requires RowsItems(rows).Success?
    ensures Headings(RowsItems(rows).value) == []
  {
    if |rows| > 0 {
      var front := rows[..|rows| - 1];
      RowsHaveNoHeadings(front);
      var last := rows[|rows| - 1];
      if !last.Str? {
        EntriesHaveNoHeadings(Entries(last).value);
      }
      HeadingsAppend(RowsItems(front).value, RowItems(last).value);
    }
  }

  /**
   * `table` writes nothing at all for falsy data or an empty array; otherwise it starts
   * with its heading, shows a string as one paragraph, throws on a null row, and adds
   * no further heading.
   */
  lemma TableShape(title: string, data: Value)
    ensures Table(title, data) == Success([]) <==> TableSkipped(data)
    ensures !TableSkipped(data) && data.Str? ==> Table(title, data) == Success([H2(title), Para(data)])
    ensures Table(title, data).Failure? <==>
      !TableSkipped(data) && !data.Str? && exists i :: 0 <= i < |TableRows(data)| && Nullish(TableRows(data)[i])
    ensures Table(title, data).Success? && !TableSkipped(data) ==>
      Table(title, data).value[0] == H2(title) && Headings(Table(title, data).value) == [title]
  {
    if !TableSkipped(data) && data.Str? {
      assert Headings([Para(data)]) == [];
    }
    if !TableSkipped(data) && !data.Str? {
      RowsFail(TableRows(data));
      var r := RowsItems(TableRows(data));
      if r.Success? {
        RowsHaveNoHeadings(TableRows(data));
        HeadingsAppend([H2(title)], r.value);
      }
    }
  }

  /** The headings of a table: its title when it shows, nothing when skipped. */
  lemma TableHeadings(title: string, data: Value)
    requires Table(title, data).Success?
    ensures Headings(Table(title, data).value) == if TableSkipped(data) then [] else [title]
  {
    TableShape(title, data);
  }

  /** The timeline a report type renders. */
  function TimelineData(d: Value, reportType: string): Value
  {
    if reportType == "INCIDENT_NOTIFICATION" then Get(d, "timeline")
    else Coalesce(Get(d, "timeline"), Get(d, "fullTimeline"))
  }

  /**
   * Rendering throws only for the two report types with a table and a timeline, and
   * for them exactly when the IoC table has a null row or the timeline a null entry.
   */
  lemma LayoutFailure(draft: Value, reportType: string)
    ensures Layout(draft, reportType).Failure? <==>
      (reportType == "INCIDENT_NOTIFICATION" || reportType == "FINAL_REPORT")
      && (Table(IocTitle, IocData(draft, reportType)).Failure?
          || RenderTimeline(TimelineData(draft, reportType)).Failure?)
  {
    LayoutFailsWithBody(draft, reportType);
    BodyFailure(draft, reportType);
  }

  lemma LayoutFailsWithBody(draft: Value, reportType: string)
    ensures Layout(draft, reportType).Failure? <==> Body(draft, reportType).Failure?
  {
  }

  lemma BodyFailure(draft: Value, reportType: string)
    ensures Body(draft, reportType).Failure? <==>
      (reportType == "INCIDENT_NOTIFICATION" || reportType == "FINAL_REPORT")
      && (Table(IocTitle, IocData(draft, reportType)).Failure?
          || RenderTimeline(TimelineData(draft, reportType)).Failure?)
  {
    if reportType == "INCIDENT_NOTIFICATION" {
      IncidentNotificationFailure(draft);
    } else if reportType == "FINAL_REPORT" {
      FinalReportFailure(draft);
    }
  }

  lemma IncidentNotificationFailure(d: Value)
    ensures IncidentNotificationBody(d).Failure? <==>
      Table(IocTitle, Coalesce(Get(d, "iocs"), Get(d, "indicatorsOfCompromise"))).Failure?
      || RenderTimeline(Get(d, "timeline")).Failure?
  {
  }

  lemma FinalReportFailure(d: Value)
    ensures FinalReportBody(d).Failure? <==>
      Table(IocTitle, Get(d, "iocs")).Failure?
      || RenderTimeline(Coalesce(Get(d, "timeline"), Get(d, "fullTimeline"))).Failure?
  {
  }

  /** The metadata: a heading, eight key/value lines, and the previous reference only when truthy. */
  lemma MetadataShape(draft: Value, reportType: string)
    ensures var m := Metadata(draft, reportType);
      && |m| == (if Truthy(Get(Meta(draft), "previousRef")) then 10 else 9)
      && m[0] == H2("Metadaten")
      && (forall i :: 1 <= i < |m| ==> m[i].KV?)
      && m[8] == KV("Meldetyp", Str(Label(reportType)))
  {
    var fixed := FixedMetadata(Meta(draft), reportType);
    var extra := PreviousRef(Meta(draft));
    assert |fixed| == 9 && fixed[0] == H2("Metadaten");
    assert forall i :: 1 <= i < 9 ==> fixed[i].KV?;
    assert forall i :: 0 <= i < |extra| ==> extra[i].KV?;
    assert fixed[8] == KV("Meldetyp", Str(Label(reportType)));
  }

  /**
   * Every document opens with the title, the type label and the rule, then the
   * metadata, and closes with the attachments heading and its fixed paragraph.
   */
  lemma LayoutFrame(draft: Value, reportType: string)
    requires Layout(draft, reportType).Success?
    ensures var d := Layout(draft, reportType).value;
      && d.title == DocTitle(draft, reportType)
      && |d.items| >= 14
      && d.items[..3] == [H1(MainTitle), Caption(Label(reportType)), Rule]
      && d.items[3] == H2("Metadaten")
      && d.items[|d.items| - 2..] == [H2(AttachmentsTitle), Para(Str(AttachmentsText))]
  {
    var body := Body(draft, reportType).value;
    var items := Header(reportType) + Metadata(draft, reportType) + body + Footer;
    MetadataShape(draft, reportType);
    assert items[..3] == Header(reportType);
    assert items[|items| - 2..] == Footer;
  }

  lemma {:induction false} NoHeadings(items: seq<Item>)
    requires forall i :: 0 <= i < |items| ==> !items[i].H2?
    ensures Headings(items) == []
  {
    if |items| > 0 {
      NoHeadings(items[1..]);
    }
  }

  lemma SectionHeadings(title: string, text: Value)
    ensures Headings(Section(title, text)) == [title]
  {
    NoHeadings([Section(title, text)[1]]);
    HeadingsAppend([H2(title)], [Section(title, text)[1]]);
  }

  /** The metadata block has exactly one heading. */
  lemma MetadataHeadings(draft: Value, reportType: string)
    ensures Headings(Metadata(draft, reportType)) == ["Metadaten"]
  {
    var fixed := FixedMetadata(Meta(draft), reportType);
    var extra := PreviousRef(Meta(draft));
    MetadataShape(draft, reportType);
    NoHeadings(fixed[1..] + extra);
    assert Metadata(draft, reportType) == [fixed[0]] + (fixed[1..] + extra);
    HeadingsAppend([fixed[0]], fixed[1..] + extra);
  }

  lemma EarlyWarningHeadings(d: Value)
    ensures Headings(EarlyWarningBody(d)) == EarlyWarningHeadingList
  {
    var s1 := Section("Kurzbeschreibung", Get(d, "summary"));
    var s2 := Section("Vermutete Ursache", Get(d, "likelyCause"));
    var s3 := Section("Grenzüberschreitende Auswirkungen", Get(d, "crossBorder"));
    var s4 := Section("Unterstützungsbedarf", Get(d, "support"));
    HeadingsAppend(s1, s2);
    HeadingsAppend(s1 + s2, s3);
    HeadingsAppend(s1 + s2 + s3, s4);
    SectionHeadings("Kurzbeschreibung", Get(d, "summary"));
    SectionHeadings("Vermutete Ursache", Get(d, "likelyCause"));
    SectionHeadings("Grenzüberschreitende Auswirkungen", Get(d, "crossBorder"));
    SectionHeadings("Unterstützungsbedarf", Get(d, "support"));
  }

  /** The headings of a section, a part with headings `hs`, and three more sections. */
  lemma SectionsAroundPart(t1: string, x1: Value, part: seq<Item>, hs: seq<string>,
                           t3: string, x3: Value, t4: string, x4: Value, t5: string, x5: Value)
    requires Headings(part) == hs
    ensures Headings(Section(t1, x1) + part + Section(t3, x3) + Section(t4, x4) + Section(t5, x5))
      == [t1] + hs + [t3, t4, t5]
  {
    var s1, s3, s4, s5 := Section(t1, x1), Section(t3, x3), Section(t4, x4), Section(t5, x5);
    HeadingsAppend(s1, part);
    HeadingsAppend(s1 + part, s3);
    HeadingsAppend(s1 + part + s3, s4);
    HeadingsAppend(s1 + part + s3 + s4, s5);
    SectionHeadings(t1, x1);
    SectionHeadings(t3, x3);
    SectionHeadings(t4, x4);
    SectionHeadings(t5, x5);
  }

  /** The headings of two sections, a part with headings `hs`, and three more sections. */
  lemma TwoSectionsAroundPart(t1: string, x1: Value, t2: string, x2: Value, part: seq<Item>, hs: seq<string>,
                              t4: string, x4: Value, t5: string, x5: Value, t6: string, x6: Value)
    requires Headings(part) == hs
    ensures Headings(Section(t1, x1) + Section(t2, x2) + part + Section(t4, x4) + Section(t5, x5) + Section(t6, x6))
      == [t1, t2] + hs + [t4, t5, t6]
  {
    var s1, s2 := Section(t1, x1), Section(t2, x2);
    var s4, s5, s6 := Section(t4, x4), Section(t5, x5), Section(t6, x6);
    HeadingsAppend(s1, s2);
    HeadingsAppend(s1 + s2, part);
    HeadingsAppend(s1 + s2 + part, s4);
    HeadingsAppend(s1 + s2 + part + s4, s5);
    HeadingsAppend(s1 + s2 + part + s4 + s5, s6);
    SectionHeadings(t1, x1);
    SectionHeadings(t2, x2);
    SectionHeadings(t4, x4);
    SectionHeadings(t5, x5);
    SectionHeadings(t6, x6);
  }

  /** The headings of four consecutive parts. */
  lemma HeadingsOfFour(p1: seq<Item>, p2: seq<Item>, p3: seq<Item>, p4: seq<Item>)
    ensures Headings(p1 + p2 + p3 + p4) == Headings(p1) + Headings(p2) + Headings(p3) + Headings(p4)
  {
    HeadingsAppend(p1, p2);
    HeadingsAppend(p1 + p2, p3);
    HeadingsAppend(p1 + p2 + p3, p4);
  }

  function IocHeadings(data: Value): seq<string>
  {
    if TableSkipped(data) then [] else [IocTitle]
  }

  lemma IncidentNotificationHeadings(d: Value)
    requires IncidentNotificationBody(d).Success?
    ensures Headings(IncidentNotificationBody(d).value)
      == IncidentNotificationHeadingList(IocHeadings(IocData(d, "INCIDENT_NOTIFICATION")))
  {
    var data := Coalesce(Get(d, "iocs"), Get(d, "indicatorsOfCompromise"));
    var tl := RenderTimeline(Get(d, "timeline")).value;
    TableHeadings(IocTitle, data);
    SectionsAroundPart("Schweregrad & Auswirkungen", Coalesce(Get(d, "impact"), Get(d, "initialImpact")),
      Table(IocTitle, data).value, IocHeadings(data),
      "Sofortmaßnahmen", Coalesce(Get(d, "actions"), Get(d, "mitigationSteps")),
      "Abhängigkeiten / Lieferkette", Get(d, "dependencies"),
      "Timeline (erste Punkte)", Str(tl));
  }

  lemma FinalReportHeadings(d: Value)
    requires FinalReportBody(d).Success?
    ensures Headings(FinalReportBody(d).value) == FinalReportHeadingList(IocHeadings(Get(d, "iocs")))
  {
    var data := Get(d, "iocs");
    var tl := RenderTimeline(Coalesce(Get(d, "timeline"), Get(d, "fullTimeline"))).value;
    TableHeadings(IocTitle, data);
    TwoSectionsAroundPart("Root Cause", Get(d, "rootCause"),
      "Dauerhafte Maßnahmen", Coalesce(Get(d, "mitigation"), Get(d, "preventiveMeasures")),
      Table(IocTitle, data).value, IocHeadings(data),
      "Vollständige Timeline (UTC)", Str(tl),
      "Lessons Learned", Coalesce(Get(d, "lessons"), Get(d, "lessonsLearned")),
      "Finaler Impact", Coalesce(Get(d, "finalImpact"), Get(d, "detailedImpact")));
  }

  /** The body headings of a report type whose layout succeeds. */
  lemma BodyHeadingsOf(draft: Value, reportType: string)
    requires Body(draft, reportType).Success?
    ensures Headings(Body(draft, reportType).value)
      == BodyHeadings(reportType, !TableSkipped(IocData(draft, reportType)))
  {
    if reportType == "EARLY_WARNING" {
      EarlyWarningHeadings(draft);
    } else if reportType == "INCIDENT_NOTIFICATION" {
      IncidentNotificationHeadings(draft);
    } else if reportType == "FINAL_REPORT" {
      FinalReportHeadings(draft);
    } else {
      NoHeadings([]);
    }
  }

  /** The headings of a document made of the header, a metadata block, a body and the footer. */
  lemma DocumentHeadings(reportType: string, meta: seq<Item>, body: seq<Item>, bodyHeadings: seq<string>)
    requires Headings(meta) == ["Metadaten"] && Headings(body) == bodyHeadings
    ensures Headings(Header(reportType) + meta + body + Footer) == ["Metadaten"] + bodyHeadings + [AttachmentsTitle]
  {
    NoHeadings(Header(reportType));
    SectionHeadings(AttachmentsTitle, Str(AttachmentsText));
    assert Footer == Section(AttachmentsTitle, Str(AttachmentsText));
    HeadingsOfFour(Header(reportType), meta, body, Footer);
  }

  /**
   * The headings of a document, in order: the metadata, the sections of the report
   * type (with the IoC table only when it shows), and the attachments.
   */
  lemma LayoutHeadings(draft: Value, reportType: string)
    requires Layout(draft, reportType).Success?
    ensures Headings(Layout(draft, reportType).value.items)
      == ["Metadaten"] + BodyHeadings(reportType, !TableSkipped(IocData(draft, reportType))) + [AttachmentsTitle]
  {
    MetadataHeadings(draft, reportType);
    BodyHeadingsOf(draft, reportType);
    DocumentHeadings(reportType, Metadata(draft, reportType), Body(draft, reportType).value,
                     BodyHeadings(reportType, !TableSkipped(IocData(draft, reportType))));
  }
}
