/**
 * `renderIncidentPdfBuffer` as it runs: a document object whose helpers append
 * layout items one call at a time, with `table` walking its rows and each row's
 * entries. Every method is proved to write exactly what the layout function of
 * `ReportLayout` describes, so the properties proved there hold of the written
 * document.
 */
module PdfRender {
  import opened Wrappers
  import opened Json
  import opened ReportLayout

  /** The PDF document being written: the title of its info dictionary and the items so far. */
  class PdfDoc {
    const title: string
    var items: seq<Item>

    constructor (title: string)
      ensures this.title == title && items == []
    {
      this.title := title;
      items := [];
    }

    /** `H1(t)`: the centred title. */
    method Heading1(t: string)
      modifies this
      ensures items == old(items) + [H1(t)]
    {
      items := items + [H1(t)];
    }

    /** The centred type label under the title. */
    method TypeLine(t: string)
      modifies this
      ensures items == old(items) + [Caption(t)]
    {
      items := items + [Caption(t)];
    }

    /** `hr()` */
    method HorizontalRule()
      modifies this
      ensures items == old(items) + [Rule]
    {
      items := items + [Rule];
    }

    /** `H2(t)`: a section heading. */
    method Heading(t: string)
      modifies this
      ensures items == old(items) + [H2(t)]
    {
      items := items + [H2(t)];
    }

    /** `P(t)`: a paragraph. */
    method Paragraph(t: Value)
      modifies this
      ensures items == old(items) + [Para(t)]
    {
      items := items + [Para(t)];
    }

    /** `KV(k, v)`: a key/value line. */
    method KeyValue(k: string, v: Value)
      modifies this
      ensures items == old(items) + [KV(k, v)]
    {
      items := items + [KV(k, v)];
    }

    /** `section(title, text)` */
    method WriteSection(heading: string, text: Value)
      modifies this
      ensures items == old(items) + ReportLayout.Section(heading, text)
    {
      Heading(heading);
      Paragraph(text);
    }

    /** `Object.entries(row).forEach(([k, v]) => KV("• " + k, String(v ?? "–")))` */
    method WriteEntries(fs: seq<Field>)
      modifies this
      ensures items == old(items) + EntryItems(fs)
    {
      var j := 0;
      while j < |fs|
        invariant 0 <= j <= |fs|
        invariant items == old(items) + EntryItems(fs[..j])
      {
        EntryItemsSnoc(fs, j);
        KeyValue("• " + fs[j].key, Str(KvText(fs[j].val)));
        j := j + 1;
      }
      assert fs[..|fs|] == fs;
    }

    /** One row of `table`; `Object.entries` of a null or undefined row throws. */
    method WriteRow(row: Value) returns (err: Option<LayoutError>)
      modifies this
      ensures err.None? <==> RowItems(row).Success?
      ensures err.Some? ==> err.value == RowItems(row).error
      ensures err.None? ==> items == old(items) + RowItems(row).value
      ensures err.Some? ==> items == old(items)
    {
      if row.Str? {
        Paragraph(Str("• " + row.s));
        return None;
      }
      match Entries(row)
      case None =>
        return Some(NullTableRow);
      case Some(fs) =>
        WriteEntries(fs);
        return None;
    }

    /** `table(title, data)`: the rows are written in order; the first null row throws. */
    method WriteTable(heading: string, data: Value) returns (err: Option<LayoutError>)
      modifies this
      ensures err.None? <==> Table(heading, data).Success?
      ensures err.Some? ==> err.value == Table(heading, data).error
      ensures err.None? ==> items == old(items) + Table(heading, data).value
    {
      if TableSkipped(data) {
        return None;
      }
      Heading(heading);
      if data.Str? {
        Paragraph(data);
        return None;
      }
      ghost var start := items;
      var rows := TableRows(data);
      var i := 0;
      while i < |rows|
        invariant 0 <= i <= |rows|
        invariant RowsItems(rows[..i]).Success?
        invariant items == start + RowsItems(rows[..i]).value
      {
        ghost var front := RowsItems(rows[..i]).value;
        assert rows[..i + 1][..i] == rows[..i];
        err := WriteRow(rows[i]);
        if err.Some? {
          RowsFail(rows);
          assert Nullish(rows[i]);
          return err;
        }
        ghost var last := RowItems(rows[i]).value;
        AppendAssoc(start, front, last);
        assert RowsItems(rows[..i + 1]) == Success(front + last);
        i := i + 1;
      }
      assert rows[..|rows|] == rows;
      AppendAssoc(old(items), [H2(heading)], RowsItems(rows).value);
      return None;
    }

    /** The title, the type label under it and the rule. */
    method WriteHeader(reportType: string)
      modifies this
      ensures items == old(items) + Header(reportType)
    {
      Heading1(MainTitle);
      TypeLine(Label(reportType));
      AppendAssoc(old(items), [H1(MainTitle)], [Caption(Label(reportType))]);
      HorizontalRule();
      AppendAssoc(old(items), [H1(MainTitle), Caption(Label(reportType))], [Rule]);
    }

    /** `KV(k, v)` written after the items `w` that followed `base`; `w'` is what follows `base` now. */
    method KeyValueAfter(k: string, v: Value, ghost base: seq<Item>, ghost w: seq<Item>) returns (ghost w': seq<Item>)
      requires items == base + w
      modifies this
      ensures w' == w + [KV(k, v)] && items == base + w'
    {
      KeyValue(k, v);
      AppendAssoc(base, w, [KV(k, v)]);
      w' := w + [KV(k, v)];
    }

    /** The metadata heading, the eight fixed lines and the optional reference line. */
    method WriteMetadata(draft: Value, reportType: string)
      modifies this
      ensures items == old(items) + Metadata(draft, reportType)
    {
      var m := Meta(draft);
      var sector := Coalesce(Get(m, "sector"), Get(m, "category"));
      var memberStates := Or(JoinList(Get(m, "memberStates")), Get(m, "memberStates"));
      Heading("Metadaten");
      ghost var w := [H2("Metadaten")];
      w := KeyValueAfter("Unternehmen", Get(m, "company"), old(items), w);
      w := KeyValueAfter("BSI-ID", Get(m, "bsiId"), old(items), w);
      w := KeyValueAfter("Sektor/Kategorie", sector, old(items), w);
      w := KeyValueAfter("Essential/Important", Get(m, "classification"), old(items), w);
      w := KeyValueAfter("24/7-Kontakt", Get(m, "contact"), old(items), w);
      w := KeyValueAfter("Awareness (ISO-8601)", Get(m, "awareness"), old(items), w);
      w := KeyValueAfter("Betroffene Mitgliedstaaten", memberStates, old(items), w);
      w := KeyValueAfter("Meldetyp", Str(Label(reportType)), old(items), w);
      ChainOfNine(H2("Metadaten"), KV("Unternehmen", Get(m, "company")), KV("BSI-ID", Get(m, "bsiId")),
        KV("Sektor/Kategorie", sector), KV("Essential/Important", Get(m, "classification")),
        KV("24/7-Kontakt", Get(m, "contact")), KV("Awareness (ISO-8601)", Get(m, "awareness")),
        KV("Betroffene Mitgliedstaaten", memberStates), KV("Meldetyp", Str(Label(reportType))));
      ghost var fixed := items;
      assert fixed == old(items) + FixedMetadata(m, reportType);
      if Truthy(Get(m, "previousRef")) {
        KeyValue("Ref. Vor-Meldung", Get(m, "previousRef"));
      } else {
        AppendEmpty(fixed);
      }
      assert items == fixed + PreviousRef(m);
      AppendAssoc(old(items), FixedMetadata(m, reportType), PreviousRef(m));
    }

    /** The four sections of an early warning. */
    method WriteEarlyWarning(d: Value)
      modifies this
      ensures items == old(items) + EarlyWarningBody(d)
    {
      WriteSection("Kurzbeschreibung", Get(d, "summary"));
      WriteSection("Vermutete Ursache", Get(d, "likelyCause"));
      WriteSection("Grenzüberschreitende Auswirkungen", Get(d, "crossBorder"));
      WriteSection("Unterstützungsbedarf", Get(d, "support"));
    }

    /** `section(title, text)` written after the items `w` that followed `base`. */
    method SectionAfter(heading: string, text: Value, ghost base: seq<Item>, ghost w: seq<Item>)
      returns (ghost w': seq<Item>)
      requires items == base + w
      modifies this
      ensures w' == w + ReportLayout.Section(heading, text) && items == base + w'
    {
      WriteSection(heading, text);
      AppendAssoc(base, w, ReportLayout.Section(heading, text));
      w' := w + ReportLayout.Section(heading, text);
    }

    /** The sections and the IoC table of an incident notification. */
    method WriteIncidentNotification(d: Value) returns (err: Option<LayoutError>)
      modifies this
      ensures err.None? <==> IncidentNotificationBody(d).Success?
      ensures err.Some? ==> err.value == IncidentNotificationBody(d).error
      ensures err.None? ==> items == old(items) + IncidentNotificationBody(d).value
    {
      WriteSection("Schweregrad & Auswirkungen", Coalesce(Get(d, "impact"), Get(d, "initialImpact")));
      ghost var w := ReportLayout.Section("Schweregrad & Auswirkungen", Coalesce(Get(d, "impact"), Get(d, "initialImpact")));
      var iocs := Coalesce(Get(d, "iocs"), Get(d, "indicatorsOfCompromise"));
      err := WriteTable(IocTitle, iocs);
      if err.Some? {
        return err;
      }
      AppendAssoc(old(items), w, Table(IocTitle, iocs).value);
      w := w + Table(IocTitle, iocs).value;
      w := SectionAfter("Sofortmaßnahmen", Coalesce(Get(d, "actions"), Get(d, "mitigationSteps")), old(items), w);
      w := SectionAfter("Abhängigkeiten / Lieferkette", Get(d, "dependencies"), old(items), w);
      match RenderTimeline(Get(d, "timeline"))
      case Failure(e) =>
        return Some(e);
      case Success(text) =>
        w := SectionAfter("Timeline (erste Punkte)", Str(text), old(items), w);
        return None;
    }

    /** The sections and the IoC table of a final report. */
    method WriteFinalReport(d: Value) returns (err: Option<LayoutError>)
      modifies this
      ensures err.None? <==> FinalReportBody(d).Success?
      ensures err.Some? ==> err.value == FinalReportBody(d).error
      ensures err.None? ==> items == old(items) + FinalReportBody(d).value
    {
      WriteSection("Root Cause", Get(d, "rootCause"));
      ghost var w := ReportLayout.Section("Root Cause", Get(d, "rootCause"));
      w := SectionAfter("Dauerhafte Maßnahmen", Coalesce(Get(d, "mitigation"), Get(d, "preventiveMeasures")), old(items), w);
      err := WriteTable(IocTitle, Get(d, "iocs"));
      if err.Some? {
        return err;
      }
      AppendAssoc(old(items), w, Table(IocTitle, Get(d, "iocs")).value);
      w := w + Table(IocTitle, Get(d, "iocs")).value;
      match RenderTimeline(Coalesce(Get(d, "timeline"), Get(d, "fullTimeline")))
      case Failure(e) =>
        return Some(e);
      case Success(text) =>
        w := SectionAfter("Vollständige Timeline (UTC)", Str(text), old(items), w);
        w := SectionAfter("Lessons Learned", Coalesce(Get(d, "lessons"), Get(d, "lessonsLearned")), old(items), w);
        w := SectionAfter("Finaler Impact", Coalesce(Get(d, "finalImpact"), Get(d, "detailedImpact")), old(items), w);
        return None;
    }

    /** The content of the report type, one `if` per type. */
    method WriteBody(d: Value, reportType: string) returns (err: Option<LayoutError>)
      modifies this
      ensures err.None? <==> Body(d, reportType).Success?
      ensures err.Some? ==> err.value == Body(d, reportType).error
      ensures err.None? ==> items == old(items) + Body(d, reportType).value
    {
      err := None;
      if reportType == "EARLY_WARNING" {
        WriteEarlyWarning(d);
      }
      if reportType == "INCIDENT_NOTIFICATION" {
        err := WriteIncidentNotification(d);
      }
      if reportType == "FINAL_REPORT" {
        err := WriteFinalReport(d);
      }
      if reportType != "EARLY_WARNING" && reportType != "INCIDENT_NOTIFICATION" && reportType != "FINAL_REPORT" {
        AppendEmpty(old(items));
      }
    }
  }

  /** Nine one-item appends make the nine-item sequence. */
  lemma ChainOfNine(a1: Item, a2: Item, a3: Item, a4: Item, a5: Item, a6: Item, a7: Item, a8: Item, a9: Item)
    ensures [a1] + [a2] + [a3] + [a4] + [a5] + [a6] + [a7] + [a8] + [a9] == [a1, a2, a3, a4, a5, a6, a7, a8, a9]
  {
  }

  lemma AppendEmpty(a: seq<Item>)
    ensures a + [] == a
  {
  }

  lemma AppendAssoc(a: seq<Item>, b: seq<Item>, c: seq<Item>)
    ensures a + b + c == a + (b + c)
  {
  }

  /** Appending one entry's line extends the lines of the entries before it. */
  lemma EntryItemsSnoc(fs: seq<Field>, j: nat)
    requires j < |fs|
    ensures EntryItems(fs[..j + 1]) == EntryItems(fs[..j]) + [KV("• " + fs[j].key, Str(KvText(fs[j].val)))]
  {
    var a := EntryItems(fs[..j + 1]);
    var b := EntryItems(fs[..j]) + [KV("• " + fs[j].key, Str(KvText(fs[j].val)))];
    assert |a| == |b|;
    forall k | 0 <= k < |a|
      ensures a[k] == b[k]
    {
      assert fs[..j + 1][k] == fs[k];
      if k < j {
        assert fs[..j][k] == fs[k];
      }
    }
  }

  /**
   * `renderIncidentPdfBuffer(draft, type)`: the document written call by call is
   * the layout of the draft, and rendering throws exactly when the layout fails.
   */
  method RenderIncidentPdf(draft: Value, reportType: string) returns (r: Result<Document, LayoutError>)
    ensures r == Layout(draft, reportType)
  {
    var doc := new PdfDoc(DocTitle(draft, reportType));
    doc.WriteHeader(reportType);
    assert doc.items == Header(reportType);
    doc.WriteMetadata(draft, reportType);
    var err := doc.WriteBody(draft, reportType);
    if err.Some? {
      return Failure(err.value);
    }
    ghost var body := Body(draft, reportType).value;
    assert doc.items == Header(reportType) + Metadata(draft, reportType) + body;
    doc.WriteSection(AttachmentsTitle, Str(AttachmentsText));
    assert Footer == ReportLayout.Section(AttachmentsTitle, Str(AttachmentsText));
    assert doc.items == Header(reportType) + Metadata(draft, reportType) + body + Footer;
    r := Success(Document(doc.title, doc.items));
  }
}
