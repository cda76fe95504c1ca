/**
 * The prompt sent to the language model: a fixed system text that spells out the
 * target JSON schema of the three report drafts, and a user payload carrying the
 * contact, the awareness time, the free text and the attachment metadata.
 */
module Prompts {
  import opened Wrappers
  import opened Json

  /** A schema entry is either a string or a list of strings. */
  datatype FieldKind = Text | TextList

  datatype SchemaField = SchemaField(name: string, kind: FieldKind)

  /** One report of the target schema: its key, its `reportType` discriminant and its fields. */
  datatype ReportSchema = ReportSchema(key: string, reportType: string, fields: seq<SchemaField>)

  /** The target schema the system text asks for, in its order. */
  const TargetSchema: seq<ReportSchema> := [
    ReportSchema("earlyWarning", "EARLY_WARNING", [
      SchemaField("summary", Text),
      SchemaField("awarenessTimeUTC", Text),
      SchemaField("initialImpact", Text),
      SchemaField("likelyCause", Text),
      SchemaField("mitigationSteps", TextList),
      SchemaField("nextActions", TextList)
    ]),
    ReportSchema("incidentNotification", "INCIDENT_NOTIFICATION", [
      SchemaField("summary", Text),
      SchemaField("timeline", TextList),
      SchemaField("affectedServices", TextList),
      SchemaField("affectedRegions", TextList),
      SchemaField("userImpact", Text),
      SchemaField("indicatorsOfCompromise", TextList),
      SchemaField("legalAndRegulatory", TextList),
      SchemaField("mitigationSteps", TextList),
      SchemaField("openQuestions", TextList)
    ]),
    ReportSchema("finalReport", "FINAL_REPORT", [
      SchemaField("rootCause", Text),
      SchemaField("detailedImpact", Text),
      SchemaField("dataSubjectsOrRecords", Text),
      SchemaField("fullTimeline", TextList),
      SchemaField("lessonsLearned", TextList),
      SchemaField("preventiveMeasures", TextList),
      SchemaField("attachmentsNote", Text)
    ])
  ]

  /** The lines of the system text before the schema. */
  const Intro := "\nDu bist ein Assistent für NIS2-Incident-Reporting.\n"
    + "Erzeuge drei strukturierte Entwürfe (Deutsch), strikt als JSON gemäß folgendem Schema.\n"
    + "Wenn Informationen fehlen, setze klare Platzhalter mit \"TODO: …\" und kennzeichne Unsicherheiten.\n"
    + "\nZiel-JSON:\n"

  /** The line after the schema. */
  const Outro := "Gib NUR das JSON aus, ohne Erklärtext.\n"

  const Guidance := "Anhänge werden (noch) nicht gelesen. Nutze Namen/Typen nur als Referenz."

  /** The quoted key of a schema line: `"name": `. */
  function Quoted(name: string): string { "\"" + name + "\": " }

  /** `    "name": string` or `    "name": string[]`. */
  function FieldLine(f: SchemaField): string
  {
    "    " + Quoted(f.name) + (if f.kind == Text then "string" else "string[]")
  }

  function FieldLines(fs: seq<SchemaField>): (r: seq<string>)
    ensures |r| == |fs|
    ensures forall i :: 0 <= i < |fs| ==> r[i] == FieldLine(fs[i])
  {
    if |fs| == 0 then [] else [FieldLine(fs[0])] + FieldLines(fs[1..])
  }

  /** The discriminant line of a report: `"reportType": "X"`. */
  function Discriminant(reportType: string): string
  {
    Quoted("reportType") + "\"" + reportType + "\""
  }

  /** One report of the schema, as the system text writes it. */
  function ReportBlock(r: ReportSchema): string
  {
    "  " + Quoted(r.key) + "{\n    " + Discriminant(r.reportType) + ",\n"
      + JoinStrings(FieldLines(r.fields), ",\n") + "\n  }"
  }

  function ReportBlocks(rs: seq<ReportSchema>): (r: seq<string>)
    ensures |r| == |rs|
    ensures forall i :: 0 <= i < |rs| ==> r[i] == ReportBlock(rs[i])
  {
    if |rs| == 0 then [] else [ReportBlock(rs[0])] + ReportBlocks(rs[1..])
  }

  /** The schema as a JSON-like text, one report per block. */
  function SchemaText(rs: seq<ReportSchema>): string
  {
    "{\n" + JoinStrings(ReportBlocks(rs), ",\n") + "\n}"
  }

  /** A system text: the instructions, the given schema and the closing line. */
  function SystemText(intro: string, schema: seq<ReportSchema>, outro: string): string
  {
    intro + SchemaText(schema) + "\n" + outro
  }

  /** The system text of every prompt. */
  const SystemPrompt := SystemText(Intro, TargetSchema, Outro)

  /** Why `buildIncidentPrompt` throws: destructuring null/undefined, `.map` on a non-array, or a null entry. */
  datatype PromptError = NullArgument | FilesNotAnArray | NullFileEntry(index: nat)

  datatype Prompt = Prompt(system: string, user: Value)

  /** `{ name: f.name, type: f.type, size: f.size, url: f.url }` */
  function FileEntry(f: Value): Value
  {
    Obj([Field("name", Get(f, "name")), Field("type", Get(f, "type")),
         Field("size", Get(f, "size")), Field("url", Get(f, "url"))])
  }

  /** The first null or undefined entry of a list, which `.map` reaches before any later one. */
  predicate FirstNullish(items: seq<Value>, i: int)
  {
    0 <= i < |items| && Nullish(items[i]) && forall j :: 0 <= j < i ==> !Nullish(items[j])
  }

  function FirstNullishIndex(items: seq<Value>): (r: Option<nat>)
    ensures r.None? <==> forall j :: 0 <= j < |items| ==> !Nullish(items[j])
    ensures r.Some? ==> FirstNullish(items, r.value)
  {
    if |items| == 0 then None
    else if Nullish(items[0]) then Some(0)
    else match FirstNullishIndex(items[1..])
      case None => None
      case Some(k) => Some(k + 1)
  }

  /** `(files || []).map(f => ({ name, type, size, url }))` */
  function FilesList(files: Value): Result<seq<Value>, PromptError>
  {
    var list := Or(files, Arr([]));
    if !list.Arr? then Failure(FilesNotAnArray)
    else match FirstNullishIndex(list.items)
      case Some(i) => Failure(NullFileEntry(i))
      case None => Success(seq(|list.items|, k requires 0 <= k < |list.items| => FileEntry(list.items[k])))
  }

  /** The object `JSON.stringify` turns into the user message. */
  function UserPayload(contactEmail: Value, awarenessUtc: Value, freeText: Value, filesList: seq<Value>): Value
  {
    Obj([Field("contactEmail", contactEmail),
         Field("awarenessTimeUTC", awarenessUtc),
         Field("incidentText", freeText),
         Field("attachments", Arr(filesList)),
         Field("guidance", Str(Guidance))])
  }

  /** `buildIncidentPrompt({ contactEmail, awarenessUtc, freeText, files })` */
  function BuildIncidentPrompt(arg: Value): Result<Prompt, PromptError>
  {
    if Nullish(arg) then Failure(NullArgument)
    else match FilesList(Get(arg, "files"))
      case Failure(e) => Failure(e)
      case Success(list) =>
        Success(Prompt(SystemPrompt,
          UserPayload(Get(arg, "contactEmail"), Get(arg, "awarenessUtc"), Get(arg, "freeText"), list)))
  }

  /**
   * A missing or falsy `files` gives no attachments; an array gives one entry per
   * file, in order, unless an entry is null or undefined; anything else throws.
   */
  lemma FilesListShape(files: Value)
    ensures !Truthy(files) ==> FilesList(files) == Success([])
    ensures Truthy(files) && !files.Arr? ==> FilesList(files) == Failure(FilesNotAnArray)
    ensures files.Arr? ==>
      (FilesList(files).Success? <==> forall j :: 0 <= j < |files.items| ==> !Nullish(files.items[j]))
    ensures FilesList(files).Success? && files.Arr? ==>
      |FilesList(files).value| == |files.items|
      && forall k :: 0 <= k < |files.items| ==> FilesList(files).value[k] == FileEntry(files.items[k])
  {
    if files.Arr? {
      var r := FirstNullishIndex(files.items);
      if r.Some? {
        assert FirstNullish(files.items, r.value);
      }
    } else if !Truthy(files) {
      assert Or(files, Arr([])) == Arr([]);
      assert |FilesList(files).value| == 0;
    }
  }

  /** A failing projection names the first null or undefined entry. */
  lemma NullEntryIsFirst(files: Value, i: nat)
    requires FilesList(files) == Failure(NullFileEntry(i))
    ensures files.Arr? && FirstNullish(files.items, i)
  {
  }

  /**
   * Each entry carries exactly the keys name, type, size and url, in that order,
   * each value copied from the input file; any other property of the file, `data`
   * among them, is not passed on.
   */
  lemma FileEntryKeys(f: Value, key: string)
    ensures var e := FileEntry(f);
      && e.Obj? && |e.fields| == 4
      && e.fields[0].key == "name" && e.fields[1].key == "type"
      && e.fields[2].key == "size" && e.fields[3].key == "url"
      && (forall k :: 0 <= k < 4 ==> e.fields[k].val == Get(f, e.fields[k].key))
      && (key != "name" && key != "type" && key != "size" && key != "url" ==> Get(e, key) == Undefined)
  {
  }

  /**
   * Whenever it does not throw, `buildIncidentPrompt` answers with the one constant
   * system text, whatever the input, and the user payload of the input's fields.
   */
  lemma PromptShape(arg: Value)
    requires !Nullish(arg) && FilesList(Get(arg, "files")).Success?
    ensures BuildIncidentPrompt(arg) == Success(Prompt(SystemPrompt,
      UserPayload(Get(arg, "contactEmail"), Get(arg, "awarenessUtc"), Get(arg, "freeText"),
                  FilesList(Get(arg, "files")).value)))
  {
  }

  /** `buildIncidentPrompt` throws exactly for a null argument or an unusable `files`. */
  lemma PromptFailure(arg: Value)
    ensures BuildIncidentPrompt(arg).Failure? <==> Nullish(arg) || FilesList(Get(arg, "files")).Failure?
    ensures Nullish(arg) ==> BuildIncidentPrompt(arg) == Failure(NullArgument)
  {
  }

  /** The user payload passes the inputs through under its own names, with a fixed guidance note. */
  lemma PayloadFields(arg: Value)
    requires BuildIncidentPrompt(arg).Success?
    ensures var u := BuildIncidentPrompt(arg).value.user;
      && u == UserPayload(Get(arg, "contactEmail"), Get(arg, "awarenessUtc"), Get(arg, "freeText"),
                           FilesList(Get(arg, "files")).value)
      && u.fields == [Field("contactEmail", Get(arg, "contactEmail")),
                      Field("awarenessTimeUTC", Get(arg, "awarenessUtc")),
                      Field("incidentText", Get(arg, "freeText")),
                      Field("attachments", Arr(FilesList(Get(arg, "files")).value)),
                      Field("guidance", Str(Guidance))]
  {
  }

  /** The `n` characters of `s` from index `k` on. */
  ghost function Piece(s: string, k: nat, n: nat): string
    requires k + n <= |s|
  {
    s[k..k + n]
  }

  /** `t` occurs in `s` as a contiguous piece. */
  ghost predicate Occurs(t: string, s: string)
  {
    exists k: nat :: k + |t| <= |s| && Piece(s, k, |t|) == t
  }

  lemma OccursBetween(pre: string, t: string, post: string)
    ensures Occurs(t, pre + t + post)
  {
    assert Piece(pre + t + post, |pre|, |t|) == t;
  }

  /** A piece of a text is a piece of any text around it. */
  lemma OccursWithin(t: string, s: string, pre: string, post: string)
    requires Occurs(t, s)
    ensures Occurs(t, pre + s + post)
  {
    var k: nat :| k + |t| <= |s| && Piece(s, k, |t|) == t;
    var u := pre + s + post;
    assert Piece(u, |pre| + k, |t|) == Piece(s, k, |t|);
  }

  /** A piece of a piece of a text is a piece of that text. */
  lemma OccursTransitive(t: string, m: string, s: string)
    requires Occurs(t, m) && Occurs(m, s)
    ensures Occurs(t, s)
  {
    var a: nat :| a + |t| <= |m| && Piece(m, a, |t|) == t;
    var b: nat :| b + |m| <= |s| && Piece(s, b, |m|) == m;
    forall j | 0 <= j < |t|
      ensures Piece(s, b + a, |t|)[j] == t[j]
    {
      assert Piece(s, b + a, |t|)[j] == s[b + a + j] == Piece(s, b, |m|)[a + j];
      assert t[j] == Piece(m, a, |t|)[j];
    }
    assert Piece(s, b + a, |t|) == t;
  }

  /** Every element of a joined list is a piece of the joined text. */
  lemma {:induction false} JoinContains(ss: seq<string>, sep: string, i: nat)
    requires i < |ss|
    ensures Occurs(ss[i], JoinStrings(ss, sep))
  {
    if |ss| == 1 {
      OccursBetween("", ss[i], "");
      assert "" + ss[i] + "" == JoinStrings(ss, sep);
    } else if i == 0 {
      OccursBetween("", ss[i], sep + JoinStrings(ss[1..], sep));
      assert "" + ss[i] + (sep + JoinStrings(ss[1..], sep)) == JoinStrings(ss, sep);
    } else {
      JoinContains(ss[1..], sep, i - 1);
      OccursWithin(ss[i], JoinStrings(ss[1..], sep), ss[0] + sep, "");
      assert ss[0] + sep + JoinStrings(ss[1..], sep) + "" == JoinStrings(ss, sep);
    }
  }

  lemma DiscriminantInBlock(r: ReportSchema)
    ensures Occurs(Discriminant(r.reportType), ReportBlock(r))
  {
    var before := "  " + Quoted(r.key) + "{\n    ";
    var after := ",\n" + JoinStrings(FieldLines(r.fields), ",\n") + "\n  }";
    OccursBetween(before, Discriminant(r.reportType), after);
    assert before + Discriminant(r.reportType) + after == ReportBlock(r);
  }

  lemma DiscriminantJoined(schema: seq<ReportSchema>, i: nat)
    requires i < |schema|
    ensures Occurs(Discriminant(schema[i].reportType), JoinStrings(ReportBlocks(schema), ",\n"))
  {
    var blocks := ReportBlocks(schema);
    DiscriminantInBlock(schema[i]);
    JoinContains(blocks, ",\n", i);
    OccursTransitive(Discriminant(schema[i].reportType), blocks[i], JoinStrings(blocks, ",\n"));
  }

  /** The system text of a schema spells out the discriminant of each of its reports. */
  lemma DiscriminantWritten(intro: string, schema: seq<ReportSchema>, outro: string, i: nat)
    requires i < |schema|
    ensures Occurs(Discriminant(schema[i].reportType), SystemText(intro, schema, outro))
  {
    var joined := JoinStrings(ReportBlocks(schema), ",\n");
    DiscriminantJoined(schema, i);
    OccursWithin(Discriminant(schema[i].reportType), joined, intro + "{\n", "\n}" + "\n" + outro);
    assert intro + "{\n" + joined + ("\n}" + "\n" + outro) == SystemText(intro, schema, outro);
  }

  /** The target schema names exactly the three reports, each with its fixed discriminant. */
  lemma SchemaReports()
    ensures |TargetSchema| == 3
    ensures TargetSchema[0].key == "earlyWarning" && TargetSchema[0].reportType == "EARLY_WARNING"
    ensures TargetSchema[1].key == "incidentNotification" && TargetSchema[1].reportType == "INCIDENT_NOTIFICATION"
    ensures TargetSchema[2].key == "finalReport" && TargetSchema[2].reportType == "FINAL_REPORT"
  {
  }

  /** The system text spells out the discriminants of the three reports. */
  lemma SystemNamesReports(i: nat)
    requires i < |TargetSchema|
    ensures Occurs(Discriminant(TargetSchema[i].reportType), SystemPrompt)
  {
    DiscriminantWritten(Intro, TargetSchema, Outro, i);
  }
}
