/**
 * The intake endpoint: it checks the two required fields, resolves
 * the awareness instant, derives the three reporting deadlines, reads the file
 * metadata, and answers with the intake summary and three empty report drafts.
 * The current time `now` is a parameter; the ISO date parser is the parameter `iso`.
 */
module Intake {
  import opened Wrappers
  import opened JsCore
  import opened Json
  import opened CivilTime
  import opened Deadlines
  import opened Awareness
  import opened Attachments

  /** The summary a successful intake answers with (before JSON serialisation). */
  datatype Summary = Summary(
    intakeId: string,
    awarenessReceived: string,
    awarenessSource: string,
    awarenessOffsetMinutes: Option<int>,
    awarenessTime: string,
    due: Due,
    files: seq<FileMeta>)

  /** The handler's answers to a POST: an error with its status, or the summary. */
  datatype Response = Error(status: int, message: string) | Accepted(summary: Summary)
  {
    function Status(): int
    {
      match this
      case Error(status, _) => status
      case Accepted(_) => 200
    }
  }

  const MissingFieldsMessage := "contactEmail und freeText sind Pflicht"

  /** The summary of an intake whose awareness resolved to `p` and whose files are `files`. */
  function Summarize(intakeId: string, p: ParsedAwareness, files: seq<FileMeta>): Summary
  {
    Summary(intakeId, p.received, SourceText(p.source), p.offsetMinutes,
            ToISO(p.instant), DueFor(p.instant), files)
  }

  /**
   * `handler` for a POST with request body `reqBody`: the required-field check, the
   * awareness instant, the deadlines and the file list. `intakeId` is the identifier
   * the handler derives from the clock.
   */
  function Handle(reqBody: Value, now: int, iso: string -> Option<int>, intakeId: string): Response
  {
    var body := Or(reqBody, Obj([]));
    if !Truthy(Get(body, "contactEmail")) || !Truthy(Get(body, "freeText")) then
      Error(400, MissingFieldsMessage)
    else
      var p := ParseAwareness(reqBody, now, iso);
      match Collect(Get(body, "files"))
      case Failure(e) => Error(400, e)
      case Success(files) => Accepted(Summarize(intakeId, p, files))
  }

  /** A POST without a truthy contact e-mail or free text is refused before anything else. */
  lemma RequiredFields(reqBody: Value, now: int, iso: string -> Option<int>, intakeId: string)
    ensures var body := Or(reqBody, Obj([]));
      Handle(reqBody, now, iso, intakeId) == Error(400, MissingFieldsMessage) <==>
        !Truthy(Get(body, "contactEmail")) || !Truthy(Get(body, "freeText"))
  {
    var body := Or(reqBody, Obj([]));
    if Truthy(Get(body, "contactEmail")) && Truthy(Get(body, "freeText")) {
      var e := Collect(Get(body, "files"));
      if e.Failure? {
        FileErrorsDiffer(e.error, Get(body, "files"));
      }
    }
  }

  /** No error `collectFiles` raises reads like the missing-fields message. */
  lemma FileErrorsDiffer(e: string, files: Value)
    requires Collect(files) == Failure(e)
    ensures e != MissingFieldsMessage
  {
    var vs := Verdicts(FileList(files));
    RunFailureCause(vs);
    if |FileList(files)| <= MaxFiles {
      var i :| FirstTooLarge(vs, i) && Run(vs).error == TooLargeMessage(vs[i].name);
      assert e[0] != MissingFieldsMessage[0];
    } else {
      assert e[0] != MissingFieldsMessage[0];
    }
  }

  /** A POST with both fields answers 200 exactly when the file list is accepted, and 400 with its error otherwise. */
  lemma FileOutcome(reqBody: Value, now: int, iso: string -> Option<int>, intakeId: string)
    requires var body := Or(reqBody, Obj([]));
      Truthy(Get(body, "contactEmail")) && Truthy(Get(body, "freeText"))
    ensures var files := Collect(Get(Or(reqBody, Obj([])), "files"));
      && (Handle(reqBody, now, iso, intakeId).Status() == 200 <==> files.Success?)
      && (files.Failure? ==> Handle(reqBody, now, iso, intakeId) == Error(400, files.error))
  {
  }

  /** The time fields of a summary: the instant to the second and the three deadlines after it. */
  lemma SummaryTimes(intakeId: string, p: ParsedAwareness, files: seq<FileMeta>, t: int)
    requires t == p.instant
    ensures var s := Summarize(intakeId, p, files);
      && s.awarenessTime == IsoText(t / MsPerDay, t % MsPerDay)
      && s.due == Due(IsoText(t / MsPerDay + 1, t % MsPerDay), IsoText(t / MsPerDay + 3, t % MsPerDay),
                      IsoText(t / MsPerDay + 30, t % MsPerDay))
  {
    ToISOShape(t);
    DueShape(t);
  }

  /**
   * A successful answer comes only from a body with both required fields and an
   * accepted file list, and is the summary of the parsed awareness and those files;
   * it echoes the awareness input trimmed.
   */
  lemma AcceptedIsSummary(reqBody: Value, now: int, iso: string -> Option<int>, intakeId: string)
    requires Handle(reqBody, now, iso, intakeId).Accepted?
    ensures var body := Or(reqBody, Obj([]));
      && Truthy(Get(body, "contactEmail")) && Truthy(Get(body, "freeText"))
      && Collect(Get(body, "files")).Success?
      && Handle(reqBody, now, iso, intakeId).summary
           == Summarize(intakeId, ParseAwareness(reqBody, now, iso), Collect(Get(body, "files")).value)
    ensures NoWhitespaceAtEnds(Handle(reqBody, now, iso, intakeId).summary.awarenessReceived)
  {
    ReceivedIsTrimmed(reqBody, now, iso);
  }

  /** `JSON.stringify` of a size: a number that is not finite is written as null. */
  function SizeValue(n: Number): Value
  {
    if n.Finite? then Num(n.n) else Null
  }

  function FileValue(m: FileMeta): Value
  {
    Obj([Field("name", Str(m.name)), Field("type", Str(m.mimeType)), Field("size", SizeValue(m.size))])
  }

  /** The `files` array of the answer: one object per accepted file. */
  function FilesValue(files: seq<FileMeta>): Value
  {
    Arr(seq(|files|, k requires 0 <= k < |files| => FileValue(files[k])))
  }

  function OffsetValue(o: Option<int>): Value
  {
    match o
    case Some(n) => Num(n)
    case None => Null
  }

  function DueValue(d: Due): Value
  {
    Obj([Field("earlyWarning", Str(d.earlyWarning)),
         Field("incidentNotification", Str(d.incidentNotification)),
         Field("finalReport", Str(d.finalReport))])
  }

  /** The stub drafts: each carries only its report type. */
  const Drafts := Obj([
    Field("earlyWarning", Obj([Field("reportType", Str("EARLY_WARNING"))])),
    Field("incidentNotification", Obj([Field("reportType", Str("INCIDENT_NOTIFICATION"))])),
    Field("finalReport", Obj([Field("reportType", Str("FINAL_REPORT"))]))
  ])

  /** The JSON body of the 200 answer, in the handler's key order. */
  function SummaryValue(s: Summary): (v: Value)
    ensures v.Obj? && |v.fields| == 8
    ensures v.fields[4] == Field("awarenessTime", Str(s.awarenessTime))
    ensures v.fields[6].val.Arr? && |v.fields[6].val.items| == |s.files|
  {
    Obj([
      Field("intakeId", Str(s.intakeId)),
      Field("awarenessReceived", Str(s.awarenessReceived)),
      Field("awarenessSource", Str(s.awarenessSource)),
      Field("awarenessOffsetMinutes", OffsetValue(s.awarenessOffsetMinutes)),
      Field("awarenessTime", Str(s.awarenessTime)),
      Field("due", DueValue(s.due)),
      Field("files", FilesValue(s.files)),
      Field("drafts", Drafts)
    ])
  }

  /** A file entry of the answer holds the record's name, type and size. */
  lemma FileFields(m: FileMeta)
    ensures Get(FileValue(m), "name") == Str(m.name)
    ensures Get(FileValue(m), "type") == Str(m.mimeType)
    ensures Get(FileValue(m), "size") == SizeValue(m.size)
  {
    var es := FileValue(m).fields;
    LookupFirst(es, 0); LookupFirst(es, 1);
    forall j | 0 <= j < 2
      ensures es[j].key != es[2].key
    {
      assert j == 0 || j == 1;
    }
    LookupFirst(es, 2);
  }

  /** The `due` object holds each deadline under its report's key. */
  lemma DueFields(d: Due)
    ensures Get(DueValue(d), "earlyWarning") == Str(d.earlyWarning)
    ensures Get(DueValue(d), "incidentNotification") == Str(d.incidentNotification)
    ensures Get(DueValue(d), "finalReport") == Str(d.finalReport)
  {
    var ds := DueValue(d).fields;
    assert |ds[0].key| == 12 && |ds[1].key| == 20 && |ds[2].key| == 11;
    LookupFirst(ds, 0); LookupFirst(ds, 1);
    forall j | 0 <= j < 2
      ensures ds[j].key != ds[2].key
    {
      assert j == 0 || j == 1;
    }
    LookupFirst(ds, 2);
  }

  /** The keys of the 200 answer, in the order the handler writes them. */
  const SummaryKeys := ["intakeId", "awarenessReceived", "awarenessSource", "awarenessOffsetMinutes",
                        "awarenessTime", "due", "files", "drafts"]

  /** The 200 answer has the handler's eight keys, in order. */
  lemma SummaryFields(s: Summary)
    ensures var v := SummaryValue(s);
      && |v.fields| == |SummaryKeys|
      && (forall k :: 0 <= k < |SummaryKeys| ==> v.fields[k].key == SummaryKeys[k])
  {
  }

  /**
   * Each key of the 200 answer holds its summary field: the offset as a number or
   * null, the three deadlines under their report keys, and the three stub drafts.
   */
  lemma SummaryValues(s: Summary)
    ensures var v := SummaryValue(s);
      && Get(v, "intakeId") == Str(s.intakeId)
      && Get(v, "awarenessReceived") == Str(s.awarenessReceived)
      && Get(v, "awarenessSource") == Str(s.awarenessSource)
      && Get(v, "awarenessOffsetMinutes")
           == (if s.awarenessOffsetMinutes.Some? then Num(s.awarenessOffsetMinutes.value) else Null)
      && Get(v, "awarenessTime") == Str(s.awarenessTime)
      && Get(Get(v, "due"), "earlyWarning") == Str(s.due.earlyWarning)
      && Get(Get(v, "due"), "incidentNotification") == Str(s.due.incidentNotification)
      && Get(Get(v, "due"), "finalReport") == Str(s.due.finalReport)
      && Get(v, "drafts") == Drafts
  {
    var fs := SummaryValue(s).fields;
    // The keys differ in length, which is what tells them apart here.
    assert |fs[0].key| == 8 && |fs[1].key| == 17 && |fs[2].key| == 15 && |fs[3].key| == 22;
    assert |fs[4].key| == 13 && |fs[5].key| == 3 && |fs[6].key| == 5 && |fs[7].key| == 6;
    forall j, m | 0 <= j < m < 8 && m != 6
      ensures fs[j].key != fs[m].key
    {
      assert j == 0 || j == 1 || j == 2 || j == 3 || j == 4 || j == 5 || j == 6;
      assert m == 1 || m == 2 || m == 3 || m == 4 || m == 5 || m == 7;
    }
    LookupFirst(fs, 0); LookupFirst(fs, 1); LookupFirst(fs, 2); LookupFirst(fs, 3);
    LookupFirst(fs, 4); LookupFirst(fs, 5); LookupFirst(fs, 7);
    DueFields(s.due);
  }

  /**
   * The `files` of the 200 answer: one `{ name, type, size }` object per accepted
   * file, in order, with a size that is not a finite number written as null.
   */
  lemma SummaryFiles(s: Summary)
    ensures var fs := Get(SummaryValue(s), "files");
      && fs.Arr? && |fs.items| == |s.files|
      && forall k :: 0 <= k < |s.files| ==>
           && fs.items[k].Obj? && |fs.items[k].fields| == 3
           && Get(fs.items[k], "name") == Str(s.files[k].name)
           && Get(fs.items[k], "type") == Str(s.files[k].mimeType)
           && Get(fs.items[k], "size") == (if s.files[k].size.Finite? then Num(s.files[k].size.n) else Null)
  {
    LookupFirst(SummaryValue(s).fields, 6);
    forall k | 0 <= k < |s.files|
      ensures var e := FileValue(s.files[k]);
        Get(e, "name") == Str(s.files[k].name) && Get(e, "type") == Str(s.files[k].mimeType)
        && Get(e, "size") == SizeValue(s.files[k].size)
    {
      FileFields(s.files[k]);
    }
  }

  /** `res.status(...).json(...)`: the status and the JSON body of an answer. */
  function ResponseJson(r: Response): (out: (int, Value))
    ensures out.0 == r.Status()
    ensures r.Error? ==> out.1 == Obj([Field("error", Str(r.message))])
  {
    match r
    case Error(status, message) => (status, Obj([Field("error", Str(message))]))
    case Accepted(s) => (200, SummaryValue(s))
  }
}
