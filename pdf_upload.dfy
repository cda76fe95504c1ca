/**
 * `generateAndUploadPDFs`: for each of the three report jobs, in a fixed order, a
 * present draft gets an empty metadata object when it has none, is rendered, and
 * is stored under the intake's path; the answer maps each stored report to its
 * URL, stored path and size. The blob store is a class holding a map from path
 * to document; the URL, stored path and size it reports are a function it was
 * created with.
 */
module PdfUpload {
  import opened Wrappers
  import opened Json
  import opened ReportLayout
  import Prompts
  import Intake

  /** One entry of `jobs`: the draft key, the report type and the file name. */
  datatype Job = Job(key: string, reportType: string, file: string)

  const Jobs: seq<Job> := [
    Job("earlyWarning", "EARLY_WARNING", "NIS2_EarlyWarning.pdf"),
    Job("incidentNotification", "INCIDENT_NOTIFICATION", "NIS2_IncidentNotification.pdf"),
    Job("finalReport", "FINAL_REPORT", "NIS2_FinalReport.pdf")
  ]

  /** What `put` answers: the public URL, the stored path and the size in bytes. */
  datatype BlobInfo = BlobInfo(url: string, pathname: string, size: int)

  /** One stored document and the path it was stored under. */
  datatype Upload = Upload(path: string, doc: Document)

  /**
   * Why the upload rejects: assigning `meta` to a truthy primitive draft throws
   * (module code is strict), and rendering throws on a null row or timeline entry.
   */
  datatype UploadError = MetaOnPrimitive(key: string) | RenderFailed(key: string, cause: LayoutError)

  /** The blob store: what is stored under each path. */
  class BlobStore {
    var blobs: map<string, Document>
    /** The answer `put` gives for a path and a document. */
    const info: (string, Document) -> BlobInfo

    constructor (info: (string, Document) -> BlobInfo)
      ensures blobs == map[] && this.info == info
    {
      blobs := map[];
      this.info := info;
    }

    /** `put(path, buf, ...)` */
    method Put(path: string, doc: Document) returns (b: BlobInfo)
      modifies this
      ensures blobs == old(blobs)[path := doc]
      ensures b == info(path, doc)
    {
      blobs := blobs[path := doc];
      b := info(path, doc);
    }
  }

  /**
   * `draft.meta = draft.meta || {}` on a truthy draft: an object gets the empty
   * metadata object when its own is falsy; an array is left as the model cannot
   * hold properties on it; a primitive throws.
   */
  function WithMeta(draft: Value): Option<Value>
  {
    if draft.Obj? then Some(Set(draft, "meta", Or(Get(draft, "meta"), Obj([]))))
    else if draft.Arr? then Some(draft)
    else None
  }

  /** `{ url, blobPath: pathname, size }` */
  function InfoValue(b: BlobInfo): Value
  {
    Obj([Field("url", Str(b.url)), Field("blobPath", Str(b.pathname)), Field("size", Num(b.size))])
  }

  /** The state after some jobs: the answer so far, the drafts as updated, what was stored, and the error if one was thrown. */
  datatype Progress = Progress(out: seq<Field>, drafts: Value, uploads: seq<Upload>, error: Option<UploadError>)

  /** The path a job's document is stored under. */
  function PathOf(intakeId: string, job: Job): string
  {
    intakeId + "/" + job.file
  }

  /** The renderer the loop awaits: `renderIncidentPdfBuffer` is `Layout` (see `PdfRender.RenderIncidentPdf`). */
  type Renderer = (Value, string) -> Result<Document, LayoutError>

  /** One pass of the loop body; once something has thrown nothing more happens. */
  function Step(intakeId: string, info: (string, Document) -> BlobInfo, render: Renderer, p: Progress, job: Job): Progress
  {
    if p.error.Some? then p
    else
      var draft := Get(p.drafts, job.key);
      if !Truthy(draft) then p
      else
        match WithMeta(draft)
        case None => p.(error := Some(MetaOnPrimitive(job.key)))
        case Some(d) =>
          var drafts := Set(p.drafts, job.key, d);
          match render(d, job.reportType)
          case Failure(e) => p.(drafts := drafts, error := Some(RenderFailed(job.key, e)))
          case Success(doc) =>
            var path := PathOf(intakeId, job);
            Progress(Store(p.out, job.key, InfoValue(info(path, doc))), drafts, p.uploads + [Upload(path, doc)], None)
  }

  /** The loop over some jobs, in order. */
  function Run(intakeId: string, info: (string, Document) -> BlobInfo, render: Renderer, drafts: Value, jobs: seq<Job>)
    : Progress
  {
    if |jobs| == 0 then Progress([], drafts, [], None)
    else Step(intakeId, info, render, Run(intakeId, info, render, drafts, jobs[..|jobs| - 1]), jobs[|jobs| - 1])
  }

  /** The store after the uploads, in order. */
  function Stored(blobs: map<string, Document>, uploads: seq<Upload>): map<string, Document>
  {
    if |uploads| == 0 then blobs
    else Stored(blobs, uploads[..|uploads| - 1])[uploads[|uploads| - 1].path := uploads[|uploads| - 1].doc]
  }

  /** What `generateAndUploadPDFs` resolves or rejects with after a run. */
  function Outcome(p: Progress): Result<Value, UploadError>
  {
    match p.error
    case Some(e) => Failure(e)
    case None => Success(Obj(p.out))
  }

  /**
   * `generateAndUploadPDFs(intakeId, drafts)`: the answer, the drafts as the caller
   * sees them afterwards, and the store's new content are those of `Run` over the
   * three jobs; a rejection leaves the documents stored before it in place.
   */
  method GenerateAndUploadPdfs(store: BlobStore, intakeId: string, drafts: Value)
    returns (r: Result<Value, UploadError>, updated: Value)
    modifies store
    ensures var p := Run(intakeId, store.info, Layout, drafts, Jobs);
      r == Outcome(p) && updated == p.drafts && store.blobs == Stored(old(store.blobs), p.uploads)
  {
    r, updated := RunJobs(store, intakeId, drafts, Jobs, Layout);
  }

  /** `for (const [key, type, file] of jobs) { ... }` */
  method RunJobs(store: BlobStore, intakeId: string, drafts: Value, jobs: seq<Job>, render: Renderer)
    returns (r: Result<Value, UploadError>, updated: Value)
    modifies store
    ensures var p := Run(intakeId, store.info, render, drafts, jobs);
      r == Outcome(p) && updated == p.drafts && store.blobs == Stored(old(store.blobs), p.uploads)
  {
    var out: seq<Field> := [];
    updated := drafts;
    ghost var uploads: seq<Upload> := [];
    var i := 0;
    while i < |jobs|
      invariant 0 <= i <= |jobs|
      invariant Run(intakeId, store.info, render, drafts, jobs[..i]) == Progress(out, updated, uploads, None)
      invariant store.blobs == Stored(old(store.blobs), uploads)
    {
      assert jobs[..i + 1][..i] == jobs[..i];
      var err: Option<UploadError>;
      out, updated, err, uploads := RunJob(store, intakeId, render, jobs[i], out, updated, old(store.blobs), uploads);
      if err.Some? {
        RunStops(intakeId, store.info, render, drafts, jobs, i + 1);
        return Failure(err.value), updated;
      }
      i := i + 1;
    }
    assert jobs[..|jobs|] == jobs;
    r := Success(Obj(out));
  }

  /** One pass of the loop body, on the answer so far and the drafts as updated so far. */
  method RunJob(store: BlobStore, intakeId: string, render: Renderer, job: Job,
                out: seq<Field>, updated: Value, ghost initial: map<string, Document>, ghost uploads: seq<Upload>)
    returns (out': seq<Field>, updated': Value, err: Option<UploadError>, ghost uploads': seq<Upload>)
    requires store.blobs == Stored(initial, uploads)
    modifies store
    ensures Step(intakeId, store.info, render, Progress(out, updated, uploads, None), job)
      == Progress(out', updated', uploads', err)
    ensures store.blobs == Stored(initial, uploads')
  {
    out', updated', err, uploads' := out, updated, None, uploads;
    var draft := Get(updated, job.key);
    if !Truthy(draft) {
      return;
    }
    var d := WithMeta(draft);
    if d.None? {
      err := Some(MetaOnPrimitive(job.key));
      return;
    }
    updated' := Set(updated, job.key, d.value);
    var rendered := render(d.value, job.reportType);
    if rendered.Failure? {
      err := Some(RenderFailed(job.key, rendered.error));
      return;
    }
    var path := PathOf(intakeId, job);
    var b := store.Put(path, rendered.value);
    out' := Store(out, job.key, InfoValue(b));
    uploads' := uploads + [Upload(path, rendered.value)];
    assert uploads'[..|uploads'| - 1] == uploads;
  }

  /** Once a prefix of the jobs has thrown, the later jobs change nothing. */
  lemma {:induction false} RunStops(intakeId: string, info: (string, Document) -> BlobInfo, render: Renderer,
                                    drafts: Value, jobs: seq<Job>, n: nat)
    requires n <= |jobs|
    requires Run(intakeId, info, render, drafts, jobs[..n]).error.Some?
    ensures Run(intakeId, info, render, drafts, jobs) == Run(intakeId, info, render, drafts, jobs[..n])
    decreases |jobs| - n
  {
    if n < |jobs| {
      assert jobs[..|jobs| - 1][..n] == jobs[..n];
      RunStops(intakeId, info, render, drafts, jobs[..|jobs| - 1], n);
    } else {
      assert jobs[..n] == jobs;
    }
  }

  /** No two jobs write the same draft key. */
  predicate DistinctKeys(jobs: seq<Job>)
  {
    forall i, j :: 0 <= i < j < |jobs| ==> jobs[i].key != jobs[j].key
  }

  /** A present draft that gets its metadata object and renders. */
  predicate Renders(render: Renderer, draft: Value, reportType: string)
  {
    WithMeta(draft).Some? && render(WithMeta(draft).value, reportType).Success?
  }

  /** The error a present draft that does not render is rejected with. */
  function JobError(render: Renderer, job: Job, draft: Value): UploadError
  {
    match WithMeta(draft)
    case None => MetaOnPrimitive(job.key)
    case Some(d) =>
      match render(d, job.reportType)
      case Failure(e) => RenderFailed(job.key, e)
      case Success(_) => MetaOnPrimitive(job.key)
  }

  /** The jobs whose draft is present (truthy), in order. */
  function Present(drafts: Value, jobs: seq<Job>): (r: seq<Job>)
    ensures |r| <= |jobs|
  {
    if |jobs| == 0 then []
    else
      var last := jobs[|jobs| - 1];
      Present(drafts, jobs[..|jobs| - 1]) + (if Truthy(Get(drafts, last.key)) then [last] else [])
  }

  /** The present jobs are jobs of the list whose draft is present. */
  lemma {:induction false} PresentFrom(drafts: Value, jobs: seq<Job>)
    ensures forall i :: 0 <= i < |Present(drafts, jobs)| ==>
      Present(drafts, jobs)[i] in jobs && Truthy(Get(drafts, Present(drafts, jobs)[i].key))
  {
    if |jobs| > 0 {
      var init := jobs[..|jobs| - 1];
      assert forall i :: 0 <= i < |init| ==> init[i] == jobs[i];
      PresentFrom(drafts, init);
    }
  }

  /** What one pass does to a run that has not thrown, by the state of its draft. */
  lemma StepCases(intakeId: string, info: (string, Document) -> BlobInfo, render: Renderer, p: Progress, job: Job)
    requires p.error.None?
    ensures var draft := Get(p.drafts, job.key); var q := Step(intakeId, info, render, p, job);
      (!Truthy(draft) ==> q == p)
      && (Truthy(draft) && !Renders(render, draft, job.reportType) ==>
            q.out == p.out && q.uploads == p.uploads && q.error == Some(JobError(render, job, draft))
            && (WithMeta(draft).None? ==> q.drafts == p.drafts)
            && (WithMeta(draft).Some? ==> q.drafts == Set(p.drafts, job.key, WithMeta(draft).value)))
      && (Renders(render, draft, job.reportType) ==>
            var d := WithMeta(draft).value;
            var doc := render(d, job.reportType).value;
            q == Progress(Store(p.out, job.key, InfoValue(info(PathOf(intakeId, job), doc))),
                          Set(p.drafts, job.key, d), p.uploads + [Upload(PathOf(intakeId, job), doc)], None))
  {
  }

  /** A draft key no job names, or whose draft is absent, is left as it was. */
  lemma {:induction false} RunKeeps(intakeId: string, info: (string, Document) -> BlobInfo, render: Renderer,
                                    drafts: Value, jobs: seq<Job>, k: string)
    requires !Truthy(Get(drafts, k)) || forall i :: 0 <= i < |jobs| ==> jobs[i].key != k
    ensures Get(Run(intakeId, info, render, drafts, jobs).drafts, k) == Get(drafts, k)
  {
    if |jobs| > 0 {
      var init := jobs[..|jobs| - 1];
      var last := jobs[|jobs| - 1];
      assert forall i :: 0 <= i < |init| ==> init[i] == jobs[i];
      RunKeeps(intakeId, info, render, drafts, init, k);
      var p := Run(intakeId, info, render, drafts, init);
      assert Run(intakeId, info, render, drafts, jobs) == Step(intakeId, info, render, p, last);
      if p.error.None? {
        StepCases(intakeId, info, render, p, last);
        var draft := Get(p.drafts, last.key);
        if Truthy(draft) && WithMeta(draft).Some? {
          assert last.key != k;
          GetAfterSet(p.drafts, last.key, WithMeta(draft).value, k);
        }
      }
    }
  }

  /** Every present draft among the jobs renders. */
  predicate AllRender(render: Renderer, drafts: Value, jobs: seq<Job>)
  {
    forall j :: 0 <= j < |jobs| && Truthy(Get(drafts, jobs[j].key)) ==> Renders(render, Get(drafts, jobs[j].key), jobs[j].reportType)
  }

  /** The job at `j` is the first whose present draft does not render. */
  predicate FirstFailure(render: Renderer, drafts: Value, jobs: seq<Job>, j: int)
  {
    0 <= j < |jobs| && Truthy(Get(drafts, jobs[j].key))
    && !Renders(render, Get(drafts, jobs[j].key), jobs[j].reportType)
    && AllRender(render, drafts, jobs[..j])
  }

  /** Every present draft renders exactly when that holds for all but the last job and for the last. */
  lemma AllRenderSnoc(render: Renderer, drafts: Value, jobs: seq<Job>)
    requires |jobs| > 0
    ensures var last := jobs[|jobs| - 1];
      AllRender(render, drafts, jobs) <==>
        AllRender(render, drafts, jobs[..|jobs| - 1])
        && (Truthy(Get(drafts, last.key)) ==> Renders(render, Get(drafts, last.key), last.reportType))
  {
    assert forall i :: 0 <= i < |jobs| - 1 ==> jobs[..|jobs| - 1][i] == jobs[i];
  }

  /** The first failure among all but the last job is the first failure among all of them. */
  lemma FirstFailureExtends(render: Renderer, drafts: Value, jobs: seq<Job>, j: int)
    requires |jobs| > 0 && FirstFailure(render, drafts, jobs[..|jobs| - 1], j)
    ensures FirstFailure(render, drafts, jobs, j)
  {
    assert jobs[..|jobs| - 1][..j] == jobs[..j];
  }

  /**
   * The loop rejects exactly when some present draft does not render, and then with
   * the error of the first such draft.
   */
  lemma {:induction false} RunFails(intakeId: string, info: (string, Document) -> BlobInfo, render: Renderer,
                                    drafts: Value, jobs: seq<Job>)
    requires DistinctKeys(jobs)
    ensures var p := Run(intakeId, info, render, drafts, jobs);
      (p.error.None? <==> AllRender(render, drafts, jobs))
      && (p.error.Some? ==>
            exists j :: FirstFailure(render, drafts, jobs, j) && p.error == Some(JobError(render, jobs[j], Get(drafts, jobs[j].key))))
  {
    if |jobs| > 0 {
      var init := jobs[..|jobs| - 1];
      var n := |jobs| - 1;
      var last := jobs[n];
      assert forall i :: 0 <= i < |init| ==> init[i] == jobs[i];
      RunFails(intakeId, info, render, drafts, init);
      RunKeeps(intakeId, info, render, drafts, init, last.key);
      var p := Run(intakeId, info, render, drafts, init);
      assert Run(intakeId, info, render, drafts, jobs) == Step(intakeId, info, render, p, last);
      var draft := Get(drafts, last.key);
      assert Get(p.drafts, last.key) == draft;
      AllRenderSnoc(render, drafts, jobs);
      if p.error.Some? {
        var j :| FirstFailure(render, drafts, init, j) && p.error == Some(JobError(render, init[j], Get(drafts, init[j].key)));
        FirstFailureExtends(render, drafts, jobs, j);
      } else {
        StepCases(intakeId, info, render, p, last);
        if Truthy(draft) && !Renders(render, draft, last.reportType) {
          assert FirstFailure(render, drafts, jobs, n);
        }
      }
    }
  }

  /**
   * What a run that has not thrown has done for the present drafts: one stored
   * document per present draft, in job order, each the rendering of that draft with
   * its metadata object filled in and stored under the job's path; one answer entry
   * per stored document, under the draft key; and each present draft replaced by
   * its filled-in form.
   */
  predicate Uploaded(intakeId: string, info: (string, Document) -> BlobInfo, render: Renderer,
                     drafts: Value, present: seq<Job>, p: Progress)
  {
    |p.uploads| == |present| && |p.out| == |present|
    && forall i :: 0 <= i < |present| ==>
         Renders(render, Get(drafts, present[i].key), present[i].reportType)
         && p.uploads[i] == Upload(PathOf(intakeId, present[i]),
                                   render(WithMeta(Get(drafts, present[i].key)).value, present[i].reportType).value)
         && p.out[i] == Field(present[i].key, InfoValue(info(p.uploads[i].path, p.uploads[i].doc)))
         && Get(p.drafts, present[i].key) == WithMeta(Get(drafts, present[i].key)).value
  }

  /** A present draft that renders extends what has been uploaded by its own document. */
  lemma UploadedStep(intakeId: string, info: (string, Document) -> BlobInfo, render: Renderer,
                     drafts: Value, pre: seq<Job>, p: Progress, last: Job)
    requires Uploaded(intakeId, info, render, drafts, pre, p) && p.error.None?
    requires forall i :: 0 <= i < |pre| ==> pre[i].key != last.key
    requires Get(p.drafts, last.key) == Get(drafts, last.key)
    requires Renders(render, Get(drafts, last.key), last.reportType)
    ensures Uploaded(intakeId, info, render, drafts, pre + [last], Step(intakeId, info, render, p, last))
  {
    StepCases(intakeId, info, render, p, last);
    var q := Step(intakeId, info, render, p, last);
    var d := WithMeta(Get(drafts, last.key)).value;
    var doc := render(d, last.reportType).value;
    var path := PathOf(intakeId, last);
    StoreAppends(p.out, last.key, InfoValue(info(path, doc)));
    assert q == Progress(p.out + [Field(last.key, InfoValue(info(path, doc)))], Set(p.drafts, last.key, d),
                         p.uploads + [Upload(path, doc)], None);
    var present := pre + [last];
    forall i | 0 <= i < |present|
      ensures Get(q.drafts, present[i].key) == WithMeta(Get(drafts, present[i].key)).value
    {
      GetAfterSet(p.drafts, last.key, d, present[i].key);
    }
  }

  /** A loop that does not reject has uploaded every present draft. */
  lemma {:induction false} RunDone(intakeId: string, info: (string, Document) -> BlobInfo, render: Renderer,
                                   drafts: Value, jobs: seq<Job>)
    requires DistinctKeys(jobs)
    requires Run(intakeId, info, render, drafts, jobs).error.None?
    ensures Uploaded(intakeId, info, render, drafts, Present(drafts, jobs), Run(intakeId, info, render, drafts, jobs))
  {
    if |jobs| > 0 {
      var init := jobs[..|jobs| - 1];
      var n := |jobs| - 1;
      var last := jobs[n];
      assert forall i :: 0 <= i < |init| ==> init[i] == jobs[i];
      var p := Run(intakeId, info, render, drafts, init);
      var q := Run(intakeId, info, render, drafts, jobs);
      assert q == Step(intakeId, info, render, p, last);
      assert p.error.None?;
      RunDone(intakeId, info, render, drafts, init);
      RunKeeps(intakeId, info, render, drafts, init, last.key);
      StepCases(intakeId, info, render, p, last);
      var pre := Present(drafts, init);
      PresentFrom(drafts, init);
      if Truthy(Get(drafts, last.key)) {
        forall i | 0 <= i < |pre|
          ensures pre[i].key != last.key
        {
          assert pre[i] in init;
        }
        UploadedStep(intakeId, info, render, drafts, pre, p, last);
        assert Present(drafts, jobs) == pre + [last];
      } else {
        assert Present(drafts, jobs) == pre;
      }
    }
  }

  /** No two jobs write the same file. */
  predicate DistinctFiles(jobs: seq<Job>)
  {
    forall i, j :: 0 <= i < j < |jobs| ==> jobs[i].file != jobs[j].file
  }

  /** Jobs with different files are stored under different paths. */
  lemma PathsDiffer(intakeId: string, a: Job, b: Job)
    requires a.file != b.file
    ensures PathOf(intakeId, a) != PathOf(intakeId, b)
  {
    var n := |intakeId + "/"|;
    assert PathOf(intakeId, a)[n..] == a.file;
    assert PathOf(intakeId, b)[n..] == b.file;
  }

  /** Every job whose draft is present is among the present jobs. */
  lemma {:induction false} PresentHas(drafts: Value, jobs: seq<Job>, j: nat)
    requires j < |jobs| && Truthy(Get(drafts, jobs[j].key))
    ensures jobs[j] in Present(drafts, jobs)
  {
    var n := |jobs| - 1;
    var init := jobs[..n];
    var pre := Present(drafts, init);
    var post := if Truthy(Get(drafts, jobs[n].key)) then [jobs[n]] else [];
    assert Present(drafts, jobs) == pre + post;
    if j < n {
      assert init[j] == jobs[j];
      PresentHas(drafts, init, j);
      var k :| 0 <= k < |pre| && pre[k] == jobs[j];
      assert (pre + post)[k] == jobs[j];
    } else {
      assert (pre + post)[|pre|] == jobs[j];
    }
  }

  /** The present jobs keep distinct keys. */
  lemma {:induction false} PresentDistinct(drafts: Value, jobs: seq<Job>)
    requires DistinctKeys(jobs)
    ensures DistinctKeys(Present(drafts, jobs))
  {
    if |jobs| > 0 {
      var init := jobs[..|jobs| - 1];
      var last := jobs[|jobs| - 1];
      assert forall i :: 0 <= i < |init| ==> init[i] == jobs[i];
      PresentDistinct(drafts, init);
      var pre := Present(drafts, init);
      PresentFrom(drafts, init);
      if Truthy(Get(drafts, last.key)) {
        forall i | 0 <= i < |pre|
          ensures pre[i].key != last.key
        {
          assert pre[i] in init;
        }
      }
    }
  }

  /** The upload of the job at `j`, when its draft is present: the last one under its path and the only answer entry under its key. */
  lemma RunStoresPresent(intakeId: string, info: (string, Document) -> BlobInfo, render: Renderer,
                         drafts: Value, jobs: seq<Job>, blobs: map<string, Document>, j: nat)
    requires DistinctKeys(jobs) && DistinctFiles(jobs) && j < |jobs|
    requires Run(intakeId, info, render, drafts, jobs).error.None?
    requires Truthy(Get(drafts, jobs[j].key))
    ensures var p := Run(intakeId, info, render, drafts, jobs);
      var draft := Get(drafts, jobs[j].key);
      var path := PathOf(intakeId, jobs[j]);
      Renders(render, draft, jobs[j].reportType)
      && var doc := render(WithMeta(draft).value, jobs[j].reportType).value;
         path in Stored(blobs, p.uploads) && Stored(blobs, p.uploads)[path] == doc
         && Get(Obj(p.out), jobs[j].key) == InfoValue(info(path, doc))
         && Get(p.drafts, jobs[j].key) == WithMeta(draft).value
  {
    RunDone(intakeId, info, render, drafts, jobs);
    PresentHas(drafts, jobs, j);
    PresentDistinct(drafts, jobs);
    PresentFrom(drafts, jobs);
    var present := Present(drafts, jobs);
    var m :| 0 <= m < |present| && present[m] == jobs[j];
    UploadedAt(intakeId, info, render, drafts, jobs, present, Run(intakeId, info, render, drafts, jobs), blobs, j, m);
  }

  /** What the uploads say about the present job at `m`, which is the job at `j`. */
  lemma UploadedAt(intakeId: string, info: (string, Document) -> BlobInfo, render: Renderer, drafts: Value,
                   jobs: seq<Job>, present: seq<Job>, p: Progress, blobs: map<string, Document>, j: nat, m: nat)
    requires Uploaded(intakeId, info, render, drafts, present, p)
    requires DistinctKeys(present) && DistinctFiles(jobs)
    requires forall i :: 0 <= i < |present| ==> present[i] in jobs
    requires j < |jobs| && m < |present| && present[m] == jobs[j]
    ensures var draft := Get(drafts, jobs[j].key);
      var path := PathOf(intakeId, jobs[j]);
      Renders(render, draft, jobs[j].reportType)
      && var doc := render(WithMeta(draft).value, jobs[j].reportType).value;
         path in Stored(blobs, p.uploads) && Stored(blobs, p.uploads)[path] == doc
         && Get(Obj(p.out), jobs[j].key) == InfoValue(info(path, doc))
         && Get(p.drafts, jobs[j].key) == WithMeta(draft).value
  {
    forall m' | m < m' < |p.uploads|
      ensures p.uploads[m'].path != p.uploads[m].path
    {
      var a :| 0 <= a < |jobs| && jobs[a] == present[m'];
      assert present[m'].key != present[m].key;
      assert a != j;
      PathsDiffer(intakeId, jobs[a], jobs[j]);
    }
    StoredLast(blobs, p.uploads, m);
    forall m' | 0 <= m' < m
      ensures p.out[m'].key != p.out[m].key
    {
      assert present[m'].key != present[m].key;
    }
    LookupFirst(p.out, m);
  }

  /** When the draft of the job at `j` is absent, nothing is stored under its path and the answer has no entry for it. */
  lemma RunStoresAbsent(intakeId: string, info: (string, Document) -> BlobInfo, render: Renderer,
                        drafts: Value, jobs: seq<Job>, blobs: map<string, Document>, j: nat)
    requires DistinctKeys(jobs) && DistinctFiles(jobs) && j < |jobs|
    requires Run(intakeId, info, render, drafts, jobs).error.None?
    requires !Truthy(Get(drafts, jobs[j].key))
    ensures var p := Run(intakeId, info, render, drafts, jobs);
      var path := PathOf(intakeId, jobs[j]);
      (path in Stored(blobs, p.uploads) <==> path in blobs)
      && (path in blobs ==> Stored(blobs, p.uploads)[path] == blobs[path])
      && Get(Obj(p.out), jobs[j].key) == Undefined
      && Get(p.drafts, jobs[j].key) == Get(drafts, jobs[j].key)
  {
    var p := Run(intakeId, info, render, drafts, jobs);
    RunDone(intakeId, info, render, drafts, jobs);
    RunKeeps(intakeId, info, render, drafts, jobs, jobs[j].key);
    PresentFrom(drafts, jobs);
    var present := Present(drafts, jobs);
    forall m | 0 <= m < |present|
      ensures p.uploads[m].path != PathOf(intakeId, jobs[j]) && p.out[m].key != jobs[j].key
    {
      var a :| 0 <= a < |jobs| && jobs[a] == present[m];
      assert a != j;
      PathsDiffer(intakeId, jobs[a], jobs[j]);
    }
    StoredKeeps(blobs, p.uploads, PathOf(intakeId, jobs[j]));
  }

  /** The document of the upload at `i` is what its path holds when no later upload reuses the path. */
  lemma {:induction false} StoredLast(blobs: map<string, Document>, uploads: seq<Upload>, i: nat)
    requires i < |uploads|
    requires forall j :: i < j < |uploads| ==> uploads[j].path != uploads[i].path
    ensures uploads[i].path in Stored(blobs, uploads) && Stored(blobs, uploads)[uploads[i].path] == uploads[i].doc
  {
    if i < |uploads| - 1 {
      var init := uploads[..|uploads| - 1];
      assert init[i] == uploads[i];
      StoredLast(blobs, init, i);
    }
  }

  /** A path no upload uses keeps what it held. */
  lemma {:induction false} StoredKeeps(blobs: map<string, Document>, uploads: seq<Upload>, k: string)
    requires forall j :: 0 <= j < |uploads| ==> uploads[j].path != k
    ensures k in Stored(blobs, uploads) <==> k in blobs
    ensures k in blobs ==> Stored(blobs, uploads)[k] == blobs[k]
  {
    if |uploads| > 0 {
      var init := uploads[..|uploads| - 1];
      assert forall j :: 0 <= j < |init| ==> init[j] == uploads[j];
      StoredKeeps(blobs, init, k);
    }
  }

  /**
   * Filling in `meta` touches nothing else: every other key reads as before, `meta`
   * becomes `meta || {}`, and a draft whose `meta` is truthy is left as it was.
   */
  lemma WithMetaShape(d: Value)
    requires Truthy(d)
    ensures WithMeta(d).None? <==> !d.Obj? && !d.Arr?
    ensures d.Obj? ==> Get(WithMeta(d).value, "meta") == Or(Get(d, "meta"), Obj([]))
    ensures d.Obj? && Truthy(Get(d, "meta")) ==> WithMeta(d) == Some(d)
    ensures d.Arr? ==> WithMeta(d) == Some(d)
  {
    if d.Obj? {
      GetAfterSet(d, "meta", Or(Get(d, "meta"), Obj([])), "meta");
      if Truthy(Get(d, "meta")) {
        StoreSame(d.fields, "meta");
      }
    }
  }

  lemma WithMetaKeeps(d: Value, k: string)
    requires WithMeta(d).Some? && k != "meta"
    ensures Get(WithMeta(d).value, k) == Get(d, k)
  {
    if d.Obj? {
      GetAfterSet(d, "meta", Or(Get(d, "meta"), Obj([])), k);
    }
  }

  /** The metadata a layout reads is the same before and after filling in `meta`. */
  lemma WithMetaMetadata(d: Value, reportType: string)
    requires WithMeta(d).Some?
    ensures Metadata(WithMeta(d).value, reportType) == Metadata(d, reportType)
    ensures DocTitle(WithMeta(d).value, reportType) == DocTitle(d, reportType)
  {
    WithMetaShape(d);
  }

  lemma WithMetaEarlyWarning(d: Value)
    requires WithMeta(d).Some?
    ensures EarlyWarningBody(WithMeta(d).value) == EarlyWarningBody(d)
  {
    WithMetaKeeps(d, "summary");
    WithMetaKeeps(d, "likelyCause");
    WithMetaKeeps(d, "crossBorder");
    WithMetaKeeps(d, "support");
  }

  /** The incident notification reads only these keys of the draft. */
  lemma IncidentNotificationReads(d1: Value, d2: Value)
    requires Get(d1, "impact") == Get(d2, "impact") && Get(d1, "initialImpact") == Get(d2, "initialImpact")
    requires Get(d1, "iocs") == Get(d2, "iocs") && Get(d1, "indicatorsOfCompromise") == Get(d2, "indicatorsOfCompromise")
    requires Get(d1, "actions") == Get(d2, "actions") && Get(d1, "mitigationSteps") == Get(d2, "mitigationSteps")
    requires Get(d1, "dependencies") == Get(d2, "dependencies") && Get(d1, "timeline") == Get(d2, "timeline")
    ensures IncidentNotificationBody(d1) == IncidentNotificationBody(d2)
  {
  }

  lemma WithMetaIncidentNotification(d: Value)
    requires WithMeta(d).Some?
    ensures IncidentNotificationBody(WithMeta(d).value) == IncidentNotificationBody(d)
  {
    WithMetaKeeps(d, "impact");
    WithMetaKeeps(d, "initialImpact");
    WithMetaKeeps(d, "iocs");
    WithMetaKeeps(d, "indicatorsOfCompromise");
    WithMetaKeeps(d, "actions");
    WithMetaKeeps(d, "mitigationSteps");
    WithMetaKeeps(d, "dependencies");
    WithMetaKeeps(d, "timeline");
    IncidentNotificationReads(WithMeta(d).value, d);
  }

  /** The final report reads only these keys of the draft. */
  lemma FinalReportReads(d1: Value, d2: Value)
    requires Get(d1, "rootCause") == Get(d2, "rootCause")
    requires Get(d1, "mitigation") == Get(d2, "mitigation") && Get(d1, "preventiveMeasures") == Get(d2, "preventiveMeasures")
    requires Get(d1, "iocs") == Get(d2, "iocs")
    requires Get(d1, "timeline") == Get(d2, "timeline") && Get(d1, "fullTimeline") == Get(d2, "fullTimeline")
    requires Get(d1, "lessons") == Get(d2, "lessons") && Get(d1, "lessonsLearned") == Get(d2, "lessonsLearned")
    requires Get(d1, "finalImpact") == Get(d2, "finalImpact") && Get(d1, "detailedImpact") == Get(d2, "detailedImpact")
    ensures FinalReportBody(d1) == FinalReportBody(d2)
  {
  }

  lemma WithMetaFinalReport(d: Value)
    requires WithMeta(d).Some?
    ensures FinalReportBody(WithMeta(d).value) == FinalReportBody(d)
  {
    WithMetaKeeps(d, "rootCause");
    WithMetaKeeps(d, "mitigation");
    WithMetaKeeps(d, "preventiveMeasures");
    WithMetaKeeps(d, "iocs");
    WithMetaKeeps(d, "timeline");
    WithMetaKeeps(d, "fullTimeline");
    WithMetaKeeps(d, "lessons");
    WithMetaKeeps(d, "lessonsLearned");
    WithMetaKeeps(d, "finalImpact");
    WithMetaKeeps(d, "detailedImpact");
    FinalReportReads(WithMeta(d).value, d);
  }

  lemma WithMetaBody(d: Value, reportType: string)
    requires WithMeta(d).Some?
    ensures Body(WithMeta(d).value, reportType) == Body(d, reportType)
  {
    if reportType == "EARLY_WARNING" {
      WithMetaEarlyWarning(d);
    } else if reportType == "INCIDENT_NOTIFICATION" {
      WithMetaIncidentNotification(d);
    } else if reportType == "FINAL_REPORT" {
      WithMetaFinalReport(d);
    }
  }

  /** Filling in `meta` does not change the rendered document. */
  lemma WithMetaLayout(d: Value, reportType: string)
    requires WithMeta(d).Some?
    ensures Layout(WithMeta(d).value, reportType) == Layout(d, reportType)
  {
    WithMetaMetadata(d, reportType);
    WithMetaBody(d, reportType);
  }

  /** The three jobs differ in key and in file. */
  lemma JobsDistinct()
    ensures DistinctKeys(Jobs) && DistinctFiles(Jobs)
  {
  }

  /**
   * The jobs name the reports of the model's target schema, in its order, and the
   * placeholder drafts the intake answers with carry each job's report type.
   */
  lemma JobsMatchSchema(i: nat)
    requires i < |Jobs|
    ensures i < |Prompts.TargetSchema|
    ensures Jobs[i].key == Prompts.TargetSchema[i].key && Jobs[i].reportType == Prompts.TargetSchema[i].reportType
    ensures Get(Get(Intake.Drafts, Jobs[i].key), "reportType") == Str(Jobs[i].reportType)
  {
    Prompts.SchemaReports();
  }

  /**
   * `generateAndUploadPDFs` resolves exactly when every present draft gets its
   * metadata object and lays out; it rejects with the error of the first that does not.
   */
  lemma UploadFails(info: (string, Document) -> BlobInfo, intakeId: string, drafts: Value)
    ensures var p := Run(intakeId, info, Layout, drafts, Jobs);
      (p.error.None? <==> AllRender(Layout, drafts, Jobs))
      && (p.error.Some? ==>
            exists j :: FirstFailure(Layout, drafts, Jobs, j) && p.error == Some(JobError(Layout, Jobs[j], Get(drafts, Jobs[j].key))))
  {
    JobsDistinct();
    RunFails(intakeId, info, Layout, drafts, Jobs);
  }

  /**
   * After `generateAndUploadPDFs` resolves, the file of each report whose draft is
   * present holds that draft's layout, and the answer maps the draft key to what
   * `put` reported for it; a report whose draft is absent leaves its path as it was
   * and has no entry in the answer.
   */
  lemma UploadStoresLayouts(blobs: map<string, Document>, info: (string, Document) -> BlobInfo,
                            intakeId: string, drafts: Value, j: nat)
    requires j < |Jobs|
    requires Run(intakeId, info, Layout, drafts, Jobs).error.None?
    ensures var p := Run(intakeId, info, Layout, drafts, Jobs);
      var draft := Get(drafts, Jobs[j].key);
      var path := PathOf(intakeId, Jobs[j]);
      (Truthy(draft) ==>
         Layout(draft, Jobs[j].reportType).Success?
         && var doc := Layout(draft, Jobs[j].reportType).value;
            path in Stored(blobs, p.uploads) && Stored(blobs, p.uploads)[path] == doc
            && Get(Obj(p.out), Jobs[j].key) == InfoValue(info(path, doc)))
      && (!Truthy(draft) ==>
            (path in Stored(blobs, p.uploads) <==> path in blobs)
            && (path in blobs ==> Stored(blobs, p.uploads)[path] == blobs[path])
            && Get(Obj(p.out), Jobs[j].key) == Undefined)
  {
    JobsDistinct();
    var draft := Get(drafts, Jobs[j].key);
    if Truthy(draft) {
      RunStoresPresent(intakeId, info, Layout, drafts, Jobs, blobs, j);
      WithMetaLayout(draft, Jobs[j].reportType);
    } else {
      RunStoresAbsent(intakeId, info, Layout, drafts, Jobs, blobs, j);
    }
  }
}
