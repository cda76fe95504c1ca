/**
 * `collectFiles`: the attachment metadata an intake request carries. At most three
 * entries are allowed; entries without a name or without data are skipped; a kept
 * entry whose declared size exceeds 3 MiB rejects the whole batch.
 */
module Attachments {
  import opened Wrappers
  import opened JsCore
  import opened Json

  const MaxFiles := 3
  const MaxSize := 3 * 1024 * 1024
  const MaxNameLength := 200

  const TooManyFilesMessage := "Maximal 3 Dateien erlaubt."

  /** The message for a kept entry that is too large; `name` is the already shortened name. */
  function TooLargeMessage(name: string): string
  {
    "Datei zu groß: " + name + " (max. 3 MB)"
  }

  /** The `{ name, type, size }` record kept for an entry (`mimeType` is `type`). */
  datatype FileMeta = FileMeta(name: string, mimeType: string, size: Number)

  /** `s.slice(0, n)` */
  function SliceTo(s: string, n: nat): (r: string)
    ensures |r| <= n && r <= s
    ensures |s| <= n ==> r == s
    ensures |s| > n ==> |r| == n
  {
    if |s| <= n then s else s[..n]
  }

  /** `String(f?.name || "").slice(0, 200)` */
  function FileName(f: Value): string
  {
    SliceTo(ToJsString(Or(Get(f, "name"), Str(""))), MaxNameLength)
  }

  /** `String(f?.type || "") || "unknown"` */
  function FileType(f: Value): string
  {
    var t := ToJsString(Or(Get(f, "type"), Str("")));
    if t == "" then "unknown" else t
  }

  /** `Number(f?.size || 0)` */
  function FileSize(f: Value): Number
  {
    ToNumber(Or(Get(f, "size"), Num(0)))
  }

  /** `String(f?.data || "")`, the base64 payload. */
  function FileData(f: Value): string
  {
    ToJsString(Or(Get(f, "data"), Str("")))
  }

  /** `!name || !base64`: the entry is passed over. */
  predicate Skipped(f: Value) { FileName(f) == "" || FileData(f) == "" }

  /** `size > MAX_SIZE`; a NaN size is never too large. */
  predicate Oversized(f: Value) { FileSize(f).GreaterThan(MaxSize) }

  function Meta(f: Value): FileMeta
  {
    FileMeta(FileName(f), FileType(f), FileSize(f))
  }

  /** What the loop body decides for one entry. */
  datatype Verdict = Skip | TooLarge(name: string) | Keep(meta: FileMeta)

  /** `continue` for an entry without name or data, the throw for one that is too large, else the push. */
  function Judge(f: Value): (v: Verdict)
    ensures v.Skip? <==> Skipped(f)
    ensures v.TooLarge? <==> !Skipped(f) && Oversized(f)
    ensures v.TooLarge? ==> v.name == FileName(f)
    ensures v.Keep? ==> v.meta == Meta(f)
  {
    if Skipped(f) then Skip
    else if Oversized(f) then TooLarge(FileName(f))
    else Keep(Meta(f))
  }

  /** A kept record has a non-empty name of at most 200 characters, a non-empty type and an allowed size. */
  predicate WellFormed(m: FileMeta) {
    0 < |m.name| <= MaxNameLength && m.mimeType != "" && !m.size.GreaterThan(MaxSize)
  }

  lemma KeepIsWellFormed(f: Value)
    ensures Judge(f).Keep? ==> WellFormed(Judge(f).meta)
  {
  }

  /** `Array.isArray(filesInput) ? filesInput : []` */
  function FileList(input: Value): seq<Value>
  {
    if input.Arr? then input.items else []
  }

  function Verdicts(files: seq<Value>): (vs: seq<Verdict>)
    ensures |vs| == |files| && forall i :: 0 <= i < |files| ==> vs[i] == Judge(files[i])
  {
    seq(|files|, i requires 0 <= i < |files| => Judge(files[i]))
  }

  /** The loop of `collectFiles` over the verdicts of the entries, front to back. */
  function Run(vs: seq<Verdict>): Result<seq<FileMeta>, string>
  {
    if |vs| == 0 then Success([])
    else match vs[0]
      case Skip => Run(vs[1..])
      case TooLarge(name) => Failure(TooLargeMessage(name))
      case Keep(m) => Prepend([m], Run(vs[1..]))
  }

  /** `collectFiles(filesInput)`; a thrown error becomes `Failure(message)`. */
  function Collect(input: Value): Result<seq<FileMeta>, string>
  {
    var files := FileList(input);
    if |files| > MaxFiles then Failure(TooManyFilesMessage) else Run(Verdicts(files))
  }

  /** Records already pushed, followed by what the rest of the loop yields. */
  function Prepend(out: seq<FileMeta>, r: Result<seq<FileMeta>, string>): Result<seq<FileMeta>, string>
  {
    match r
    case Success(rest) => Success(out + rest)
    case Failure(e) => Failure(e)
  }

  /** `collectFiles`, pushing into `out` and throwing on the first entry that is too large. */
  method CollectFiles(input: Value) returns (r: Result<seq<FileMeta>, string>)
    ensures r == Collect(input)
  {
    var files := if input.Arr? then input.items else [];
    if |files| > MaxFiles {
      return Failure(TooManyFilesMessage);
    }
    ghost var vs := Verdicts(files);
    var out: seq<FileMeta> := [];
    var i := 0;
    assert vs[0..] == vs;
    PrependNothing(Run(vs));
    while i < |files|
      invariant 0 <= i <= |files|
      invariant Run(vs) == Prepend(out, Run(vs[i..]))
    {
      var f := files[i];
      var name := FileName(f);
      var mimeType := FileType(f);
      var size := FileSize(f);
      var base64 := FileData(f);
      RunStep(vs, files, i);
      if name == "" || base64 == "" {
        i := i + 1;
        continue;
      }
      if size.GreaterThan(MaxSize) {
        return Failure(TooLargeMessage(name));
      }
      PrependTwice(out, [FileMeta(name, mimeType, size)], Run(vs[i + 1..]));
      out := out + [FileMeta(name, mimeType, size)];
      i := i + 1;
    }
    assert vs[i..] == [] && out + [] == out;
    return Success(out);
  }

  /** One turn of the loop: what entry `i` contributes, in the terms the loop body tests. */
  lemma RunStep(vs: seq<Verdict>, files: seq<Value>, i: int)
    requires vs == Verdicts(files) && 0 <= i < |files|
    ensures var f := files[i];
      Run(vs[i..]) ==
        if FileName(f) == "" || FileData(f) == "" then Run(vs[i + 1..])
        else if FileSize(f).GreaterThan(MaxSize) then Failure(TooLargeMessage(FileName(f)))
        else Prepend([FileMeta(FileName(f), FileType(f), FileSize(f))], Run(vs[i + 1..]))
  {
    assert vs[i..][0] == Judge(files[i]) && vs[i..][1..] == vs[i + 1..];
  }

  lemma PrependNothing(r: Result<seq<FileMeta>, string>)
    ensures Prepend([], r) == r
  {
    if r.Success? {
      assert [] + r.value == r.value;
    }
  }

  lemma PrependTwice(a: seq<FileMeta>, b: seq<FileMeta>, r: Result<seq<FileMeta>, string>)
    ensures Prepend(a, Prepend(b, r)) == Prepend(a + b, r)
  {
    if r.Success? {
      assert a + (b + r.value) == a + b + r.value;
    }
  }

  /** The records of the kept entries, in input order: an independent reference for the result. */
  function KeptOf(vs: seq<Verdict>): seq<FileMeta>
  {
    if |vs| == 0 then []
    else (if vs[0].Keep? then [vs[0].meta] else []) + KeptOf(vs[1..])
  }

  /** Verdict `i` is the first `TooLarge`. */
  predicate FirstTooLarge(vs: seq<Verdict>, i: int)
  {
    0 <= i < |vs| && vs[i].TooLarge? && forall j :: 0 <= j < i ==> !vs[j].TooLarge?
  }

  /** With no entry too large, the loop yields the kept records. */
  lemma {:induction false} RunSucceeds(vs: seq<Verdict>)
    requires forall i :: 0 <= i < |vs| ==> !vs[i].TooLarge?
    ensures Run(vs) == Success(KeptOf(vs))
  {
    if |vs| > 0 {
      assert forall i :: 0 <= i < |vs| - 1 ==> vs[1..][i] == vs[i + 1];
      RunSucceeds(vs[1..]);
      assert [] + KeptOf(vs[1..]) == KeptOf(vs[1..]);
    }
  }

  /** The first kept entry that is too large aborts the batch with its name in the message. */
  lemma {:induction false} RunFails(vs: seq<Verdict>, i: int)
    requires FirstTooLarge(vs, i)
    ensures Run(vs) == Failure(TooLargeMessage(vs[i].name))
  {
    if i > 0 {
      assert forall j :: 0 <= j < |vs| - 1 ==> vs[1..][j] == vs[j + 1];
      assert FirstTooLarge(vs[1..], i - 1);
      RunFails(vs[1..], i - 1);
    }
  }

  /** Every failure of the loop comes from a first `TooLarge` verdict. */
  lemma {:induction false} RunFailureCause(vs: seq<Verdict>)
    ensures Run(vs).Failure? ==> exists i :: FirstTooLarge(vs, i) && Run(vs).error == TooLargeMessage(vs[i].name)
  {
    if |vs| > 0 && Run(vs).Failure? {
      if vs[0].TooLarge? {
        assert FirstTooLarge(vs, 0);
      } else {
        RunFailureCause(vs[1..]);
        var i :| FirstTooLarge(vs[1..], i) && Run(vs[1..]).error == TooLargeMessage(vs[1..][i].name);
        assert forall j :: 0 <= j < |vs| - 1 ==> vs[1..][j] == vs[j + 1];
        assert FirstTooLarge(vs, i + 1);
      }
    }
  }

  /** The loop succeeds exactly when no entry is too large, and then returns the kept records. */
  lemma RunOutcome(vs: seq<Verdict>)
    ensures Run(vs).Success? <==> forall i :: 0 <= i < |vs| ==> !vs[i].TooLarge?
    ensures Run(vs).Success? ==> Run(vs).value == KeptOf(vs)
  {
    RunFailureCause(vs);
    if forall i :: 0 <= i < |vs| ==> !vs[i].TooLarge? {
      RunSucceeds(vs);
    }
  }

  function Shift(xs: seq<int>): (r: seq<int>)
    ensures |r| == |xs| && forall k :: 0 <= k < |xs| ==> r[k] == xs[k] + 1
  {
    if |xs| == 0 then [] else [xs[0] + 1] + Shift(xs[1..])
  }

  /** The positions of the `Keep` verdicts, front to back. */
  function KeepPositions(vs: seq<Verdict>): seq<int>
  {
    if |vs| == 0 then []
    else if vs[0].Keep? then [0] + Shift(KeepPositions(vs[1..]))
    else Shift(KeepPositions(vs[1..]))
  }

  lemma {:induction false} PositionsCount(vs: seq<Verdict>)
    ensures |KeepPositions(vs)| == |KeptOf(vs)|
  {
    if |vs| > 0 {
      PositionsCount(vs[1..]);
    }
  }

  /** Record `k` of the result is the record of the entry at the `k`-th kept position. */
  lemma {:induction false} KeptAtPositions(vs: seq<Verdict>)
    ensures |KeepPositions(vs)| == |KeptOf(vs)|
    ensures forall k :: 0 <= k < |KeptOf(vs)| ==>
      0 <= KeepPositions(vs)[k] < |vs| && vs[KeepPositions(vs)[k]].Keep? && KeptOf(vs)[k] == vs[KeepPositions(vs)[k]].meta
  {
    PositionsCount(vs);
    if |vs| > 0 {
      KeptAtPositions(vs[1..]);
      var p := KeepPositions(vs[1..]);
      var tail := KeptOf(vs[1..]);
      var q := Shift(p);
      var head := if vs[0].Keep? then [vs[0].meta] else [];
      var front := if vs[0].Keep? then [0] else [];
      assert KeptOf(vs) == head + tail;
      assert KeepPositions(vs) == front + q;
      forall k | 0 <= k < |KeptOf(vs)|
        ensures 0 <= KeepPositions(vs)[k] < |vs| && vs[KeepPositions(vs)[k]].Keep? && KeptOf(vs)[k] == vs[KeepPositions(vs)[k]].meta
      {
        if k >= |head| {
          var j := k - |head|;
          assert KeptOf(vs)[k] == tail[j] && KeepPositions(vs)[k] == q[j];
          assert vs[q[j]] == vs[1..][p[j]];
        }
      }
    }
  }

  /** The kept positions are strictly increasing: the result keeps the input order. */
  lemma {:induction false} PositionsIncrease(vs: seq<Verdict>)
    ensures forall k :: 0 <= k < |KeepPositions(vs)| ==> 0 <= KeepPositions(vs)[k] < |vs|
    ensures forall k, l :: 0 <= k < l < |KeepPositions(vs)| ==> KeepPositions(vs)[k] < KeepPositions(vs)[l]
  {
    if |vs| > 0 {
      PositionsIncrease(vs[1..]);
      var q := Shift(KeepPositions(vs[1..]));
      assert forall k, l :: 0 <= k < l < |q| ==> q[k] < q[l];
      assert forall k :: 0 <= k < |q| ==> 1 <= q[k] <= |vs| - 1;
    }
  }

  /** Every kept entry has its position listed: nothing kept is dropped. */
  lemma {:induction false} PositionsComplete(vs: seq<Verdict>)
    ensures forall i :: 0 <= i < |vs| && vs[i].Keep? ==> i in KeepPositions(vs)
  {
    if |vs| > 0 {
      PositionsComplete(vs[1..]);
      var p := KeepPositions(vs[1..]);
      forall i | 1 <= i < |vs| && vs[i].Keep? ensures i in Shift(p) {
        assert vs[1..][i - 1] == vs[i];
        var k :| 0 <= k < |p| && p[k] == i - 1;
        assert Shift(p)[k] == i;
      }
    }
  }

  /**
   * The kept records form an order-preserving subsequence of the entries: record `k`
   * is the record of the entry at position `KeepPositions(vs)[k]`, the positions
   * increase, and every kept entry is among them.
   */
  lemma KeptIsSubsequence(vs: seq<Verdict>)
    ensures |KeepPositions(vs)| == |KeptOf(vs)|
    ensures forall k :: 0 <= k < |KeptOf(vs)| ==>
      0 <= KeepPositions(vs)[k] < |vs| && vs[KeepPositions(vs)[k]].Keep? && KeptOf(vs)[k] == vs[KeepPositions(vs)[k]].meta
    ensures forall k, l :: 0 <= k < l < |KeepPositions(vs)| ==> KeepPositions(vs)[k] < KeepPositions(vs)[l]
    ensures forall i :: 0 <= i < |vs| && vs[i].Keep? ==> i in KeepPositions(vs)
  {
    KeptAtPositions(vs);
    PositionsIncrease(vs);
    PositionsComplete(vs);
  }

  lemma {:induction false} KeptShorter(vs: seq<Verdict>)
    ensures |KeptOf(vs)| <= |vs|
    ensures (forall i :: 0 <= i < |vs| && vs[i].Keep? ==> WellFormed(vs[i].meta)) ==>
      forall m :: m in KeptOf(vs) ==> WellFormed(m)
  {
    if |vs| > 0 {
      assert forall i :: 0 <= i < |vs| - 1 ==> vs[1..][i] == vs[i + 1];
      KeptShorter(vs[1..]);
    }
  }

  /**
   * `collectFiles` succeeds exactly when there are at most three entries and no entry
   * with a name and data declares more than 3 MiB; it then returns the kept records.
   * Otherwise it fails on the count, or on the first such entry with that entry's name.
   */
  lemma CollectOutcome(input: Value)
    ensures var files := FileList(input);
      Collect(input).Success? <==>
        |files| <= MaxFiles && forall i :: 0 <= i < |files| ==> Skipped(files[i]) || !Oversized(files[i])
    ensures Collect(input).Success? ==> Collect(input).value == KeptOf(Verdicts(FileList(input)))
    ensures Collect(input).Failure? && |FileList(input)| <= MaxFiles ==>
      exists i :: FirstTooLarge(Verdicts(FileList(input)), i)
        && Collect(input).error == TooLargeMessage(FileName(FileList(input)[i]))
  {
    RunOutcome(Verdicts(FileList(input)));
    RunFailureCause(Verdicts(FileList(input)));
  }

  /** At most three records, each well formed, in the order of the entries they came from. */
  lemma CollectBounds(input: Value)
    ensures Collect(input).Success? ==> |Collect(input).value| <= MaxFiles
    ensures Collect(input).Success? ==> forall m :: m in Collect(input).value ==> WellFormed(m)
  {
    var vs := Verdicts(FileList(input));
    RunOutcome(vs);
    forall i | 0 <= i < |vs| && vs[i].Keep? ensures WellFormed(vs[i].meta) {
      KeepIsWellFormed(FileList(input)[i]);
    }
    KeptShorter(vs);
  }

  /**
   * A successful result lists the records of the entries at the kept positions, in
   * increasing position order, and every entry that is kept is represented.
   */
  lemma CollectIsSubsequence(input: Value)
    ensures var files := FileList(input);
      var pos := KeepPositions(Verdicts(files));
      Collect(input).Success? ==>
        && |Collect(input).value| == |pos|
        && (forall k :: 0 <= k < |pos| ==> 0 <= pos[k] < |files| && Collect(input).value[k] == Meta(files[pos[k]]))
        && (forall k, l :: 0 <= k < l < |pos| ==> pos[k] < pos[l])
        && (forall i :: 0 <= i < |files| && !Skipped(files[i]) && !Oversized(files[i]) ==> i in pos)
  {
    var files := FileList(input);
    RunOutcome(Verdicts(files));
    KeptIsSubsequence(Verdicts(files));
  }

  /** The count is checked before any entry is looked at: more than three entries always fail. */
  lemma TooManyFiles(input: Value)
    ensures Collect(input) == Failure(TooManyFilesMessage) <==> |FileList(input)| > MaxFiles
  {
    var vs := Verdicts(FileList(input));
    RunFailureCause(vs);
    if |FileList(input)| <= MaxFiles && Collect(input).Failure? {
      var i :| FirstTooLarge(vs, i) && Run(vs).error == TooLargeMessage(vs[i].name);
      assert TooLargeMessage(vs[i].name)[0] != TooManyFilesMessage[0];
    }
  }

  /** Anything but an array counts as no files at all. */
  lemma NonArrayIsEmpty(input: Value)
    requires !input.Arr?
    ensures Collect(input) == Success([])
  {
  }

  /** An entry without data is skipped whatever size it declares. */
  lemma OversizedEmptySlotIgnored(f: Value)
    requires FileData(f) == "" && Oversized(f)
    ensures Judge(f) == Skip
  {
  }

  /** The size limit is inclusive: an entry of exactly 3 MiB is kept, one byte more is too large. */
  lemma SizeLimit(f: Value, n: string, d: string, size: int)
    requires Get(f, "name") == Str(n) && Get(f, "data") == Str(d) && Get(f, "size") == Num(size)
    requires n != "" && d != ""
    ensures size == MaxSize ==> Judge(f) == Keep(FileMeta(SliceTo(n, MaxNameLength), FileType(f), Finite(MaxSize)))
    ensures size == MaxSize + 1 ==> Judge(f) == TooLarge(SliceTo(n, MaxNameLength))
  {
  }

  /**
   * A size text that does not read as a number gives NaN, which is never greater than
   * the limit, so an entry with name, data and such a size is kept with size NaN.
   */
  lemma NonNumericSizeKept(f: Value, n: string, d: string, size: string)
    requires Get(f, "name") == Str(n) && Get(f, "data") == Str(d) && Get(f, "size") == Str(size)
    requires n != "" && d != "" && size != "" && StringToNumber(size) == NaN
    ensures FileSize(f) == NaN && !Oversized(f)
    ensures Judge(f) == Keep(FileMeta(SliceTo(n, MaxNameLength), FileType(f), NaN))
  {
    NonNumericSize(f, size);
    NamedEntry(f, n, d);
  }

  /** `Number(f?.size || 0)` of a non-empty size text that reads as NaN is NaN, which is not too large. */
  lemma NonNumericSize(f: Value, size: string)
    requires Get(f, "size") == Str(size) && size != "" && StringToNumber(size) == NaN
    ensures FileSize(f) == NaN && !Oversized(f)
  {
  }

  /** An entry with a non-empty name and data is not skipped. */
  lemma NamedEntry(f: Value, n: string, d: string)
    requires Get(f, "name") == Str(n) && Get(f, "data") == Str(d) && n != "" && d != ""
    ensures FileName(f) == SliceTo(n, MaxNameLength) && !Skipped(f)
  {
  }

  /** "abc" is such a size. */
  lemma NonNumericIsNaN()
    ensures StringToNumber("abc") == NaN
  {
    TrimFixed("abc");
    assert !IsDigit("abc"[0]) && !IsDigit("abc"[1..][0]);
  }

  /** A single entry of exactly 3 MiB is accepted; one byte more rejects the batch. */
  lemma SingleFileLimit(f: Value, n: string, d: string, size: int)
    requires Get(f, "name") == Str(n) && Get(f, "data") == Str(d) && Get(f, "size") == Num(size)
    requires n != "" && d != ""
    ensures size == MaxSize ==>
      Collect(Arr([f])) == Success([FileMeta(SliceTo(n, MaxNameLength), FileType(f), Finite(MaxSize))])
    ensures size == MaxSize + 1 ==> Collect(Arr([f])) == Failure(TooLargeMessage(SliceTo(n, MaxNameLength)))
  {
    SizeLimit(f, n, d, size);
    var vs := Verdicts([f]);
    assert vs == [Judge(f)] && vs[1..] == [];
    match Judge(f) {
      case Keep(m) => assert Run(vs) == Prepend([m], Success([])) && [m] + [] == [m];
      case TooLarge(name) => assert Run(vs) == Failure(TooLargeMessage(name));
      case Skip =>
    }
  }

  /** A name longer than 200 characters is cut to its first 200. */
  lemma NameTruncated(f: Value, n: string)
    requires Get(f, "name") == Str(n) && |n| > MaxNameLength
    ensures FileName(f) == n[..MaxNameLength]
  {
  }

  /** The type falls back to "unknown" exactly when it would be empty. */
  lemma TypeDefault(f: Value)
    ensures var t := ToJsString(Or(Get(f, "type"), Str("")));
      && FileType(f) != ""
      && (t != "" ==> FileType(f) == t)
      && (FileType(f) == "unknown" <==> t == "" || t == "unknown")
  {
  }
}
