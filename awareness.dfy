/**
 * Resolving the awareness instant of an incident report from the request body:
 * the raw `awarenessTime` text, an optional timezone-offset hint, the
 * `YYYY-MM-DDTHH:mm` (datetime-local) form, a general ISO parse as fallback and,
 * failing all of these, the current time.
 */
module Awareness {
  import opened Wrappers
  import opened JsCore
  import opened Json
  import opened CivilTime
  import opened Deadlines

  /** A hint field and the sign that turns its value into minutes east of UTC. */
  datatype Candidate = Candidate(field: string, mult: int)

  /** The hint fields in priority order. */
  const Candidates: seq<Candidate> := [
    Candidate("awarenessOffsetMinutes", 1),
    Candidate("awarenessClientOffsetMinutes", 1),
    Candidate("awarenessTimezoneOffset", -1),
    Candidate("awarenessClientTimezoneOffset", -1)
  ]

  /** The offset object `extractOffset` returns. */
  datatype OffsetHint = OffsetHint(source: string, rawMinutes: int, appliedMinutes: int)

  /** A hint value is skipped when it is undefined, null or "". */
  predicate Absent(v: Value) {
    v.Undefined? || v.Null? || v == Str("")
  }

  /** The minutes a hint value gives, or None when the hint is skipped. */
  function HintMinutes(v: Value): (r: Option<int>)
    ensures r.Some? <==> !Absent(v) && ToNumber(v).IsFinite()
    ensures r.Some? ==> ToNumber(v) == Finite(r.value)
  {
    if Absent(v) then None
    else match ToNumber(v)
      case Finite(n) => Some(n)
      case _ => None
  }

  /** The first usable hint among `cands`. */
  function FirstHint(body: Value, cands: seq<Candidate>): Option<OffsetHint>
  {
    if |cands| == 0 then None
    else match HintMinutes(Get(body, cands[0].field))
      case Some(n) => Some(OffsetHint(cands[0].field, n, n * cands[0].mult))
      case None => FirstHint(body, cands[1..])
  }

  /** What `extractOffset(body)` returns: nothing for a falsy body, else the first usable hint. */
  function Offset(body: Value): Option<OffsetHint>
  {
    if !Truthy(body) then None else FirstHint(body, Candidates)
  }

  /** `extractOffset`: tries the candidates in order and returns on the first usable one. */
  method ExtractOffset(body: Value) returns (r: Option<OffsetHint>)
    ensures r == Offset(body)
  {
    if !Truthy(body) {
      return None;
    }
    var i := 0;
    while i < |Candidates|
      invariant 0 <= i <= |Candidates|
      invariant FirstHint(body, Candidates) == FirstHint(body, Candidates[i..])
    {
      var c := Candidates[i];
      assert Candidates[i..][0] == c && Candidates[i..][1..] == Candidates[i + 1..];
      var v := Get(body, c.field);
      if !(v.Undefined? || v.Null? || v == Str("")) {
        var n := ToNumber(v);
        if n.IsFinite() {
          return Some(OffsetHint(c.field, n.n, n.n * c.mult));
        }
      }
      i := i + 1;
    }
    return None;
  }

  /** Every candidate before `i` was skipped. */
  predicate SkippedBefore(body: Value, cands: seq<Candidate>, i: int)
    requires 0 <= i <= |cands|
  {
    forall j :: 0 <= j < i ==> HintMinutes(Get(body, cands[j].field)).None?
  }

  /** The first usable candidate is taken, with its sign applied. */
  lemma {:induction false} FirstHintAt(body: Value, cands: seq<Candidate>, i: int, n: int)
    requires 0 <= i < |cands| && SkippedBefore(body, cands, i)
    requires HintMinutes(Get(body, cands[i].field)) == Some(n)
    ensures FirstHint(body, cands) == Some(OffsetHint(cands[i].field, n, n * cands[i].mult))
  {
    if i > 0 {
      assert HintMinutes(Get(body, cands[0].field)).None?;
      assert cands[1..][i - 1] == cands[i];
      forall j | 0 <= j < i - 1 ensures HintMinutes(Get(body, cands[1..][j].field)).None? {
        assert cands[1..][j] == cands[j + 1];
      }
      FirstHintAt(body, cands[1..], i - 1, n);
    }
  }

  /** Any hint returned comes from some candidate all of whose predecessors were skipped. */
  lemma {:induction false} FirstHintFrom(body: Value, cands: seq<Candidate>)
    ensures FirstHint(body, cands).Some? ==>
      exists i :: 0 <= i < |cands| && SkippedBefore(body, cands, i)
        && HintMinutes(Get(body, cands[i].field)).Some?
        && FirstHint(body, cands).value.source == cands[i].field
  {
    if |cands| > 0 && HintMinutes(Get(body, cands[0].field)).None? && FirstHint(body, cands).Some? {
      FirstHintFrom(body, cands[1..]);
      var i :| 0 <= i < |cands[1..]| && SkippedBefore(body, cands[1..], i)
        && HintMinutes(Get(body, cands[1..][i].field)).Some?
        && FirstHint(body, cands[1..]).value.source == cands[1..][i].field;
      assert cands[1..][i] == cands[i + 1];
      forall j | 0 <= j < i + 1 ensures HintMinutes(Get(body, cands[j].field)).None? {
        if j > 0 {
          assert cands[1..][j - 1] == cands[j];
        }
      }
      assert SkippedBefore(body, cands, i + 1);
    } else if |cands| > 0 && HintMinutes(Get(body, cands[0].field)).Some? {
      assert SkippedBefore(body, cands, 0);
    }
  }

  /** No hint is returned exactly when every candidate is skipped. */
  lemma {:induction false} FirstHintNone(body: Value, cands: seq<Candidate>)
    ensures FirstHint(body, cands).None? <==> SkippedBefore(body, cands, |cands|)
  {
    if |cands| > 0 {
      FirstHintNone(body, cands[1..]);
      if HintMinutes(Get(body, cands[0].field)).None? {
        forall j | 0 <= j < |cands| - 1 ensures cands[1..][j] == cands[j + 1] {
        }
      }
    }
  }

  /** A returned hint from field number `i` means every earlier field was skipped. */
  lemma OffsetFromField(body: Value, i: int)
    requires 0 <= i < |Candidates|
    requires Offset(body).Some? && Offset(body).value.source == Candidates[i].field
    ensures Truthy(body) && SkippedBefore(body, Candidates, i) && HintMinutes(Get(body, Candidates[i].field)).Some?
  {
    FirstHintFrom(body, Candidates);
    var k :| 0 <= k < |Candidates| && SkippedBefore(body, Candidates, k)
      && HintMinutes(Get(body, Candidates[k].field)).Some?
      && Offset(body).value.source == Candidates[k].field;
    assert k == i;
  }

  /**
   * Priority: the hint of field number `i` is used exactly when the body is truthy, that
   * field gives finite minutes and every earlier field was skipped; the applied minutes
   * are the value times the field's sign.
   */
  lemma OffsetPriority(body: Value, i: int)
    requires 0 <= i < |Candidates|
    ensures (Offset(body).Some? && Offset(body).value.source == Candidates[i].field) <==>
      (Truthy(body) && SkippedBefore(body, Candidates, i) && HintMinutes(Get(body, Candidates[i].field)).Some?)
    ensures Offset(body).Some? && Offset(body).value.source == Candidates[i].field ==>
      Offset(body).value.rawMinutes == HintMinutes(Get(body, Candidates[i].field)).value
      && Offset(body).value.appliedMinutes == Offset(body).value.rawMinutes * Candidates[i].mult
  {
    if Offset(body).Some? && Offset(body).value.source == Candidates[i].field {
      OffsetFromField(body, i);
    }
    if Truthy(body) && SkippedBefore(body, Candidates, i) && HintMinutes(Get(body, Candidates[i].field)).Some? {
      FirstHintAt(body, Candidates, i, HintMinutes(Get(body, Candidates[i].field)).value);
    }
  }

  /** No offset at all exactly when the body is falsy or every hint is skipped. */
  lemma OffsetAbsent(body: Value)
    ensures Offset(body).None? <==> !Truthy(body) || SkippedBefore(body, Candidates, |Candidates|)
  {
    FirstHintNone(body, Candidates);
  }

  /** A hint of 0 minutes is used, although 0 is falsy. */
  lemma ZeroHintIsUsed(rest: seq<Field>)
    ensures Offset(Obj([Field("awarenessOffsetMinutes", Num(0))] + rest))
      == Some(OffsetHint("awarenessOffsetMinutes", 0, 0))
  {
    var body := Obj([Field("awarenessOffsetMinutes", Num(0))] + rest);
    assert Get(body, "awarenessOffsetMinutes") == Num(0);
  }

  /** `getTimezoneOffset` counts minutes west of UTC, so its sign is flipped. */
  lemma TimezoneOffsetIsNegated(n: int)
    ensures Offset(Obj([Field("awarenessTimezoneOffset", Num(n))]))
      == Some(OffsetHint("awarenessTimezoneOffset", n, -n))
  {
    var body := Obj([Field("awarenessTimezoneOffset", Num(n))]);
    FirstHintAt(body, Candidates, 2, n);
  }

  /** The fields captured by `^(\d{4})-(\d{2})-(\d{2})T(\d{2}):(\d{2})$`. */
  datatype LocalFields = LocalFields(year: nat, month: nat, day: nat, hour: nat, minute: nat)

  /** `s` matches `^(\d{4})-(\d{2})-(\d{2})T(\d{2}):(\d{2})$` (`\d` is an ASCII digit). */
  predicate IsLocalPattern(s: string) {
    && |s| == 16
    && AllDigits(s[0..4]) && s[4] == '-'
    && AllDigits(s[5..7]) && s[7] == '-'
    && AllDigits(s[8..10]) && s[10] == 'T'
    && AllDigits(s[11..13]) && s[13] == ':'
    && AllDigits(s[14..16])
  }

  /** The match and `Number(m[k])` of each group. No field is range-checked. */
  function MatchLocal(s: string): Option<LocalFields>
  {
    if IsLocalPattern(s) then
      Some(LocalFields(DigitsValue(s[0..4]), DigitsValue(s[5..7]), DigitsValue(s[8..10]),
                       DigitsValue(s[11..13]), DigitsValue(s[14..16])))
    else None
  }

  /** The datetime-local text of some fields, each zero-padded to its group's width. */
  function LocalSpelling(f: LocalFields): string
    requires f.year < 10000 && f.month < 100 && f.day < 100 && f.hour < 100 && f.minute < 100
  {
    Pad4(f.year) + "-" + Pad2(f.month) + "-" + Pad2(f.day) + "T" + Pad2(f.hour) + ":" + Pad2(f.minute)
  }

  /** The captured numbers spell the matched text back, zero-padded as it was. */
  lemma MatchLocalSpelling(s: string)
    requires IsLocalPattern(s)
    ensures var f := MatchLocal(s).value;
      && f.year < 10000 && f.month < 100 && f.day < 100 && f.hour < 100 && f.minute < 100
      && s == LocalSpelling(f)
  {
    DigitsArePadded(s[0..4]);
    DigitsArePadded(s[5..7]);
    DigitsArePadded(s[8..10]);
    DigitsArePadded(s[11..13]);
    DigitsArePadded(s[14..16]);
    assert s == s[0..4] + "-" + s[5..7] + "-" + s[8..10] + "T" + s[11..13] + ":" + s[14..16];
  }

  /** `s.replace(" ", "T")`: only the first space becomes a 'T'. */
  function ReplaceFirstSpace(s: string): (r: string)
    ensures |r| == |s|
  {
    if |s| == 0 then s
    else if s[0] == ' ' then "T" + s[1..]
    else [s[0]] + ReplaceFirstSpace(s[1..])
  }

  /** The replacement changes the first space and nothing else. */
  lemma {:induction false} ReplaceFirstSpaceChanges(s: string, k: nat)
    requires k < |s| && s[k] == ' ' && forall j :: 0 <= j < k ==> s[j] != ' '
    ensures ReplaceFirstSpace(s) == s[..k] + "T" + s[k + 1..]
  {
    if k > 0 {
      ReplaceFirstSpaceChanges(s[1..], k - 1);
      assert s[1..][..k - 1] == s[1..k];
      assert s[1..][k..] == s[k + 1..];
      assert [s[0]] + s[1..k] == s[..k];
    }
  }

  /** A string without spaces is left alone. */
  lemma {:induction false} ReplaceFirstSpaceNoSpace(s: string)
    requires forall j :: 0 <= j < |s| ==> s[j] != ' '
    ensures ReplaceFirstSpace(s) == s
  {
    if |s| > 0 {
      ReplaceFirstSpaceNoSpace(s[1..]);
    }
  }

  /** How the awareness instant was obtained; `SourceText` is the string the response reports. */
  datatype Source =
    | FallbackNow
    | LocalWithOffset(field: string)
    | LocalAssumedUtc
    | ParsedIso
    | InvalidFallbackNow

  function SourceText(s: Source): string
  {
    match s
    case FallbackNow => "fallback_now"
    case LocalWithOffset(field) => "datetime-local(" + field + ")"
    case LocalAssumedUtc => "datetime-local(assumed-utc)"
    case ParsedIso => "parsed_iso"
    case InvalidFallbackNow => "invalid_fallback_now"
  }

  /** The object `parseAwareness` returns, the instant in milliseconds. */
  datatype ParsedAwareness = ParsedAwareness(instant: int, source: Source, received: string, offsetMinutes: Option<int>)

  /** `(body && body.awarenessTime ? String(body.awarenessTime) : "").trim()` */
  function RawAwareness(body: Value): string
  {
    var v := Get(body, "awarenessTime");
    Trim(if Truthy(body) && Truthy(v) then ToJsString(v) else "")
  }

  /** `Date.UTC(Y, Mo - 1, D, H, Mi)` of the captured fields. */
  function LocalUtc(f: LocalFields): int
  {
    DateUtc(f.year, f.month - 1, f.day, f.hour, f.minute)
  }

  /** The datetime-local branch: the hint, when there is one, turns local time into UTC. */
  function ResolveLocal(raw: string, f: LocalFields, off: Option<OffsetHint>): ParsedAwareness
  {
    match off
    case Some(h) =>
      ParsedAwareness(LocalUtc(f) - h.appliedMinutes * MsPerMinute, LocalWithOffset(h.source), raw, Some(h.appliedMinutes))
    case None => ParsedAwareness(LocalUtc(f), LocalAssumedUtc, raw, None)
  }

  /**
   * The decision `parseAwareness` makes once it has the trimmed text `raw` and the
   * offset hint `off`; `now` is the current time and `iso` the outcome of
   * `new Date(text)` (an instant, or None for an invalid date).
   */
  function Resolve(raw: string, off: Option<OffsetHint>, now: int, iso: string -> Option<int>): ParsedAwareness
  {
    if raw == "" then ParsedAwareness(now, FallbackNow, raw, None)
    else
      var normalized := ReplaceFirstSpace(raw);
      match MatchLocal(normalized)
      case Some(f) => ResolveLocal(raw, f, off)
      case None =>
        match iso(normalized)
        case Some(t) => ParsedAwareness(t, ParsedIso, raw, None)
        case None => ParsedAwareness(now, InvalidFallbackNow, raw, None)
  }

  /** `parseAwareness(body)`, which never fails. */
  function ParseAwareness(body: Value, now: int, iso: string -> Option<int>): ParsedAwareness
  {
    Resolve(RawAwareness(body), Offset(body), now, iso)
  }

  /** `received` is always the trimmed raw text. */
  lemma ResolveReceived(raw: string, off: Option<OffsetHint>, now: int, iso: string -> Option<int>)
    ensures Resolve(raw, off, now, iso).received == raw
  {
  }

  /** The trimmed raw text never starts or ends with whitespace. */
  lemma ReceivedIsTrimmed(body: Value, now: int, iso: string -> Option<int>)
    ensures ParseAwareness(body, now, iso).received == RawAwareness(body)
    ensures NoWhitespaceAtEnds(ParseAwareness(body, now, iso).received)
  {
    ResolveReceived(RawAwareness(body), Offset(body), now, iso);
    var v := Get(body, "awarenessTime");
    TrimEnds(if Truthy(body) && Truthy(v) then ToJsString(v) else "");
  }

  /**
   * The current time is used exactly for an empty text and for a text that is
   * neither datetime-local nor a parsable date.
   */
  lemma FallbackToNow(raw: string, off: Option<OffsetHint>, now: int, iso: string -> Option<int>)
    ensures var r := Resolve(raw, off, now, iso);
      && (r.source == FallbackNow <==> raw == "")
      && (r.source == InvalidFallbackNow <==>
            raw != "" && MatchLocal(ReplaceFirstSpace(raw)).None? && iso(ReplaceFirstSpace(raw)).None?)
      && (r.source == FallbackNow || r.source == InvalidFallbackNow ==> r.instant == now)
  {
  }

  /** A text the ISO parser accepts, not in datetime-local form, gives the parsed instant. */
  lemma ParsedIsoUsed(raw: string, off: Option<OffsetHint>, now: int, iso: string -> Option<int>)
    requires raw != "" && MatchLocal(ReplaceFirstSpace(raw)).None? && iso(ReplaceFirstSpace(raw)).Some?
    ensures Resolve(raw, off, now, iso) == ParsedAwareness(iso(ReplaceFirstSpace(raw)).value, ParsedIso, raw, None)
  {
  }

  /** A whitespace-only awareness string counts as missing. */
  lemma BlankAwarenessIsNow(s: string, rest: seq<Field>, now: int, iso: string -> Option<int>)
    requires forall i :: 0 <= i < |s| ==> IsWhitespace(s[i])
    ensures ParseAwareness(Obj([Field("awarenessTime", Str(s))] + rest), now, iso)
      == ParsedAwareness(now, FallbackNow, "", None)
  {
    TrimEmptyIffBlank(s);
    var body := Obj([Field("awarenessTime", Str(s))] + rest);
    assert Get(body, "awarenessTime") == Str(s);
    assert RawAwareness(body) == "";
  }

  /** An offset is reported exactly in the datetime-local branch that used a hint, and it is that hint's. */
  lemma OffsetOnlyWithHint(raw: string, off: Option<OffsetHint>, now: int, iso: string -> Option<int>)
    ensures var r := Resolve(raw, off, now, iso);
      && (r.offsetMinutes.Some? <==> r.source.LocalWithOffset?)
      && (r.offsetMinutes.Some? ==>
            off.Some? && r.offsetMinutes.value == off.value.appliedMinutes && r.source == LocalWithOffset(off.value.source))
  {
  }

  /**
   * A datetime-local text with a hint is local time: the instant is the fields read
   * as UTC minus the applied offset, and the source names the hint field.
   */
  lemma LocalWithHint(raw: string, h: OffsetHint, now: int, iso: string -> Option<int>)
    requires raw != "" && MatchLocal(ReplaceFirstSpace(raw)).Some?
    ensures var r := Resolve(raw, Some(h), now, iso);
      && r.instant == LocalUtc(MatchLocal(ReplaceFirstSpace(raw)).value) - h.appliedMinutes * MsPerMinute
      && SourceText(r.source) == "datetime-local(" + h.source + ")"
      && r.offsetMinutes == Some(h.appliedMinutes)
  {
  }

  /** Without a hint a datetime-local text is read as UTC. */
  lemma LocalAssumedUtcInstant(raw: string, now: int, iso: string -> Option<int>)
    requires raw != "" && MatchLocal(ReplaceFirstSpace(raw)).Some?
    ensures var r := Resolve(raw, None, now, iso);
      r.instant == LocalUtc(MatchLocal(ReplaceFirstSpace(raw)).value) && r.source == LocalAssumedUtc
  {
  }

  /** Subtracting an offset moves the minute field of Date.UTC (which is not range-checked). */
  lemma OffsetShiftsMinutes(f: LocalFields, a: int)
    ensures LocalUtc(f) - a * MsPerMinute == DateUtc(f.year, f.month - 1, f.day, f.hour, f.minute - a)
  {
  }

  /** Minutes and hours past their range carry into the next field instead of being rejected. */
  lemma ClockRollsOver(y: int, mo: int, d: int, h: int, mi: int)
    ensures DateUtc(y, mo, d, h, mi + 60) == DateUtc(y, mo, d, h + 1, mi)
    ensures DateUtc(y, mo, d, h + 24, mi) == DateUtc(y, mo, d + 1, h, mi)
  {
  }

  /** A day past the end of its month counts on from the first (so February 30 is in March). */
  lemma DayRollsOver(y: int, mo: int, d: int, h: int, mi: int)
    ensures DateUtc(y, mo, d, h, mi) == DateUtc(y, mo, 1, h, mi) + (d - 1) * MsPerDay
  {
  }

  /** Month 13 is January of the next year. */
  lemma MonthRollsOver(y: int, d: int, h: int, mi: int)
    requires y >= 100
    ensures DateUtc(y, 12, d, h, mi) == DateUtc(y + 1, 0, d, h, mi)
  {
  }

  /** Years 0 to 99 of a datetime-local text are taken as 1900 to 1999 (a `Date.UTC` rule). */
  lemma TwoDigitYears(f: LocalFields)
    requires f.year <= 99
    ensures LocalUtc(f) == DateUtc(1900 + f.year, f.month - 1, f.day, f.hour, f.minute)
  {
  }

  lemma LocalUtcOfDate(f: LocalFields, c: Civil)
    requires c == Civil(f.year, f.month, f.day)
    ensures LocalUtc(f) == DateUtc(c.year, c.month - 1, c.day, f.hour, f.minute)
  {
  }

  /** Fields of a valid date and clock, read as UTC, come back from `toISO` spelled out plus ":00Z". */
  lemma FieldsIso(f: LocalFields)
    requires ValidCivil(Civil(f.year, f.month, f.day)) && 100 <= f.year <= 9999 && f.hour < 24 && f.minute < 60
    ensures ToISO(LocalUtc(f)) == LocalSpelling(f) + ":00Z"
  {
    var c := Civil(f.year, f.month, f.day);
    LocalUtcOfDate(f, c);
    DateUtcIso(c, f.hour, f.minute);
  }

  /** A valid datetime-local time read as UTC comes back from `toISO` as the text plus ":00Z". */
  lemma AssumedUtcIso(n: string)
    requires IsLocalPattern(n)
    requires var f := MatchLocal(n).value;
      ValidCivil(Civil(f.year, f.month, f.day)) && 100 <= f.year && f.hour < 24 && f.minute < 60
    ensures ToISO(LocalUtc(MatchLocal(n).value)) == n + ":00Z"
  {
    MatchLocalSpelling(n);
    FieldsIso(MatchLocal(n).value);
  }

  /** The fields after the clock is moved back by `a` minutes within the same day. */
  function ShiftClock(f: LocalFields, a: int): LocalFields
    requires 0 <= f.hour * 60 + f.minute - a
  {
    LocalFields(f.year, f.month, f.day, (f.hour * 60 + f.minute - a) / 60, (f.hour * 60 + f.minute - a) % 60)
  }

  /** Subtracting an offset that keeps the clock within the day is the same as moving the clock. */
  lemma ShiftedClock(f: LocalFields, a: int, g: LocalFields)
    requires 0 <= f.hour * 60 + f.minute - a < 1440 && g == ShiftClock(f, a)
    ensures LocalUtc(f) - a * MsPerMinute == LocalUtc(g)
    ensures g.hour < 24 && g.minute < 60 && Civil(g.year, g.month, g.day) == Civil(f.year, f.month, f.day)
  {
    var q := f.hour * 60 + f.minute - a;
    DivBy(q, 60, q / 60);
  }

  lemma ToISOOfFields(t: int, g: LocalFields)
    requires t == LocalUtc(g)
    requires ValidCivil(Civil(g.year, g.month, g.day)) && 100 <= g.year <= 9999 && g.hour < 24 && g.minute < 60
    ensures ToISO(t) == LocalSpelling(g) + ":00Z"
  {
    FieldsIso(g);
  }

  /**
   * A local time with an offset that keeps the clock within the day: `toISO` shows the
   * same date with the clock moved back by the offset.
   */
  lemma ShiftedIso(f: LocalFields, a: int, t: int)
    requires ValidCivil(Civil(f.year, f.month, f.day)) && 100 <= f.year <= 9999
    requires 0 <= f.hour * 60 + f.minute - a < 1440
    requires t == LocalUtc(f) - a * MsPerMinute
    ensures ToISO(t) == LocalSpelling(ShiftClock(f, a)) + ":00Z"
  {
    ShiftedClock(f, a, ShiftClock(f, a));
    ToISOOfFields(t, ShiftClock(f, a));
  }

  /**
   * A datetime-local awareness text with a hint, when the offset keeps the clock in the
   * same day: `toISO` of the instant is the text with its clock moved back by the hint.
   */
  lemma LocalWithHintIso(raw: string, h: OffsetHint, now: int, iso: string -> Option<int>)
    requires raw != "" && MatchLocal(ReplaceFirstSpace(raw)).Some?
    requires var f := MatchLocal(ReplaceFirstSpace(raw)).value;
      ValidCivil(Civil(f.year, f.month, f.day)) && 100 <= f.year <= 9999
      && 0 <= f.hour * 60 + f.minute - h.appliedMinutes < 1440
    ensures var f := MatchLocal(ReplaceFirstSpace(raw)).value;
      ToISO(Resolve(raw, Some(h), now, iso).instant) == LocalSpelling(ShiftClock(f, h.appliedMinutes)) + ":00Z"
  {
    LocalWithHint(raw, h, now, iso);
    ShiftedIso(MatchLocal(ReplaceFirstSpace(raw)).value, h.appliedMinutes, Resolve(raw, Some(h), now, iso).instant);
  }

  lemma HintExampleFields(f: LocalFields, g: LocalFields)
    requires f == LocalFields(2025, 10, 19, 12, 0) && g == LocalFields(2025, 10, 19, 10, 0)
    ensures ValidCivil(Civil(f.year, f.month, f.day)) && g == ShiftClock(f, 120)
    ensures LocalSpelling(g) == "2025-10-19T10:00"
  {
  }

  lemma HintExampleIso(f: LocalFields, t: int)
    requires f == LocalFields(2025, 10, 19, 12, 0) && t == LocalUtc(f) - 120 * MsPerMinute
    ensures ToISO(t) == "2025-10-19T10:00:00Z"
  {
    HintExampleFields(f, LocalFields(2025, 10, 19, 10, 0));
    ShiftedIso(f, 120, t);
  }

  /** 12:00 local time on 2025-10-19 with a hint of 120 minutes is 10:00 UTC. */
  lemma HintExample(raw: string, h: OffsetHint, now: int, iso: string -> Option<int>)
    requires MatchLocal(ReplaceFirstSpace(raw)) == Some(LocalFields(2025, 10, 19, 12, 0)) && h.appliedMinutes == 120
    ensures Resolve(raw, Some(h), now, iso).source == LocalWithOffset(h.source)
    ensures ToISO(Resolve(raw, Some(h), now, iso).instant) == "2025-10-19T10:00:00Z"
  {
    assert raw != "";
    LocalWithHint(raw, h, now, iso);
    HintExampleIso(MatchLocal(ReplaceFirstSpace(raw)).value, Resolve(raw, Some(h), now, iso).instant);
  }

  /**
   * Without a hint, a valid datetime-local awareness text is taken as UTC and `toISO`
   * gives back the normalised text with seconds and "Z" added.
   */
  lemma AssumedUtcRoundTrip(raw: string, now: int, iso: string -> Option<int>)
    requires raw != "" && IsLocalPattern(ReplaceFirstSpace(raw))
    requires var f := MatchLocal(ReplaceFirstSpace(raw)).value;
      ValidCivil(Civil(f.year, f.month, f.day)) && 100 <= f.year && f.hour < 24 && f.minute < 60
    ensures Resolve(raw, None, now, iso).source == LocalAssumedUtc
    ensures ToISO(Resolve(raw, None, now, iso).instant) == ReplaceFirstSpace(raw) + ":00Z"
  {
    LocalAssumedUtcInstant(raw, now, iso);
    AssumedUtcIso(ReplaceFirstSpace(raw));
  }
}
