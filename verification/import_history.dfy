/** The import-history table's presentation helpers: the badge variant of a
    run's status, the duration text, and the failed-jobs list of the details
    dialog. */
module ImportHistory {
  import opened Wrappers
  import opened Strings
  import RunRecord

  /** The badge styles the table uses. */
  datatype Variant = Default | Secondary | Destructive | Outline

  /** `getStatusVariant`: any string is accepted; statuses it does not know
      get the outline style, as `pending` does. */
  function StatusVariant(status: string): (v: Variant)
    ensures v == Default <==> status == "completed"
    ensures v == Secondary <==> status == "processing"
    ensures v == Destructive <==> status == "failed"
  {
    if status == "completed" then Default
    else if status == "processing" then Secondary
    else if status == "failed" then Destructive
    else Outline
  }

  /** The status as the run record stores and the API sends it. */
  function StatusName(s: RunRecord.RunStatus): string {
    match s
    case Pending => "pending"
    case Processing => "processing"
    case Completed => "completed"
    case Failed => "failed"
  }

  /** Each stored status has its own badge except `pending`, which shares the
      neutral outline with unknown statuses; only a failed run is shown as
      destructive, and only a completed one with the filled badge. */
  lemma StatusVariantOfRecord(s: RunRecord.RunStatus, t: RunRecord.RunStatus)
    ensures StatusVariant(StatusName(s)) == Destructive <==> s == RunRecord.Failed
    ensures StatusVariant(StatusName(s)) == Default <==> s == RunRecord.Completed
    ensures StatusVariant(StatusName(s)) == Secondary <==> s == RunRecord.Processing
    ensures StatusVariant(StatusName(s)) == Outline <==> s == RunRecord.Pending
    ensures StatusVariant(StatusName(s)) == StatusVariant(StatusName(t)) ==> s == t
  {
  }

  const NotAvailable := "N/A"

  /** `formatDuration`: an absent or zero duration is "N/A"; otherwise the
      whole seconds (`Math.floor(ms / 1000)`; Dafny's division rounds down
      for a positive divisor, as `Math.floor` does) as "<s>s" under a
      minute, else "<m>m <s>s". */
  function FormatDuration(duration: Option<int>): (r: string)
    ensures r == NotAvailable <==> duration.None? || duration.value == 0
  {
    if duration.None? || duration.value == 0 then NotAvailable
    else
      var seconds := duration.value / 1000;
      var text := if seconds < 60 then IntToString(seconds) + "s"
                  else IntToString(seconds / 60) + "m " + IntToString(seconds % 60) + "s";
      assert text[|text| - 1] == 's';
      text
  }

  /** The two shapes the text takes for a positive duration: whole seconds
      under a minute, and minutes plus the remaining seconds (under 60) from
      a minute on. */
  lemma FormatDurationShapes(d: nat)
    requires d > 0
    ensures d < 60000 ==> FormatDuration(Some(d)) == NatToString(d / 1000) + "s"
    ensures d >= 60000 ==>
              exists m: nat, s: nat ::
                && s < 60 && m * 60 + s == d / 1000
                && FormatDuration(Some(d)) == NatToString(m) + "m " + NatToString(s) + "s"
  {
    if d >= 60000 {
      var sec := d / 1000;
      var m, s := sec / 60, sec % 60;
      assert m * 60 + s == sec;
      assert FormatDuration(Some(d)) == NatToString(m) + "m " + NatToString(s) + "s";
    }
  }

  /** The longest run of decimal digits at the start of `s`. */
  function LeadingDigits(s: string): (r: string)
    ensures |r| <= |s| && r == s[..|r|] && AllDigits(r)
    ensures |r| < |s| ==> !IsDigit(s[|r|])
  {
    if s != [] && IsDigit(s[0]) then [s[0]] + LeadingDigits(s[1..]) else []
  }

  /** Minutes and seconds as a number of seconds. */
  function TotalSeconds(minutes: nat, seconds: nat): nat {
    minutes * 60 + seconds
  }

  /** Reading a duration text back into whole seconds: "<s>s" or
      "<m>m <s>s"; anything else reads as nothing. */
  function ReadDuration(text: string): Option<nat> {
    var a := LeadingDigits(text);
    var rest := text[|a|..];
    if a == [] then None
    else if rest == "s" then Some(DigitsValue(a))
    else if |rest| >= 2 && rest[..2] == "m " then
      var after := rest[2..];
      var b := LeadingDigits(after);
      if b != [] && after[|b|..] == "s" then Some(TotalSeconds(DigitsValue(a), DigitsValue(b))) else None
    else None
  }

  /** Digits followed by a non-digit split off exactly at the boundary. */
  lemma {:induction false} LeadingDigitsOfConcat(a: string, b: string)
    requires AllDigits(a) && (b == [] || !IsDigit(b[0]))
    ensures LeadingDigits(a + b) == a
  {
    if a != [] {
      assert (a + b)[1..] == a[1..] + b;
      LeadingDigitsOfConcat(a[1..], b);
    } else {
      assert a + b == b;
    }
  }

  /** "<digits>s" reads back as the digits' value. */
  lemma ReadSecondsText(a: string)
    requires a != [] && AllDigits(a)
    ensures ReadDuration(a + "s") == Some(DigitsValue(a))
  {
    LeadingDigitsOfConcat(a, "s");
    assert (a + "s")[|a|..] == "s";
  }

  /** "<digits>m <digits>s" reads back as minutes times 60 plus seconds. */
  lemma ReadMinutesText(a: string, b: string)
    requires a != [] && AllDigits(a) && b != [] && AllDigits(b)
    ensures ReadDuration(a + "m " + b + "s") == Some(TotalSeconds(DigitsValue(a), DigitsValue(b)))
  {
    var after := b + "s";
    var tail := "m " + after;
    var text := a + tail;
    assert a + "m " + b + "s" == text;
    LeadingDigitsOfConcat(a, tail);
    assert text[|a|..] == tail;
    assert tail[..2] == "m " && tail[2..] == after;
    LeadingDigitsOfConcat(b, "s");
    assert after[|b|..] == "s";
  }

  /** The duration text of a positive duration reads back as its whole
      seconds: no two durations with different whole seconds look alike. */
  lemma ReadFormattedDuration(d: nat)
    requires d > 0
    ensures ReadDuration(FormatDuration(Some(d))) == Some(d / 1000)
  {
    var sec := d / 1000;
    if sec < 60 {
      var a := NatToString(sec);
      assert FormatDuration(Some(d)) == a + "s";
      NatToStringRoundTrip(sec);
      ReadSecondsText(a);
    } else {
      var a, b := NatToString(sec / 60), NatToString(sec % 60);
      assert FormatDuration(Some(d)) == a + "m " + b + "s";
      NatToStringRoundTrip(sec / 60);
      NatToStringRoundTrip(sec % 60);
      ReadMinutesText(a, b);
    }
  }

  /** Different whole seconds give different texts. */
  lemma FormatDurationInjective(d1: nat, d2: nat)
    requires d1 > 0 && d2 > 0 && FormatDuration(Some(d1)) == FormatDuration(Some(d2))
    ensures d1 / 1000 == d2 / 1000
  {
    ReadFormattedDuration(d1);
    ReadFormattedDuration(d2);
  }

  /** At most this many failures are listed in the details dialog. */
  const ShownFailures := 5

  /** The failed-jobs part of the details dialog: the first failures in
      order, and the number the "... and N more" line announces, if any. */
  datatype FailureList = FailureList(shown: seq<RunRecord.FailedJob>, more: Option<nat>)

  /** Shown only when the record has failure details and there is at least
      one: `slice(0, 5)` of them, plus the "more" line when there are over
      five. */
  function FailedDetails(details: Option<seq<RunRecord.FailedJob>>): (r: Option<FailureList>)
    ensures r.Some? <==> details.Some? && |details.value| > 0
  {
    if details.None? || |details.value| == 0 then None
    else
      var ds := details.value;
      var n := |ds|;
      Some(FailureList(ds[..if n < ShownFailures then n else ShownFailures],
                       if n > ShownFailures then Some(n - ShownFailures) else None))
  }

  /** The list shows the first `min(5, n)` failures in order, announces more
      exactly when there are over five, and the shown ones plus the announced
      number account for every failure. */
  lemma FailedDetailsAccount(details: seq<RunRecord.FailedJob>)
    requires |details| > 0
    ensures var l := FailedDetails(Some(details)).value;
            && |l.shown| == (if |details| < ShownFailures then |details| else ShownFailures)
            && (forall i :: 0 <= i < |l.shown| ==> l.shown[i] == details[i])
            && (l.more.Some? <==> |details| > ShownFailures)
            && |l.shown| + l.more.GetOr(0) == |details|
  {
  }

  const MorePrefix := "... and "

  const MoreSuffix := " more"

  /** The text of the "more" line: the prefix, the number of failures not
      listed, and the suffix; the digits between prefix and suffix read back
      as that number. */
  function MoreLine(more: nat): (r: string)
    ensures |r| > |MorePrefix| + |MoreSuffix|
    ensures r[..|MorePrefix|] == MorePrefix && r[|r| - |MoreSuffix|..] == MoreSuffix
    ensures AllDigits(r[|MorePrefix|..|r| - |MoreSuffix|])
    ensures DigitsValue(r[|MorePrefix|..|r| - |MoreSuffix|]) == more
  {
    NatToStringRoundTrip(more);
    var digits := NatToString(more);
    var r := MorePrefix + digits + MoreSuffix;
    assert r[..|MorePrefix|] == MorePrefix;
    assert r[|r| - |MoreSuffix|..] == MoreSuffix;
    assert r[|MorePrefix|..|r| - |MoreSuffix|] == digits;
    r
  }
}
