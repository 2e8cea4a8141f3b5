/** The text of the activity-duration mails: `reportAllActivityDuration` (every activity,
    sorted by total duration) and `sendActivityDuration` (one activity, in first-launch or
    ordinary mode).  Delivery of the mail is not modelled: the result is the title and the
    HTML body that would be handed to the mail sender. */
module DurationReport {
  import opened Numerals

  /** The line separator both builders use. */
  const NewLine: string := "\n<br>"
  const RedOpen: string := "<font color=\"red\">"
  const FontClose: string := "</font>"
  /** Totals strictly above this are shown in red. */
  const SlowThreshold: int := 800
  const ReportTitle: string := "Activity Duration Report"
  const FirstLaunchTitle: string := "App First Launch Duration"

  /** The four timings recorded for one activity. */
  datatype Durations = Durations(total: Int32, onCreate: Int32, onStart: Int32, onResume: Int32)

  datatype Mail = Mail(title: string, body: string)

  /** The unchecked exceptions the builders can raise. */
  datatype JavaException = NullPointerException | NumberFormatException

  datatype Result<T> = Ok(value: T) | Err(error: JavaException)

  /** `StringBuilder.append(map.get(key))` on the app-level string map: a missing key
      appends "null". */
  function AppendedValue(appLaunch: map<string, string>, key: string): string {
    if key in appLaunch then appLaunch[key] else "null"
  }

  /** The app-level OnCreate duration as `Integer.parseInt` reads it; `None` when it throws,
      which includes `parseInt(null)` for a missing entry. */
  function AppOnCreate(appLaunch: map<string, string>): Option<Int32> {
    if "OnCreate" in appLaunch then ParseInt(appLaunch["OnCreate"]) else None
  }

  function AppHeader(appLaunch: map<string, string>): string {
    "App Name:" + AppendedValue(appLaunch, "AppName") + NewLine +
    " OnCreate Duration:" + AppendedValue(appLaunch, "OnCreate") + NewLine
  }

  function NameLine(name: string): string {
    "Activity Name:" + name + NewLine
  }

  /** The Total Duration line of the ordinary reports. */
  function TotalLine(total: Int32): string {
    if total > SlowThreshold then " Total Duration:" + RedOpen + IntToString(total) + FontClose + NewLine
    else " Total Duration:" + IntToString(total) + NewLine
  }

  const OnCreateLabel: string := " OnCreate Duration:"
  const OnStartLabel: string := " OnStart Duration:"
  const OnResumeLabel: string := " OnResume Duration:"

  /** One of the OnCreate / OnStart / OnResume lines: never highlighted. */
  function PhaseLine(caption: string, value: Int32): string {
    caption + IntToString(value) + NewLine
  }

  function PhaseLines(d: Durations): string {
    PhaseLine(OnCreateLabel, d.onCreate) + PhaseLine(OnStartLabel, d.onStart) + PhaseLine(OnResumeLabel, d.onResume)
  }

  /** The lines of an activity that follow its name: total, then the three phases. */
  function DurationLines(d: Durations): string {
    TotalLine(d.total) + PhaseLines(d)
  }

  /** The paragraph the full report writes for one activity. */
  function ActivityBlock(name: string, d: Durations): string {
    NameLine(name) + DurationLines(d) + (NewLine + NewLine)
  }

  /** The builder's content after the loop body has appended the paragraph of one activity
      to `info`. */
  function AppendActivity(info: string, name: string, d: Durations): string {
    info + ActivityBlock(name, d)
  }

  predicate AllRecorded(names: seq<string>, durations: map<string, Durations>) {
    forall i :: 0 <= i < |names| ==> names[i] in durations
  }

  /** The body of the full report when the activities are visited in `order`. */
  function ReportBody(appLaunch: map<string, string>, durations: map<string, Durations>, order: seq<string>): string
    requires AllRecorded(order, durations)
  {
    if order == [] then AppHeader(appLaunch)
    else
      var last := order[|order| - 1];
      AppendActivity(ReportBody(appLaunch, durations, order[..|order| - 1]), last, durations[last])
  }

  /** The paragraphs of the activities of `order`, in that order. */
  function Paragraphs(order: seq<string>, durations: map<string, Durations>): (ps: seq<string>)
    requires AllRecorded(order, durations)
  {
    seq(|order|, i requires 0 <= i < |order| => ActivityBlock(order[i], durations[order[i]]))
  }

  /** The texts of `parts`, one after the other. */
  function Concat(parts: seq<string>): string {
    if parts == [] then [] else Concat(parts[..|parts| - 1]) + parts[|parts| - 1]
  }

  // ---------------------------------------------------------------------------------------
  // Sorting by total duration

  predicate Distinct(s: seq<string>) {
    forall i, j :: 0 <= i < j < |s| ==> s[i] != s[j]
  }

  /** `entries` is an iteration order of the activity map: every recorded activity once. */
  predicate IsEntryOrder(entries: seq<string>, durations: map<string, Durations>) {
    Distinct(entries) && AllRecorded(entries, durations) && (forall n :: n in durations ==> n in entries)
  }

  predicate SortedByTotal(order: seq<string>, durations: map<string, Durations>)
    requires AllRecorded(order, durations)
  {
    forall i, j :: 0 <= i < j < |order| ==> durations[order[i]].total <= durations[order[j]].total
  }

  /** Puts `name` in front of the first element whose total is not smaller. */
  function InsertByTotal(name: string, sorted: seq<string>, durations: map<string, Durations>): (r: seq<string>)
    requires name in durations && AllRecorded(sorted, durations)
    ensures multiset(r) == multiset(sorted) + multiset{name}
    ensures AllRecorded(r, durations)
  {
    if sorted == [] || durations[name].total <= durations[sorted[0]].total then [name] + sorted
    else
      var rest := InsertByTotal(name, sorted[1..], durations);
      assert sorted == [sorted[0]] + sorted[1..];
      [sorted[0]] + rest
  }

  /** `Collections.sort` with the comparator on TotalDuration: a stable sort, here insertion
      sort from the back of the list. */
  function SortByTotal(names: seq<string>, durations: map<string, Durations>): (r: seq<string>)
    requires AllRecorded(names, durations)
    ensures multiset(r) == multiset(names)
    ensures AllRecorded(r, durations)
  {
    if names == [] then []
    else
      assert names == [names[0]] + names[1..];
      InsertByTotal(names[0], SortByTotal(names[1..], durations), durations)
  }

  lemma {:induction false} InsertByTotalSorted(name: string, sorted: seq<string>, durations: map<string, Durations>)
    requires name in durations && AllRecorded(sorted, durations)
    requires SortedByTotal(sorted, durations)
    ensures SortedByTotal(InsertByTotal(name, sorted, durations), durations)
  {
    if sorted != [] && durations[name].total > durations[sorted[0]].total {
      InsertByTotalSorted(name, sorted[1..], durations);
      var rest := InsertByTotal(name, sorted[1..], durations);
      var r := [sorted[0]] + rest;
      forall i, j | 0 <= i < j < |r|
        ensures durations[r[i]].total <= durations[r[j]].total
      {
        if i == 0 {
          assert r[j] in multiset(rest);
          assert r[j] in multiset(sorted[1..]) + multiset{name};
        }
      }
    }
  }

  /** The sorted list is in non-decreasing TotalDuration order. */
  lemma {:induction false} SortByTotalSorted(names: seq<string>, durations: map<string, Durations>)
    requires AllRecorded(names, durations)
    ensures SortedByTotal(SortByTotal(names, durations), durations)
  {
    if names != [] {
      SortByTotalSorted(names[1..], durations);
      InsertByTotalSorted(names[0], SortByTotal(names[1..], durations), durations);
    }
  }

  lemma DistinctByMultiset(s: seq<string>)
    requires forall x :: multiset(s)[x] <= 1
    ensures Distinct(s)
  {
    forall i, j | 0 <= i < j < |s|
      ensures s[i] != s[j]
    {
      assert s == s[..i] + [s[i]] + (s[i + 1..j] + [s[j]] + s[j + 1..]);
      assert multiset(s)[s[i]] >= 1 + multiset(s[i + 1..j] + [s[j]] + s[j + 1..])[s[i]];
      assert s[j] in multiset(s[i + 1..j] + [s[j]] + s[j + 1..]);
    }
  }

  lemma {:induction false} MultisetOfDistinct(s: seq<string>)
    requires Distinct(s)
    ensures forall x :: multiset(s)[x] <= 1
  {
    if s != [] {
      MultisetOfDistinct(s[1..]);
      assert s == [s[0]] + s[1..];
      assert s[0] !in multiset(s[1..]);
    }
  }

  /** The full report lists each recorded activity exactly once, in non-decreasing
      TotalDuration order, whatever the map's iteration order. */
  lemma SortedEntriesListEachActivityOnce(entries: seq<string>, durations: map<string, Durations>)
    requires IsEntryOrder(entries, durations)
    ensures var order := SortByTotal(entries, durations);
      && |order| == |durations|
      && Distinct(order)
      && (forall n :: n in order <==> n in durations)
      && SortedByTotal(order, durations)
  {
    var order := SortByTotal(entries, durations);
    SortByTotalSorted(entries, durations);
    MultisetOfDistinct(entries);
    DistinctByMultiset(order);
    forall n ensures n in order <==> n in entries {
      assert n in order <==> n in multiset(order);
    }
    assert |order| == |multiset(entries)| == |entries|;
    DistinctSize(entries, durations);
  }

  lemma {:induction false} DistinctSize(entries: seq<string>, durations: map<string, Durations>)
    requires IsEntryOrder(entries, durations)
    ensures |entries| == |durations|
  {
    if entries == [] {
      assert durations.Keys == {};
    } else {
      var n := entries[0];
      var rest := durations - {n};
      assert IsEntryOrder(entries[1..], rest) by {
        forall m ensures m in entries[1..] <==> m in rest {
          assert entries == [n] + entries[1..];
        }
      }
      DistinctSize(entries[1..], rest);
    }
  }

  // ---------------------------------------------------------------------------------------
  // Layout of the full report

  lemma AppendAssoc(a: string, b: string, c: string)
    ensures a + b + c == a + (b + c)
  {
  }

  /** The full report is the app header followed by the paragraphs of the activities in the
      order they are visited. */
  lemma {:induction false} ReportIsHeaderThenParagraphs(appLaunch: map<string, string>, durations: map<string, Durations>, order: seq<string>)
    requires AllRecorded(order, durations)
    ensures ReportBody(appLaunch, durations, order) == AppHeader(appLaunch) + Concat(Paragraphs(order, durations))
  {
    if order == [] {
      assert AppHeader(appLaunch) + [] == AppHeader(appLaunch);
    } else {
      var front, last := order[..|order| - 1], order[|order| - 1];
      var ps := Paragraphs(order, durations);
      assert ps[..|ps| - 1] == Paragraphs(front, durations);
      ReportIsHeaderThenParagraphs(appLaunch, durations, front);
      AppendAssoc(AppHeader(appLaunch), Concat(Paragraphs(front, durations)), ActivityBlock(last, durations[last]));
    }
  }

  lemma {:induction false} ConcatAppend(a: seq<string>, b: seq<string>)
    ensures Concat(a + b) == Concat(a) + Concat(b)
    decreases |b|
  {
    if b == [] {
      assert a + b == a;
    } else {
      var b', last := b[..|b| - 1], b[|b| - 1];
      assert (a + b)[..|a + b| - 1] == a + b';
      ConcatAppend(a, b');
      AppendAssoc(Concat(a), Concat(b'), last);
    }
  }

  /** Each visited activity's paragraph appears exactly at its place: after the header and
      the paragraphs of the activities before it, and before those of the activities after
      it. */
  lemma ReportLayout(appLaunch: map<string, string>, durations: map<string, Durations>, order: seq<string>, i: nat)
    requires AllRecorded(order, durations) && i < |order|
    ensures var ps := Paragraphs(order, durations);
      ReportBody(appLaunch, durations, order) ==
        AppHeader(appLaunch) + Concat(ps[..i]) + ActivityBlock(order[i], durations[order[i]]) + Concat(ps[i + 1..])
  {
    var ps := Paragraphs(order, durations);
    ReportIsHeaderThenParagraphs(appLaunch, durations, order);
    ConcatSplit(ps, i);
    AppendAssoc(AppHeader(appLaunch), Concat(ps[..i]) + ps[i], Concat(ps[i + 1..]));
    AppendAssoc(AppHeader(appLaunch), Concat(ps[..i]), ps[i]);
  }

  /** Splitting a list of texts around its `i`-th element splits their concatenation. */
  lemma ConcatSplit(ps: seq<string>, i: nat)
    requires i < |ps|
    ensures Concat(ps) == Concat(ps[..i]) + ps[i] + Concat(ps[i + 1..])
  {
    var upTo, rest := ps[..i + 1], ps[i + 1..];
    assert upTo + rest == ps;
    ConcatAppend(upTo, rest);
    assert upTo[..|upTo| - 1] == ps[..i];
    assert Concat(upTo) == Concat(ps[..i]) + ps[i];
  }

  // ---------------------------------------------------------------------------------------
  // Highlighting

  /** `sub` occurs in `s` at offset `i`. */
  predicate OccursAt(s: string, sub: string, i: int) {
    0 <= i && i + |sub| <= |s| && s[i..i + |sub|] == sub
  }

  ghost predicate Contains(s: string, sub: string) {
    exists i :: OccursAt(s, sub, i)
  }

  predicate NoQuote(s: string) {
    forall i :: 0 <= i < |s| ==> s[i] != '"'
  }

  lemma NoQuoteNoRed(s: string)
    requires NoQuote(s)
    ensures !Contains(s, RedOpen)
  {
    forall i ensures !OccursAt(s, RedOpen, i) {
      if 0 <= i && i + |RedOpen| <= |s| {
        assert s[i..i + |RedOpen|][12] == s[i + 12] != '"';
      }
    }
  }

  lemma RedAfter(a: string, b: string)
    ensures Contains(a + RedOpen + b, RedOpen)
  {
    assert (a + RedOpen + b)[|a|..|a| + |RedOpen|] == RedOpen;
    assert OccursAt(a + RedOpen + b, RedOpen, |a|);
  }

  lemma NoQuoteAppend(a: string, b: string)
    requires NoQuote(a) && NoQuote(b)
    ensures NoQuote(a + b)
  {
  }

  /** An activity's Total Duration is shown in red exactly when it exceeds 800. */
  lemma TotalLineRedIff(total: Int32)
    ensures Contains(TotalLine(total), RedOpen) <==> total > SlowThreshold
  {
    var digits := IntToString(total);
    if total > SlowThreshold {
      RedAfter(" Total Duration:", digits + FontClose + NewLine);
      assert " Total Duration:" + RedOpen + digits + FontClose + NewLine ==
             " Total Duration:" + RedOpen + (digits + FontClose + NewLine);
    } else {
      TotalLineQuoteFree(total);
      NoQuoteNoRed(TotalLine(total));
    }
  }

  /** The OnCreate, OnStart and OnResume lines are never shown in red. */
  lemma PhaseLineNeverRed(caption: string, value: Int32)
    requires caption in {OnCreateLabel, OnStartLabel, OnResumeLabel}
    ensures !Contains(PhaseLine(caption, value), RedOpen)
  {
    PhaseLineQuoteFree(caption, value);
    NoQuoteNoRed(PhaseLine(caption, value));
  }

  lemma ContainsExtended(a: string, b: string, sub: string)
    requires Contains(a, sub)
    ensures Contains(a + b, sub)
  {
    var i :| OccursAt(a, sub, i);
    assert (a + b)[i..i + |sub|] == a[i..i + |sub|];
    assert OccursAt(a + b, sub, i);
  }

  /** Past the activity name, an ordinary mail is red exactly when the total exceeds 800:
      the Total Duration line follows that rule and the phase lines are never red. */
  lemma DurationLinesRedIff(d: Durations)
    ensures Contains(DurationLines(d), RedOpen) <==> d.total > SlowThreshold
  {
    TotalLineRedIff(d.total);
    if d.total > SlowThreshold {
      ContainsExtended(TotalLine(d.total), PhaseLines(d), RedOpen);
    } else {
      DurationLinesQuoteFree(d);
      NoQuoteNoRed(DurationLines(d));
    }
  }

  lemma DurationLinesQuoteFree(d: Durations)
    requires d.total <= SlowThreshold
    ensures NoQuote(DurationLines(d))
  {
    var t, c, st, rs := TotalLine(d.total), PhaseLine(OnCreateLabel, d.onCreate),
                        PhaseLine(OnStartLabel, d.onStart), PhaseLine(OnResumeLabel, d.onResume);
    TotalLineQuoteFree(d.total);
    PhaseLineQuoteFree(OnCreateLabel, d.onCreate);
    PhaseLineQuoteFree(OnStartLabel, d.onStart);
    PhaseLineQuoteFree(OnResumeLabel, d.onResume);
    NoQuoteAppend(c, st);
    NoQuoteAppend(c + st, rs);
    NoQuoteAppend(t, c + st + rs);
  }

  /** In the full report, an activity's paragraph is its name line followed by lines that
      show red exactly when its total exceeds 800. */
  lemma ParagraphRedIff(name: string, d: Durations)
    ensures StartsWith(ActivityBlock(name, d), NameLine(name))
    ensures Contains(ActivityBlock(name, d)[|NameLine(name)|..], RedOpen) <==> d.total > SlowThreshold
  {
    var nn := NewLine + NewLine;
    Regroup(NameLine(name), DurationLines(d), nn);
    DurationLinesRedIff(d);
    if d.total > SlowThreshold {
      ContainsExtended(DurationLines(d), nn, RedOpen);
    } else {
      DurationLinesQuoteFree(d);
      assert NoQuote(nn);
      NoQuoteAppend(DurationLines(d), nn);
      NoQuoteNoRed(DurationLines(d) + nn);
    }
  }

  lemma Regroup(n: string, lines: string, nn: string)
    ensures StartsWith(n + lines + nn, n)
    ensures (n + lines + nn)[|n|..] == lines + nn
  {
    var s := n + lines + nn;
    assert s[..|n|] == n;
    assert s[|n|..] == lines + nn;
  }

  lemma TotalLineQuoteFree(total: Int32)
    requires total <= SlowThreshold
    ensures NoQuote(TotalLine(total))
  {
    assert NoQuote(" Total Duration:");
    assert NoQuote(NewLine);
    NoQuoteAppend(" Total Duration:", IntToString(total));
    NoQuoteAppend(" Total Duration:" + IntToString(total), NewLine);
  }

  lemma PhaseLineQuoteFree(caption: string, value: Int32)
    requires caption in {OnCreateLabel, OnStartLabel, OnResumeLabel}
    ensures NoQuote(PhaseLine(caption, value))
  {
    assert NoQuote(caption);
    assert NoQuote(NewLine);
    NoQuoteAppend(caption, IntToString(value));
    NoQuoteAppend(caption + IntToString(value), NewLine);
  }

  // ---------------------------------------------------------------------------------------
  // The two builders

  /** The body of the loop of `reportAllActivityDuration`: the lines of one activity,
      appended one by one to the builder's content `info`. */
  method AppendActivityLines(info: string, name: string, d: Durations) returns (out: string)
    ensures out == AppendActivity(info, name, d)
  {
    out := info + ("Activity Name:" + name + NewLine);
    if d.total > SlowThreshold {
      out := out + (" Total Duration:" + RedOpen + IntToString(d.total) + FontClose + NewLine);
    } else {
      out := out + (" Total Duration:" + IntToString(d.total) + NewLine);
    }
    out := out + (OnCreateLabel + IntToString(d.onCreate) + NewLine);
    out := out + (OnStartLabel + IntToString(d.onStart) + NewLine);
    out := out + (OnResumeLabel + IntToString(d.onResume) + NewLine);
    out := out + (NewLine + NewLine);
    AppendParts(info, NameLine(name), TotalLine(d.total), PhaseLine(OnCreateLabel, d.onCreate),
                PhaseLine(OnStartLabel, d.onStart), PhaseLine(OnResumeLabel, d.onResume), NewLine + NewLine);
  }

  /** Appending six parts one by one to `info` appends their concatenation. */
  lemma AppendParts(info: string, n: string, t: string, c: string, st: string, rs: string, nn: string)
    ensures info + n + t + c + st + rs + nn == info + (n + (t + (c + st + rs)) + nn)
  {
    calc {
      info + n + t + c + st + rs + nn;
      { AppendAssoc(info, n, t); }
      info + (n + t) + c + st + rs + nn;
      { AppendAssoc(info, n + t, c); }
      info + (n + t + c) + st + rs + nn;
      { AppendAssoc(info, n + t + c, st); }
      info + (n + t + c + st) + rs + nn;
      { AppendAssoc(info, n + t + c + st, rs); }
      info + (n + t + c + st + rs) + nn;
      { AppendAssoc(n + t, c + st, rs); AppendAssoc(n + t, c, st); AppendAssoc(n, t, c + st + rs); }
      info + (n + (t + (c + st + rs))) + nn;
      { AppendAssoc(info, n + (t + (c + st + rs)), nn); }
      info + (n + (t + (c + st + rs)) + nn);
    }
  }

  /** `reportAllActivityDuration`, text part: sort the map's entries (taken in the map's
      iteration order `entries`) by total duration, then append the header and, line by
      line, one paragraph per activity. */
  method ReportAllActivityDuration(durations: map<string, Durations>, appLaunch: map<string, string>, entries: seq<string>)
    returns (mail: Mail)
    requires IsEntryOrder(entries, durations)
    ensures mail.title == ReportTitle
    ensures mail.body == ReportBody(appLaunch, durations, SortByTotal(entries, durations))
  {
    var order := SortByTotal(entries, durations);
    var info := "App Name:" + AppendedValue(appLaunch, "AppName") + NewLine +
                " OnCreate Duration:" + AppendedValue(appLaunch, "OnCreate") + NewLine;
    for k := 0 to |order|
      invariant info == ReportBody(appLaunch, durations, order[..k])
    {
      info := AppendActivityLines(info, order[k], durations[order[k]]);
      ReportBodyExtend(appLaunch, durations, order, k);
    }
    assert order[..|order|] == order;
    mail := Mail(ReportTitle, info);
  }

  /** Visiting one more activity of `order` appends its paragraph to the report so far. */
  lemma ReportBodyExtend(appLaunch: map<string, string>, durations: map<string, Durations>, order: seq<string>, k: nat)
    requires AllRecorded(order, durations) && k < |order|
    ensures ReportBody(appLaunch, durations, order[..k + 1])
         == AppendActivity(ReportBody(appLaunch, durations, order[..k]), order[k], durations[order[k]])
  {
    assert order[..k + 1][..k] == order[..k];
  }

  /** `text` wrapped in red font tags. */
  function Red(text: string): string {
    RedOpen + text + FontClose
  }

  predicate StartsWith(s: string, prefix: string) {
    |prefix| <= |s| && s[..|prefix|] == prefix
  }

  predicate EndsWith(s: string, suffix: string) {
    |suffix| <= |s| && s[|s| - |suffix|..] == suffix
  }

  /** The first-launch lines about the activity itself; its total is never red here. */
  function FirstLaunchActivityLines(name: string, d: Durations): string {
    NameLine(name) + (" Activity Total Duration:" + IntToString(d.total) + NewLine) + PhaseLines(d)
  }

  /** The body `sendActivityDuration` writes in first-launch mode, given the parsed app
      OnCreate duration: it closes with the launch total (a Java `int` sum), in red. */
  function FirstLaunchBody(appLaunch: map<string, string>, name: string, d: Durations, appOnCreate: Int32): string {
    Framed(AppHeader(appLaunch), FirstLaunchActivityLines(name, d) + " App Launch Total Duration:",
           Red(IntToString(WrapInt32(d.total + appOnCreate))))
  }

  /** `middle` between `head` and `tail`: plain concatenation, named so that proofs about
      the first-launch body can treat its three parts as units. */
  function Framed(head: string, middle: string, tail: string): string {
    head + middle + tail
  }

  /** The body `sendActivityDuration` writes in ordinary mode: no newline between the name
      and the Total Duration line. */
  function OrdinaryBody(name: string, d: Durations): string {
    "Activity Name:" + name + DurationLines(d)
  }

  /** `sendActivityDuration(activityName, isFirst)`, text part: the title and body of the
      mail, or the exception that escapes before the mail is sent. */
  function SendActivityDuration(durations: map<string, Durations>, appLaunch: map<string, string>,
                                activityName: string, isFirst: bool): (r: Result<Mail>)
    ensures activityName !in durations ==> r == Err(NullPointerException)
    ensures activityName in durations && isFirst && AppOnCreate(appLaunch).None? ==>
              r == Err(NumberFormatException)
    ensures r.Ok? <==> activityName in durations && (!isFirst || AppOnCreate(appLaunch).Some?)
    ensures r.Ok? ==> r.value.title == if isFirst then FirstLaunchTitle else ReportTitle
  {
    if activityName !in durations then Err(NullPointerException)
    else
      var d := durations[activityName];
      if isFirst then
        match AppOnCreate(appLaunch)
        case None => Err(NumberFormatException)
        case Some(c) => Ok(Mail(FirstLaunchTitle, FirstLaunchBody(appLaunch, activityName, d, c)))
      else
        Ok(Mail(ReportTitle, OrdinaryBody(activityName, d)))
  }

  lemma FramedEndsWithTail(head: string, middle: string, tail: string)
    ensures EndsWith(Framed(head, middle, tail), tail)
  {
    var s := Framed(head, middle, tail);
    assert s[|s| - |tail|..] == tail;
  }

  /** First-launch mode: whenever a mail is sent, it is titled "App First Launch Duration"
      and closes with the launch total in red, the Java `int` sum of
      the activity's TotalDuration and the parsed app OnCreate (the sum itself whenever it
      fits, by `WrapInt32`'s contract). */
  lemma FirstLaunchTotalIsRed(durations: map<string, Durations>, appLaunch: map<string, string>,
                              activityName: string, mail: Mail)
    requires SendActivityDuration(durations, appLaunch, activityName, true) == Ok(mail)
    ensures activityName in durations && AppOnCreate(appLaunch).Some?
    ensures mail.title == FirstLaunchTitle
    ensures EndsWith(mail.body, Red(IntToString(WrapInt32(durations[activityName].total + AppOnCreate(appLaunch).value))))
  {
    var d, c := durations[activityName], AppOnCreate(appLaunch).value;
    FramedEndsWithTail(AppHeader(appLaunch), FirstLaunchActivityLines(activityName, d) + " App Launch Total Duration:",
                       Red(IntToString(WrapInt32(d.total + c))));
  }

  /** Ordinary mode: past the activity name, the mail shows red exactly when the activity's
      total exceeds 800. */
  lemma OrdinaryReportRedIff(durations: map<string, Durations>, appLaunch: map<string, string>, activityName: string)
    requires activityName in durations
    ensures var r := SendActivityDuration(durations, appLaunch, activityName, false);
      var head := "Activity Name:" + activityName;
      && r.Ok? && r.value.title == ReportTitle
      && StartsWith(r.value.body, head)
      && (Contains(r.value.body[|head|..], RedOpen) <==> durations[activityName].total > SlowThreshold)
  {
    var d := durations[activityName];
    var head := "Activity Name:" + activityName;
    assert OrdinaryBody(activityName, d)[|head|..] == DurationLines(d);
    DurationLinesRedIff(d);
  }
}
