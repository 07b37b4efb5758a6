/** What a call is charged: provider reports, how they are folded together, and what fills their gaps. */
module Usage {
  import opened Basics
  import opened Text

  datatype Usage = Usage(
    input: int, output: int, reasoning: int,
    cacheRead: int, cacheCreation: int, cacheCreation5m: int, cacheCreation1h: int,
    inputReported: bool, outputReported: bool, complete: bool, estimated: bool)

  const NOTHING := Usage(0, 0, 0, 0, 0, 0, 0, false, false, false, false)

  function Total(u: Usage): int {
    u.input + u.output + u.reasoning
  }

  /** No count is negative, and what caches read and wrote is part of the input. */
  predicate Sound(u: Usage) {
    0 <= u.input && 0 <= u.output && 0 <= u.reasoning && 0 <= u.cacheRead && 0 <= u.cacheCreation &&
    0 <= u.cacheCreation5m && 0 <= u.cacheCreation1h &&
    u.cacheRead + u.cacheCreation <= u.input && u.cacheCreation5m + u.cacheCreation1h <= u.cacheCreation
  }

  /** A count that is there is marked as reported; what every provider report satisfies. */
  predicate Tidy(u: Usage) {
    (u.input > 0 ==> u.inputReported) && (u.output > 0 ==> u.outputReported)
  }

  // --- one provider's report -------------------------------------------------------------------

  datatype OpenAiReport = OpenAiReport(
    total: Option<int>, prompt: int, completion: int, cached: int, cacheWrite: int,
    cacheHit: int, cacheMiss: int, reasoning: int)

  function Completion(r: OpenAiReport): int { Max(0, r.completion) }

  function Thought(r: OpenAiReport): int { Max(0, r.reasoning) }

  function Prompt(r: OpenAiReport): int { Max(0, Max(r.prompt, r.cacheHit + r.cacheMiss)) }

  /** Whether reasoning is counted beside the completion rather than inside it. */
  predicate Separate(r: OpenAiReport) {
    if r.total == Some(Prompt(r) + Completion(r)) then false
    else if r.total == Some(Prompt(r) + Completion(r) + Thought(r)) then true
    else Thought(r) > Completion(r)
  }

  function FromOpenAi(r: OpenAiReport): Usage {
    var completion, input := Completion(r), Prompt(r);
    var cached := Max(0, Max(r.cached, r.cacheHit));
    var reasoning := if Separate(r) then Thought(r) else Min(Thought(r), completion);
    var output := if Separate(r) then completion else completion - reasoning;
    var zero := r.total == Some(0) && input + completion + reasoning == 0;
    Usage(input, output, reasoning, Min(cached, input), Min(Max(0, r.cacheWrite), Max(0, input - cached)), 0, 0,
          input > 0 || zero, completion > 0 || zero, false, false)
  }

  /** Whatever a provider sends, negative counts included. */
  lemma OpenAiIsSound(r: OpenAiReport)
    ensures Sound(FromOpenAi(r)) && Tidy(FromOpenAi(r))
  {
  }

  /** The provider's own total is kept whenever it is one of the two sums it can be. */
  lemma OpenAiTotalIsKept(r: OpenAiReport)
    requires r.total == Some(Prompt(r) + Completion(r)) || r.total == Some(Prompt(r) + Completion(r) + Thought(r))
    ensures Total(FromOpenAi(r)) == r.total.value
  {
  }

  /** Without a recognised total the charge is the completion, or the reasoning beside it when it is larger. */
  lemma OpenAiTotalOtherwise(r: OpenAiReport)
    requires r.total != Some(Prompt(r) + Completion(r)) && r.total != Some(Prompt(r) + Completion(r) + Thought(r))
    ensures Total(FromOpenAi(r)) ==
            Prompt(r) + Completion(r) + if Thought(r) > Completion(r) then Thought(r) else 0
  {
  }

  /** Every figure of a report that adds up is kept: hits and misses make up a prompt that is not given. */
  lemma OpenAiFiguresAreKept(r: OpenAiReport)
    ensures 0 <= r.reasoning <= r.completion && 0 <= r.cacheWrite && 0 <= r.prompt && 0 <= r.cacheMiss &&
            0 <= r.cached <= r.cacheHit + r.prompt && 0 <= r.cacheHit ==>
              var input := if r.prompt >= r.cacheHit + r.cacheMiss then r.prompt else r.cacheHit + r.cacheMiss;
              var cached := if r.cached >= r.cacheHit then r.cached else r.cacheHit;
              var u := FromOpenAi(r);
              u.input == input && (input > 0 ==> u.inputReported) && (r.completion > 0 ==> u.outputReported) &&
              (r.total == Some(0) && input + r.completion + r.reasoning == 0 ==> u.inputReported && u.outputReported) &&
              (cached + r.cacheWrite <= input ==> u.cacheRead == cached && u.cacheCreation == r.cacheWrite) &&
              (r.total.None? || r.total == Some(input + r.completion) ==>
                 u.reasoning == r.reasoning && u.output == r.completion - r.reasoning) &&
              (r.total == Some(input + r.completion + r.reasoning) && r.reasoning > 0 ==>
                 u.reasoning == r.reasoning && u.output == r.completion)
  {
  }

  datatype Creation = Creation(fiveMinutes: Option<int>, oneHour: Option<int>)

  datatype AnthropicReport = AnthropicReport(
    input: Option<int>, output: Option<int>, cacheRead: Option<int>, cacheCreation: Option<int>,
    creation: Option<Creation>)

  function Value(count: Option<int>): int {
    if count.None? then 0 else Max(0, count.value)
  }

  function Later<T>(count: Option<T>, next: Option<T>): Option<T> {
    if next.Some? then next else count
  }

  function Fold(r: AnthropicReport, next: AnthropicReport): AnthropicReport {
    AnthropicReport(
      Later(r.input, next.input), Later(r.output, next.output),
      Later(r.cacheRead, next.cacheRead), Later(r.cacheCreation, next.cacheCreation),
      if next.creation.None? then r.creation
      else
        var was := if r.creation.Some? then r.creation.value else Creation(None, None);
        Some(Creation(Later(was.fiveMinutes, next.creation.value.fiveMinutes),
                      Later(was.oneHour, next.creation.value.oneHour))))
  }

  /** How the partial reports of one stream are grouped makes no difference. */
  lemma FoldingIsAssociative(a: AnthropicReport, b: AnthropicReport, c: AnthropicReport)
    ensures Fold(Fold(a, b), c) == Fold(a, Fold(b, c))
  {
  }

  /** What a later report says counts, and what it leaves out stays as it was. */
  lemma FoldingKeepsTheLatest(r: AnthropicReport, next: AnthropicReport)
    ensures var f := Fold(r, next);
            f.input == (if next.input.Some? then next.input else r.input) &&
            f.output == (if next.output.Some? then next.output else r.output) &&
            f.cacheRead == (if next.cacheRead.Some? then next.cacheRead else r.cacheRead) &&
            f.cacheCreation == (if next.cacheCreation.Some? then next.cacheCreation else r.cacheCreation) &&
            (next.creation.None? ==> f.creation == r.creation) &&
            (next.creation.Some? && r.creation.None? ==> f.creation == next.creation)
  {
  }

  /** Every figure reported is kept, and the input is what was read plain, from caches, and to fill them. */
  lemma AnthropicFiguresAreKept(input: nat, output: nat, read: nat, five: nat, one: nat)
    ensures FromAnthropic(AnthropicReport(Some(input), Some(output), Some(read), Some(five + one),
                                          Some(Creation(Some(five), Some(one))))) ==
            Usage(input + read + five + one, output, 0, read, five + one, five, one,
                  input + read + five + one > 0 || output == 0, true, false, false)
    ensures FromAnthropic(AnthropicReport(Some(input), None, None, Some(five), None)) ==
            Usage(input + five, 0, 0, 0, five, 0, 0, input + five > 0, false, false, false)
  {
  }

  function FromAnthropic(r: AnthropicReport): Usage {
    var five := if r.creation.Some? then Value(r.creation.value.fiveMinutes) else 0;
    var one := if r.creation.Some? then Value(r.creation.value.oneHour) else 0;
    var created := Max(Value(r.cacheCreation), five + one);
    var input := Value(r.input) + Value(r.cacheRead) + created;
    Usage(input, Value(r.output), 0, Value(r.cacheRead), created, five, one,
          input > 0 || (r.input == Some(0) && r.output == Some(0)), r.output.Some?, false, false)
  }

  lemma AnthropicIsSound(r: AnthropicReport)
    ensures Sound(FromAnthropic(r)) && Tidy(FromAnthropic(r))
  {
  }

  // --- folding reports together -------------------------------------------------------------------

  function Merge(u: Usage, next: Usage): Usage {
    var caches := next.inputReported || next.cacheRead > 0 || next.cacheCreation > 0;
    Usage(
      if next.input > 0 || next.inputReported then next.input else u.input,
      if next.output > 0 || next.outputReported then next.output else u.output,
      if next.reasoning > 0 || next.outputReported then next.reasoning else u.reasoning,
      if caches then next.cacheRead else u.cacheRead,
      if caches then next.cacheCreation else u.cacheCreation,
      if caches then next.cacheCreation5m else u.cacheCreation5m,
      if caches then next.cacheCreation1h else u.cacheCreation1h,
      u.inputReported || next.inputReported, u.outputReported || next.outputReported,
      u.complete || next.complete, u.estimated || next.estimated)
  }

  /** The latest report that gives a figure counts; one that gives none changes none. */
  lemma TheLatestReportCounts(u: Usage, next: Usage)
    ensures Sound(u) ==> Merge(u, NOTHING) == u
    ensures next.inputReported ==>
              var m := Merge(u, next);
              m.input == next.input && m.cacheRead == next.cacheRead && m.cacheCreation == next.cacheCreation &&
              m.cacheCreation5m == next.cacheCreation5m && m.cacheCreation1h == next.cacheCreation1h && m.inputReported
    ensures next.outputReported ==>
              var m := Merge(u, next);
              m.output == next.output && m.reasoning == next.reasoning && m.outputReported
    ensures Merge(u, next).complete == (u.complete || next.complete) &&
            Merge(u, next).estimated == (u.estimated || next.estimated)
  {
  }

  /** An input that nobody reported replaces one whose caches are then left behind, and they do not fit it. */
  predicate LeavesCachesBehind(u: Usage, next: Usage) {
    next.input > 0 && !next.inputReported && next.cacheRead == 0 && next.cacheCreation == 0 &&
    u.cacheRead + u.cacheCreation > next.input
  }

  lemma MergeIsSoundUnless(u: Usage, next: Usage)
    requires Sound(u) && Sound(next)
    ensures Sound(Merge(u, next)) <==> !LeavesCachesBehind(u, next)
  {
  }

  /**
   * A fact about merging alone: an estimate of ten tokens folded over a report of a hundred, ninety of them
   * read from a cache. No call folds such a pair, as `CallersAgree` says.
   */
  lemma AnEstimateLeavesCachesBehind()
    ensures var u := NOTHING.(input := 100, cacheRead := 90, inputReported := true);
            var next := NOTHING.(input := 10, estimated := true);
            Sound(u) && Tidy(u) && Sound(next) && !Sound(Merge(u, next))
  {
  }

  lemma MergeKeeps(u: Usage, next: Usage)
    ensures Sound(u) && Tidy(u) && Sound(next) && Tidy(next) ==> Sound(Merge(u, next)) && Tidy(Merge(u, next))
  {
    if Sound(u) && Tidy(u) && Sound(next) && Tidy(next) {
      MergeIsSoundUnless(u, next);
    }
  }

  function MergeAll(reports: seq<Usage>): Usage {
    if reports == [] then NOTHING else Merge(MergeAll(reports[..|reports| - 1]), reports[|reports| - 1])
  }

  /** However many provider reports a call folds together. */
  lemma {:induction false} ReportsStaySound(reports: seq<Usage>)
    requires forall u :: u in reports ==> Sound(u) && Tidy(u)
    ensures Sound(MergeAll(reports)) && Tidy(MergeAll(reports))
  {
    if reports != [] {
      assert forall u :: u in reports[..|reports| - 1] ==> u in reports;
      ReportsStaySound(reports[..|reports| - 1]);
      MergeKeeps(MergeAll(reports[..|reports| - 1]), reports[|reports| - 1]);
    }
  }

  // --- filling what was not reported ----------------------------------------------------------------

  const BYTES_PER_TOKEN := 4
  const PER_TOOL_CALL := 8

  /** The size of what was streamed of an answer by the end of its call, kind by kind. */
  datatype Written = Written(text: nat, reasoning: nat, calls: nat)

  /** A finished answer, by the sizes of its text, its reasoning and each call's name and arguments. */
  datatype Answer = Answer(text: nat, reasoning: nat, calls: seq<nat>, usage: Usage)

  function CallTokens(calls: seq<nat>): nat {
    if calls == [] then 0
    else CallTokens(calls[..|calls| - 1]) + PER_TOOL_CALL + calls[|calls| - 1] / BYTES_PER_TOKEN
  }

  function WithPrompt(u: Usage, prompt: nat): Usage {
    if u.input == 0 && !u.inputReported then u.(input := prompt, estimated := true) else u
  }

  function FillUsage(prompt: nat, answer: Answer, reported: Usage): Usage {
    var u := WithPrompt(reported, prompt);
    var produced := answer.text > 0 || answer.reasoning > 0 || |answer.calls| > 0;
    if u.output == 0 && !u.outputReported && produced then
      u.(output := answer.text / BYTES_PER_TOKEN + CallTokens(answer.calls),
         reasoning := if u.reasoning == 0 then answer.reasoning / BYTES_PER_TOKEN else u.reasoning,
         estimated := true)
    else u
  }

  function OutputOf(w: Written): nat {
    (w.text + w.calls) / BYTES_PER_TOKEN
  }

  function ThoughtOf(w: Written): nat {
    w.reasoning / BYTES_PER_TOKEN
  }

  function FillStopped(prompt: nat, w: Written, reported: Usage): Usage {
    if reported.complete || w == Written(0, 0, 0) then reported
    else
      var u := WithPrompt(reported, prompt);
      if u.output + u.reasoning < OutputOf(w) + ThoughtOf(w) then
        u.(output := OutputOf(w), reasoning := ThoughtOf(w), estimated := true)
      else u
  }

  /** Filling keeps every figure that was reported, and says so when it added one. */
  lemma FillingKeepsReports(prompt: nat, answer: Answer, reported: Usage)
    requires Sound(reported) && Tidy(reported)
    ensures var u := FillUsage(prompt, answer, reported);
            Sound(u) && (reported.inputReported ==> u.input == reported.input) &&
            (reported.outputReported ==> u.output == reported.output && u.reasoning == reported.reasoning) &&
            (u.reasoning == reported.reasoning || reported.reasoning == 0) &&
            u.cacheRead == reported.cacheRead && u.cacheCreation == reported.cacheCreation &&
            (u.estimated == reported.estimated ==> u == reported || reported.estimated)
  {
  }

  /** The bytes of all the calls together. */
  function Bytes(calls: seq<nat>): nat {
    if calls == [] then 0 else Bytes(calls[..|calls| - 1]) + calls[|calls| - 1]
  }

  lemma {:induction false} CallsAreCounted(calls: seq<nat>)
    ensures var n := 4 * CallTokens(calls);
            Bytes(calls) + 29 * |calls| <= n <= Bytes(calls) + 32 * |calls|
  {
    if calls != [] { CallsAreCounted(calls[..|calls| - 1]); }
  }

  /**
   * A call that finished without a count is charged for every four bytes of its text and of its calls, and
   * eight tokens more for each call; for its prompt as estimated; and its reasoning when that was not counted.
   */
  lemma FinishedPaysForItsAnswer(prompt: nat, answer: Answer, reported: Usage)
    ensures var u := FillUsage(prompt, answer, reported);
            var bytes, calls := answer.text + Bytes(answer.calls), |answer.calls|;
            (reported.output == 0 && !reported.outputReported ==>
               bytes + 29 * calls - 4 < 4 * u.output <= bytes + 32 * calls &&
               (reported.reasoning == 0 ==> answer.reasoning - 4 < 4 * u.reasoning <= answer.reasoning)) &&
            (reported.input == 0 && !reported.inputReported ==> u.input == prompt && u.estimated)
  {
    CallsAreCounted(answer.calls);
    hide CallTokens, Bytes;
    assert answer.calls == [] ==> Bytes(answer.calls) == 0 by { NoBytes(); }
  }

  lemma NoBytes()
    ensures Bytes([]) == 0
  {
  }

  /** A call that broke off is charged at least what it streamed and at least what was reported. */
  lemma StoppedPaysForWhatStreamed(prompt: nat, w: Written, reported: Usage)
    requires Sound(reported) && Tidy(reported)
    ensures var u := FillStopped(prompt, w, reported);
            Sound(u) && u.output + u.reasoning >= reported.output + reported.reasoning && u.input >= reported.input &&
            (!reported.complete ==> 4 * (u.output + u.reasoning) + 8 > w.text + w.calls + w.reasoning) &&
            (u.output + u.reasoning > reported.output + reported.reasoning ==>
               4 * u.output <= w.text + w.calls && 4 * u.reasoning <= w.reasoning && u.estimated) &&
            (reported.complete ==> u == reported)
  {
  }

  // --- one call, from its events to its charge ---------------------------------------------------------

  datatype Event = Reported(usage: Usage) | Delta(bytes: nat) | Thought(bytes: nat) | ToolCall(bytes: nat) | Other

  function ReportsIn(events: seq<Event>): seq<Usage> {
    if events == [] then []
    else ReportsIn(events[..|events| - 1]) +
         if events[|events| - 1].Reported? then [events[|events| - 1].usage] else []
  }

  function WrittenBy(events: seq<Event>): Written {
    if events == [] then Written(0, 0, 0)
    else
      var w := WrittenBy(events[..|events| - 1]);
      match events[|events| - 1]
      case Delta(n) => w.(text := w.text + n)
      case Thought(n) => w.(reasoning := w.reasoning + n)
      case ToolCall(n) => w.(calls := w.calls + PER_TOOL_CALL * BYTES_PER_TOKEN + n)
      case _ => w
  }

  /** The charge for a call, from the events it sent, how it ended, and the answer it returned. */
  function Charge(prompt: nat, events: seq<Event>, answer: Answer, failed: bool): Usage {
    var reported := Merge(MergeAll(ReportsIn(events)), answer.usage);
    if failed then FillStopped(prompt, WrittenBy(events), reported) else FillUsage(prompt, answer, reported)
  }

  lemma OneMoreReport(reports: seq<Usage>, u: Usage)
    ensures MergeAll(reports + [u]) == Merge(MergeAll(reports), u)
  {
    assert (reports + [u])[..|reports|] == reports;
  }

  method ChatUsage(prompt: nat, events: seq<Event>, answer: Answer, failed: bool) returns (charged: Usage)
    ensures charged == Charge(prompt, events, answer, failed)
  {
    var reported, streamed := NOTHING, Written(0, 0, 0);
    for i := 0 to |events|
      invariant reported == MergeAll(ReportsIn(events[..i])) && streamed == WrittenBy(events[..i])
    {
      assert events[..i + 1][..i] == events[..i];
      assert ReportsIn(events[..i]) + [] == ReportsIn(events[..i]);
      match events[i] {
        case Reported(usage) =>
          OneMoreReport(ReportsIn(events[..i]), usage);
          reported := Merge(reported, usage);
        case Delta(n) => streamed := streamed.(text := streamed.text + n);
        case Thought(n) => streamed := streamed.(reasoning := streamed.reasoning + n);
        case ToolCall(n) => streamed := streamed.(calls := streamed.calls + PER_TOOL_CALL * BYTES_PER_TOKEN + n);
        case Other =>
      }
    }
    assert events[..|events|] == events;
    reported := Merge(reported, answer.usage);
    if failed {
      return FillStopped(prompt, streamed, reported);
    }
    return FillUsage(prompt, answer, reported);
  }

  predicate ReportsTidy(events: seq<Event>) {
    forall e :: e in events && e.Reported? ==> Sound(e.usage) && Tidy(e.usage)
  }

  lemma {:induction false} ReportsInAreTidy(events: seq<Event>)
    requires ReportsTidy(events)
    ensures forall u :: u in ReportsIn(events) ==> Sound(u) && Tidy(u)
  {
    hide Sound, Tidy;
    if events != [] {
      assert events[|events| - 1] in events;
      assert forall e :: e in events[..|events| - 1] ==> e in events;
      ReportsInAreTidy(events[..|events| - 1]);
    }
  }

  /** The bytes of everything a call sent, each tool call as thirty-two more. */
  function Streamed(events: seq<Event>): nat {
    if events == [] then 0
    else
      Streamed(events[..|events| - 1]) +
      match events[|events| - 1]
      case Delta(n) => n
      case Thought(n) => n
      case ToolCall(n) => 32 + n
      case _ => 0
  }

  lemma {:induction false} AllThatStreamed(events: seq<Event>)
    ensures var w := WrittenBy(events); w.text + w.calls + w.reasoning == Streamed(events)
  {
    if events != [] { AllThatStreamed(events[..|events| - 1]); }
  }

  /** Every call's charge is sound, and one that broke off unreported pays for all it streamed. */
  lemma ChargesAreSound(prompt: nat, events: seq<Event>, answer: Answer, failed: bool)
    requires ReportsTidy(events) && Sound(answer.usage) && Tidy(answer.usage)
    ensures var u := Charge(prompt, events, answer, failed);
            Sound(u) &&
            (failed && !u.complete ==> 4 * (u.output + u.reasoning) + 8 > Streamed(events)) &&
            (!failed && !u.outputReported && MergeAll(ReportsIn(events)).output == 0 == answer.usage.output ==>
               4 * u.output + 4 > answer.text + Bytes(answer.calls) + 29 * |answer.calls|)
  {
    hide Sound, Tidy, Bytes;
    AllThatStreamed(events);
    FinishedPaysForItsAnswer(prompt, answer, Merge(MergeAll(ReportsIn(events)), answer.usage));
    ReportsInAreTidy(events);
    ReportsStaySound(ReportsIn(events));
    var reported := Merge(MergeAll(ReportsIn(events)), answer.usage);
    MergeKeeps(MergeAll(ReportsIn(events)), answer.usage);
    FillingKeepsReports(prompt, answer, reported);
    StoppedPaysForWhatStreamed(prompt, WrittenBy(events), reported);
  }

  // --- the caller's own count -----------------------------------------------------------------------

  /**
   * Reasoning the caller has counted, from a report without an output that is not the last word, is replaced
   * by an estimate of none when the words that streamed amount to more than everything reported.
   */
  predicate DropsReasoning(seen: Usage, reported: Usage, w: Written) {
    seen.reasoning > 0 && !reported.complete && !reported.outputReported &&
    ThoughtOf(w) == 0 && reported.output + reported.reasoning < OutputOf(w)
  }

  /**
   * A caller folds the same reports as they pass and then the charge on top. What it ends with is sound, and
   * it is the charge itself unless the call stopped early and dropped reasoning the caller had counted.
   */
  lemma CallersAgree(prompt: nat, events: seq<Event>, answer: Answer, failed: bool)
    requires ReportsTidy(events) && Sound(answer.usage) && Tidy(answer.usage)
    ensures var seen := MergeAll(ReportsIn(events));
            var reported := Merge(seen, answer.usage);
            var charged := Charge(prompt, events, answer, failed);
            Sound(Merge(seen, charged)) &&
            (Merge(seen, charged) == charged <==> !(failed && DropsReasoning(seen, reported, WrittenBy(events))))
  {
    hide MergeAll, ReportsIn, WrittenBy, ReportsTidy;
    ReportsInAreTidy(events);
    ReportsStaySound(ReportsIn(events));
    if failed {
      StoppedCallersAgree(prompt, MergeAll(ReportsIn(events)), answer.usage, WrittenBy(events));
    } else {
      FinishedCallersAgree(prompt, MergeAll(ReportsIn(events)), answer);
    }
  }

  lemma FinishedCallersAgree(prompt: nat, seen: Usage, answer: Answer)
    ensures Sound(seen) && Tidy(seen) && Sound(answer.usage) && Tidy(answer.usage) ==>
              var charged := FillUsage(prompt, answer, Merge(seen, answer.usage));
              Merge(seen, charged) == charged && Sound(Merge(seen, charged))
  {
    hide CallTokens;
  }

  lemma StoppedCallersAgree(prompt: nat, seen: Usage, last: Usage, w: Written)
    ensures Sound(seen) && Tidy(seen) && Sound(last) && Tidy(last) ==>
              var reported := Merge(seen, last);
              var charged := FillStopped(prompt, w, reported);
              Sound(Merge(seen, charged)) &&
              (Merge(seen, charged) == charged <==> !DropsReasoning(seen, reported, w))
  {
    if w == Written(0, 0, 0) { assert OutputOf(w) == 0; }
    hide OutputOf, ThoughtOf;
  }

  /** Three tokens of reasoning reported alone, then forty bytes of text before the connection drops. */
  lemma ACallerCountsDroppedReasoning()
    ensures var report := FromOpenAi(OpenAiReport(None, 5, 0, 0, 0, 0, 0, 3));
            var events := [Reported(report), Delta(40)];
            var answer := Answer(0, 0, [], NOTHING);
            var charged := Charge(0, events, answer, true);
            charged.output == 10 && charged.reasoning == 0 && Merge(MergeAll(ReportsIn(events)), charged).reasoning == 3
  {
    var report := FromOpenAi(OpenAiReport(None, 5, 0, 0, 0, 0, 0, 3));
    var events := [Reported(report), Delta(40)];
    assert events[..1] == [Reported(report)] && [Reported(report)][..0] == [] && [report][..0] == [];
    assert ReportsIn([Reported(report)]) == [] + [report] == [report];
    assert ReportsIn(events) == [report] + [];
    assert WrittenBy([Reported(report)]) == Written(0, 0, 0);
  }
}
