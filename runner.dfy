/**
 * The three kinds of test body and the shared list they append to. Each
 * case finds the input field, types, reads the output, classifies it and
 * pushes exactly one record; a driver exception is caught and becomes the
 * record instead.
 */
module Runner {
  import opened Wrappers
  import opened Strings
  import opened Records
  import opened Locator
  import opened SinhalaRun
  import opened Classifier

  /** One entry of the positive or negative corpus. */
  datatype TestCase = TestCase(
    id: string,
    description: string,
    input: string,
    expected: string,
    domain: string,
    grammar: string,
    lengthClass: string)

  /**
   * One run of a positive or negative case: the freshly loaded page, on
   * which the input field is looked for; the page after the input was
   * typed and the settle delay passed, from which the output is read; the
   * message of the exception the driver raised (if it raised one); and the
   * measured milliseconds.
   */
  datatype Run = Run(tc: TestCase, loaded: Page, page: Page, fault: Option<string>, elapsed: nat)

  /**
   * The real-time run: the page before typing, the page after each prefix
   * of the phrase was filled in, the page after the final wait, a driver
   * exception if any, and the measured milliseconds.
   */
  datatype UiRun = UiRun(initial: Page, afterFill: string -> Page, settled: Page, fault: Option<string>, elapsed: nat)

  const PositiveInputSelectors: seq<string> :=
    ["input[type=\"text\"]", "textarea", "[contenteditable=\"true\"]", "input", "#input", ".input"]

  /** The input candidates of the negative and real-time cases. */
  const ShortInputSelectors: seq<string> := ["input[type=\"text\"]", "textarea", "[contenteditable=\"true\"]"]

  const PositiveOutputSelectors: seq<string> :=
    [".output", ".result", ".translation", "#output", "#result",
     "div:has-text(\"සිංහල\")", "div:has-text(\"මම\")", "textarea:not([type])",
     "[class*=\"output\"]", "[class*=\"result\"]"]

  const NegativeOutputSelectors: seq<string> := [".output", ".result", ".translation", "#output", "#result"]

  const UiOutputSelectors: seq<string> := [".output", ".result", ".translation"]

  const TestPhrase: string := "mama gedhara yanavaa"

  const InputNotFound: string := "Input field not found"

  /** The list every test pushes its record onto. */
  class ResultLog {
    var records: seq<Record>

    constructor ()
      ensures records == []
    {
      records := [];
    }

    method Push(r: Record)
      modifies this
      ensures records == old(records) + [r]
    {
      records := records + [r];
    }
  }

  // ---------- positive cases ----------

  /**
   * The positive output: selector texts until one is not blank; if none
   * is, the first Sinhala run in the page body when there is one; trimmed.
   */
  function PositiveOutput(page: Page): string
  {
    var read := Scan(page, PositiveOutputSelectors, OnNonBlank);
    var chosen :=
      if Trim(read) == [] then
        match FirstSinhalaRun(page.body)
        case Some(m) => m
        case None => read
      else read;
    Trim(chosen)
  }

  function PositiveRecord(tc: TestCase, actual: string, status: Verdict, comments: string, elapsed: nat): Record
  {
    Record(tc.id, tc.description, tc.input, tc.expected, actual, status, comments, elapsed,
           tc.domain, tc.grammar, tc.lengthClass, "Accuracy validation")
  }

  /** The record a positive case pushes. */
  function PositiveResult(run: Run): (r: Record)
    ensures r.id == run.tc.id && r.description == run.tc.description && r.input == run.tc.input
    ensures r.expected == run.tc.expected && r.domain == run.tc.domain && r.grammar == run.tc.grammar
    ensures r.lengthClass == run.tc.lengthClass && r.elapsed == run.elapsed
    ensures r.qualityFocus == "Accuracy validation"
    ensures r.status == Error <==> run.fault.Some? || FirstMatch(run.loaded, PositiveInputSelectors).None?
    ensures r.status != Partial
    ensures run.fault.Some? ==> r.actual == "ERROR" && r.comments == "Test error: " + run.fault.value
    ensures run.fault.None? && FirstMatch(run.loaded, PositiveInputSelectors).None? ==>
      r.actual == "ERROR" && r.comments == "Test error: " + InputNotFound
    ensures r.status != Error ==>
      var output := PositiveOutput(run.page);
      && r.actual == (if output == [] then "(Empty)" else output)
      && r.status == ClassifyPositive(output).verdict && r.comments == ClassifyPositive(output).comment
  {
    match run.fault
    case Some(msg) => PositiveRecord(run.tc, "ERROR", Error, "Test error: " + msg, run.elapsed)
    case None =>
      if FirstMatch(run.loaded, PositiveInputSelectors).None? then
        PositiveRecord(run.tc, "ERROR", Error, "Test error: " + InputNotFound, run.elapsed)
      else
        var output := PositiveOutput(run.page);
        var o := ClassifyPositive(output);
        PositiveRecord(run.tc, if output == [] then "(Empty)" else output, o.verdict, o.comment, run.elapsed)
  }

  /** The positive test body: one record appended, and nothing else changed. */
  method RunPositive(run: Run, log: ResultLog)
    modifies log
    ensures log.records == old(log.records) + [PositiveResult(run)]
  {
    if run.fault.Some? {
      log.Push(PositiveRecord(run.tc, "ERROR", Error, "Test error: " + run.fault.value, run.elapsed));
      return;
    }
    var field := LocateFirst(run.loaded, PositiveInputSelectors);
    if field.None? {
      log.Push(PositiveRecord(run.tc, "ERROR", Error, "Test error: " + InputNotFound, run.elapsed));
      return;
    }
    var actual := ScanOutputs(run.page, PositiveOutputSelectors, OnNonBlank);
    if Trim(actual) == [] {
      var m := FirstSinhalaRun(run.page.body);
      if m.Some? {
        actual := m.value;
      }
    }
    actual := Trim(actual);
    var o := ClassifyPositive(actual);
    log.Push(PositiveRecord(run.tc, if actual == [] then "(Empty)" else actual, o.verdict, o.comment, run.elapsed));
  }

  /** The verdict and comment of a positive case do not depend on its expected output. */
  lemma PositiveIgnoresExpected(run: Run, expected: string)
    ensures var other := PositiveResult(run.(tc := run.tc.(expected := expected)));
      other.status == PositiveResult(run).status && other.comments == PositiveResult(run).comments &&
      other.actual == PositiveResult(run).actual
  {
  }

  /**
   * A positive record passes only with a non-empty, Sinhala-bearing output,
   * so the assertion after the push (`actualOutput.length > 0`) always
   * holds and no second record is pushed for the same case.
   */
  lemma PositivePassHasOutput(run: Run)
    requires PositiveResult(run).status == Pass
    ensures PositiveResult(run).actual == PositiveOutput(run.page)
    ensures |PositiveOutput(run.page)| > 0 && ContainsSinhala(PositiveOutput(run.page))
  {
  }

  /** Whether the positive output came from the selectors or from the page body. */
  lemma PositiveOutputCases(page: Page)
    ensures var read := Scan(page, PositiveOutputSelectors, OnNonBlank);
      && (Trim(read) != [] ==> PositiveOutput(page) == Trim(read))
      && (Trim(read) == [] && FirstSinhalaRun(page.body).Some? ==>
            PositiveOutput(page) == FirstSinhalaRun(page.body).value)
      && (Trim(read) == [] && FirstSinhalaRun(page.body).None? ==> PositiveOutput(page) == [])
  {
    var read := Scan(page, PositiveOutputSelectors, OnNonBlank);
    if Trim(read) == [] {
      if FirstSinhalaRun(page.body).Some? {
        FirstSinhalaRunShape(page.body);
      } else {
        TrimIdempotent(read);
      }
    }
  }

  /**
   * When no output selector gives a non-blank text but the page body holds
   * a Sinhala run, the positive case passes with that run as its output.
   */
  lemma PositiveFallbackPasses(run: Run)
    requires run.fault.None? && FirstMatch(run.loaded, PositiveInputSelectors).Some?
    requires forall k :: 0 <= k < |PositiveOutputSelectors| ==>
      !Yields(run.page, PositiveOutputSelectors[k], OnNonBlank)
    requires FirstSinhalaRun(run.page.body).Some?
    ensures PositiveResult(run).status == Pass
    ensures PositiveResult(run).actual == FirstSinhalaRun(run.page.body).value
  {
    ScanFindsNone(run.page, PositiveOutputSelectors, OnNonBlank, "");
    PositiveOutputCases(run.page);
    FirstSinhalaRunShape(run.page.body);
  }

  /** With nothing readable anywhere, a positive case fails with "No output produced". */
  lemma PositiveNothingFails(run: Run)
    requires run.fault.None? && FirstMatch(run.loaded, PositiveInputSelectors).Some?
    requires forall k :: 0 <= k < |PositiveOutputSelectors| ==>
      !Yields(run.page, PositiveOutputSelectors[k], OnNonBlank)
    requires FirstSinhalaRun(run.page.body).None?
    ensures PositiveResult(run).status == Fail
    ensures PositiveResult(run).comments == "No output produced"
    ensures PositiveResult(run).actual == "(Empty)"
  {
    ScanFindsNone(run.page, PositiveOutputSelectors, OnNonBlank, "");
    PositiveOutputCases(run.page);
  }

  /**
   * Once the input field was found on the loaded page, the verdict and the
   * comment come from the output read on the page after typing, whatever
   * the input selectors match there.
   */
  lemma PositiveClassifiesTypedPage(run: Run)
    requires run.fault.None? && FirstMatch(run.loaded, PositiveInputSelectors).Some?
    ensures var o := ClassifyPositive(PositiveOutput(run.page));
      PositiveResult(run).status == o.verdict && PositiveResult(run).comments == o.comment
  {
  }

  // ---------- negative cases ----------

  /** The negative output: selector texts until one is non-empty, trimmed. */
  function NegativeOutput(page: Page): string
  {
    Trim(Scan(page, NegativeOutputSelectors, OnNonEmpty))
  }

  /**
   * The negative output is the trimmed text of the first output selector
   * whose text is non-empty, or "" when there is none.
   */
  lemma NegativeOutputCases(page: Page, j: nat)
    ensures (forall k :: 0 <= k < |NegativeOutputSelectors| ==> !Yields(page, NegativeOutputSelectors[k], OnNonEmpty)) ==>
      NegativeOutput(page) == []
    ensures (j < |NegativeOutputSelectors| && Yields(page, NegativeOutputSelectors[j], OnNonEmpty) &&
             forall k :: 0 <= k < j ==> !Yields(page, NegativeOutputSelectors[k], OnNonEmpty)) ==>
      NegativeOutput(page) == Trim(page.text(NegativeOutputSelectors[j]))
  {
    ScanNonEmptyCases(page, NegativeOutputSelectors);
  }

  function NegativeRecord(tc: TestCase, actual: string, status: Verdict, comments: string, elapsed: nat): Record
  {
    Record(tc.id, tc.description, tc.input, "Should fail or produce incorrect output", actual, status, comments,
           elapsed, tc.domain, tc.grammar, tc.lengthClass, "Robustness validation")
  }

  /** The record a negative case pushes; an exception counts as the expected failure. */
  function NegativeResult(run: Run): (r: Record)
    ensures r.id == run.tc.id && r.description == run.tc.description && r.input == run.tc.input
    ensures r.expected == "Should fail or produce incorrect output"
    ensures r.domain == run.tc.domain && r.grammar == run.tc.grammar
    ensures r.lengthClass == run.tc.lengthClass && r.elapsed == run.elapsed
    ensures r.qualityFocus == "Robustness validation"
    ensures r.status == Pass || r.status == Fail
    ensures run.fault.Some? || FirstMatch(run.loaded, ShortInputSelectors).None? ==>
      r.status == Pass && r.actual == "ERROR"
    ensures run.fault.Some? ==> r.comments == "Execution error (expected): " + run.fault.value
    ensures run.fault.None? && FirstMatch(run.loaded, ShortInputSelectors).None? ==>
      r.comments == "Execution error (expected): " + InputNotFound
    ensures run.fault.None? && FirstMatch(run.loaded, ShortInputSelectors).Some? ==>
      var output := NegativeOutput(run.page);
      && r.actual == (if output == [] then "(No output)" else output)
      && r.status == ClassifyNegative(run.tc.input, output).verdict
      && r.comments == ClassifyNegative(run.tc.input, output).comment
  {
    match run.fault
    case Some(msg) =>
      NegativeRecord(run.tc, "ERROR", Pass, "Execution error (expected): " + msg, run.elapsed)
    case None =>
      if FirstMatch(run.loaded, ShortInputSelectors).None? then
        NegativeRecord(run.tc, "ERROR", Pass, "Execution error (expected): " + InputNotFound, run.elapsed)
      else
        var output := NegativeOutput(run.page);
        var o := ClassifyNegative(run.tc.input, output);
        NegativeRecord(run.tc, if output == [] then "(No output)" else output, o.verdict, o.comment, run.elapsed)
  }

  /** The negative test body: one record appended. */
  method RunNegative(run: Run, log: ResultLog)
    modifies log
    ensures log.records == old(log.records) + [NegativeResult(run)]
  {
    if run.fault.Some? {
      log.Push(NegativeRecord(run.tc, "ERROR", Pass, "Execution error (expected): " + run.fault.value, run.elapsed));
      return;
    }
    var field := LocateFirst(run.loaded, ShortInputSelectors);
    if field.None? {
      log.Push(NegativeRecord(run.tc, "ERROR", Pass, "Execution error (expected): " + InputNotFound, run.elapsed));
      return;
    }
    var actual := ScanOutputs(run.page, NegativeOutputSelectors, OnNonEmpty);
    actual := Trim(actual);
    var o := ClassifyNegative(run.tc.input, actual);
    log.Push(NegativeRecord(run.tc, if actual == [] then "(No output)" else actual, o.verdict, o.comment, run.elapsed));
  }

  /** A negative case whose output is its own input, echoed back, passes. */
  lemma NegativeEchoPasses(run: Run)
    requires run.fault.None? && FirstMatch(run.loaded, ShortInputSelectors).Some?
    requires NegativeOutput(run.page) == run.tc.input
    ensures NegativeResult(run).status == Pass
    ensures NegativeResult(run).comments == "System failed as expected (good)"
  {
  }

  /**
   * Once the input field was found on the loaded page, the verdict and the
   * comment come from the output read on the page after typing.
   */
  lemma NegativeClassifiesTypedPage(run: Run)
    requires run.fault.None? && FirstMatch(run.loaded, ShortInputSelectors).Some?
    ensures var o := ClassifyNegative(run.tc.input, NegativeOutput(run.page));
      NegativeResult(run).status == o.verdict && NegativeResult(run).comments == o.comment
  {
  }

  /** A negative case where no output selector gives any text passes with "(No output)". */
  lemma NegativeSilencePasses(run: Run)
    requires run.fault.None? && FirstMatch(run.loaded, ShortInputSelectors).Some?
    requires forall k :: 0 <= k < |NegativeOutputSelectors| ==>
      !Yields(run.page, NegativeOutputSelectors[k], OnNonEmpty)
    ensures NegativeResult(run).status == Pass
    ensures NegativeResult(run).actual == "(No output)"
  {
    ScanFindsNone(run.page, NegativeOutputSelectors, OnNonEmpty, "");
  }

  // ---------- the real-time case ----------

  /** What one observation reads: selector texts until one is non-empty, trimmed. */
  function UiObservation(page: Page): string
  {
    Trim(Scan(page, UiOutputSelectors, OnNonEmpty))
  }

  /** The observation after each prefix `TestPhrase[..1]`, ..., `TestPhrase[..|TestPhrase|]`. */
  function UiObservations(afterFill: string -> Page): (obs: seq<string>)
    ensures |obs| == |TestPhrase|
  {
    seq(|TestPhrase|, i requires 0 <= i < |TestPhrase| => UiObservation(afterFill(TestPhrase[..i + 1])))
  }

  /** The final read: the text of the first output selector that matches, whatever it is. */
  function UiFinalOutput(page: Page): string
  {
    match FirstMatch(page, UiOutputSelectors)
    case None => ""
    case Some(i) => page.text(UiOutputSelectors[i])
  }

  /**
   * One observation is the trimmed text of the first output selector whose
   * text is non-empty, or "" when there is none.
   */
  lemma UiObservationCases(page: Page, j: nat)
    ensures (forall k :: 0 <= k < |UiOutputSelectors| ==> !Yields(page, UiOutputSelectors[k], OnNonEmpty)) ==>
      UiObservation(page) == []
    ensures (j < |UiOutputSelectors| && Yields(page, UiOutputSelectors[j], OnNonEmpty) &&
             forall k :: 0 <= k < j ==> !Yields(page, UiOutputSelectors[k], OnNonEmpty)) ==>
      UiObservation(page) == Trim(page.text(UiOutputSelectors[j]))
  {
    ScanNonEmptyCases(page, UiOutputSelectors);
  }

  /**
   * The final read takes the first matching selector even when its text is
   * empty, and does not trim: it is "" when nothing matches, and when the
   * first match has text it is what an observation of the same page sees
   * before trimming.
   */
  lemma UiFinalAgainstObservation(page: Page)
    ensures FirstMatch(page, UiOutputSelectors).None? ==> UiFinalOutput(page) == [] && UiObservation(page) == []
    ensures FirstMatch(page, UiOutputSelectors).Some? && UiFinalOutput(page) != [] ==>
      UiObservation(page) == Trim(UiFinalOutput(page))
  {
    ScanNonEmptyCases(page, UiOutputSelectors);
    match FirstMatch(page, UiOutputSelectors)
    case None =>
    case Some(i) =>
      assert forall k :: 0 <= k < i ==> !Yields(page, UiOutputSelectors[k], OnNonEmpty);
  }

  /** Every output the cases compare and record is trimmed: `trim` leaves it unchanged. */
  lemma OutputsTrimmed(page: Page)
    ensures Trim(PositiveOutput(page)) == PositiveOutput(page)
    ensures Trim(NegativeOutput(page)) == NegativeOutput(page)
    ensures Trim(UiObservation(page)) == UiObservation(page)
  {
    var read := Scan(page, PositiveOutputSelectors, OnNonBlank);
    var chosen := if Trim(read) == [] then match FirstSinhalaRun(page.body) case Some(m) => m case None => read else read;
    TrimIdempotent(chosen);
    TrimIdempotent(Scan(page, NegativeOutputSelectors, OnNonEmpty));
    TrimIdempotent(Scan(page, UiOutputSelectors, OnNonEmpty));
  }

  /** The fixed fields of the real-time record. */
  const UiTemplate: Record :=
    Record("Pos_UI_0001", "Real-time Sinhala output updates automatically while typing", TestPhrase,
           "Sinhala output should update automatically while typing", "", Error, "", 0,
           "Usability flow (real-time conversion)", "Simple sentence", "S (≤30 characters)",
           "Real-time output update behavior")

  function UiRecord(actual: string, status: Verdict, comments: string, elapsed: nat): Record
  {
    UiTemplate.(actual := actual, status := status, comments := comments, elapsed := elapsed)
  }

  /** The record the real-time case pushes. */
  function UiResult(run: UiRun): (r: Record)
    ensures r.id == "Pos_UI_0001" && r.input == TestPhrase && r.elapsed == run.elapsed
    ensures r.description == UiTemplate.description && r.expected == UiTemplate.expected
    ensures r.domain == UiTemplate.domain && r.grammar == UiTemplate.grammar
    ensures r.lengthClass == UiTemplate.lengthClass && r.qualityFocus == UiTemplate.qualityFocus
    ensures r.status == Error <==> run.fault.Some? || FirstMatch(run.initial, ShortInputSelectors).None?
    ensures run.fault.Some? ==> r.actual == "ERROR" && r.comments == "UI test error: " + run.fault.value
    ensures run.fault.None? && FirstMatch(run.initial, ShortInputSelectors).None? ==>
      r.actual == "ERROR" && r.comments == "UI test error: " + InputNotFound
    ensures r.status != Error ==>
      var final := UiFinalOutput(run.settled);
      var o := ClassifyUi(Track(UiObservations(run.afterFill)).updates, final);
      && r.actual == (if final == [] then "(UI behavior test)" else final)
      && r.status == o.verdict && r.comments == o.comment
  {
    match run.fault
    case Some(msg) => UiRecord("ERROR", Error, "UI test error: " + msg, run.elapsed)
    case None =>
      if FirstMatch(run.initial, ShortInputSelectors).None? then
        UiRecord("ERROR", Error, "UI test error: " + InputNotFound, run.elapsed)
      else UiCompleted(run)
  }

  /** The record of a real-time run that typed the whole phrase. */
  function UiCompleted(run: UiRun): Record
  {
    var updates := Track(UiObservations(run.afterFill)).updates;
    var final := UiFinalOutput(run.settled);
    var o := ClassifyUi(updates, final);
    UiRecord(if final == [] then "(UI behavior test)" else final, o.verdict, o.comment, run.elapsed)
  }

  /**
   * The typing loop: fill in each prefix of the phrase, read the output,
   * and count the changes; it ends in the state `Track` gives.
   */
  method TypeAndObserve(afterFill: string -> Page) returns (updatesDetected: nat, previousOutput: string)
    ensures Tracker(updatesDetected, previousOutput) == Track(UiObservations(afterFill))
  {
    ghost var observed := UiObservations(afterFill);
    updatesDetected, previousOutput := 0, "";
    for i := 1 to |TestPhrase| + 1
      invariant Tracker(updatesDetected, previousOutput) == Track(observed[..i - 1])
    {
      var currentOutput := ScanOutputs(afterFill(TestPhrase[..i]), UiOutputSelectors, OnNonEmpty);
      currentOutput := Trim(currentOutput);
      assert currentOutput == observed[i - 1];
      assert observed[..i][..i - 1] == observed[..i - 1];
      if currentOutput != [] && currentOutput != previousOutput {
        updatesDetected := updatesDetected + 1;
        previousOutput := currentOutput;
      }
    }
    assert observed[..|TestPhrase|] == observed;
  }

  /** The real-time test body: type the phrase one prefix at a time, counting output changes. */
  method RunUi(run: UiRun, log: ResultLog)
    modifies log
    ensures log.records == old(log.records) + [UiResult(run)]
  {
    if run.fault.Some? {
      log.Push(UiRecord("ERROR", Error, "UI test error: " + run.fault.value, run.elapsed));
      return;
    }
    var field := LocateFirst(run.initial, ShortInputSelectors);
    if field.None? {
      log.Push(UiRecord("ERROR", Error, "UI test error: " + InputNotFound, run.elapsed));
      return;
    }
    var updatesDetected, _ := TypeAndObserve(run.afterFill);
    var finalOutput := "";
    var out := LocateFirst(run.settled, UiOutputSelectors);
    if out.Some? {
      finalOutput := run.settled.text(UiOutputSelectors[out.value]);
    }
    assert finalOutput == UiFinalOutput(run.settled);
    var o := ClassifyUi(updatesDetected, finalOutput);
    var r := UiRecord(if finalOutput == [] then "(UI behavior test)" else finalOutput, o.verdict, o.comment, run.elapsed);
    assert r == UiCompleted(run);
    log.Push(r);
  }

  /** At most one update per typed prefix. */
  lemma UiUpdatesBounded(afterFill: string -> Page)
    ensures Track(UiObservations(afterFill)).updates <= |TestPhrase|
  {
    UpdatesBounded(UiObservations(afterFill));
  }

  /**
   * The real-time verdict: Pass iff at least two updates were seen; else
   * Partial iff the final output is not blank; else Fail.
   */
  lemma UiVerdict(run: UiRun)
    requires run.fault.None? && FirstMatch(run.initial, ShortInputSelectors).Some?
    ensures var updates := Runs(NonEmpty(UiObservations(run.afterFill)));
      && (UiResult(run).status == Pass <==> updates >= 2)
      && (UiResult(run).status == Partial <==> updates < 2 && Trim(UiFinalOutput(run.settled)) != [])
      && (UiResult(run).status == Fail <==> updates < 2 && Trim(UiFinalOutput(run.settled)) == [])
  {
    TrackCountsRuns(UiObservations(run.afterFill));
  }

  // ---------- the whole suite ----------

  /** The records of the positive cases, in order. */
  function PositiveRecords(runs: seq<Run>): (rs: seq<Record>)
    ensures |rs| == |runs|
  {
    if runs == [] then [] else PositiveRecords(runs[..|runs| - 1]) + [PositiveResult(runs[|runs| - 1])]
  }

  /** The records of the negative cases, in order. */
  function NegativeRecords(runs: seq<Run>): (rs: seq<Record>)
    ensures |rs| == |runs|
  {
    if runs == [] then [] else NegativeRecords(runs[..|runs| - 1]) + [NegativeResult(runs[|runs| - 1])]
  }

  /** The records of the positive cases are their results, one per case, in order. */
  lemma {:induction false} PositiveRecordsAt(runs: seq<Run>, i: nat)
    requires i < |runs|
    ensures PositiveRecords(runs)[i] == PositiveResult(runs[i])
  {
    if i < |runs| - 1 {
      var init := runs[..|runs| - 1];
      PositiveRecordsAt(init, i);
      assert init[i] == runs[i];
    }
  }

  lemma PositiveRecordsSnoc(runs: seq<Run>, i: nat)
    requires i < |runs|
    ensures PositiveRecords(runs[..i + 1]) == PositiveRecords(runs[..i]) + [PositiveResult(runs[i])]
  {
    assert runs[..i + 1][..i] == runs[..i];
  }

  /** The records of the negative cases are their results, one per case, in order. */
  lemma {:induction false} NegativeRecordsAt(runs: seq<Run>, i: nat)
    requires i < |runs|
    ensures NegativeRecords(runs)[i] == NegativeResult(runs[i])
  {
    if i < |runs| - 1 {
      var init := runs[..|runs| - 1];
      NegativeRecordsAt(init, i);
      assert init[i] == runs[i];
    }
  }

  lemma NegativeRecordsSnoc(runs: seq<Run>, i: nat)
    requires i < |runs|
    ensures NegativeRecords(runs[..i + 1]) == NegativeRecords(runs[..i]) + [NegativeResult(runs[i])]
  {
    assert runs[..i + 1][..i] == runs[..i];
  }

  /** The records of a suite run in declaration order: positives, negatives, then the real-time case. */
  function SuiteRecords(positives: seq<Run>, negatives: seq<Run>, ui: UiRun): (rs: seq<Record>)
    ensures |rs| == |positives| + |negatives| + 1
  {
    PositiveRecords(positives) + NegativeRecords(negatives) + [UiResult(ui)]
  }

  /** The positive tests, in order. */
  method RunPositives(positives: seq<Run>, log: ResultLog)
    modifies log
    ensures log.records == old(log.records) + PositiveRecords(positives)
  {
    for i := 0 to |positives|
      invariant log.records == old(log.records) + PositiveRecords(positives[..i])
    {
      RunPositive(positives[i], log);
      PositiveRecordsSnoc(positives, i);
      Regroup3(old(log.records), PositiveRecords(positives[..i]), [PositiveResult(positives[i])]);
    }
    assert positives[..|positives|] == positives;
  }

  /** The negative tests, in order. */
  method RunNegatives(negatives: seq<Run>, log: ResultLog)
    modifies log
    ensures log.records == old(log.records) + NegativeRecords(negatives)
  {
    for i := 0 to |negatives|
      invariant log.records == old(log.records) + NegativeRecords(negatives[..i])
    {
      RunNegative(negatives[i], log);
      NegativeRecordsSnoc(negatives, i);
      Regroup3(old(log.records), NegativeRecords(negatives[..i]), [NegativeResult(negatives[i])]);
    }
    assert negatives[..|negatives|] == negatives;
  }

  lemma Regroup3<T>(a: seq<T>, b: seq<T>, c: seq<T>)
    ensures a + b + c == a + (b + c)
  {
  }

  lemma Regroup<T>(a: seq<T>, b: seq<T>, c: seq<T>, d: seq<T>)
    ensures a + b + c + d == a + (b + c + d)
  {
  }

  /** Every test of the file, run one after another, each appending its one record. */
  method RunSuite(positives: seq<Run>, negatives: seq<Run>, ui: UiRun, log: ResultLog)
    modifies log
    ensures log.records == old(log.records) + SuiteRecords(positives, negatives, ui)
  {
    ghost var start := log.records;
    RunPositives(positives, log);
    RunNegatives(negatives, log);
    RunUi(ui, log);
    Regroup(start, PositiveRecords(positives), NegativeRecords(negatives), [UiResult(ui)]);
  }
}
