/**
 * The verdict policies of the three kinds of test: positive cases must
 * produce Sinhala, negative cases should not produce mostly-Sinhala
 * output, and the real-time case counts how often the output changes
 * while the phrase is typed.
 */
module Classifier {
  import opened Strings
  import opened Records

  datatype Outcome = Outcome(verdict: Verdict, comment: string)

  /**
   * Positive policy, on the trimmed output. It looks only for a Sinhala
   * character; the expected translation is never consulted.
   */
  function ClassifyPositive(output: string): (o: Outcome)
    ensures o.verdict == Pass <==> ContainsSinhala(output)
    ensures o.verdict == Pass || o.verdict == Fail
    ensures o.verdict == Pass ==> |output| > 0 && o.comment == "Correct Sinhala output generated"
    ensures output == [] ==> o == Outcome(Fail, "No output produced")
    ensures output != [] && !ContainsSinhala(output) ==>
      o == Outcome(Fail, "Output does not contain Sinhala characters")
  {
    if |output| > 0 then
      if ContainsSinhala(output) then Outcome(Pass, "Correct Sinhala output generated")
      else Outcome(Fail, "Output does not contain Sinhala characters")
    else Outcome(Fail, "No output produced")
  }

  /** The negative short cut: nothing came out, the input came back unchanged, or less than two characters. */
  predicate FailedAsExpected(input: string, output: string)
  {
    output == [] || output == input || |output| < 2
  }

  /** The preview of an unexpected output: `` `System produced Sinhala output: "${output.substring(0, 30)}..."` ``. */
  function SinhalaPreview(output: string): string
  {
    "System produced Sinhala output: \"" + Take(output, 30) + "...\""
  }

  /** The ratio of Sinhala characters is below 0.3, compared without division. */
  predicate MostlyNonSinhala(output: string)
  {
    10 * SinhalaCount(output) < 3 * |output|
  }

  /** For a non-empty text, comparing `10 * count < 3 * length` is comparing the exact ratio with 0.3. */
  lemma RatioBelow(count: nat, length: nat)
    requires length > 0
    ensures (count as real) / (length as real) < 0.3 <==> 10 * count < 3 * length
  {
    var c, n := count as real, length as real;
    var r := c / n;
    assert r * n == c;
    ScaleStrict(r, 0.3, n);
    assert (10 * count) as real == 10.0 * c && (3 * length) as real == 3.0 * n;
  }

  lemma ScaleStrict(a: real, b: real, n: real)
    requires n > 0.0
    ensures a < b <==> a * n < b * n
  {
    if a < b {
      assert (b - a) * n > 0.0;
    } else {
      assert (a - b) * n >= 0.0;
    }
  }

  /**
   * Negative policy, on the trimmed output and the case's input: Pass when
   * the short cut applies or fewer than 30% of the characters are Sinhala,
   * Fail with a preview of at most 30 characters otherwise.
   */
  function ClassifyNegative(input: string, output: string): (o: Outcome)
    ensures FailedAsExpected(input, output) ==> o == Outcome(Pass, "System failed as expected (good)")
    ensures !FailedAsExpected(input, output) ==> (o.verdict == Pass <==> MostlyNonSinhala(output))
    ensures !FailedAsExpected(input, output) && MostlyNonSinhala(output) ==>
      o.comment == "System produced minimal/non-Sinhala output as expected"
    ensures o.verdict == Pass || o.verdict == Fail
    ensures o.verdict == Fail ==> o.comment == SinhalaPreview(output) && |Take(output, 30)| <= 30
  {
    if FailedAsExpected(input, output) then Outcome(Pass, "System failed as expected (good)")
    else if MostlyNonSinhala(output) then
      Outcome(Pass, "System produced minimal/non-Sinhala output as expected")
    else Outcome(Fail, SinhalaPreview(output))
  }

  /**
   * Outside the short cut the negative verdict is the exact ratio test:
   * Pass iff the Sinhala share is strictly below 0.3, so a share of exactly
   * 0.3 fails.
   */
  lemma NegativeRatio(input: string, output: string)
    requires !FailedAsExpected(input, output)
    ensures ClassifyNegative(input, output).verdict == Pass <==>
      (SinhalaCount(output) as real) / (|output| as real) < 0.3
  {
    RatioBelow(SinhalaCount(output), |output|);
  }

  /**
   * The echo short cut compares the trimmed output with the input as
   * typed, so an input with white space at an end is never matched by its
   * own echo; when it holds no Sinhala the ratio test still passes it, with
   * the other comment.
   */
  lemma TrimmedEchoMissesShortCut(input: string)
    requires Trim(input) != input && |Trim(input)| >= 2 && !ContainsSinhala(input)
    ensures ClassifyNegative(input, Trim(input)) ==
      Outcome(Pass, "System produced minimal/non-Sinhala output as expected")
  {
    var echo := Trim(input);
    TrimSlice(input);
    var i, j :| 0 <= i <= j <= |input| && echo == input[i..j];
    assert !ContainsSinhala(echo) by {
      forall k | 0 <= k < |echo| ensures !IsSinhala(echo[k]) {
        assert echo[k] == input[i + k];
      }
    }
    assert SinhalaCount(echo) == 0;
    assert !FailedAsExpected(input, echo) && MostlyNonSinhala(echo);
  }

  /** What the real-time loop carries: `updatesDetected` and `previousOutput`. */
  datatype Tracker = Tracker(updates: nat, previous: string)

  /** One observation: a change is a non-empty output that differs from the last one counted. */
  function Observe(t: Tracker, current: string): Tracker
  {
    if current != [] && current != t.previous then Tracker(t.updates + 1, current) else t
  }

  /**
   * One observation adds at most one update, and adds one exactly when the
   * output is non-empty and differs from the last one counted; otherwise
   * the tracker is left as it was.
   */
  lemma ObserveStep(t: Tracker, current: string)
    ensures var r := Observe(t, current);
      && (r.updates == t.updates || r.updates == t.updates + 1)
      && (r.updates == t.updates + 1 <==> current != [] && current != t.previous)
      && (r.updates == t.updates ==> r == t)
      && (r.updates == t.updates + 1 ==> r.previous == current)
  {
  }

  /** The tracker after a sequence of observed (trimmed) outputs, starting from no updates and "". */
  function Track(outputs: seq<string>): Tracker
  {
    if outputs == [] then Tracker(0, "")
    else Observe(Track(outputs[..|outputs| - 1]), outputs[|outputs| - 1])
  }

  /** The non-empty outputs, in order. */
  function NonEmpty(outputs: seq<string>): (r: seq<string>)
    ensures |r| <= |outputs|
    ensures forall k :: 0 <= k < |r| ==> r[k] != []
  {
    if outputs == [] then []
    else
      var last := outputs[|outputs| - 1];
      NonEmpty(outputs[..|outputs| - 1]) + (if last != [] then [last] else [])
  }

  /** The number of positions where a sequence starts or differs from its predecessor: its runs of equal values. */
  function Runs(xs: seq<string>): (n: nat)
    ensures n <= |xs|
    ensures xs != [] ==> n >= 1
  {
    if xs == [] then 0
    else Runs(xs[..|xs| - 1]) + (if |xs| == 1 || xs[|xs| - 1] != xs[|xs| - 2] then 1 else 0)
  }

  /**
   * The update counter counts the runs of equal values among the non-empty
   * outputs, and `previousOutput` ends as the last non-empty output (or ""
   * when there was none).
   */
  lemma {:induction false} TrackCountsRuns(outputs: seq<string>)
    ensures var ne := NonEmpty(outputs);
      Track(outputs) == Tracker(Runs(ne), if ne == [] then "" else ne[|ne| - 1])
  {
    if outputs != [] {
      var init, last := outputs[..|outputs| - 1], outputs[|outputs| - 1];
      TrackCountsRuns(init);
      var ne0 := NonEmpty(init);
      if last != [] {
        var ne := ne0 + [last];
        assert ne[..|ne| - 1] == ne0;
        if ne0 != [] {
          assert ne[|ne| - 2] == ne0[|ne0| - 1];
        }
      } else {
        assert NonEmpty(outputs) == ne0 + [] == ne0;
      }
    }
  }

  /** The counter never exceeds the number of observations, one per typed prefix. */
  lemma UpdatesBounded(outputs: seq<string>)
    ensures Track(outputs).updates <= |NonEmpty(outputs)| <= |outputs|
  {
    TrackCountsRuns(outputs);
  }

  /** Real-time policy: two or more updates pass; otherwise a non-blank final output is partial. */
  function ClassifyUi(updates: nat, finalOutput: string): (o: Outcome)
    ensures o.verdict == Pass <==> updates >= 2
    ensures o.verdict == Partial <==> updates < 2 && Trim(finalOutput) != []
    ensures o.verdict == Fail <==> updates < 2 && Trim(finalOutput) == []
    ensures o.verdict == Pass ==>
      o.comment == "Real-time updates working (" + NatToString(updates) + " updates detected)"
    ensures o.verdict == Partial ==> o.comment == "Output generated but limited real-time updates detected"
    ensures o.verdict == Fail ==> o.comment == "No real-time updates detected"
  {
    if updates >= 2 then
      Outcome(Pass, "Real-time updates working (" + NatToString(updates) + " updates detected)")
    else if Trim(finalOutput) != [] then
      Outcome(Partial, "Output generated but limited real-time updates detected")
    else Outcome(Fail, "No real-time updates detected")
  }
}
