/**
 * What runs after the last test: the CSV file's text, the per-verdict
 * summary and the check that the suite holds the required numbers of
 * positive, negative and real-time cases.
 */
module Report {
  import opened Strings
  import opened Records
  import opened Csv
  import opened Runner

  /** The counts printed under "Test Summary". */
  datatype Summary = Summary(total: nat, pass: nat, fail: nat, partial: nat, error: nat)

  /** How many records carry verdict `v` (`filter(r => r['Pass/Fail'] === v).length`). */
  function CountStatus(rs: seq<Record>, v: Verdict): (n: nat)
    ensures n <= |rs|
  {
    if rs == [] then 0
    else CountStatus(rs[..|rs| - 1], v) + (if rs[|rs| - 1].status == v then 1 else 0)
  }

  /** How many records have an id starting with `prefix`. */
  function CountPrefix(rs: seq<Record>, prefix: string): (n: nat)
    ensures n <= |rs|
  {
    if rs == [] then 0
    else CountPrefix(rs[..|rs| - 1], prefix) + (if StartsWith(rs[|rs| - 1].id, prefix) then 1 else 0)
  }

  /**
   * The summary object: the total, and for each verdict the number of times
   * it occurs in the verdict column; the four counts add up to the total.
   */
  function Summarize(rs: seq<Record>): (s: Summary)
    ensures s.total == |rs|
    ensures s.pass + s.fail + s.partial + s.error == s.total
    ensures s.pass == multiset(Statuses(rs))[Pass] && s.fail == multiset(Statuses(rs))[Fail]
    ensures s.partial == multiset(Statuses(rs))[Partial] && s.error == multiset(Statuses(rs))[Error]
  {
    StatusPartition(rs);
    CountStatusMultiplicity(rs, Pass);
    CountStatusMultiplicity(rs, Fail);
    CountStatusMultiplicity(rs, Partial);
    CountStatusMultiplicity(rs, Error);
    Summary(|rs|, CountStatus(rs, Pass), CountStatus(rs, Fail), CountStatus(rs, Partial), CountStatus(rs, Error))
  }

  const RequiredPositive: nat := 24
  const RequiredNegative: nat := 10
  const RequiredUi: nat := 1

  /** "All test requirements met". */
  predicate RequirementsMet(rs: seq<Record>)
  {
    && CountPrefix(rs, "Pos_Fun") >= RequiredPositive
    && CountPrefix(rs, "Neg_Fun") >= RequiredNegative
    && CountPrefix(rs, "Pos_UI") >= RequiredUi
  }

  /** Counting distributes over appending. */
  lemma {:induction false} CountStatusAppend(a: seq<Record>, b: seq<Record>, v: Verdict)
    ensures CountStatus(a + b, v) == CountStatus(a, v) + CountStatus(b, v)
  {
    if b == [] {
      assert a + b == a;
    } else {
      CountStatusAppend(a, b[..|b| - 1], v);
      assert (a + b)[..|a + b| - 1] == a + b[..|b| - 1];
    }
  }

  lemma {:induction false} CountPrefixAppend(a: seq<Record>, b: seq<Record>, prefix: string)
    ensures CountPrefix(a + b, prefix) == CountPrefix(a, prefix) + CountPrefix(b, prefix)
  {
    if b == [] {
      assert a + b == a;
    } else {
      CountPrefixAppend(a, b[..|b| - 1], prefix);
      assert (a + b)[..|a + b| - 1] == a + b[..|b| - 1];
    }
  }

  /** A single record counts 1 exactly when its id starts with the prefix. */
  lemma CountPrefixOne(r: Record, prefix: string)
    ensures CountPrefix([r], prefix) == if StartsWith(r.id, prefix) then 1 else 0
  {
    assert [r][..0] == [];
  }

  /** For each record, in order, whether its id starts with `prefix` (`startsWith` over the id column). */
  function PrefixHits(rs: seq<Record>, prefix: string): (hs: seq<bool>)
    ensures |hs| == |rs|
  {
    seq(|rs|, i requires 0 <= i < |rs| => StartsWith(rs[i].id, prefix))
  }

  /** A prefix count is the number of `true` results of `startsWith` over the id column. */
  lemma {:induction false} CountPrefixMultiplicity(rs: seq<Record>, prefix: string)
    ensures CountPrefix(rs, prefix) == multiset(PrefixHits(rs, prefix))[true]
  {
    if rs != [] {
      var init := rs[..|rs| - 1];
      CountPrefixMultiplicity(init, prefix);
      assert PrefixHits(rs, prefix) == PrefixHits(init, prefix) + [StartsWith(rs[|rs| - 1].id, prefix)];
    }
  }

  /** Every record has one of the four verdicts, so the four counts add up to the total. */
  lemma {:induction false} StatusPartition(rs: seq<Record>)
    ensures CountStatus(rs, Pass) + CountStatus(rs, Fail) + CountStatus(rs, Partial) + CountStatus(rs, Error) == |rs|
  {
    if rs != [] {
      StatusPartition(rs[..|rs| - 1]);
    }
  }

  /** No id starts with two of the three prefixes the requirement check counts. */
  lemma PrefixesExclusive(id: string)
    ensures !(StartsWith(id, "Pos_Fun") && StartsWith(id, "Neg_Fun"))
    ensures !(StartsWith(id, "Pos_Fun") && StartsWith(id, "Pos_UI"))
    ensures !(StartsWith(id, "Neg_Fun") && StartsWith(id, "Pos_UI"))
  {
    if StartsWith(id, "Pos_Fun") {
      assert id[4] == "Pos_Fun"[4] == 'F';
    }
  }

  /** The three prefix counts never count one record twice. */
  lemma {:induction false} PrefixCountsDisjoint(rs: seq<Record>)
    ensures CountPrefix(rs, "Pos_Fun") + CountPrefix(rs, "Neg_Fun") + CountPrefix(rs, "Pos_UI") <= |rs|
  {
    if rs != [] {
      PrefixCountsDisjoint(rs[..|rs| - 1]);
      PrefixesExclusive(rs[|rs| - 1].id);
    }
  }

  /** Meeting the requirements takes at least 24 + 10 + 1 records. */
  lemma RequirementsNeedRecords(rs: seq<Record>)
    ensures RequirementsMet(rs) ==> |rs| >= RequiredPositive + RequiredNegative + RequiredUi
  {
    PrefixCountsDisjoint(rs);
  }

  /** The verdict column, in record order. */
  function Statuses(rs: seq<Record>): (vs: seq<Verdict>)
    ensures |vs| == |rs|
  {
    seq(|rs|, i requires 0 <= i < |rs| => rs[i].status)
  }

  /** A count is the multiplicity of the verdict in the verdict column. */
  lemma {:induction false} CountStatusMultiplicity(rs: seq<Record>, v: Verdict)
    ensures CountStatus(rs, v) == multiset(Statuses(rs))[v]
  {
    if rs != [] {
      var init := rs[..|rs| - 1];
      CountStatusMultiplicity(init, v);
      assert Statuses(rs) == Statuses(init) + [rs[|rs| - 1].status];
    }
  }

  /** A run of cases whose ids all carry `prefix` contributes one count each. */
  lemma {:induction false} PositivePrefixCount(runs: seq<Run>, prefix: string)
    requires forall k :: 0 <= k < |runs| ==> StartsWith(runs[k].tc.id, prefix)
    ensures CountPrefix(PositiveRecords(runs), prefix) == |runs|
  {
    if runs != [] {
      PositivePrefixCount(runs[..|runs| - 1], prefix);
    }
  }

  lemma {:induction false} NegativePrefixCount(runs: seq<Run>, prefix: string)
    requires forall k :: 0 <= k < |runs| ==> StartsWith(runs[k].tc.id, prefix)
    ensures CountPrefix(NegativeRecords(runs), prefix) == |runs|
  {
    if runs != [] {
      NegativePrefixCount(runs[..|runs| - 1], prefix);
    }
  }

  /** Negative cases never report Error: an exception in one is logged as a Pass. */
  lemma {:induction false} NegativeNeverError(runs: seq<Run>)
    ensures CountStatus(NegativeRecords(runs), Error) == 0
  {
    if runs != [] {
      NegativeNeverError(runs[..|runs| - 1]);
    }
  }

  /**
   * With at least 24 positive cases whose ids start "Pos_Fun" and at least
   * 10 negative cases whose ids start "Neg_Fun", a suite run meets the
   * requirements, whatever each case's verdict.
   */
  lemma SuiteMeetsRequirements(positives: seq<Run>, negatives: seq<Run>, ui: UiRun)
    requires |positives| >= RequiredPositive && |negatives| >= RequiredNegative
    requires forall k :: 0 <= k < |positives| ==> StartsWith(positives[k].tc.id, "Pos_Fun")
    requires forall k :: 0 <= k < |negatives| ==> StartsWith(negatives[k].tc.id, "Neg_Fun")
    ensures RequirementsMet(SuiteRecords(positives, negatives, ui))
  {
    var p, n, u := PositiveRecords(positives), NegativeRecords(negatives), [UiResult(ui)];
    assert SuiteRecords(positives, negatives, ui) == p + n + u;
    PositivePrefixCount(positives, "Pos_Fun");
    NegativePrefixCount(negatives, "Neg_Fun");
    CountPrefixAppend(p, n, "Pos_Fun");
    CountPrefixAppend(p + n, u, "Pos_Fun");
    CountPrefixAppend(p, n, "Neg_Fun");
    CountPrefixAppend(p + n, u, "Neg_Fun");
    CountPrefixAppend(p + n, u, "Pos_UI");
    assert u[..0] == [];
    assert StartsWith(UiResult(ui).id, "Pos_UI");
  }

  /** What the after-all hook computes from the collected records. */
  method AfterAll(log: ResultLog) returns (csv: string, summary: Summary, met: bool)
    ensures csv == CsvText(log.records)
    ensures summary == Summarize(log.records)
    ensures summary.total == |log.records|
    ensures summary.pass + summary.fail + summary.partial + summary.error == summary.total
    ensures summary.pass == CountStatus(log.records, Pass) && summary.fail == CountStatus(log.records, Fail)
    ensures summary.partial == CountStatus(log.records, Partial) && summary.error == CountStatus(log.records, Error)
    ensures met <==> RequirementsMet(log.records)
  {
    var rs := log.records;
    csv := ConvertToCsv(rs);
    summary := Summarize(rs);
    met := CountPrefix(rs, "Pos_Fun") >= RequiredPositive && CountPrefix(rs, "Neg_Fun") >= RequiredNegative
      && CountPrefix(rs, "Pos_UI") >= RequiredUi;
  }
}
