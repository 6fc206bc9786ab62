/**
 * The result record every test body pushes onto the shared results list.
 * All six push sites build an object literal with the same twelve keys in
 * the same order; here that literal is one datatype, and `Entries` lists
 * its properties in insertion order, as `Object.keys` and `row[key]` see them.
 */
module Records {
  import opened Wrappers
  import opened Strings

  datatype Verdict = Pass | Fail | Partial | Error

  /** The string stored under 'Pass/Fail'. */
  function VerdictName(v: Verdict): string
  {
    match v
    case Pass => "Pass"
    case Fail => "Fail"
    case Partial => "Partial"
    case Error => "Error"
  }

  /** A property value of a record: every property is a string except the elapsed milliseconds. */
  datatype Value = Str(s: string) | Num(n: nat)

  /** `'' + value`; reading a property the object does not have gives `undefined`. */
  function Stringify(v: Option<Value>): string
  {
    match v
    case None => "undefined"
    case Some(Str(s)) => s
    case Some(Num(n)) => NatToString(n)
  }

  /**
   * A number is written as its decimal digits and reads back as itself; a
   * string is written as it is; a missing property is written `undefined`.
   */
  lemma StringifyValue(v: Option<Value>)
    ensures v.None? ==> Stringify(v) == "undefined"
    ensures v.Some? && v.value.Str? ==> Stringify(v) == v.value.s
    ensures v.Some? && v.value.Num? ==>
      (forall k :: 0 <= k < |Stringify(v)| ==> IsDigit(Stringify(v)[k]))
      && DecimalValue(Stringify(v)) == v.value.n
  {
    if v.Some? && v.value.Num? {
      NatToStringRoundTrip(v.value.n);
    }
  }

  datatype Record = Record(
    id: string,
    description: string,
    input: string,
    expected: string,
    actual: string,
    status: Verdict,
    comments: string,
    elapsed: nat,
    domain: string,
    grammar: string,
    lengthClass: string,
    qualityFocus: string)

  /** The twelve keys, in the order every push site writes them. */
  const Headers: seq<string> := [
    "Test Case ID",
    "Test Case Description",
    "Input Singlish Text",
    "Expected Output",
    "Actual Output",
    "Pass/Fail",
    "Comments",
    "Execution Time (ms)",
    "Input Type/Domain",
    "Sentence/Grammar Focus",
    "Input Length Type",
    "Quality Focus"]

  /** The record as a JavaScript object: its properties in insertion order. */
  function Entries(r: Record): (e: seq<(string, Value)>)
    ensures |e| == |Headers|
    ensures forall i :: 0 <= i < |e| ==> e[i].0 == Headers[i]
  {
    [("Test Case ID", Str(r.id)),
     ("Test Case Description", Str(r.description)),
     ("Input Singlish Text", Str(r.input)),
     ("Expected Output", Str(r.expected)),
     ("Actual Output", Str(r.actual)),
     ("Pass/Fail", Str(VerdictName(r.status))),
     ("Comments", Str(r.comments)),
     ("Execution Time (ms)", Num(r.elapsed)),
     ("Input Type/Domain", Str(r.domain)),
     ("Sentence/Grammar Focus", Str(r.grammar)),
     ("Input Length Type", Str(r.lengthClass)),
     ("Quality Focus", Str(r.qualityFocus))]
  }

  /** `Object.keys(r)`. */
  function Keys(r: Record): (ks: seq<string>)
    ensures |ks| == |Entries(r)|
  {
    var e := Entries(r);
    seq(|e|, i requires 0 <= i < |e| => e[i].0)
  }

  /** Every record has the same keys in the same order, whichever push site made it. */
  lemma KeysUniform(r: Record)
    ensures Keys(r) == Headers
  {
  }

  /** The first value stored under `key`, if any. */
  function Find(e: seq<(string, Value)>, key: string): Option<Value>
  {
    if e == [] then None
    else if e[0].0 == key then Some(e[0].1)
    else Find(e[1..], key)
  }

  /** `r[key]`. */
  function Get(r: Record, key: string): Option<Value>
  {
    Find(Entries(r), key)
  }

  /**
   * `Find` yields a value exactly when some entry has the key, and then it is
   * the value of the first such entry.
   */
  lemma {:induction false} FindFirst(e: seq<(string, Value)>, key: string)
    ensures Find(e, key).Some? <==> exists i :: 0 <= i < |e| && e[i].0 == key
    ensures Find(e, key).Some? ==>
      exists i :: 0 <= i < |e| && e[i].0 == key && Find(e, key).value == e[i].1
        && forall j :: 0 <= j < i ==> e[j].0 != key
  {
    if e != [] && e[0].0 != key {
      FindFirst(e[1..], key);
      if exists i :: 0 <= i < |e| && e[i].0 == key {
        var i :| 0 <= i < |e| && e[i].0 == key;
        assert e[1..][i - 1] == e[i];
      }
      if Find(e, key).Some? {
        var i :| 0 <= i < |e[1..]| && e[1..][i].0 == key && Find(e, key).value == e[1..][i].1
          && forall j :: 0 <= j < i ==> e[1..][j].0 != key;
        assert e[i + 1] == e[1..][i];
        forall j | 0 <= j < i + 1 ensures e[j].0 != key {
          if j > 0 { assert e[j] == e[1..][j - 1]; }
        }
      }
    }
  }

  lemma {:induction false} FindAt(e: seq<(string, Value)>, i: nat)
    requires i < |e|
    requires forall j :: 0 <= j < i ==> e[j].0 != e[i].0
    ensures Find(e, e[i].0) == Some(e[i].1)
  {
    if i > 0 {
      assert e[1..][i - 1] == e[i];
      FindAt(e[1..], i - 1);
    }
  }

  /** No key is written twice. */
  lemma HeadersDistinct()
    ensures forall i, j :: 0 <= i < j < |Headers| ==> Headers[i] != Headers[j]
  {
    assert Headers[2][0] != Headers[7][0];
    assert Headers[4][0] != Headers[11][0];
    assert Headers[8][6] != Headers[10][6];
  }

  /**
   * Looking up any record's key in any record yields that record's own
   * value at the same position: the header taken from the first record is
   * valid for every row.
   */
  lemma GetHeader(r: Record, i: nat)
    requires i < |Headers|
    ensures Get(r, Headers[i]) == Some(Entries(r)[i].1)
  {
    HeadersDistinct();
    FindAt(Entries(r), i);
  }

  /** `'' + r[h]` for every header key `h`, in order. */
  function Cells(r: Record): (c: seq<string>)
    ensures |c| == |Headers|
  {
    seq(|Headers|, i requires 0 <= i < |Headers| => Stringify(Get(r, Headers[i])))
  }

  /** The cells of a record are its own values, one per key, none `undefined`. */
  lemma CellsAreValues(r: Record)
    ensures forall k :: 0 <= k < |Headers| ==> Cells(r)[k] == Stringify(Some(Entries(r)[k].1))
  {
    forall k | 0 <= k < |Headers| ensures Cells(r)[k] == Stringify(Some(Entries(r)[k].1)) {
      GetHeader(r, k);
    }
  }
}
