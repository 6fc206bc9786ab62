/**
 * The whole-page fallback: `body.match(/[S][S\s,\.!?]*[S]/)` where `S` is
 * the Sinhala block. A match is leftmost, and at its start the starred
 * class runs as far as it can and then backs off to the last Sinhala
 * character, as JavaScript's backtracking matcher does.
 */
module SinhalaRun {
  import opened Wrappers
  import opened Strings

  /** `[S\s,\.!?]`: a character that may stand inside a run. */
  predicate InRun(c: char)
  {
    IsSinhala(c) || IsSpace(c) || c == ',' || c == '.' || c == '!' || c == '?'
  }

  /** `s[i..j]` is a string the pattern matches. */
  predicate MatchesAt(s: string, i: nat, j: nat)
  {
    i + 2 <= j <= |s| && IsSinhala(s[i]) && IsSinhala(s[j - 1]) &&
    forall k :: i < k < j - 1 ==> InRun(s[k])
  }

  /** The length of the longest stretch of run characters starting at `k`. */
  function RunSpan(s: string, k: nat): (n: nat)
    requires k <= |s|
    ensures k + n <= |s|
    ensures forall m :: k <= m < k + n ==> InRun(s[m])
    ensures k + n == |s| || !InRun(s[k + n])
    decreases |s| - k
  {
    if k < |s| && InRun(s[k]) then 1 + RunSpan(s, k + 1) else 0
  }

  /** The last index in `[lo, hi)` holding a Sinhala character. */
  function LastSinhala(s: string, lo: nat, hi: nat): (r: Option<nat>)
    requires lo <= hi <= |s|
    ensures r.Some? ==> lo <= r.value < hi && IsSinhala(s[r.value])
    ensures r.Some? ==> forall m :: r.value < m < hi ==> !IsSinhala(s[m])
    ensures r.None? ==> forall m :: lo <= m < hi ==> !IsSinhala(s[m])
    decreases hi - lo
  {
    if lo == hi then None
    else if IsSinhala(s[hi - 1]) then Some(hi - 1)
    else LastSinhala(s, lo, hi - 1)
  }

  /** The end of the longest match that starts at `i`, if one does. */
  function MatchEnd(s: string, i: nat): (r: Option<nat>)
    requires i < |s|
    ensures r.Some? ==> MatchesAt(s, i, r.value)
    ensures r.Some? ==> forall j: nat :: MatchesAt(s, i, j) ==> j <= r.value
    ensures r.None? ==> forall j :: !MatchesAt(s, i, j)
  {
    if !IsSinhala(s[i]) then None
    else
      var span := RunSpan(s, i + 1);
      var last := LastSinhala(s, i + 1, i + 1 + span);
      assert forall j: nat :: MatchesAt(s, i, j) ==> i + 1 <= j - 1 < i + 1 + span by {
        forall j: nat | MatchesAt(s, i, j) ensures j - 1 < i + 1 + span {
          if j - 1 >= i + 1 + span {
            assert InRun(s[i + 1 + span]);
          }
        }
      }
      match last
      case None => None
      case Some(m) => Some(m + 1)
  }

  /** The leftmost match at or after `i`, as long as it can be. */
  function SearchFrom(s: string, i: nat): (r: Option<(nat, nat)>)
    requires i <= |s|
    ensures r.Some? ==> i <= r.value.0 && MatchesAt(s, r.value.0, r.value.1)
    ensures r.Some? ==> forall j: nat :: MatchesAt(s, r.value.0, j) ==> j <= r.value.1
    ensures r.Some? ==> forall p: nat, j: nat :: i <= p < r.value.0 ==> !MatchesAt(s, p, j)
    ensures r.None? ==> forall p: nat, j: nat :: i <= p ==> !MatchesAt(s, p, j)
    decreases |s| - i
  {
    if i == |s| then None
    else
      match MatchEnd(s, i)
      case Some(e) => Some((i, e))
      case None => SearchFrom(s, i + 1)
  }

  /** The bounds of `body.match(regex)[0]`. */
  function RunBounds(s: string): (r: Option<(nat, nat)>)
    ensures r.Some? ==> MatchesAt(s, r.value.0, r.value.1)
    ensures r.Some? ==> forall p: nat, j: nat :: p < r.value.0 ==> !MatchesAt(s, p, j)
    ensures r.Some? ==> forall j: nat :: MatchesAt(s, r.value.0, j) ==> j <= r.value.1
    ensures r.None? ==> forall p: nat, j: nat :: !MatchesAt(s, p, j)
  {
    SearchFrom(s, 0)
  }

  /** `body.match(regex)`, giving the matched text. */
  function FirstSinhalaRun(s: string): Option<string>
  {
    match RunBounds(s)
    case None => None
    case Some((i, j)) => Some(s[i..j])
  }

  /**
   * There is no match exactly when the pattern matches nowhere; otherwise the
   * match is the leftmost piece of `s` the pattern matches, and the longest
   * one at that start.
   */
  lemma FirstSinhalaRunSpec(s: string)
    ensures FirstSinhalaRun(s).None? <==> forall p: nat, j: nat :: !MatchesAt(s, p, j)
    ensures FirstSinhalaRun(s).Some? ==>
      exists i: nat, j: nat :: MatchesAt(s, i, j) && FirstSinhalaRun(s).value == s[i..j]
        && (forall p: nat, q: nat :: p < i ==> !MatchesAt(s, p, q))
        && (forall q: nat :: MatchesAt(s, i, q) ==> q <= j)
  {
    if RunBounds(s).Some? {
      var (i, j) := RunBounds(s).value;
      assert MatchesAt(s, i, j) && FirstSinhalaRun(s).value == s[i..j];
    }
  }

  /**
   * A match is at least two characters long, starts and ends with a Sinhala
   * character, and so is unchanged by `trim`.
   */
  lemma FirstSinhalaRunShape(s: string)
    requires FirstSinhalaRun(s).Some?
    ensures var m := FirstSinhalaRun(s).value;
      |m| >= 2 && IsSinhala(m[0]) && IsSinhala(m[|m| - 1]) && ContainsSinhala(m) && Trim(m) == m
  {
    var b := RunBounds(s).value;
    var m := s[b.0..b.1];
    assert m[0] == s[b.0] && m[|m| - 1] == s[b.1 - 1];
    SinhalaEndsTrimmed(m);
  }

  /** A text that starts and ends with a Sinhala character contains one and is unchanged by `trim`. */
  lemma SinhalaEndsTrimmed(m: string)
    requires |m| >= 1 && IsSinhala(m[0]) && IsSinhala(m[|m| - 1])
    ensures ContainsSinhala(m) && Trim(m) == m
  {
    var none := "";
    assert none + m + none == m;
    TrimOf(none, m, none);
  }
}
