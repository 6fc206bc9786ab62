/**
 * Finding elements on a page whose markup is unknown: an ordered list of
 * candidate selectors is tried one by one. The browser is abstracted to
 * what the harness asks of it.
 */
module Locator {
  import opened Wrappers
  import opened Strings

  /**
   * A page at one moment: how many elements each selector matches, the text
   * content of the first match, and the text of the whole body.
   */
  datatype Page = Page(count: string -> nat, text: string -> string, body: string)

  /** The index of the first selector, in list order, that matches at least one element. */
  function FirstMatch(page: Page, selectors: seq<string>): (r: Option<nat>)
    ensures r.Some? ==> r.value < |selectors| && page.count(selectors[r.value]) > 0
    ensures r.Some? ==> forall j :: 0 <= j < r.value ==> page.count(selectors[j]) == 0
    ensures r.None? <==> forall j :: 0 <= j < |selectors| ==> page.count(selectors[j]) == 0
  {
    if selectors == [] then None
    else if page.count(selectors[0]) > 0 then Some(0)
    else
      match FirstMatch(page, selectors[1..])
      case None => None
      case Some(i) => Some(i + 1)
  }

  /**
   * The input-field loop: `for (selector of selectors) if (count > 0) { field = first; break }`.
   */
  method LocateFirst(page: Page, selectors: seq<string>) returns (found: Option<nat>)
    ensures found == FirstMatch(page, selectors)
  {
    found := None;
    var i := 0;
    while i < |selectors|
      invariant 0 <= i <= |selectors|
      invariant forall j :: 0 <= j < i ==> page.count(selectors[j]) == 0
    {
      if page.count(selectors[i]) > 0 {
        found := Some(i);
        break;
      }
      i := i + 1;
    }
  }

  /** When an output loop stops: at the first non-empty text, or at the first text that is not blank. */
  datatype BreakRule = OnNonEmpty | OnNonBlank

  predicate Accepts(rule: BreakRule, t: string)
  {
    match rule
    case OnNonEmpty => t != []
    case OnNonBlank => Trim(t) != []
  }

  /** The output loops over the remaining selectors, `last` being the text read so far. */
  function ScanFrom(page: Page, selectors: seq<string>, rule: BreakRule, last: string): string
  {
    if selectors == [] then last
    else if page.count(selectors[0]) > 0 then
      var t := page.text(selectors[0]);
      if Accepts(rule, t) then t else ScanFrom(page, selectors[1..], rule, t)
    else ScanFrom(page, selectors[1..], rule, last)
  }

  /**
   * The text an output loop ends with: for each matching selector its text is
   * read, and the loop stops once that text is accepted.
   */
  function Scan(page: Page, selectors: seq<string>, rule: BreakRule): string
  {
    ScanFrom(page, selectors, rule, "")
  }

  /** A selector that matches and whose text the rule accepts. */
  predicate Yields(page: Page, selector: string, rule: BreakRule)
  {
    page.count(selector) > 0 && Accepts(rule, page.text(selector))
  }

  /** The loop ends with the text of the first selector that yields one. */
  lemma {:induction false} ScanFindsFirst(page: Page, selectors: seq<string>, rule: BreakRule, last: string, j: nat)
    requires j < |selectors| && Yields(page, selectors[j], rule)
    requires forall k :: 0 <= k < j ==> !Yields(page, selectors[k], rule)
    ensures ScanFrom(page, selectors, rule, last) == page.text(selectors[j])
  {
    if j > 0 {
      assert !Yields(page, selectors[0], rule);
      var next := if page.count(selectors[0]) > 0 then page.text(selectors[0]) else last;
      ScanFindsFirst(page, selectors[1..], rule, next, j - 1);
    }
  }

  /** When no selector yields, the loop ends with a text the rule does not accept. */
  lemma {:induction false} ScanFindsNone(page: Page, selectors: seq<string>, rule: BreakRule, last: string)
    requires !Accepts(rule, last)
    requires forall k :: 0 <= k < |selectors| ==> !Yields(page, selectors[k], rule)
    ensures !Accepts(rule, ScanFrom(page, selectors, rule, last))
  {
    if selectors != [] {
      assert !Yields(page, selectors[0], rule);
      var next := if page.count(selectors[0]) > 0 then page.text(selectors[0]) else last;
      ScanFindsNone(page, selectors[1..], rule, next);
    }
  }

  /** Accepted iff some selector yields. */
  lemma ScanAccepted(page: Page, selectors: seq<string>, rule: BreakRule)
    ensures Accepts(rule, Scan(page, selectors, rule)) <==>
      exists j :: 0 <= j < |selectors| && Yields(page, selectors[j], rule)
  {
    if j :| 0 <= j < |selectors| && Yields(page, selectors[j], rule) {
      var first := FirstYield(page, selectors, rule, j);
      ScanFindsFirst(page, selectors, rule, "", first);
    } else {
      ScanFindsNone(page, selectors, rule, "");
    }
  }

  /** The loop ends with the text it started with or the text of a matching selector. */
  lemma {:induction false} ScanFromSource(page: Page, selectors: seq<string>, rule: BreakRule, last: string)
    ensures var r := ScanFrom(page, selectors, rule, last);
      r == last || exists j :: 0 <= j < |selectors| && page.count(selectors[j]) > 0 && r == page.text(selectors[j])
  {
    if selectors != [] {
      var next := if page.count(selectors[0]) > 0 then page.text(selectors[0]) else last;
      ScanFromSource(page, selectors[1..], rule, next);
      var r := ScanFrom(page, selectors, rule, last);
      if r != last && r != next {
        var j :| 0 <= j < |selectors[1..]| && page.count(selectors[1..][j]) > 0 && r == page.text(selectors[1..][j]);
        assert selectors[1..][j] == selectors[j + 1];
      }
    }
  }

  /**
   * What an output loop reads is "" (nothing matched) or the text of some
   * selector that matches; it never invents a text.
   */
  lemma ScanSource(page: Page, selectors: seq<string>, rule: BreakRule)
    ensures var r := Scan(page, selectors, rule);
      r == [] || exists j :: 0 <= j < |selectors| && page.count(selectors[j]) > 0 && r == page.text(selectors[j])
  {
    ScanFromSource(page, selectors, rule, "");
  }

  /**
   * With the non-empty rule, the loop ends with the text of the first
   * selector whose text is non-empty, or "" when there is none.
   */
  lemma ScanNonEmptyCases(page: Page, selectors: seq<string>)
    ensures (forall k :: 0 <= k < |selectors| ==> !Yields(page, selectors[k], OnNonEmpty)) ==>
      Scan(page, selectors, OnNonEmpty) == []
    ensures forall j ::
      (0 <= j < |selectors| && Yields(page, selectors[j], OnNonEmpty) &&
       forall k :: 0 <= k < j ==> !Yields(page, selectors[k], OnNonEmpty)) ==>
      Scan(page, selectors, OnNonEmpty) == page.text(selectors[j])
  {
    if forall k :: 0 <= k < |selectors| ==> !Yields(page, selectors[k], OnNonEmpty) {
      ScanFindsNone(page, selectors, OnNonEmpty, "");
    }
    forall j | 0 <= j < |selectors| && Yields(page, selectors[j], OnNonEmpty) &&
      (forall k :: 0 <= k < j ==> !Yields(page, selectors[k], OnNonEmpty))
      ensures Scan(page, selectors, OnNonEmpty) == page.text(selectors[j])
    {
      ScanFindsFirst(page, selectors, OnNonEmpty, "", j);
    }
  }

  /** The least index at or below `j` whose selector yields. */
  lemma {:induction false} FirstYieldExists(page: Page, selectors: seq<string>, rule: BreakRule, j: nat)
    requires j < |selectors| && Yields(page, selectors[j], rule)
    ensures exists f :: 0 <= f <= j && Yields(page, selectors[f], rule) &&
                        forall k :: 0 <= k < f ==> !Yields(page, selectors[k], rule)
  {
    if exists k :: 0 <= k < j && Yields(page, selectors[k], rule) {
      var k :| 0 <= k < j && Yields(page, selectors[k], rule);
      FirstYieldExists(page, selectors, rule, k);
    }
  }

  ghost function FirstYield(page: Page, selectors: seq<string>, rule: BreakRule, j: nat): (f: nat)
    requires j < |selectors| && Yields(page, selectors[j], rule)
    ensures f <= j && Yields(page, selectors[f], rule)
    ensures forall k :: 0 <= k < f ==> !Yields(page, selectors[k], rule)
  {
    FirstYieldExists(page, selectors, rule, j);
    var f :| 0 <= f <= j && Yields(page, selectors[f], rule) &&
             forall k :: 0 <= k < f ==> !Yields(page, selectors[k], rule);
    f
  }

  /**
   * An output loop as the source runs it: `text` is overwritten by every
   * matching selector's text, and the loop breaks once the text is accepted.
   */
  method ScanOutputs(page: Page, selectors: seq<string>, rule: BreakRule) returns (text: string)
    ensures text == Scan(page, selectors, rule)
  {
    text := "";
    var i := 0;
    while i < |selectors|
      invariant 0 <= i <= |selectors|
      invariant ScanFrom(page, selectors[i..], rule, text) == Scan(page, selectors, rule)
    {
      if page.count(selectors[i]) > 0 {
        text := page.text(selectors[i]);
        if Accepts(rule, text) {
          break;
        }
      }
      assert selectors[i..][1..] == selectors[i + 1..];
      i := i + 1;
    }
  }
}
