/**
 * Character classes and the few JavaScript string operations the harness
 * relies on: `trim`, the Sinhala block test, `startsWith`, `substring(0, n)`
 * and the decimal form of a number.
 */
module Strings {

  /** A character of the Sinhala block, U+0D80 to U+0DFF (the class `[\u0D80-\u0DFF]`). */
  predicate IsSinhala(c: char)
  {
    0x0D80 <= c as int <= 0x0DFF
  }

  /**
   * JavaScript white space and line terminators: the characters that `\s`
   * matches and that `String.prototype.trim` removes.
   */
  predicate IsSpace(c: char)
  {
    var n := c as int;
    n == 0x09 || n == 0x0A || n == 0x0B || n == 0x0C || n == 0x0D || n == 0x20
    || n == 0xA0 || n == 0x1680 || (0x2000 <= n <= 0x200A) || n == 0x2028 || n == 0x2029
    || n == 0x202F || n == 0x205F || n == 0x3000 || n == 0xFEFF
  }

  predicate AllSpace(s: string)
  {
    forall k :: 0 <= k < |s| ==> IsSpace(s[k])
  }

  /** Drops the leading white space; nothing is left exactly when `s` is all white space. */
  function TrimStart(s: string): (r: string)
    ensures |r| <= |s|
    ensures r != [] ==> !IsSpace(r[0]) && r[|r| - 1] == s[|s| - 1]
    ensures r == [] <==> AllSpace(s)
  {
    if s != [] && IsSpace(s[0]) then TrimStart(s[1..]) else s
  }

  /** Drops the trailing white space; nothing is left exactly when `s` is all white space. */
  function TrimEnd(s: string): (r: string)
    ensures |r| <= |s|
    ensures r != [] ==> !IsSpace(r[|r| - 1]) && r[0] == s[0]
    ensures r == [] <==> AllSpace(s)
  {
    if s != [] && IsSpace(s[|s| - 1]) then TrimEnd(s[..|s| - 1]) else s
  }

  /** `s.trim()`. */
  function Trim(s: string): (r: string)
    ensures |r| <= |s|
    ensures r == [] || (!IsSpace(r[0]) && !IsSpace(r[|r| - 1]))
    ensures r == [] <==> AllSpace(s)
  {
    TrimEnd(TrimStart(s))
  }

  /** What `TrimStart` drops is white space, and what it keeps is the rest of `s`. */
  lemma {:induction false} TrimStartSuffix(s: string)
    ensures var r := TrimStart(s);
      r == s[|s| - |r|..] && AllSpace(s[..|s| - |r|])
  {
    if s != [] && IsSpace(s[0]) {
      TrimStartSuffix(s[1..]);
      var r := TrimStart(s);
      assert s[1..][|s| - 1 - |r|..] == s[|s| - |r|..];
      assert s[..|s| - |r|] == [s[0]] + s[1..][..|s| - 1 - |r|];
    }
  }

  /** What `TrimEnd` drops is white space, and what it keeps is the start of `s`. */
  lemma {:induction false} TrimEndPrefix(s: string)
    ensures var r := TrimEnd(s);
      r == s[..|r|] && AllSpace(s[|r|..])
  {
    if s != [] && IsSpace(s[|s| - 1]) {
      var init := s[..|s| - 1];
      TrimEndPrefix(init);
      var r := TrimEnd(s);
      assert init[..|r|] == s[..|r|];
      assert s[|r|..] == init[|r|..] + [s[|s| - 1]];
    }
  }

  /** `Trim(s)` is the piece of `s` left after dropping white space at both ends. */
  lemma TrimSlice(s: string)
    ensures exists i, j ::
      0 <= i <= j <= |s| && Trim(s) == s[i..j] && AllSpace(s[..i]) && AllSpace(s[j..])
  {
    var t := TrimStart(s);
    TrimStartSuffix(s);
    TrimEndPrefix(t);
    var i := |s| - |t|;
    var j := i + |Trim(s)|;
    assert t[..|Trim(s)|] == s[i..j];
    assert t[|Trim(s)|..] == s[j..];
  }

  lemma {:induction false} TrimStartSkips(a: string, t: string)
    requires AllSpace(a)
    requires t == [] || !IsSpace(t[0])
    ensures TrimStart(a + t) == t
  {
    if a == [] {
      assert a + t == t;
    } else {
      assert (a + t)[1..] == a[1..] + t;
      TrimStartSkips(a[1..], t);
    }
  }

  lemma {:induction false} TrimEndSkips(t: string, b: string)
    requires AllSpace(b)
    requires t == [] || !IsSpace(t[|t| - 1])
    ensures TrimEnd(t + b) == t
  {
    if b == [] {
      assert t + b == t;
    } else {
      assert (t + b)[..|t + b| - 1] == t + b[..|b| - 1];
      TrimEndSkips(t, b[..|b| - 1]);
    }
  }

  /**
   * `trim` removes exactly the surrounding white space: whenever `s` is
   * white space, then a text with no white space at either end, then white
   * space, `Trim(s)` is that text.
   */
  lemma TrimOf(a: string, t: string, b: string)
    requires AllSpace(a) && AllSpace(b)
    requires t == [] || (!IsSpace(t[0]) && !IsSpace(t[|t| - 1]))
    ensures Trim(a + t + b) == t
  {
    if t == [] {
      assert a + t + b == a + b;
      assert AllSpace(a + b) by {
        forall k | 0 <= k < |a + b| ensures IsSpace((a + b)[k]) {
          if k < |a| { assert (a + b)[k] == a[k]; } else { assert (a + b)[k] == b[k - |a|]; }
        }
      }
    } else {
      assert a + t + b == a + (t + b);
      TrimStartSkips(a, t + b);
      TrimEndSkips(t, b);
    }
  }

  /** Trimming twice is trimming once. */
  lemma TrimIdempotent(s: string)
    ensures Trim(Trim(s)) == Trim(s)
  {
    var t, none := Trim(s), "";
    assert none + t + none == t;
    TrimOf(none, t, none);
  }

  /** True when `s` contains a Sinhala character (`/[\u0D80-\u0DFF]/.test(s)`). */
  predicate ContainsSinhala(s: string)
  {
    exists k :: 0 <= k < |s| && IsSinhala(s[k])
  }

  /**
   * The number of Sinhala characters in `s`
   * (`(s.match(/[\u0D80-\u0DFF]/g) || []).length`).
   */
  function SinhalaCount(s: string): (n: nat)
    ensures n <= |s|
    ensures n == 0 <==> !ContainsSinhala(s)
    ensures n == |s| <==> forall k :: 0 <= k < |s| ==> IsSinhala(s[k])
  {
    if s == [] then 0
    else
      var rest := SinhalaCount(s[1..]);
      assert ContainsSinhala(s) <==> IsSinhala(s[0]) || ContainsSinhala(s[1..]) by {
        if ContainsSinhala(s[1..]) {
          var k :| 0 <= k < |s[1..]| && IsSinhala(s[1..][k]);
          assert IsSinhala(s[k + 1]);
        }
        if ContainsSinhala(s) && !IsSinhala(s[0]) {
          var k :| 0 <= k < |s| && IsSinhala(s[k]);
          assert s[1..][k - 1] == s[k];
        }
      }
      assert (forall k :: 0 <= k < |s| ==> IsSinhala(s[k]))
        <==> IsSinhala(s[0]) && forall k :: 0 <= k < |s[1..]| ==> IsSinhala(s[1..][k]) by {
        if IsSinhala(s[0]) && forall k :: 0 <= k < |s[1..]| ==> IsSinhala(s[1..][k]) {
          forall k | 0 <= k < |s| ensures IsSinhala(s[k]) {
            if k > 0 { assert s[k] == s[1..][k - 1]; }
          }
        }
      }
      rest + (if IsSinhala(s[0]) then 1 else 0)
  }

  /** A single character counts 1 exactly when it is Sinhala. */
  lemma SinhalaCountOne(c: char)
    ensures SinhalaCount([c]) == if IsSinhala(c) then 1 else 0
  {
    assert [c][1..] == [];
  }

  /**
   * Counting distributes over concatenation; with `SinhalaCountOne` this
   * fixes the count of every text: one per Sinhala character.
   */
  lemma {:induction false} SinhalaCountAppend(a: string, b: string)
    ensures SinhalaCount(a + b) == SinhalaCount(a) + SinhalaCount(b)
  {
    if a == [] {
      assert a + b == b;
    } else {
      assert (a + b)[1..] == a[1..] + b;
      assert (a + b)[0] == a[0];
      SinhalaCountAppend(a[1..], b);
    }
  }

  /** `s.startsWith(p)`. */
  predicate StartsWith(s: string, p: string)
  {
    |p| <= |s| && s[..|p|] == p
  }

  /** `s.substring(0, n)`: the first `n` characters, or all of `s` when it is shorter. */
  function Take(s: string, n: nat): (r: string)
    ensures |r| <= n && StartsWith(s, r)
    ensures |s| <= n ==> r == s
    ensures |s| > n ==> |r| == n
  {
    if |s| <= n then s else s[..n]
  }

  /** The decimal digit for `d`. */
  function Digit(d: nat): char
    requires d < 10
  {
    "0123456789"[d]
  }

  predicate IsDigit(c: char)
  {
    '0' <= c <= '9'
  }

  /** The value of a string of decimal digits. */
  function DecimalValue(s: string): nat
    requires forall k :: 0 <= k < |s| ==> IsDigit(s[k])
  {
    if s == [] then 0
    else DecimalValue(s[..|s| - 1]) * 10 + DigitValue(s[|s| - 1])
  }

  function DigitValue(c: char): nat
    requires IsDigit(c)
  {
    (c as int) - ('0' as int)
  }

  /** `'' + n` for a non-negative integer: its decimal digits, with no leading zero. */
  function NatToString(n: nat): (r: string)
    ensures r != [] && forall k :: 0 <= k < |r| ==> IsDigit(r[k])
    ensures |r| > 1 ==> r[0] != '0'
  {
    if n < 10 then [Digit(n)] else NatToString(n / 10) + [Digit(n % 10)]
  }

  /** Reading the decimal form back gives the number. */
  lemma {:induction false} NatToStringRoundTrip(n: nat)
    ensures DecimalValue(NatToString(n)) == n
  {
    if n >= 10 {
      var s := NatToString(n);
      assert s[..|s| - 1] == NatToString(n / 10);
      NatToStringRoundTrip(n / 10);
    }
  }
}
