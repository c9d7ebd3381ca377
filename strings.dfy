/** The JavaScript string operations the services rely on: `startsWith`,
    `split` with a string separator (and the search for the separator that
    `split` performs), and the decimal rendering of a number inside a
    template literal. */
module Strings {
  import opened Wrappers

  /** `sep` occurs in `s` starting at index `j`. */
  predicate OccursAt(s: string, sep: string, j: int)
  {
    0 <= j && j + |sep| <= |s| && s[j..j + |sep|] == sep
  }

  predicate Contains(s: string, sep: string)
  {
    exists j | 0 <= j <= |s| :: OccursAt(s, sep, j)
  }

  predicate StartsWith(s: string, prefix: string)
  {
    |prefix| <= |s| && s[..|prefix|] == prefix
  }

  lemma OccursAtTail(s: string, sep: string, j: nat)
    requires |s| > 0
    ensures OccursAt(s[1..], sep, j) <==> OccursAt(s, sep, j + 1)
  {
    if 0 <= j && j + |sep| <= |s| - 1 {
      assert s[1..][j..j + |sep|] == s[j + 1..j + 1 + |sep|];
    }
  }

  /** The search `split` performs: the first index at which `sep` occurs,
      if any. */
  function IndexOf(s: string, sep: string): (r: Option<nat>)
    requires |sep| > 0
    ensures r.Some? ==> OccursAt(s, sep, r.value)
    ensures r.Some? ==> forall j :: 0 <= j < r.value ==> !OccursAt(s, sep, j)
    ensures r.None? <==> !Contains(s, sep)
    decreases |s|
  {
    if |s| < |sep| then None
    else if s[..|sep|] == sep then Some(0)
    else match IndexOf(s[1..], sep)
      case None =>
        assert !Contains(s, sep) by {
          forall j | OccursAt(s, sep, j) ensures false {
            if j > 0 { OccursAtTail(s, sep, j - 1); }
          }
        }
        None
      case Some(k) =>
        assert OccursAt(s, sep, k + 1) by { OccursAtTail(s, sep, k); }
        assert forall j :: 0 <= j < k + 1 ==> !OccursAt(s, sep, j) by {
          forall j | 0 < j < k + 1 ensures !OccursAt(s, sep, j) { OccursAtTail(s, sep, j - 1); }
        }
        Some(k + 1)
  }

  /** The first occurrence is the only occurrence with none before it. */
  lemma IndexOfIsFirst(s: string, sep: string, p: nat)
    requires |sep| > 0
    requires OccursAt(s, sep, p)
    requires forall j :: 0 <= j < p ==> !OccursAt(s, sep, j)
    ensures IndexOf(s, sep) == Some(p)
  {
  }

  /** Joins non-empty `parts` with `sep` between neighbours (`Array.prototype.join`). */
  function Join(parts: seq<string>, sep: string): string
    requires |parts| >= 1
  {
    if |parts| == 1 then parts[0] else parts[0] + sep + Join(parts[1..], sep)
  }

  /** `s.split(sep)` for a non-empty separator: the pieces between the
      occurrences of `sep`, found left to right without overlap. */
  function Split(s: string, sep: string): (r: seq<string>)
    requires |sep| > 0
    ensures |r| >= 1
    ensures Join(r, sep) == s
    ensures forall i :: 0 <= i < |r| ==> !Contains(r[i], sep)
    decreases |s|
  {
    match IndexOf(s, sep)
    case None => [s]
    case Some(i) =>
      var rest := Split(s[i + |sep|..], sep);
      assert !Contains(s[..i], sep) by {
        forall j | OccursAt(s[..i], sep, j) ensures false {
          assert s[..i][j..j + |sep|] == s[j..j + |sep|];
          assert OccursAt(s, sep, j) && j < i;
        }
      }
      assert s[..i] + sep + s[i + |sep|..] == s by {
        assert s == s[..i] + s[i..i + |sep|] + s[i + |sep|..];
      }
      [s[..i]] + rest
  }

  /** When `sep` occurs once, at `p`, `split` yields exactly the two sides. */
  lemma SplitOnce(s: string, sep: string, p: nat)
    requires |sep| > 0
    requires IndexOf(s, sep) == Some(p)
    requires !Contains(s[p + |sep|..], sep)
    ensures Split(s, sep) == [s[..p], s[p + |sep|..]]
  {
  }

  /** Splitting `a + sep + b` where `a` lacks `sep`, for a separator whose
      first character does not recur in it: `a`, then the pieces of `b`. */
  lemma SplitAtFirst(a: string, b: string, sep: string)
    requires |sep| > 0
    requires !Contains(a, sep)
    requires forall t :: 0 < t < |sep| ==> sep[t] != sep[0]
    ensures Split(a + sep + b, sep) == [a] + Split(b, sep)
  {
    var h := a + sep + b;
    assert h[|a|..|a| + |sep|] == sep;
    forall j | 0 <= j < |a| ensures !OccursAt(h, sep, j) {
      if j + |sep| <= |h| {
        var w := h[j..j + |sep|];
        if j + |sep| <= |a| {
          assert w == a[j..j + |sep|];
          assert !OccursAt(a, sep, j);
        } else {
          assert w[|a| - j] == h[|a|] == sep[0];
          assert w[|a| - j] != sep[|a| - j];
        }
      }
    }
    IndexOfIsFirst(h, sep, |a|);
    assert h[..|a|] == a;
    assert h[|a| + |sep|..] == b;
  }

  /** No occurrence can start inside a prefix that lacks the separator's
      first character. */
  lemma {:induction false} ContainsPastPrefix(a: string, b: string, sep: string)
    requires |sep| > 0
    requires forall i :: 0 <= i < |a| ==> a[i] != sep[0]
    ensures Contains(a + b, sep) ==> Contains(b, sep)
  {
    var s := a + b;
    if Contains(s, sep) {
      var j :| 0 <= j <= |s| && OccursAt(s, sep, j);
      assert s[j] == s[j..j + |sep|][0] == sep[0];
      assert j >= |a|;
      assert s[j..j + |sep|] == b[j - |a|..j - |a| + |sep|];
      assert OccursAt(b, sep, j - |a|);
    }
  }

  function DigitChar(d: nat): (c: char)
    requires d < 10
    ensures '0' <= c <= '9'
  {
    ('0' as int + d) as char
  }

  /** The decimal rendering of a natural number, as `${n}` gives it. */
  function Decimal(n: nat): (r: string)
    ensures |r| >= 1
    ensures forall i :: 0 <= i < |r| ==> '0' <= r[i] <= '9'
    ensures n >= 10 ==> r[0] != '0'
  {
    if n < 10 then [DigitChar(n)] else Decimal(n / 10) + [DigitChar(n % 10)]
  }

  /** The number that a string of decimal digits denotes. */
  function DecimalValue(s: string): nat
    requires forall i :: 0 <= i < |s| ==> '0' <= s[i] <= '9'
  {
    if s == [] then 0 else 10 * DecimalValue(s[..|s| - 1]) + (s[|s| - 1] as int - '0' as int)
  }

  /** Reading the rendering back gives the number. */
  lemma {:induction false} DecimalRoundTrip(n: nat)
    ensures DecimalValue(Decimal(n)) == n
  {
    if n >= 10 {
      DecimalRoundTrip(n / 10);
      var r := Decimal(n);
      assert r[..|r| - 1] == Decimal(n / 10);
    }
  }
}
