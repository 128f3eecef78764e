/** Bounded string comparison (os_strncmp, os_strncasecmp), and the order it induces. C
    strings are given without their terminator. */
module Names {

  /** IOT_NAME_MAX_LEN */
  const NAME_MAX: nat := 128

  function Lower(c: char): char { if 'A' <= c <= 'Z' then c + 32 as char else c }

  function LowerAll(s: string): (r: string)
    ensures |r| == |s|
  {
    seq(|s|, i requires 0 <= i < |s| => Lower(s[i]))
  }

  function Cut(s: string, n: nat): (r: string)
    ensures |r| <= n
  {
    if |s| <= n then s else s[..n]
  }

  /** What tells two names apart: the folded, truncated name. */
  function Key(name: string): string { LowerAll(Cut(name, NAME_MAX)) }

  /** Lexicographic order; a proper prefix comes first. */
  predicate Less(a: string, b: string) {
    b != [] && (a == [] || a[0] < b[0] || (a[0] == b[0] && Less(a[1..], b[1..])))
  }

  lemma {:induction false} LessTransitive(a: string, b: string, c: string)
    requires Less(a, b) && Less(b, c)
    ensures Less(a, c)
  {
    if a != [] && a[0] == b[0] && b[0] == c[0] {
      LessTransitive(a[1..], b[1..], c[1..]);
    }
  }

  lemma {:induction false} LessTotal(a: string, b: string)
    ensures a == b || Less(a, b) || Less(b, a)
    ensures Less(a, b) ==> a != b && !Less(b, a)
  {
    if a != [] && b != [] {
      LessTotal(a[1..], b[1..]);
      assert a == [a[0]] + a[1..] && b == [b[0]] + b[1..];
    }
  }

  /** One character, or one letter in both cases. */
  predicate Alike(c: char, d: char) {
    || c == d
    || ('A' <= c <= 'Z' && d as int == c as int + 32)
    || ('A' <= d <= 'Z' && c as int == d as int + 32)
  }

  /** The part of a name that counts. */
  function First128(s: string): string {
    if |s| <= 128 then s else s[..128]
  }

  /** Two names have one key exactly when they are alike character by character, as far as
      they count. */
  lemma KeyIs(a: string, b: string)
    ensures Key(a) == Key(b)
       <==> var x, y := First128(a), First128(b);
            |x| == |y| && forall i :: 0 <= i < |x| ==> Alike(x[i], y[i])
  {
    var x, y := First128(a), First128(b);
    assert forall i :: 0 <= i < |x| && i < |y| ==> (Lower(x[i]) == Lower(y[i]) <==> Alike(x[i], y[i]));
    if Key(a) == Key(b) {
      assert forall i :: 0 <= i < |x| ==> Key(a)[i] == Lower(x[i]) && Key(b)[i] == Lower(y[i]);
    }
  }

  /** A key has no capital letter, and is alike to what counts of its name. */
  lemma KeyFolds(a: string)
    ensures |Key(a)| == |First128(a)|
    ensures forall i :: 0 <= i < |Key(a)| ==> Alike(Key(a)[i], First128(a)[i]) && !('A' <= Key(a)[i] <= 'Z')
  {
  }

  /** The order of names: a proper beginning comes first; otherwise the first place where two
      names differ decides. */
  lemma {:induction false} LessIs(a: string, b: string)
    ensures Less(a, b) <==> exists k :: 0 <= k < |b| && DecidedAt(a, b, k)
  {
    if a != [] && b != [] && a[0] == b[0] {
      LessIs(a[1..], b[1..]);
      if Less(a, b) {
        var k :| 0 <= k < |b[1..]| && DecidedAt(a[1..], b[1..], k);
        assert a[..k + 1] == [a[0]] + a[1..][..k] && b[..k + 1] == [b[0]] + b[1..][..k];
        assert DecidedAt(a, b, k + 1);
      } else if k :| 0 <= k < |b| && DecidedAt(a, b, k) {
        assert k > 0 && a[1..][..k - 1] == a[..k][1..] && b[1..][..k - 1] == b[..k][1..];
        assert DecidedAt(a[1..], b[1..], k - 1);
      }
    } else if Less(a, b) {
      assert DecidedAt(a, b, 0);
    } else {
      forall k | 0 <= k < |b| ensures !DecidedAt(a, b, k) {
        if 0 < k <= |a| {
          assert a[..k][0] == a[0] && b[..k][0] == b[0];
        }
      }
    }
  }

  predicate DecidedAt(a: string, b: string, k: nat)
    requires k < |b|
  {
    k <= |a| && a[..k] == b[..k] && (k == |a| || a[k] < b[k])
  }

  function Fold(s: string, fold: bool): string { if fold then LowerAll(s) else s }

  /** os_strncasecmp when `fold` is set, else os_strncmp: the sign of the comparison of at
      most n characters. */
  method Compare(a: string, b: string, n: nat, fold: bool) returns (r: int)
    requires '\0' !in a && '\0' !in b
    ensures var x, y := Fold(Cut(a, n), fold), Fold(Cut(b, n), fold);
            (r == 0 <==> x == y) && (r < 0 <==> Less(x, y)) && (r > 0 <==> Less(y, x))
  {
    hide Less;
    ghost var x, y := Fold(Cut(a, n), fold), Fold(Cut(b, n), fold);
    var i := 0;
    r := 0;
    assert x[0..] == x && y[0..] == y;
    LessTotal(x, y);
    while i < n && r == 0 && (i < |a| || i < |b|)
      invariant i <= n
      invariant r == 0 ==> i <= |x| && i <= |y| && x[..i] == y[..i]
      invariant r == 0 ==> (Less(x, y) <==> Less(x[i..], y[i..])) && (Less(y, x) <==> Less(y[i..], x[i..]))
      invariant r < 0 ==> Less(x, y)
      invariant r > 0 ==> Less(y, x)
    {
      var c := if i < |a| then (if fold then Lower(a[i]) else a[i]) else '\0';
      var d := if i < |b| then (if fold then Lower(b[i]) else b[i]) else '\0';
      r := c as int - d as int;
      LessFrom(x, y, i);
      LessFrom(y, x, i);
      i := i + 1;
    }
    if r == 0 {
      assert i >= |x| && i >= |y|;
      assert x == x[..i] && y == y[..i];
    }
  }

  lemma LessFrom(x: string, y: string, i: nat)
    requires i <= |x| && i <= |y|
    ensures Less(x[i..], y[i..])
       <==> i < |y| && (i == |x| || x[i] < y[i] || (x[i] == y[i] && Less(x[i + 1..], y[i + 1..])))
  {
    assert i < |x| ==> x[i..][1..] == x[i + 1..];
    assert i < |y| ==> y[i..][1..] == y[i + 1..];
  }
}
