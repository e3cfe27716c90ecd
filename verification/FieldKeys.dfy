/**
 Keys written as text, a separator, a number, the separator and another text: when they tell the three
 parts apart.
 */
module FieldKeys {
  import opened DecimalText

  function Joined(sep: char, a: string, n: nat, b: string): string {
    a + [sep] + ToText(n) + [sep] + b
  }

  /** A text is cut the same way at its first separator however it was put together. */
  lemma FirstSeparatorCuts(sep: char, a: string, b: string, a': string, b': string)
    requires sep !in a && sep !in a' && a + [sep] + b == a' + [sep] + b'
    ensures a == a' && b == b'
  {
    var s, s' := a + [sep] + b, a' + [sep] + b';
    assert s[|a|] == sep && s'[|a'|] == sep;
    assert forall k :: 0 <= k < |a| ==> s[k] == a[k] && a[k] != sep;
    assert forall k :: 0 <= k < |a'| ==> s'[k] == a'[k] && a'[k] != sep;
    assert |a| == |a'|;
    assert a == s[..|a|] && a' == s'[..|a'|];
    assert b == s[|a| + 1..] && b' == s'[|a'| + 1..];
  }

  lemma LastSeparatorCuts(sep: char, a: string, b: string, a': string, b': string)
    requires sep !in b && sep !in b' && a + [sep] + b == a' + [sep] + b'
    ensures a == a' && b == b'
  {
    var s, s' := a + [sep] + b, a' + [sep] + b';
    assert s[|a|] == sep && s'[|a'|] == sep;
    assert forall k :: |a| < k < |s| ==> s[k] == b[k - |a| - 1] && s[k] != sep;
    assert forall k :: |a'| < k < |s'| ==> s'[k] == b'[k - |a'| - 1] && s'[k] != sep;
    assert |a| == |a'|;
    assert a == s[..|a|] && a' == s'[..|a'|];
    assert b == s[|a| + 1..] && b' == s'[|a'| + 1..];
  }

  lemma NoSeparatorInDigits(sep: char, n: nat)
    requires !IsDigit(sep)
    ensures sep !in ToText(n)
  {
  }

  lemma SameDigitsSameNumber(n: nat, n': nat)
    requires ToText(n) == ToText(n')
    ensures n == n'
  {
    TextRoundTrip(n);
    TextRoundTrip(n');
  }

  /** Where the first parts, or the last ones, hold no separator, keys agree only when all three parts do. */
  lemma JoinedSeparates(sep: char, a: string, n: nat, b: string, a': string, n': nat, b': string)
    requires !IsDigit(sep)
    requires (sep !in a && sep !in a') || (sep !in b && sep !in b')
    ensures Joined(sep, a, n, b) == Joined(sep, a', n', b') <==> a == a' && n == n' && b == b'
  {
    if Joined(sep, a, n, b) == Joined(sep, a', n', b') {
      var t, t' := ToText(n), ToText(n');
      NoSeparatorInDigits(sep, n);
      NoSeparatorInDigits(sep, n');
      if sep !in a && sep !in a' {
        assert Joined(sep, a, n, b) == a + [sep] + (t + [sep] + b);
        assert Joined(sep, a', n', b') == a' + [sep] + (t' + [sep] + b');
        FirstSeparatorCuts(sep, a, t + [sep] + b, a', t' + [sep] + b');
        FirstSeparatorCuts(sep, t, b, t', b');
      } else {
        LastSeparatorCuts(sep, a + [sep] + t, b, a' + [sep] + t', b');
        LastSeparatorCuts(sep, a, t, a', t');
      }
      SameDigitsSameNumber(n, n');
    }
  }

  // ---- keys that other parts share ---------------------------------------------------------------------

  /** Digits without a leading zero: the text of some number. */
  ghost predicate IsNumeral(s: string) {
    s != [] && AllDigits(s) && (s[0] == '0' ==> |s| == 1)
  }

  /** A number between two separators. */
  ghost predicate NumberAt(s: string, sep: char, i: int, j: int) {
    0 <= i < j < |s| && s[i] == sep && s[j] == sep && IsNumeral(s[i + 1..j])
  }

  ghost predicate HoldsNumber(s: string, sep: char) {
    exists i, j :: 0 <= i < j < |s| && NumberAt(s, sep, i, j)
  }

  lemma NumeralsAreTexts(n: nat)
    ensures IsNumeral(ToText(n))
  {
    if n < 10 {
      assert |ToText(n)| == 1;
    }
  }

  lemma {:induction false} NumeralReads(s: string)
    requires IsNumeral(s)
    ensures ToText(ToNat(s)) == s
    ensures s[0] != '0' ==> ToNat(s) > 0
  {
    var front, last := s[..|s| - 1], s[|s| - 1];
    assert s == front + [last];
    assert IsDigit(last) && DigitChar(DigitValue(last)) == last;
    if front == [] {
      assert ToNat(s) == DigitValue(last);
    } else {
      assert front[0] == s[0];
      NumeralReads(front);
      assert ToNat(s) / 10 == ToNat(front) && ToNat(s) % 10 == DigitValue(last);
    }
  }

  /** Some other parts are written the same. */
  ghost predicate Shared(sep: char, a: string, n: nat, b: string) {
    exists a', n': nat, b' :: Joined(sep, a', n', b') == Joined(sep, a, n, b) && !(a' == a && n' == n && b' == b)
  }

  lemma OtherCut(sep: char, s: string, i: int, j: int) returns (n: nat)
    requires NumberAt(s, sep, i, j)
    ensures Joined(sep, s[..i], n, s[j + 1..]) == s
  {
    n := ToNat(s[i + 1..j]);
    NumeralReads(s[i + 1..j]);
    assert s == s[..i] + [s[i]] + s[i + 1..j] + [s[j]] + s[j + 1..];
  }

  lemma NumberMovesBack(front: string, tail: string, sep: char, i: int, j: int)
    requires 0 <= i < j < |tail|
    ensures NumberAt(front + tail, sep, |front| + i, |front| + j) <==> NumberAt(tail, sep, i, j)
  {
    assert (front + tail)[|front| + i + 1..|front| + j] == tail[i + 1..j];
  }

  lemma NumberStaysInFront(front: string, tail: string, sep: char, i: int, j: int)
    requires 0 <= i < j < |front|
    ensures NumberAt(front + tail, sep, i, j) <==> NumberAt(front, sep, i, j)
  {
    assert (front + tail)[i + 1..j] == front[i + 1..j];
  }

  /** The key falls into its first part with a separator, its digits, and a separator with its last part. */
  lemma JoinedSplits(sep: char, a: string, n: nat, b: string)
    requires !IsDigit(sep)
    ensures var s, j := Joined(sep, a, n, b), |a| + 1 + |ToText(n)|;
            && s == (a + [sep]) + (ToText(n) + ([sep] + b)) && s == (a + [sep] + ToText(n)) + ([sep] + b)
            && NumberAt(s, sep, |a|, j) && forall k :: |a| < k < j ==> s[k] != sep
  {
    var s, j, t := Joined(sep, a, n, b), |a| + 1 + |ToText(n)|, ToText(n);
    assert s == (a + [sep]) + (t + ([sep] + b));
    assert forall k :: |a| < k < j ==> s[k] == t[k - |a| - 1] && IsDigit(s[k]);
    assert s[|a| + 1..j] == t;
    NumeralsAreTexts(n);
  }

  lemma NumberInFront(sep: char, a: string, n: nat, b: string)
    requires !IsDigit(sep) && HoldsNumber(a + [sep], sep)
    ensures Shared(sep, a, n, b)
  {
    hide NumberAt, Joined;
    JoinedSplits(sep, a, n, b);
    var s := Joined(sep, a, n, b);
    var i, j :| 0 <= i < j < |a + [sep]| && NumberAt(a + [sep], sep, i, j);
    NumberStaysInFront(a + [sep], ToText(n) + ([sep] + b), sep, i, j);
    var m := OtherCut(sep, s, i, j);
    assert |s[..i]| < |a|;
  }

  lemma NumberBehind(sep: char, a: string, n: nat, b: string)
    requires !IsDigit(sep) && HoldsNumber([sep] + b, sep)
    ensures Shared(sep, a, n, b)
  {
    hide NumberAt, Joined;
    JoinedSplits(sep, a, n, b);
    var s, front := Joined(sep, a, n, b), a + [sep] + ToText(n);
    var i, j :| 0 <= i < j < |[sep] + b| && NumberAt([sep] + b, sep, i, j);
    NumberMovesBack(front, [sep] + b, sep, i, j);
    var m := OtherCut(sep, s, |front| + i, |front| + j);
    assert |s[..|front| + i]| > |a|;
  }

  /** Other parts cut the key inside its first part, or inside its last. */
  lemma OtherCutHoldsNumber(sep: char, a: string, n: nat, b: string, a': string, n': nat, b': string)
    requires !IsDigit(sep) && Joined(sep, a', n', b') == Joined(sep, a, n, b) && |a'| != |a|
    ensures HoldsNumber(a + [sep], sep) || HoldsNumber([sep] + b, sep)
  {
    hide IsNumeral, Joined;
    JoinedSplits(sep, a, n, b);
    JoinedSplits(sep, a', n', b');
    var s, front := Joined(sep, a, n, b), a + [sep] + ToText(n);
    var i, j := |a'|, |a'| + 1 + |ToText(n')|;
    assert s[|a|] == sep && s[i] == sep;
    if i < |a| {
      assert j <= |a|;
      NumberStaysInFront(a + [sep], ToText(n) + ([sep] + b), sep, i, j);
    } else {
      assert i >= |front|;
      NumberMovesBack(front, [sep] + b, sep, i - |front|, j - |front|);
    }
  }

  /** Exactly when other parts are written the same: when a part holds what looks like the number of a key. */
  lemma SharedExactlyWhen(sep: char, a: string, n: nat, b: string)
    requires !IsDigit(sep)
    ensures Shared(sep, a, n, b) <==> HoldsNumber(a + [sep], sep) || HoldsNumber([sep] + b, sep)
  {
    if HoldsNumber(a + [sep], sep) {
      NumberInFront(sep, a, n, b);
    }
    if HoldsNumber([sep] + b, sep) {
      NumberBehind(sep, a, n, b);
    }
    if Shared(sep, a, n, b) {
      var a', n': nat, b' :| Joined(sep, a', n', b') == Joined(sep, a, n, b) && !(a' == a && n' == n && b' == b);
      if |a'| != |a| {
        OtherCutHoldsNumber(sep, a, n, b, a', n', b');
      } else {
        SameFrontSameParts(sep, a, n, b, a', n', b');
      }
    }
  }

  lemma SameFrontSameParts(sep: char, a: string, n: nat, b: string, a': string, n': nat, b': string)
    requires !IsDigit(sep) && Joined(sep, a', n', b') == Joined(sep, a, n, b) && |a'| == |a|
    ensures a' == a && n' == n && b' == b
  {
    var s, t, t' := Joined(sep, a, n, b), ToText(n), ToText(n');
    assert s == a + [sep] + (t + [sep] + b) && s == a' + [sep] + (t' + [sep] + b');
    assert a == s[..|a|] && a' == s[..|a|];
    assert t + [sep] + b == s[|a| + 1..] && t' + [sep] + b' == s[|a| + 1..];
    NoSeparatorInDigits(sep, n);
    NoSeparatorInDigits(sep, n');
    FirstSeparatorCuts(sep, t, b, t', b');
    SameDigitsSameNumber(n, n');
  }
}
