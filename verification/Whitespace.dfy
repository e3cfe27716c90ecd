/** `String.prototype.trim`. */
module Whitespace {

  predicate IsSpace(c: char) {
    var n := c as int;
    || 0x9 <= n <= 0xD || n == 0x20 || n == 0xA0 || n == 0x1680 || 0x2000 <= n <= 0x200A
    || n == 0x2028 || n == 0x2029 || n == 0x202F || n == 0x205F || n == 0x3000 || n == 0xFEFF
  }

  /** The white space and line terminators of ECMAScript, sections 12.2 and 12.3. */
  lemma SpacesAre(c: char)
    ensures IsSpace(c) <==> c as int in {0x9, 0xA, 0xB, 0xC, 0xD, 0x20, 0xA0, 0x1680, 0x2000, 0x2001, 0x2002, 0x2003, 0x2004, 0x2005,
                                         0x2006, 0x2007, 0x2008, 0x2009, 0x200A, 0x2028, 0x2029, 0x202F, 0x205F, 0x3000, 0xFEFF}
  {
  }

  function TrimStart(s: string): string {
    if s != [] && IsSpace(s[0]) then TrimStart(s[1..]) else s
  }

  function TrimEnd(s: string): string {
    if s != [] && IsSpace(s[|s| - 1]) then TrimEnd(s[..|s| - 1]) else s
  }

  function Trim(s: string): string {
    TrimEnd(TrimStart(s))
  }

  /** Nothing is trimmed off a string that starts and ends with other characters. */
  lemma TrimKeeps(s: string)
    requires s != [] && !IsSpace(s[0]) && !IsSpace(s[|s| - 1])
    ensures Trim(s) == s
  {}

  lemma {:induction false} TrimStartSplits(s: string) returns (k: nat)
    ensures k <= |s| && TrimStart(s) == s[k..] && (forall i :: 0 <= i < k ==> IsSpace(s[i]))
    ensures k < |s| ==> !IsSpace(s[k])
  {
    k := 0;
    if s != [] && IsSpace(s[0]) {
      var j := TrimStartSplits(s[1..]);
      k := j + 1;
      assert s[1..][j..] == s[k..];
    }
  }

  /** A string trims to nothing exactly when it is all white space. */
  lemma BlankMeansAllSpace(s: string)
    ensures Trim(s) == [] <==> forall i :: 0 <= i < |s| ==> IsSpace(s[i])
  {
    var k := TrimStartSplits(s);
    if k < |s| {
      TrimEndKeepsFirst(s[k..]);
    }
  }

  lemma {:induction false} TrimEndKeepsFirst(s: string)
    requires s != [] && !IsSpace(s[0])
    ensures TrimEnd(s) != []
  {
    if IsSpace(s[|s| - 1]) {
      TrimEndKeepsFirst(s[..|s| - 1]);
    }
  }

  ghost predicate AllSpace(s: string) {
    forall i :: 0 <= i < |s| ==> IsSpace(s[i])
  }

  lemma {:induction false} TrimStartStrips(front: string, s: string)
    requires AllSpace(front) && s != [] && !IsSpace(s[0])
    ensures TrimStart(front + s) == s
  {
    if front == [] {
      assert front + s == s;
    } else {
      assert (front + s)[0] == front[0] && (front + s)[1..] == front[1..] + s;
      TrimStartStrips(front[1..], s);
    }
  }

  lemma {:induction false} TrimEndStrips(s: string, back: string)
    requires AllSpace(back) && s != [] && !IsSpace(s[|s| - 1])
    ensures TrimEnd(s + back) == s
  {
    if back == [] {
      assert s + back == s;
    } else {
      var front := back[..|back| - 1];
      assert (s + back)[|s + back| - 1] == back[|back| - 1] && (s + back)[..|s + back| - 1] == s + front;
      TrimEndStrips(s, front);
    }
  }

  /** Trimming takes off exactly the white space at both ends. */
  lemma TrimStrips(front: string, s: string, back: string)
    requires AllSpace(front) && AllSpace(back) && s != [] && !IsSpace(s[0]) && !IsSpace(s[|s| - 1])
    ensures Trim(front + s + back) == s
  {
    assert front + s + back == front + (s + back);
    TrimStartStrips(front, s + back);
    TrimEndStrips(s, back);
  }
}
