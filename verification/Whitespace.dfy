/** Whitespace as str.strip and str.isspace understand it. */
module Whitespace {
  predicate IsSpace(c: char) {
    '\t' <= c <= '\r' || '\U{001C}' <= c <= ' ' || c == '\U{0085}' || c == '\U{00A0}' || c == '\U{1680}' ||
    '\U{2000}' <= c <= '\U{200A}' || c == '\U{2028}' || c == '\U{2029}' || c == '\U{202F}' || c == '\U{205F}' ||
      c == '\U{3000}'
  }

  function StripLeft(s: string): string {
    if s != "" && IsSpace(s[0]) then StripLeft(s[1..]) else s
  }

  function StripRight(s: string): string {
    if s != "" && IsSpace(s[|s| - 1]) then StripRight(s[..|s| - 1]) else s
  }

  /** str.strip. */
  function Strip(s: string): string {
    StripRight(StripLeft(s))
  }

  /** No whitespace at either end. */
  predicate Tight(s: string) {
    s != "" ==> !IsSpace(s[0]) && !IsSpace(s[|s| - 1])
  }

  lemma StripTight(s: string)
    requires Tight(s)
    ensures Strip(s) == s
  {
  }

  /** One whitespace character at the end is stripped. */
  lemma StripOne(s: string, c: char)
    requires Tight(s) && IsSpace(c)
    ensures Strip(s + [c]) == s
  {
    var padded := s + [c];
    assert padded[..|s|] == s;
    if s == "" {
      assert padded[1..] == "";
      assert StripLeft(padded) == StripLeft(padded[1..]) == "";
    } else {
      assert StripLeft(padded) == padded;
      assert StripRight(s) == s;
    }
  }

  lemma {:induction false} StripLeftShape(s: string) returns (k: nat)
    ensures k <= |s| && StripLeft(s) == s[k..]
    ensures StripLeft(s) != "" ==> !IsSpace(StripLeft(s)[0])
  {
    if s != "" && IsSpace(s[0]) {
      k := StripLeftShape(s[1..]);
      assert s[1..][k..] == s[k + 1..];
      k := k + 1;
    } else {
      k := 0;
    }
  }

  lemma {:induction false} StripRightShape(s: string) returns (k: nat)
    ensures k <= |s| && StripRight(s) == s[..k]
    ensures StripRight(s) != "" ==> !IsSpace(StripRight(s)[|StripRight(s)| - 1])
  {
    if s != "" && IsSpace(s[|s| - 1]) {
      k := StripRightShape(s[..|s| - 1]);
      assert s[..|s| - 1][..k] == s[..k];
    } else {
      k := |s|;
    }
  }

  /** What is put behind a tight text is all that strip can take from. */
  lemma {:induction false} StripBehind(front: string, rest: string) returns (kept: string)
    requires front != "" && Tight(front)
    ensures Strip(front + rest) == front + kept
    decreases |rest|
  {
    assert StripLeft(front + rest) == front + rest;
    if rest == "" {
      assert front + rest == front;
      kept := "";
    } else if IsSpace(rest[|rest| - 1]) {
      var init := rest[..|rest| - 1];
      assert (front + rest)[..|front + rest| - 1] == front + init;
      assert StripLeft(front + init) == front + init;
      kept := StripBehind(front, init);
    } else {
      kept := rest;
    }
  }

  /** What strip gives is tight, and a slice of what it got. */
  lemma StripShape(s: string) returns (from: nat, to: nat)
    ensures from <= to <= |s| && Strip(s) == s[from..to] && Tight(Strip(s))
  {
    from := StripLeftShape(s);
    var left := StripLeft(s);
    var k := StripRightShape(left);
    to := from + k;
    assert left[..k] == s[from..to];
    if Strip(s) != "" {
      assert Strip(s)[0] == left[0];
    }
  }

  predicate AllSpace(s: string) {
    forall i {:trigger s[i]} :: 0 <= i < |s| ==> IsSpace(s[i])
  }

  lemma {:induction false} StripLeftSkips(pad: string, s: string)
    requires AllSpace(pad)
    ensures StripLeft(pad + s) == StripLeft(s)
    decreases |pad|
  {
    if pad == "" {
      assert pad + s == s;
    } else {
      assert (pad + s)[1..] == pad[1..] + s;
      forall i {:trigger pad[1..][i]} | 0 <= i < |pad[1..]| ensures IsSpace(pad[1..][i]) {
        assert pad[1..][i] == pad[i + 1];
      }
      StripLeftSkips(pad[1..], s);
    }
  }

  lemma {:induction false} StripRightSkips(s: string, pad: string)
    requires AllSpace(pad)
    ensures StripRight(s + pad) == StripRight(s)
    decreases |pad|
  {
    if pad == "" {
      assert s + pad == s;
    } else {
      var init := pad[..|pad| - 1];
      assert (s + pad)[..|s + pad| - 1] == s + init;
      forall i {:trigger init[i]} | 0 <= i < |init| ensures IsSpace(init[i]) {
        assert init[i] == pad[i];
      }
      StripRightSkips(s, init);
    }
  }

  /** Whitespace around a tight string is stripped. */
  lemma StripAround(before: string, s: string, after: string)
    requires AllSpace(before) && Tight(s) && AllSpace(after)
    ensures Strip(before + (s + after)) == s
  {
    StripLeftSkips(before, s + after);
    if s == "" {
      StripLeftSkips(after, "");
      assert s + after == after && after + "" == after;
    } else {
      assert StripLeft(s + after) == s + after;
      StripRightSkips(s, after);
    }
  }
}
