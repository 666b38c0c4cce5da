/** Trimming of strings, as `strings.TrimSpace`, `TrimLeftFunc` and `TrimRightFunc` do it. */
module Text {

  /** The Unicode White_Space property. */
  predicate IsSpace(c: char) {
    var n := c as int;
    || 0x09 <= n <= 0x0D || n == 0x20 || n == 0x85 || n == 0xA0 || n == 0x1680
    || 0x2000 <= n <= 0x200A || n == 0x2028 || n == 0x2029 || n == 0x202F || n == 0x205F || n == 0x3000
  }

  function TrimLeft(s: string, drop: char -> bool): string {
    if s != [] && drop(s[0]) then TrimLeft(s[1..], drop) else s
  }

  function TrimRight(s: string, drop: char -> bool): string {
    if s != [] && drop(s[|s| - 1]) then TrimRight(s[..|s| - 1], drop) else s
  }

  function TrimSpace(s: string): string { TrimRight(TrimLeft(s, IsSpace), IsSpace) }

  /** Trimming on the left cuts off the longest droppable prefix. */
  lemma {:induction false} TrimLeftCuts(s: string, drop: char -> bool) returns (n: nat)
    ensures n <= |s| && TrimLeft(s, drop) == s[n..]
    ensures forall i :: 0 <= i < n ==> drop(s[i])
    ensures n < |s| ==> !drop(s[n])
    decreases s
  {
    if s != [] && drop(s[0]) {
      var k := TrimLeftCuts(s[1..], drop);
      n := k + 1;
      assert s[1..][k..] == s[n..];
      forall i | 0 <= i < n
        ensures drop(s[i])
      {
        assert i > 0 ==> s[i] == s[1..][i - 1];
      }
    } else {
      n := 0;
    }
  }

  /** Trimming on the right cuts off the longest droppable suffix. */
  lemma {:induction false} TrimRightCuts(s: string, drop: char -> bool) returns (n: nat)
    ensures n <= |s| && TrimRight(s, drop) == s[..n]
    ensures forall i :: n <= i < |s| ==> drop(s[i])
    ensures n > 0 ==> !drop(s[n - 1])
    decreases s
  {
    if s != [] && drop(s[|s| - 1]) {
      var front := s[..|s| - 1];
      n := TrimRightCuts(front, drop);
      assert front[..n] == s[..n];
      forall i | n <= i < |s|
        ensures drop(s[i])
      {
        assert i < |s| - 1 ==> s[i] == front[i];
      }
    } else {
      n := |s|;
    }
  }

  predicate AllSpace(s: string) { forall i :: 0 <= i < |s| ==> IsSpace(s[i]) }

  /** `cut` is the text of `s` between its first and its last visible character. */
  ghost predicate VisiblePart(cut: string, s: string) {
    if AllSpace(s) then cut == ""
    else exists a, b :: Spans(cut, s, a, b)
  }

  ghost predicate Spans(cut: string, s: string, a: nat, b: nat) {
    && a <= b < |s| && cut == s[a..b + 1] && !IsSpace(s[a]) && !IsSpace(s[b])
    && AllSpace(s[..a]) && AllSpace(s[b + 1..])
  }

  lemma TrimSpaceIsVisiblePart(s: string)
    ensures VisiblePart(TrimSpace(s), s)
    ensures TrimSpace(s) == "" <==> AllSpace(s)
  {
    var a := TrimLeftCuts(s, IsSpace);
    var rest := s[a..];
    var n := TrimRightCuts(rest, IsSpace);
    if n > 0 {
      var b := a + n - 1;
      assert !IsSpace(s[b]) && rest[..n] == s[a..b + 1];
      assert rest[0] == s[a];
      assert forall i :: b < i < |s| ==> s[i] == rest[i - a];
      assert Spans(TrimSpace(s), s, a, b);
    }
  }

  /** A character that must stay stops the trimming. */
  lemma {:induction false} TrimRightStops(s: string, drop: char -> bool, k: nat)
    requires k < |s| && !drop(s[k])
    ensures k < |TrimRight(s, drop)|
    decreases s
  {
    if drop(s[|s| - 1]) {
      TrimRightStops(s[..|s| - 1], drop, k);
    }
  }

  lemma {:induction false} TrimLeftStops(s: string, drop: char -> bool, k: nat)
    requires k < |s| && !drop(s[k])
    ensures |s| - k <= |TrimLeft(s, drop)|
    decreases s
  {
    if drop(s[0]) {
      TrimLeftStops(s[1..], drop, k - 1);
    }
  }
}
