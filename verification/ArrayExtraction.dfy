/**
 Pulling the JSON array out of a model's reply (`internal/llm/parse.go`): code fences are stripped
 and the scanner returns the text from the first '[' to the bracket that closes it.  The scanner
 does not look at quotes.
 */
module ArrayExtraction {
  import opened Text

  // ---------- the scanner ----------

  /** Position of the first `c`, or the length when there is none. */
  function IndexOf(s: string, c: char): nat {
    if s == "" || s[0] == c then 0 else 1 + IndexOf(s[1..], c)
  }

  /** Where the scan stops: behind the bracket that closes the first one, or at the end. */
  function ScanEnd(s: string, i: nat, depth: int): nat
    requires i <= |s|
    decreases |s| - i
  {
    if i == |s| then |s|
    else if s[i] == '[' then ScanEnd(s, i + 1, depth + 1)
    else if s[i] == ']' then if depth == 1 then i + 1 else ScanEnd(s, i + 1, depth - 1)
    else ScanEnd(s, i + 1, depth)
  }

  lemma {:induction false} IndexOfFinds(s: string, c: char)
    ensures IndexOf(s, c) <= |s| && (IndexOf(s, c) < |s| ==> s[IndexOf(s, c)] == c)
    ensures forall i :: 0 <= i < IndexOf(s, c) ==> s[i] != c
    decreases s
  {
    if s != "" && s[0] != c {
      IndexOfFinds(s[1..], c);
      forall i | 0 <= i < IndexOf(s, c)
        ensures s[i] != c
      {
        assert i > 0 ==> s[i] == s[1..][i - 1];
      }
    }
  }

  lemma {:induction false} ScanEndInRange(s: string, i: nat, depth: int)
    requires i <= |s|
    ensures i <= ScanEnd(s, i, depth) <= |s|
    decreases |s| - i
  {
    if i < |s| {
      ScanEndInRange(s, i + 1, depth);
      ScanEndInRange(s, i + 1, depth + 1);
      ScanEndInRange(s, i + 1, depth - 1);
    }
  }

  function TrimToFirstArray(s: string): string {
    IndexOfFinds(s, '[');
    var start := IndexOf(s, '[');
    ScanEndInRange(s, start, 0);
    if start == |s| then "" else s[start..ScanEnd(s, start, 0)]
  }

  method ScanFirstArray(s: string) returns (r: string)
    ensures r == TrimToFirstArray(s)
  {
    IndexOfFinds(s, '[');
    var start := 0;
    while start < |s| && s[start] != '['
      invariant start <= |s| && forall i :: 0 <= i < start ==> s[i] != '['
    {
      start := start + 1;
    }
    FirstIndex(s, '[', start);
    if start == |s| {
      return "";
    }
    var depth := 0;
    for i := start to |s|
      invariant ScanEnd(s, start, 0) == ScanEnd(s, i, depth)
    {
      if s[i] == '[' {
        depth := depth + 1;
      } else if s[i] == ']' {
        depth := depth - 1;
        if depth == 0 {
          return s[start..i + 1];
        }
      }
    }
    return s[start..];
  }

  lemma {:induction false} FirstIndex(s: string, c: char, k: nat)
    requires k <= |s| && (k < |s| ==> s[k] == c) && forall i :: 0 <= i < k ==> s[i] != c
    ensures IndexOf(s, c) == k
    decreases s
  {
    if k > 0 {
      FirstIndex(s[1..], c, k - 1);
    }
  }

  // ---------- what the scanner returns ----------

  /** Opening minus closing brackets. */
  function Depth(s: string): int {
    if s == "" then 0 else
    Depth(s[..|s| - 1]) + (if s[|s| - 1] == '[' then 1 else if s[|s| - 1] == ']' then -1 else 0)
  }

  lemma DepthSnoc(s: string, i: nat, k: nat)
    requires i <= k < |s|
    ensures Depth(s[i..k + 1]) == Depth(s[i..k]) + (if s[k] == '[' then 1 else if s[k] == ']' then -1 else 0)
  {
    assert s[i..k + 1][..k - i] == s[i..k];
  }

  /** `e` is the first place behind `start` where the brackets balance, or the end if they never do. */
  ghost predicate FirstBalance(s: string, start: nat, e: nat) {
    && start < e <= |s|
    && (forall k :: start < k < e ==> Depth(s[start..k]) != 0)
    && (e < |s| ==> Depth(s[start..e]) == 0)
  }

  lemma {:induction false} ScanBalances(s: string, start: nat, i: nat)
    requires start < i <= |s|
    requires forall k :: start < k <= i ==> Depth(s[start..k]) > 0
    ensures FirstBalance(s, start, ScanEnd(s, i, Depth(s[start..i])))
    decreases |s| - i
  {
    if i < |s| {
      DepthSnoc(s, start, i);
      if Depth(s[start..i + 1]) > 0 {
        ScanBalances(s, start, i + 1);
      }
    }
  }

  /** In general: the shortest balanced piece from the first '[' on, or all that is left. */
  lemma TrimReturnsFirstBalance(s: string)
    ensures '[' !in s ==> TrimToFirstArray(s) == ""
    ensures '[' in s ==>
              var start := IndexOf(s, '[');
              && start < |s| && s[start] == '[' && '[' !in s[..start]
              && exists e: nat :: FirstBalance(s, start, e) && TrimToFirstArray(s) == s[start..e]
  {
    IndexOfFinds(s, '[');
    var start := IndexOf(s, '[');
    if start < |s| {
      assert s[start..start] == "";
      DepthSnoc(s, start, start);
      ScanBalances(s, start, start + 1);
    }
  }

  /** Opened by its first bracket and closed by its last one. */
  ghost predicate Closed(p: string) {
    && p != "" && p[0] == '[' && Depth(p) == 0
    && forall k :: 0 < k < |p| ==> Depth(p[..k]) != 0
  }

  lemma FirstBalanceUnique(s: string, start: nat, e: nat, f: nat)
    requires FirstBalance(s, start, e) && FirstBalance(s, start, f)
    ensures e == f
  {}

  lemma ClosedIsFirstBalance(pre: string, p: string, suf: string)
    requires Closed(p)
    ensures FirstBalance(pre + p + suf, |pre|, |pre| + |p|)
  {
    var s := pre + p + suf;
    forall k | |pre| < k <= |pre| + |p|
      ensures s[|pre|..k] == p[..k - |pre|]
    {}
    assert p[..|p|] == p;
  }

  lemma ClosedIsReturned(pre: string, p: string, suf: string)
    requires '[' !in pre && Closed(p)
    ensures TrimToFirstArray(pre + p + suf) == p
  {
    var s := pre + p + suf;
    assert s[|pre|] == '[';
    FirstIndex(s, '[', |pre|);
    TrimReturnsFirstBalance(s);
    var e: nat :| FirstBalance(s, |pre|, e) && TrimToFirstArray(s) == s[|pre|..e];
    ClosedIsFirstBalance(pre, p, suf);
    FirstBalanceUnique(s, |pre|, e, |pre| + |p|);
    assert s[|pre|..|pre| + |p|] == p;
  }

  /** Any text is recovered from every surrounding exactly when its brackets close at its very end. */
  lemma ReturnedIffClosed(p: string)
    requires p != "" && p[0] == '['
    ensures Closed(p) <==> forall pre, suf :: '[' !in pre ==> Recovered(pre, p, suf)
  {
    if Closed(p) {
      forall pre, suf | '[' !in pre
        ensures Recovered(pre, p, suf)
      {
        ClosedIsReturned(pre, p, suf);
      }
    } else {
      assert '[' !in "";
      if Recovered("", p, "x") {
        RecoveredIsClosed(p);
      }
    }
  }

  predicate Recovered(pre: string, p: string, suf: string) { TrimToFirstArray(pre + p + suf) == p }

  lemma RecoveredIsClosed(p: string)
    requires p != "" && p[0] == '[' && Recovered("", p, "x")
    ensures Closed(p)
  {
    var s := "" + p + "x";
    assert s[0] == '[' && s[..|p|] == p && s[0..|p|] == p;
    FirstIndex(s, '[', 0);
    TrimReturnsFirstBalance(s);
    var e: nat :| FirstBalance(s, 0, e) && TrimToFirstArray(s) == s[0..e];
    assert |s[0..e]| == e == |p|;
    forall k | 0 < k < |p|
      ensures Depth(p[..k]) != 0
    {
      assert s[0..k] == p[..k];
    }
  }

  // ---------- printed JSON ----------

  /** A JSON value as it stands in a text, with its insignificant white space. */
  datatype Json =
    | Scalar(text: string)
    | Str(body: string)
    | Arr(gap: string, items: seq<Item>)
    | Obj(gap: string, members: seq<Member>)

  datatype Item = Item(before: string, value: Json, after: string)

  datatype Member = Member(before: string, key: string, between: string, item: Item)

  function Print(j: Json): string
    decreases j, 0
  {
    match j
    case Scalar(text) => text
    case Str(body) => "\"" + body + "\""
    case Arr(gap, items) => "[" + (if items == [] then gap else PrintItems(items)) + "]"
    case Obj(gap, members) => "{" + (if members == [] then gap else PrintMembers(members)) + "}"
  }

  function PrintItem(i: Item): string
    decreases i, 0
  {
    i.before + Print(i.value) + i.after
  }

  function PrintItems(items: seq<Item>): string
    decreases items, 1
  {
    if items == [] then "" else
    var last := PrintItem(items[|items| - 1]);
    if |items| == 1 then last else PrintItems(items[..|items| - 1]) + "," + last
  }

  function PrintMember(m: Member): string
    decreases m, 1
  {
    m.before + "\"" + m.key + "\"" + m.between + ":" + PrintItem(m.item)
  }

  function PrintMembers(members: seq<Member>): string
    decreases members, 1
  {
    if members == [] then "" else
    var last := PrintMember(members[|members| - 1]);
    if |members| == 1 then last else PrintMembers(members[..|members| - 1]) + "," + last
  }

  predicate Free(s: string) { '[' !in s && ']' !in s }

  /** No string in the value holds a square bracket (and, as everywhere in JSON, no scalar or space does). */
  predicate BracketFree(j: Json)
    decreases j, 0
  {
    match j
    case Scalar(text) => Free(text)
    case Str(body) => Free(body)
    case Arr(gap, items) => Free(gap) && forall i :: 0 <= i < |items| ==> FreeItem(items[i])
    case Obj(gap, members) => Free(gap) && forall i :: 0 <= i < |members| ==> FreeMember(members[i])
  }

  predicate FreeItem(i: Item)
    decreases i, 0
  {
    Free(i.before) && BracketFree(i.value) && Free(i.after)
  }

  predicate FreeMember(m: Member)
    decreases m, 1
  {
    Free(m.before) && Free(m.key) && Free(m.between) && FreeItem(m.item)
  }

  /** Balanced, and never closing more than it has opened. */
  ghost predicate Neutral(s: string) {
    Depth(s) == 0 && forall k :: 0 <= k <= |s| ==> Depth(s[..k]) >= 0
  }

  lemma {:induction false} DepthConcat(a: string, b: string)
    ensures Depth(a + b) == Depth(a) + Depth(b)
    decreases b
  {
    if b == "" {
      assert a + b == a;
    } else {
      DepthConcat(a, b[..|b| - 1]);
      assert (a + b)[..|a + b| - 1] == a + b[..|b| - 1];
    }
  }

  lemma NeutralConcat(a: string, b: string)
    requires Neutral(a) && Neutral(b)
    ensures Neutral(a + b)
  {
    DepthConcat(a, b);
    forall k | 0 <= k <= |a + b|
      ensures Depth((a + b)[..k]) >= 0
    {
      if k <= |a| {
        assert (a + b)[..k] == a[..k];
      } else {
        assert (a + b)[..k] == a + b[..k - |a|];
        DepthConcat(a, b[..k - |a|]);
      }
    }
  }

  lemma {:induction false} FreeIsFlat(s: string)
    requires Free(s)
    ensures Depth(s) == 0
    decreases s
  {
    if s != "" {
      FreeIsFlat(s[..|s| - 1]);
    }
  }

  lemma FreeIsNeutral(s: string)
    requires Free(s)
    ensures Neutral(s)
  {
    FreeIsFlat(s);
    forall k | 0 <= k <= |s|
      ensures Depth(s[..k]) >= 0
    {
      FreeIsFlat(s[..k]);
    }
  }

  lemma Bracketed(s: string)
    requires Neutral(s)
    ensures Closed("[" + s + "]") && Neutral("[" + s + "]")
  {
    var p := "[" + s + "]";
    OpenDepth(s);
    DepthConcat("[" + s, "]");
    CloseDepth();
    forall k | 0 < k < |p|
      ensures Depth(p[..k]) > 0
    {
      assert p[..k] == "[" + s[..k - 1];
      OpenDepth(s[..k - 1]);
    }
    assert p[..|p|] == p && p[..0] == "";
  }

  lemma OpenDepth(s: string)
    ensures Depth("[" + s) == 1 + Depth(s)
  {
    DepthConcat("[", s);
    assert "["[..0] == "";
  }

  lemma CloseDepth()
    ensures Depth("]") == -1
  {
    assert "]"[..0] == "";
  }

  lemma Neutral3(a: string, b: string, c: string)
    requires Neutral(a) && Neutral(b) && Neutral(c)
    ensures Neutral(a + b + c)
  {
    NeutralConcat(a, b);
    NeutralConcat(a + b, c);
  }

  lemma {:induction false} PrintIsNeutral(j: Json)
    requires BracketFree(j)
    ensures Neutral(Print(j))
    decreases j, 1
  {
    match j
    case Scalar(text) => FreeIsNeutral(text);
    case Str(body) => FreeIsNeutral("\"" + body + "\"");
    case Arr(gap, items) => Bracketed(Contents(j));
    case Obj(gap, members) =>
      if members == [] {
        FreeIsNeutral("{" + gap + "}");
      } else {
        MembersAreNeutral(members);
        FreeIsNeutral("{");
        FreeIsNeutral("}");
        Neutral3("{", PrintMembers(members), "}");
      }
  }

  /** What stands between the outer brackets. */
  ghost function Contents(j: Json): (s: string)
    requires j.Arr? && BracketFree(j)
    ensures Neutral(s) && Print(j) == "[" + s + "]"
    decreases j, 0
  {
    if j.items == [] then
      FreeIsNeutral(j.gap);
      j.gap
    else
      ItemsAreNeutral(j.items);
      PrintItems(j.items)
  }

  lemma {:induction false} ItemIsNeutral(i: Item)
    requires FreeItem(i)
    ensures Neutral(PrintItem(i))
    decreases i, 0
  {
    PrintIsNeutral(i.value);
    FreeIsNeutral(i.before);
    FreeIsNeutral(i.after);
    Neutral3(i.before, Print(i.value), i.after);
  }

  lemma {:induction false} ItemsAreNeutral(items: seq<Item>)
    requires items != [] && forall i :: 0 <= i < |items| ==> FreeItem(items[i])
    ensures Neutral(PrintItems(items))
    decreases items, 1
  {
    var last := items[|items| - 1];
    ItemIsNeutral(last);
    if |items| > 1 {
      var front := items[..|items| - 1];
      ItemsAreNeutral(front);
      FreeIsNeutral(",");
      Neutral3(PrintItems(front), ",", PrintItem(last));
    }
  }

  lemma {:induction false} MembersAreNeutral(members: seq<Member>)
    requires members != [] && forall i :: 0 <= i < |members| ==> FreeMember(members[i])
    ensures Neutral(PrintMembers(members))
    decreases members, 1
  {
    var last := members[|members| - 1];
    MemberIsNeutral(last);
    if |members| > 1 {
      var front := members[..|members| - 1];
      MembersAreNeutral(front);
      FreeIsNeutral(",");
      Neutral3(PrintMembers(front), ",", PrintMember(last));
    }
  }

  lemma {:induction false} MemberIsNeutral(m: Member)
    requires FreeMember(m)
    ensures Neutral(PrintMember(m))
    decreases m, 1
  {
    var head := m.before + "\"" + m.key + "\"" + m.between + ":";
    FreeIsNeutral(head);
    ItemIsNeutral(m.item);
    NeutralConcat(head, PrintItem(m.item));
  }

  /**
   Any printed array whose strings hold no square brackets is recovered from any preamble without
   '[' and any suffix.
   */
  lemma PrintedArrayIsExtracted(j: Json, pre: string, suf: string)
    requires j.Arr? && BracketFree(j) && '[' !in pre
    ensures TrimToFirstArray(pre + Print(j) + suf) == Print(j)
  {
    Bracketed(Contents(j));
    ClosedIsReturned(pre, Print(j), suf);
  }

  /** Without that condition it need not be: a closing bracket inside a string ends the scan early. */
  lemma BracketInStringEndsScan()
    ensures var j := Arr("", [Item("", Str("]"), "")]);
            Print(j) == "[\"]\"]" && TrimToFirstArray(Print(j)) == "[\"]"
  {
    var j := Arr("", [Item("", Str("]"), "")]);
    assert PrintItems(j.items) == PrintItem(j.items[0]) == "" + "\"]\"" + "";
    var s, p := Print(j), "[\"]";
    assert s == "" + p + "\"]";
    DepthSnoc(p, 0, 0);
    DepthSnoc(p, 0, 1);
    DepthSnoc(p, 0, 2);
    assert p[0..0] == "" && p[0..3] == p && p[0..1] == p[..1] && p[0..2] == p[..2];
    ClosedIsReturned("", p, "\"]");
  }

  // ---------- code fences ----------

  const FENCE := "```"

  /** Position of the last fence at or before `j`, or -1. */
  function LastFence(s: string, j: int): int
    requires j + 3 <= |s|
    decreases j + 1
  {
    if j < 0 then -1 else if s[j..j + 3] == FENCE then j else LastFence(s, j - 1)
  }

  lemma LastFenceInRange(s: string, j: int)
    requires j + 3 <= |s|
    ensures -1 <= LastFence(s, j) <= if j < 0 then -1 else j
    decreases j + 1
  {}

  function StripCodeFences(s: string): string {
    if !(FENCE <= s) then s else
    IndexOfFinds(s, '\n');
    var i := IndexOf(s, '\n');
    var body := if i < |s| then s[i + 1..] else s;
    LastFenceInRange(body, |body| - 3);
    var j := LastFence(body, |body| - 3);
    TrimSpace(if j >= 0 then body[..j] else body)
  }

  /** The text handed to the JSON decoder. */
  function Cleaned(reply: string): string { TrimToFirstArray(StripCodeFences(TrimSpace(reply))) }

  /** Trimming eats into what surrounds a text that begins and ends with something visible, never into it. */
  lemma TrimSpaceAround(pre: string, p: string, suf: string) returns (a: nat, b: nat)
    requires p != "" && !IsSpace(p[0]) && !IsSpace(p[|p| - 1])
    ensures a <= |pre| && b <= |suf| && TrimSpace(pre + p + suf) == pre[a..] + p + suf[..b]
    ensures AllSpace(pre) ==> a == |pre|
    ensures AllSpace(suf) ==> b == 0
  {
    var s := pre + p + suf;
    a := TrimLeftCuts(s, IsSpace);
    assert s[|pre|] == p[0];
    TrimLeftStops(s, IsSpace, |pre|);
    var t := s[a..];
    assert t == pre[a..] + p + suf;
    assert a < |pre| ==> s[a] == pre[a];
    var last := |pre| - a + |p| - 1;
    assert t[last] == p[|p| - 1];
    TrimRightStops(t, IsSpace, last);
    var n := TrimRightCuts(t, IsSpace);
    b := n - (last + 1);
    assert t[..n] == pre[a..] + p + suf[..b];
    assert b > 0 ==> t[n - 1] == suf[b - 1];
  }

  lemma BracketsAreVisible()
    ensures !IsSpace('[') && !IsSpace(']') && !IsSpace('`')
  {}

  lemma ClosedEnds(p: string)
    requires Closed(p)
    ensures p[|p| - 1] == ']'
  {
    var k := |p| - 1;
    if k > 0 {
      ClosedPositive(p, k);
    }
  }

  lemma {:induction false} ClosedPositive(p: string, k: nat)
    requires Closed(p) && 0 < k < |p|
    ensures Depth(p[..k]) > 0
    decreases k
  {
    assert p[..k][..k - 1] == p[..k - 1];
    if k == 1 {
      assert p[..0] == "";
    } else {
      ClosedPositive(p, k - 1);
      assert Depth(p[..k]) != 0;
    }
  }

  /** The same array comes out of a bare reply, whatever text and white space surround it. */
  lemma BareReply(pre: string, p: string, suf: string)
    requires '[' !in pre && Closed(p) && !(FENCE <= TrimSpace(pre + p + suf))
    ensures Cleaned(pre + p + suf) == p
  {
    FoundInTrimmed(pre, p, suf);
  }

  lemma FenceRemoved(tag: string, body: string)
    requires '\n' !in tag
    ensures StripCodeFences(FENCE + tag + "\n" + body + FENCE) == TrimSpace(body)
  {
    var s := FENCE + tag + "\n" + body + FENCE;
    assert s[..3] == FENCE;
    assert s[3 + |tag|] == '\n';
    forall i | 0 <= i < 3 + |tag|
      ensures s[i] != '\n'
    {
      assert i >= 3 ==> s[i] == tag[i - 3];
    }
    FirstIndex(s, '\n', 3 + |tag|);
    var rest := s[4 + |tag|..];
    assert rest == body + FENCE;
    assert rest[|body|..|body| + 3] == FENCE;
    assert rest[..|body|] == body;
  }

  /** … and out of a fenced one, with or without a language tag. */
  lemma FencedReply(lead: string, tag: string, pre: string, p: string, suf: string, trail: string)
    requires AllSpace(lead) && AllSpace(trail) && '\n' !in tag && '[' !in pre && Closed(p)
    ensures Cleaned(lead + (FENCE + tag + "\n" + (pre + p + suf) + FENCE) + trail) == p
  {
    BracketsAreVisible();
    var body := pre + p + suf;
    var core := FENCE + tag + "\n" + body + FENCE;
    var a, b := TrimSpaceAround(lead, core, trail);
    assert lead[|lead|..] + core + trail[..0] == core;
    FenceRemoved(tag, body);
    FoundInTrimmed(pre, p, suf);
  }

  // ---------- fences that are not closed, and fences on one line ----------

  predicate FenceAt(s: string, j: int) { 0 <= j && j + 3 <= |s| && s[j..j + 3] == FENCE }

  /** The last fence is where none comes after it. */
  lemma {:induction false} LastFenceIs(s: string, j: int, from: int)
    requires j <= from && from + 3 <= |s| && (j == -1 || FenceAt(s, j)) && -1 <= j
    requires forall i :: j < i <= from ==> !FenceAt(s, i)
    ensures LastFence(s, from) == j
    decreases from - j
  {
    if j < from {
      assert !FenceAt(s, from);
      LastFenceIs(s, j, from - 1);
    }
  }

  /** White space before a fenced reply goes, and what follows the fence only loses white space at its end. */
  lemma TrimmedFence(lead: string, rest: string) returns (n: nat)
    requires AllSpace(lead)
    ensures n <= |rest| && TrimSpace(lead + FENCE + rest) == FENCE + rest[..n]
  {
    BracketsAreVisible();
    var a, b := TrimSpaceAround(lead, FENCE, rest);
    n := b;
    assert lead[|lead|..] + FENCE + rest[..n] == FENCE + rest[..n];
  }

  /** Trimming what surrounds an array does not change what the scanner finds. */
  lemma FoundInTrimmed(pre: string, p: string, suf: string)
    requires '[' !in pre && Closed(p)
    ensures TrimToFirstArray(TrimSpace(pre + p + suf)) == p
  {
    BracketsAreVisible();
    ClosedEnds(p);
    var a, b := TrimSpaceAround(pre, p, suf);
    assert '[' !in pre[a..];
    ClosedIsReturned(pre[a..], p, suf[..b]);
  }

  lemma NothingToTrim(s: string)
    requires s != "" && !IsSpace(s[0]) && !IsSpace(s[|s| - 1])
    ensures TrimSpace(s) == s
  {
    var a, b := TrimSpaceAround("", s, "");
    assert "" + s + "" == s && ""[a..] + s + ""[..b] == s;
  }

  lemma OpenFenceRemoved(tag: string, body: string)
    requires '\n' !in tag && forall j :: !FenceAt(body, j)
    ensures StripCodeFences(FENCE + tag + "\n" + body) == TrimSpace(body)
  {
    var s := FENCE + tag + "\n" + body;
    assert s[..3] == FENCE && s[3 + |tag|] == '\n';
    forall i | 0 <= i < 3 + |tag|
      ensures s[i] != '\n'
    {
      assert i >= 3 ==> s[i] == tag[i - 3];
    }
    FirstIndex(s, '\n', 3 + |tag|);
    assert s[4 + |tag|..] == body;
    if |body| >= 3 {
      LastFenceIs(body, -1, |body| - 3);
    }
  }

  /** A fence that is opened on a line of its own and never closed does no harm: the array comes out all the same. */
  lemma UnclosedFence(tag: string, pre: string, p: string, suf: string)
    requires '\n' !in tag && '[' !in pre && Closed(p) && forall j :: !FenceAt(pre + p + suf, j)
    ensures Cleaned(FENCE + tag + "\n" + pre + p + suf) == p
  {
    BracketsAreVisible();
    ClosedEnds(p);
    var head := FENCE + tag + "\n" + pre + p;
    var a, b := TrimSpaceAround("", head, suf);
    assert "" + head + suf == FENCE + tag + "\n" + pre + p + suf;
    var body := pre + p + suf[..b];
    assert ""[a..] + head + suf[..b] == FENCE + tag + "\n" + body;
    forall j
      ensures !FenceAt(body, j)
    {
      assert body == (pre + p + suf)[..|body|];
      if FenceAt(body, j) {
        FenceInLonger(body, pre + p + suf, j);
      }
    }
    OpenFenceRemoved(tag, body);
    FoundInTrimmed(pre, p, suf[..b]);
  }

  lemma LineFenceRemoved(text: string)
    requires '\n' !in text
    ensures StripCodeFences(FENCE + text + FENCE) == TrimSpace(FENCE + text)
  {
    var inner := FENCE + text;
    var s := inner + FENCE;
    assert s[..3] == FENCE && s[|inner|..|inner| + 3] == FENCE && s[..|inner|] == inner;
    forall i | 0 <= i < |s|
      ensures s[i] != '\n'
    {
      assert 3 <= i < |inner| ==> s[i] == text[i - 3];
    }
    FirstIndex(s, '\n', |s|);
  }

  /** On a single line the opening fence stays but is skipped with the preamble: a closed one gives the array … */
  lemma OneLineFence(pre: string, p: string, suf: string)
    requires '\n' !in pre + p + suf && '[' !in pre && Closed(p)
    ensures Cleaned(FENCE + (pre + p + suf) + FENCE) == p
  {
    BracketsAreVisible();
    NothingToTrim(FENCE + (pre + p + suf) + FENCE);
    LineFenceRemoved(pre + p + suf);
    FoundInTrimmed(FENCE + pre, p, suf);
    assert FENCE + pre + p + suf == FENCE + (pre + p + suf);
  }

  /** … but an unclosed one loses everything: its own opening is taken for the closing fence. */
  lemma OneLineUnclosedFence(lead: string, rest: string)
    requires AllSpace(lead) && '\n' !in rest && forall j :: 3 <= j ==> !FenceAt(FENCE + rest, j)
    ensures Cleaned(lead + FENCE + rest) == ""
  {
    var n := TrimmedFence(lead, rest);
    var s := FENCE + rest[..n];
    assert s[..3] == FENCE;
    forall i | 0 <= i < |s|
      ensures s[i] != '\n'
    {
      assert i >= 3 ==> s[i] == rest[i - 3];
    }
    FirstIndex(s, '\n', |s|);
    LastFenceInRange(s, |s| - 3);
    var j := LastFence(s, |s| - 3);
    LastFenceFound(s, |s| - 3, 0);
    assert s == (FENCE + rest)[..|s|];
    FenceInLonger(s, FENCE + rest, j);
    assert j < 3;
    assert s[..j] == FENCE[..j];
    assert '[' !in TrimSpace(FENCE[..j]) by { NoBracketInFence(j); }
    NoBracketNothing(TrimSpace(FENCE[..j]));
  }

  lemma {:induction false} LastFenceFound(s: string, from: int, j: int)
    requires 0 <= j <= from && from + 3 <= |s| && FenceAt(s, j)
    ensures j <= LastFence(s, from) && FenceAt(s, LastFence(s, from))
    decreases from
  {
    if s[from..from + 3] != FENCE {
      LastFenceFound(s, from - 1, j);
    }
  }

  lemma FenceInLonger(s: string, longer: string, j: int)
    requires s <= longer && FenceAt(s, j)
    ensures FenceAt(longer, j)
  {
    assert longer[j..j + 3] == s[j..j + 3];
  }

  lemma NoBracketInFence(j: nat)
    requires j <= 3
    ensures '[' !in TrimSpace(FENCE[..j])
  {
    var a := TrimLeftCuts(FENCE[..j], IsSpace);
    var b := TrimRightCuts(FENCE[..j][a..], IsSpace);
  }

  lemma NoBracketNothing(s: string)
    requires '[' !in s
    ensures TrimToFirstArray(s) == ""
  {
    FirstIndex(s, '[', |s|);
  }
}
