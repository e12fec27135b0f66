/** `cleanJsonResponse`: strips Markdown code fences from a model reply before
    it is parsed. Every card kind and the planner carry an inline copy of the
    same three steps; the model defines them once, here. */
module Fences {
  import opened Wrappers
  import opened Strings
  import opened Js

  const JsonFence := "```json"
  const Fence := "```"

  /** `s.replace(/<fence>\n?/g, "")`: every occurrence of `fence`, scanning left
      to right without overlap, is removed together with one newline directly
      after it. */
  function StripFence(s: string, fence: string): string
    requires |fence| > 0
    decreases |s|
  {
    if |s| == 0 then ""
    else if StartsWith(s, fence) then
      var rest := s[|fence|..];
      if |rest| > 0 && rest[0] == '\n' then StripFence(rest[1..], fence) else StripFence(rest, fence)
    else [s[0]] + StripFence(s[1..], fence)
  }

  /** `cleanJsonResponse(text)`: `json` fences go first, then bare fences, then
      surrounding whitespace. The result is trimmed and holds no fence. */
  function CleanJsonResponse(text: string): (r: string)
    ensures IsTrimmed(r)
    ensures !Contains(r, Fence)
  {
    var s := StripFence(StripFence(text, JsonFence), Fence);
    StripBareFenceLeavesNone(StripFence(text, JsonFence));
    TrimKeepsAbsence(s);
    Trim(s)
  }

  /** `JSON.parse(cleanJsonResponse(text || empty))`: the parse step every
      card kind, the planner and the document steps share. An empty reply
      (undefined or "") stands for the literal `empty`. */
  function ParseReply(text: string, empty: string, host: Host): Option<Value> {
    host.parse(CleanJsonResponse(if text == "" then empty else text))
  }

  predicate HasBacktick(s: string) {
    exists i :: 0 <= i < |s| && s[i] == '`'
  }

  /** Number of backticks `s` starts with. */
  function LeadingTicks(s: string): nat {
    if |s| > 0 && s[0] == '`' then 1 + LeadingTicks(s[1..]) else 0
  }

  // ---- The cleaned text is trimmed and holds no fence -------------------

  /** Putting one character in front of a fence-free string creates a fence
      only when the string already starts with two backticks. */
  lemma ConsNoFence(c: char, r: string)
    requires !Contains(r, Fence)
    requires c != '`' || LeadingTicks(r) <= 1
    ensures !Contains([c] + r, Fence)
  {
    var s := [c] + r;
    forall i | 0 <= i <= |s| - |Fence|
      ensures !OccursAt(s, Fence, i)
    {
      if i == 0 {
        assert s[0..3] == [c, r[0], r[1]];
        if c == '`' && r[0] == '`' {
          assert LeadingTicks(r) == 1 + LeadingTicks(r[1..]);
          assert r[1..][0] == r[1];
        }
      } else {
        assert !OccursAt(r, Fence, i - 1);
        assert s[i..i + |Fence|] == r[i - 1..i - 1 + |Fence|];
      }
    }
  }

  /** Removing bare fences leaves no fence behind, and when `t` does not start
      with a fence the result starts with no more backticks than `t` does. */
  lemma {:induction false} StripBareFenceLeavesNone(t: string)
    ensures !Contains(StripFence(t, Fence), Fence)
    ensures !StartsWith(t, Fence) ==> LeadingTicks(StripFence(t, Fence)) <= LeadingTicks(t)
  {
    if |t| == 0 {
    } else if StartsWith(t, Fence) {
      var rest := t[|Fence|..];
      if |rest| > 0 && rest[0] == '\n' {
        StripBareFenceLeavesNone(rest[1..]);
      } else {
        StripBareFenceLeavesNone(rest);
      }
    } else {
      var tail := t[1..];
      StripBareFenceLeavesNone(tail);
      if t[0] == '`' {
        assert LeadingTicks(t) == 1 + LeadingTicks(tail);
        if |tail| >= 2 && tail[0] == '`' {
          assert tail[1] != '`' by {
            assert t[..3] == [t[0], tail[0], tail[1]];
          }
          assert LeadingTicks(tail[1..]) == 0;
        }
      }
      ConsNoFence(t[0], StripFence(tail, Fence));
    }
  }

  /** Trimming cannot create a fence. */
  lemma TrimKeepsAbsence(s: string)
    requires !Contains(s, Fence)
    ensures !Contains(Trim(s), Fence)
  {
    var a: nat, b: nat :| a <= b <= |s| && Trim(s) == s[a..b];
    NotContainsInInfix(s, a, b, Fence);
  }

  // ---- Strings that need no stripping -----------------------------------

  lemma {:induction false} StripAbsentFence(s: string, fence: string)
    requires |fence| > 0
    requires !Contains(s, fence)
    ensures StripFence(s, fence) == s
  {
    if |s| > 0 {
      assert !OccursAt(s, fence, 0);
      assert !StartsWith(s, fence);
      NotContainsInInfix(s, 1, |s|, fence);
      assert s[1..|s|] == s[1..];
      StripAbsentFence(s[1..], fence);
    }
  }

  lemma NoFenceNoJsonFence(s: string)
    requires !Contains(s, Fence)
    ensures !Contains(s, JsonFence)
  {
    forall i | 0 <= i <= |s| - |JsonFence|
      ensures !OccursAt(s, JsonFence, i)
    {
      assert !OccursAt(s, Fence, i);
      assert s[i..i + |JsonFence|][..3] == s[i..i + 3];
      assert JsonFence[..3] == Fence;
    }
  }

  /** Cleaning is idempotent. */
  lemma CleanIdempotent(text: string)
    ensures CleanJsonResponse(CleanJsonResponse(text)) == CleanJsonResponse(text)
  {
    var t := CleanJsonResponse(text);
    NoFenceNoJsonFence(t);
    StripAbsentFence(t, JsonFence);
    StripAbsentFence(t, Fence);
    TrimOfTrimmed(t);
  }

  lemma BacktickFreeHasNoFence(s: string, fence: string)
    requires |fence| > 0 && fence[0] == '`'
    requires !HasBacktick(s)
    ensures !Contains(s, fence)
  {
    forall i | 0 <= i <= |s| - |fence|
      ensures !OccursAt(s, fence, i)
    {
      assert s[i..i + |fence|][0] == s[i];
    }
  }

  /** A reply without backticks is only trimmed. */
  lemma CleanWithoutBackticks(text: string)
    requires !HasBacktick(text)
    ensures CleanJsonResponse(text) == Trim(text)
  {
    BacktickFreeHasNoFence(text, JsonFence);
    StripAbsentFence(text, JsonFence);
    BacktickFreeHasNoFence(text, Fence);
    StripAbsentFence(text, Fence);
  }

  /** A backtick-free prefix passes through fence stripping unchanged. */
  lemma {:induction false} StripAfterPlainPrefix(a: string, b: string, fence: string)
    requires |fence| > 0 && fence[0] == '`'
    requires !HasBacktick(a)
    ensures StripFence(a + b, fence) == a + StripFence(b, fence)
  {
    if |a| > 0 {
      assert (a + b)[0] == a[0] && a[0] != '`';
      assert !StartsWith(a + b, fence);
      assert (a + b)[1..] == a[1..] + b;
      assert !HasBacktick(a[1..]) by {
        forall j | 0 <= j < |a[1..]| ensures a[1..][j] != '`' {
          assert a[1..][j] == a[j + 1];
        }
      }
      StripAfterPlainPrefix(a[1..], b, fence);
      assert StripFence(a + b, fence) == [a[0]] + StripFence(a[1..] + b, fence);
      assert a == [a[0]] + a[1..];
    } else {
      assert a + b == b;
    }
  }

  /** The opening `json` fence and its newline are removed, and nothing
      else is touched by the first pass. */
  lemma OpeningFenceRemoved(x: string)
    requires !HasBacktick(x)
    ensures StripFence("```json\n" + x + "\n```", JsonFence) == x + "\n```"
  {
    var s := "```json\n" + x + "\n```";
    var afterOpen := x + "\n```";
    assert s[..|JsonFence|] == JsonFence;
    assert s[|JsonFence|..] == "\n" + afterOpen;
    forall i | 0 <= i <= |afterOpen| - |JsonFence|
      ensures !OccursAt(afterOpen, JsonFence, i)
    {
      assert afterOpen[i] == x[i];
      assert afterOpen[i..i + |JsonFence|][0] == afterOpen[i];
    }
    StripAbsentFence(afterOpen, JsonFence);
  }

  /** The closing bare fence is removed. */
  lemma ClosingFenceRemoved(x: string)
    requires !HasBacktick(x)
    ensures StripFence(x + "\n```", Fence) == x + "\n"
  {
    assert !HasBacktick(x + "\n") by {
      forall j | 0 <= j < |x + "\n"| ensures (x + "\n")[j] != '`' {
        if j < |x| { assert (x + "\n")[j] == x[j]; }
      }
    }
    assert x + "\n```" == (x + "\n") + Fence;
    StripAfterPlainPrefix(x + "\n", Fence, Fence);
    assert StartsWith(Fence, Fence);
    assert StripFence(Fence, Fence) == "";
  }

  /** A reply wrapped as a `json` code block yields its trimmed body: the
      `json` fence goes first, then the closing bare fence. */
  lemma CleanJsonCodeBlock(x: string)
    requires !HasBacktick(x)
    ensures CleanJsonResponse("```json\n" + x + "\n```") == Trim(x)
  {
    OpeningFenceRemoved(x);
    ClosingFenceRemoved(x);
    assert (x + "\n")[..|x + "\n"| - 1] == x;
    assert TrimEnd(x + "\n") == TrimEnd(x);
  }

  /** An empty reply parses as the substituted literal, provided that literal
      needs no cleaning (true of `{}`, `[]` and `{"cards":[]}`). */
  lemma EmptyReplyParsesDefault(empty: string, host: Host)
    requires !HasBacktick(empty) && IsTrimmed(empty)
    ensures ParseReply("", empty, host) == host.parse(empty)
  {
    CleanWithoutBackticks(empty);
    TrimOfTrimmed(empty);
  }
}
