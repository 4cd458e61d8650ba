/** What redaction does to a text: it cuts it at the occurrences of the literal, first to last, and joins the
pieces with the replacement; no literal is left. */
module Redactors {
  import opened Text
  import opened Guardrail

  function Join(parts: seq<string>, sep: string): string
    requires parts != []
  {
    if |parts| == 1 then parts[0] else parts[0] + sep + Join(parts[1..], sep)
  }

  /** The first occurrence of p in the text is at k. */
  ghost predicate FirstAt(text: string, p: string, k: nat) {
    OccursAt(text, p, k) && forall j :: 0 <= j < k ==> !OccursAt(text, p, j)
  }

  /** The text cut at the occurrences of p, found one after the other. */
  ghost predicate IsCut(parts: seq<string>, text: string, p: string) {
    && parts != [] && text == Join(parts, p)
    && (forall i :: 0 <= i < |parts| ==> !Contains(parts[i], p))
    && (forall i :: 0 <= i < |parts| - 1 ==> FirstAt(Join(parts[i..], p), p, |parts[i]|))
  }

  lemma SuffixOccurs(text: string, n: nat, p: string, k: int)
    requires n <= |text| && k >= 0
    ensures OccursAt(text[n..], p, k) <==> OccursAt(text, p, n + k)
  {
    if OccursAt(text, p, n + k) {
      forall j | 0 <= j < |p| ensures text[n..][k + j] == p[j] {
        assert text[n + k + j] == p[j];
      }
    }
    if OccursAt(text[n..], p, k) {
      forall j | 0 <= j < |p| ensures text[n + k + j] == p[j] {
        assert text[n..][k + j] == p[j];
      }
    }
  }

  lemma AtStart(text: string, p: string)
    ensures p <= text <==> OccursAt(text, p, 0)
  {
  }

  lemma {:induction false} ReplaceNothing(text: string, p: string, other: string)
    requires p != "" && !Contains(text, p)
    ensures ReplaceAll(text, p, other) == text
  {
    AtStart(text, p);
    if text != "" {
      forall k ensures !OccursAt(text[1..], p, k) {
        if k >= 0 {
          SuffixOccurs(text, 1, p, k);
        }
      }
      ReplaceNothing(text[1..], p, other);
    }
  }

  function Replaced(text: string, p: string, other: string): string
    requires p != ""
  {
    ReplaceAll(text, p, other)
  }

  lemma ReplaceStep(text: string, p: string, other: string)
    requires p != "" && text != ""
    ensures p <= text ==> Replaced(text, p, other) == other + Replaced(text[|p|..], p, other)
    ensures !(p <= text) ==> Replaced(text, p, other) == [text[0]] + Replaced(text[1..], p, other)
  {
  }

  lemma FirstInTail(text: string, p: string, k: nat)
    requires p != "" && FirstAt(text, p, k) && k > 0
    ensures !(p <= text) && FirstAt(text[1..], p, k - 1)
  {
    AtStart(text, p);
    SuffixOccurs(text, 1, p, k - 1);
    forall j | 0 <= j < k - 1 ensures !OccursAt(text[1..], p, j) {
      SuffixOccurs(text, 1, p, j);
    }
  }

  lemma {:induction false} ReplaceFirst(text: string, p: string, other: string, k: nat)
    requires p != "" && FirstAt(text, p, k)
    ensures Replaced(text, p, other) == text[..k] + other + Replaced(text[k + |p|..], p, other)
  {
    ReplaceStep(text, p, other);
    hide Replaced;
    if k == 0 {
      AtStart(text, p);
      assert text[..0] + other == other;
    } else {
      FirstInTail(text, p, k);
      hide FirstAt;
      ReplaceFirst(text[1..], p, other, k - 1);
      assert text[1..][k - 1 + |p|..] == text[k + |p|..];
      assert [text[0]] + text[1..][..k - 1] == text[..k];
    }
  }

  /** Replacing joins the same pieces with the replacement. */
  lemma {:induction false} ReplaceJoins(parts: seq<string>, text: string, p: string, other: string)
    requires p != "" && IsCut(parts, text, p)
    ensures ReplaceAll(text, p, other) == Join(parts, other)
  {
    if |parts| == 1 {
      ReplaceNothing(text, p, other);
    } else {
      assert parts[0..] == parts;
      ReplaceFirst(text, p, other, |parts[0]|);
      var rest := Join(parts[1..], p);
      assert text == parts[0] + p + rest && text[..|parts[0]|] == parts[0];
      assert text[|parts[0]| + |p|..] == rest;
      CutTail(parts, p);
      ReplaceJoins(parts[1..], rest, p, other);
    }
  }

  lemma CutTail(parts: seq<string>, p: string)
    requires |parts| > 1 && IsCut(parts, Join(parts, p), p)
    ensures IsCut(parts[1..], Join(parts[1..], p), p)
  {
    var tail := parts[1..];
    forall i | 0 <= i < |tail| - 1 ensures FirstAt(Join(tail[i..], p), p, |tail[i]|) {
      assert tail[i..] == parts[i + 1..];
    }
  }

  lemma {:induction false} FindFirst(text: string, p: string, k: nat) returns (first: nat)
    requires OccursAt(text, p, k)
    ensures first <= k && FirstAt(text, p, first)
  {
    if j :| 0 <= j < k && OccursAt(text, p, j) {
      first := FindFirst(text, p, j);
    } else {
      first := k;
    }
  }

  /** There always is such a cut. */
  lemma {:induction false} CutExists(text: string, p: string) returns (parts: seq<string>)
    requires p != ""
    ensures IsCut(parts, text, p)
    decreases |text|
  {
    if Contains(text, p) {
      var k :| OccursAt(text, p, k);
      var first := FindFirst(text, p, k);
      var rest := text[first + |p|..];
      var tail := CutExists(rest, p);
      parts := CutAhead(text, p, first, rest, tail);
    } else {
      parts := [text];
    }
  }

  lemma CutAhead(text: string, p: string, first: nat, rest: string, tail: seq<string>) returns (parts: seq<string>)
    requires p != "" && FirstAt(text, p, first) && rest == text[first + |p|..] && IsCut(tail, rest, p)
    ensures IsCut(parts, text, p)
  {
    parts := [text[..first]] + tail;
    assert parts[1..] == tail;
    assert text == text[..first] + p + rest;
    forall k ensures !OccursAt(text[..first], p, k) {
      if OccursAt(text[..first], p, k) {
        assert OccursAt(text, p, k);
      }
    }
    forall i | 0 <= i < |parts| - 1 ensures FirstAt(Join(parts[i..], p), p, |parts[i]|) {
      if i == 0 {
        assert parts[0..] == parts;
      } else {
        assert parts[i..] == tail[i - 1..];
      }
    }
  }

  // ----- no literal is left

  /** Wherever p is laid over the replacement so that they touch, they differ in some place. */
  ghost predicate Apart(p: string, other: string) {
    forall d :: -|p| < d < |other| ==> Differs(p, other, d)
  }

  ghost predicate Differs(p: string, other: string, d: int) {
    exists j :: 0 <= j < |p| && 0 <= d + j < |other| && p[j] != other[d + j]
  }

  /** Without a common character they are apart. */
  lemma NothingInCommon(p: string, other: string)
    requires p != "" && other != "" && forall j :: 0 <= j < |p| ==> p[j] !in other
    ensures Apart(p, other)
  {
    forall d | -|p| < d < |other| ensures Differs(p, other, d) {
      var j := if d < 0 then -d else 0;
      var c := other[d + j];
      assert c in other && p[j] != c;
    }
  }

  const REDACTED := "[redacted]"

  /** The default replacement is apart from any literal that has no square bracket and is not a part of it. */
  lemma DefaultIsApart(p: string)
    requires p != "" && '[' !in p && ']' !in p && !Contains(REDACTED, p)
    ensures Apart(p, REDACTED)
  {
    forall d | -|p| < d < |REDACTED| ensures Differs(p, REDACTED, d) {
      if d <= 0 {
        assert p[-d] in p && REDACTED[0] == '[';
      } else if d + |p| >= |REDACTED| {
        assert p[9 - d] in p && REDACTED[9] == ']';
      } else {
        assert !OccursAt(REDACTED, p, d);
      }
    }
  }

  /** Joining pieces without q by something apart from q gives no q. */
  lemma {:induction false} JoinIsFree(parts: seq<string>, other: string, q: string)
    requires parts != [] && q != "" && Apart(q, other) && forall i :: 0 <= i < |parts| ==> !Contains(parts[i], q)
    ensures !Contains(Join(parts, other), q)
  {
    if |parts| > 1 {
      JoinIsFree(parts[1..], other, q);
      FreeAround(parts[0], other, Join(parts[1..], other), q);
    }
  }

  /** An occurrence is in the one, in the other, or over what is between. */
  lemma OccursSomewhere(a: string, other: string, b: string, q: string, k: nat)
    requires OccursAt(a + other + b, q, k)
    ensures || OccursAt(a, q, k) || OccursAt(b, q, k - |a| - |other|)
            || (-|q| < k - |a| < |other| && !Differs(q, other, k - |a|))
  {
    var text := a + other + b;
    if k + |q| <= |a| {
      assert text[..|a|] == a;
    } else if k >= |a| + |other| {
      assert text[|a + other|..] == b;
      SuffixOccurs(text, |a + other|, q, k - |a + other|);
    } else {
      assert text[|a|..|a| + |other|] == other;
    }
  }

  lemma FreeAround(a: string, other: string, b: string, q: string)
    requires q != "" && Apart(q, other) && !Contains(a, q) && !Contains(b, q)
    ensures !Contains(a + other + b, q)
  {
    hide Differs;
    if k: int :| OccursAt(a + other + b, q, k) {
      OccursSomewhere(a, other, b, q, k);
    }
  }

  /** A piece of a text has what the text has. */
  lemma {:induction false} PartIsWithin(parts: seq<string>, sep: string, i: nat, q: string)
    requires i < |parts| && Contains(parts[i], q)
    ensures Contains(Join(parts, sep), q)
  {
    if |parts| > 1 {
      var rest := Join(parts[1..], sep);
      if i == 0 {
        var k :| OccursAt(parts[0], q, k);
        assert OccursAt(parts[0] + sep + rest, q, k);
      } else {
        PartIsWithin(parts[1..], sep, i - 1, q);
        var k :| OccursAt(rest, q, k);
        var text := parts[0] + sep + rest;
        assert text[|parts[0] + sep|..] == rest;
        SuffixOccurs(text, |parts[0] + sep|, q, k);
      }
    }
  }

  /** The literal is gone. */
  lemma ReplacedIsGone(text: string, p: string, other: string)
    requires p != "" && Apart(p, other)
    ensures !Contains(ReplaceAll(text, p, other), p)
  {
    var parts := CutExists(text, p);
    ReplaceJoins(parts, text, p, other);
    JoinIsFree(parts, other, p);
  }

  /** And no other literal comes up. */
  lemma ReplacingBringsNothing(text: string, p: string, other: string, q: string)
    requires p != "" && q != "" && Apart(q, other) && !Contains(text, q)
    ensures !Contains(ReplaceAll(text, p, other), q)
  {
    var parts := CutExists(text, p);
    ReplaceJoins(parts, text, p, other);
    forall i | 0 <= i < |parts| ensures !Contains(parts[i], q) {
      if Contains(parts[i], q) {
        PartIsWithin(parts, p, i, q);
      }
    }
    JoinIsFree(parts, other, q);
  }

  /** A replacement that is not apart can put the literal together anew. */
  lemma EmptyReplacementJoins()
    ensures ReplaceAll("aabb", "ab", "") == "ab"
  {
    var parts := ["a", "b"];
    assert parts[1..] == ["b"] && parts[0..] == parts;
    assert Join(parts, "ab") == "aabb" && Join(parts, "") == "ab";
    assert FirstAt("aabb", "ab", 1) by {
      assert "aabb"[1] == 'a' && "aabb"[2] == 'b';
    }
    ReplaceJoins(parts, "aabb", "ab", "");
  }

  // ----- engines

  /** Every rule is literal, and no redaction can write a literal. */
  ghost predicate Clears(rules: seq<Rule>) {
    && (forall i :: 0 <= i < |rules| ==> rules[i].Keyword?)
    && (forall i, j :: 0 <= i < |rules| && 0 <= j < |rules| && rules[j].action == Redact ==>
                         Apart(rules[i].pattern, rules[j].replacement))
  }

  lemma {:induction false} StaysOut(rules: seq<Rule>, done: Result, q: string)
    requires WellFormed(rules) && q != "" && !Contains(done.content, q)
    requires forall i :: 0 <= i < |rules| ==> rules[i].Keyword? && (rules[i].action == Redact ==> Apart(q, rules[i].replacement))
    ensures !Contains(Apply(rules, done).content, q)
  {
    if rules != [] {
      var rule := rules[0];
      hide Contains, Apart;
      if Accepts(rule, done.content) && rule.action == Redact {
        ReplacingBringsNothing(done.content, rule.pattern, rule.replacement, q);
        StaysOut(rules[1..], Result(Rewrite(rule, done.content), done.blocked, done.matches + [Match(rule.id, rule.action)]), q);
      } else if !Accepts(rule, done.content) {
        StaysOut(rules[1..], done, q);
      }
    }
  }

  /** The text after the first rule, if that does not block. */
  function First(rule: Rule, done: Result): Result
    requires rule.Keyword? ==> rule.pattern != ""
  {
    if !Accepts(rule, done.content) then done
    else Result(Rewrite(rule, done.content), done.blocked, done.matches + [Match(rule.id, rule.action)])
  }

  lemma FirstIsOut(rule: Rule, done: Result)
    requires rule.Keyword? && rule.pattern != ""
    requires rule.action == Redact ==> Apart(rule.pattern, rule.replacement)
    requires rule.action == Block ==> !Accepts(rule, done.content)
    ensures !Contains(First(rule, done).content, rule.pattern)
  {
    if Accepts(rule, done.content) {
      ReplacedIsGone(done.content, rule.pattern, rule.replacement);
    }
  }

  /** A text that such an engine does not block comes out without any of its literals. */
  lemma {:induction false} UnblockedIsFree(rules: seq<Rule>, done: Result, i: nat)
    requires WellFormed(rules) && Clears(rules) && i < |rules| && !Apply(rules, done).blocked
    ensures !Contains(Apply(rules, done).content, rules[i].pattern)
  {
    var rule, rest := rules[0], rules[1..];
    assert Apply(rules, done) == Apply(rest, First(rule, done));
    hide Contains, Apart, Apply;
    if i == 0 {
      FirstIsOut(rule, done);
      StaysOut(rest, First(rule, done), rule.pattern);
    } else {
      UnblockedIsFree(rest, First(rule, done), i - 1);
    }
  }

  ghost predicate Free(rules: seq<Rule>, text: string) {
    forall i :: 0 <= i < |rules| && rules[i].Keyword? ==> !Contains(text, rules[i].pattern)
  }

  lemma VerdictIsFree(rules: seq<Rule>, text: string)
    requires WellFormed(rules) && Clears(rules)
    ensures !Verdict(rules, text).blocked ==> Free(rules, Verdict(rules, text).content)
  {
    hide Apply, Contains;
    if !Verdict(rules, text).blocked {
      forall i | 0 <= i < |rules| ensures !Contains(Verdict(rules, text).content, rules[i].pattern) {
        UnblockedIsFree(rules, Result(text, false, []), i);
      }
    }
  }

  /** A text without any of its literals is left as it is. */
  lemma {:induction false} FreeIsKept(rules: seq<Rule>, done: Result)
    requires WellFormed(rules) && (forall i :: 0 <= i < |rules| ==> rules[i].Keyword?) && Free(rules, done.content)
    ensures Apply(rules, done) == done
  {
    if rules != [] {
      forall i | 0 <= i < |rules[1..]| ensures !Contains(done.content, rules[1..][i].pattern) {
        assert rules[1..][i] == rules[i + 1];
      }
      FreeIsKept(rules[1..], done);
    }
  }

  /** Evaluating twice changes nothing more. */
  lemma VerdictIsStable(rules: seq<Rule>, text: string)
    requires WellFormed(rules) && Clears(rules) && !Verdict(rules, text).blocked
    ensures var clean := Verdict(rules, text).content; Verdict(rules, clean) == Result(clean, false, [])
  {
    VerdictIsFree(rules, text);
    hide Apply, Contains;
    FreeIsKept(rules, Result(Verdict(rules, text).content, false, []));
  }

  // ----- what is reported

  /** The reports name rules in their order, each once; a rule that blocks is the last of them. */
  ghost predicate Reported(rules: seq<Rule>, result: Result, at: seq<nat>) {
    && |at| == |result.matches|
    && (forall i :: 0 <= i < |at| ==> at[i] < |rules| && result.matches[i] == Match(rules[at[i]].id, rules[at[i]].action))
    && (forall i, j :: 0 <= i < j < |at| ==> at[i] < at[j] && rules[at[i]].action == Redact)
    && (result.blocked <==> at != [] && rules[at[|at| - 1]].action == Block)
  }

  lemma {:induction false} ReportsFrom(rules: seq<Rule>, n: nat, done: Result, at: seq<nat>) returns (all: seq<nat>)
    requires WellFormed(rules) && n <= |rules| && Reported(rules, done, at) && !done.blocked
    requires forall i :: 0 <= i < |at| ==> at[i] < n && rules[at[i]].action == Redact
    ensures Reported(rules, Apply(rules[n..], done), all)
    decreases |rules| - n
  {
    all := at;
    if n < |rules| {
      var rule := rules[n];
      assert rules[n..][0] == rule && rules[n..][1..] == rules[n + 1..];
      var matches := done.matches + [Match(rule.id, rule.action)];
      if !Accepts(rule, done.content) {
        all := ReportsFrom(rules, n + 1, done, at);
      } else if rule.action == Block {
        all := at + [n];
      } else {
        all := ReportsFrom(rules, n + 1, Result(Rewrite(rule, done.content), done.blocked, matches), at + [n]);
      }
    }
  }

  lemma ReportsAre(rules: seq<Rule>, text: string) returns (at: seq<nat>)
    requires WellFormed(rules)
    ensures Reported(rules, Verdict(rules, text), at)
  {
    assert rules[0..] == rules;
    at := ReportsFrom(rules, 0, Result(text, false, []), []);
  }
}
