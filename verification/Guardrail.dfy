/** The local rule engine of the guardrail: keyword rules are literal, every other kind is a compiled
regular expression, here two functions. Text is a sequence of bytes, one character each. */
module Guardrail {
  import opened Text

  datatype Action = Block | Redact

  datatype Rule =
    | Keyword(id: string, pattern: string, action: Action, replacement: string)
    | Regex(id: string, accepts: string -> bool, rewrite: string -> string, action: Action)

  datatype Match = Match(id: string, action: Action)

  datatype Result = Result(content: string, blocked: bool, matches: seq<Match>)

  const EMPTY := Result("", false, [])

  ghost predicate Contains(text: string, p: string) {
    exists k :: OccursAt(text, p, k)
  }

  /** Every occurrence, left to right and without overlap, replaced. */
  function ReplaceAll(text: string, p: string, other: string): string
    requires p != ""
  {
    if text == "" then ""
    else if p <= text then other + ReplaceAll(text[|p|..], p, other)
    else [text[0]] + ReplaceAll(text[1..], p, other)
  }

  predicate Accepts(rule: Rule, text: string) {
    match rule
    case Keyword(_, p, _, _) => exists k | 0 <= k <= |text| :: OccursAt(text, p, k)
    case Regex(_, accepts, _, _) => accepts(text)
  }

  /** What New admits. */
  predicate WellFormed(rules: seq<Rule>) {
    forall i | 0 <= i < |rules| :: rules[i].id != "" && (rules[i].Keyword? ==> rules[i].pattern != "")
  }

  function Rewrite(rule: Rule, text: string): string
    requires rule.Keyword? ==> rule.pattern != ""
  {
    match rule
    case Keyword(_, p, _, r) => ReplaceAll(text, p, r)
    case Regex(_, _, rewrite, _) => rewrite(text)
  }

  /** The rules from the first on, applied to `done`. */
  function Apply(rules: seq<Rule>, done: Result): Result
    requires WellFormed(rules)
  {
    if rules == [] then done
    else
      var rule := rules[0];
      if !Accepts(rule, done.content) then Apply(rules[1..], done)
      else
        var matches := done.matches + [Match(rule.id, rule.action)];
        if rule.action == Block then Result(done.content, true, matches)
        else Apply(rules[1..], Result(Rewrite(rule, done.content), done.blocked, matches))
  }

  function Verdict(rules: seq<Rule>, text: string): Result
    requires WellFormed(rules)
  {
    Apply(rules, Result(text, false, []))
  }

  method Evaluate(rules: seq<Rule>, content: string) returns (result: Result)
    requires WellFormed(rules)
    ensures result == Verdict(rules, content)
  {
    result := Result(content, false, []);
    var i := 0;
    while i < |rules|
      invariant 0 <= i <= |rules|
      invariant Apply(rules[i..], result) == Verdict(rules, content)
    {
      var rule := rules[i];
      assert rules[i..][1..] == rules[i + 1..];
      if Accepts(rule, result.content) {
        if rule.action == Redact {
          result := result.(content := Rewrite(rule, result.content));
        }
        result := result.(matches := result.matches + [Match(rule.id, rule.action)]);
        if rule.action == Block {
          result := result.(blocked := true);
          return;
        }
      }
      i := i + 1;
    }
  }

  /** Only literal rules block, and nothing before them rewrites the text. */
  predicate LiteralBlocks(rules: seq<Rule>) {
    && (forall i | 0 <= i < |rules| :: rules[i].action == Block ==> rules[i].Keyword?)
    && (forall i, j | 0 <= i < j < |rules| :: rules[i].action == Redact ==> rules[j].action == Redact)
  }

  /** The literals that block. */
  function Banned(rules: seq<Rule>): set<string> {
    set i | 0 <= i < |rules| && rules[i].action == Block && rules[i].Keyword? :: rules[i].pattern
  }

  ghost predicate ContainsAny(text: string, banned: set<string>) {
    exists p :: p in banned && Contains(text, p)
  }

  lemma {:induction false} RedactorsNeverBlock(rules: seq<Rule>, done: Result)
    requires WellFormed(rules) && forall i :: 0 <= i < |rules| ==> rules[i].action == Redact
    ensures Apply(rules, done).blocked == done.blocked
  {
    if rules != [] {
      var rule := rules[0];
      var matches := done.matches + [Match(rule.id, rule.action)];
      RedactorsNeverBlock(rules[1..], done);
      RedactorsNeverBlock(rules[1..], Result(Rewrite(rule, done.content), done.blocked, matches));
    }
  }

  lemma BannedTail(rules: seq<Rule>)
    requires rules != [] && rules[0].action == Block && rules[0].Keyword?
    ensures Banned(rules) == Banned(rules[1..]) + {rules[0].pattern}
  {
    forall p | p in Banned(rules) ensures p in Banned(rules[1..]) + {rules[0].pattern} {
      var i :| 0 <= i < |rules| && rules[i].action == Block && rules[i].Keyword? && rules[i].pattern == p;
      assert i > 0 ==> rules[1..][i - 1] == rules[i];
    }
    forall p | p in Banned(rules[1..]) ensures p in Banned(rules) {
      var i :| 0 <= i < |rules| - 1 && rules[1..][i].action == Block && rules[1..][i].Keyword? && rules[1..][i].pattern == p;
      assert rules[i + 1] == rules[1..][i];
    }
  }

  /** Such an engine blocks a text exactly when the text contains one of its literals. */
  lemma {:induction false} BlocksBanned(rules: seq<Rule>, done: Result)
    requires WellFormed(rules) && LiteralBlocks(rules) && !done.blocked
    ensures Apply(rules, done).blocked <==> ContainsAny(done.content, Banned(rules))
  {
    if rules == [] {
    } else if rules[0].action == Redact {
      assert Banned(rules) == {};
      RedactorsNeverBlock(rules, done);
    } else {
      BannedTail(rules);
      BlocksBanned(rules[1..], done);
      assert Accepts(rules[0], done.content) <==> Contains(done.content, rules[0].pattern);
    }
  }

  lemma {:induction false} BlockersKeepText(rules: seq<Rule>, done: Result)
    requires WellFormed(rules) && forall i :: 0 <= i < |rules| ==> rules[i].action == Block
    ensures Apply(rules, done).content == done.content
  {
    if rules != [] {
      BlockersKeepText(rules[1..], done);
    }
  }
}
