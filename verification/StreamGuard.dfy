/** Streaming guardrails: a rolling window over the chunks of a text (layer 1), a buffer released at
sentence or word-count boundaries (layer 2), and the writer that drives both. */
module StreamGuard {
  import opened Guardrail
  import opened Redactors
  import opened Text

  function Concat(chunks: seq<string>): string {
    if chunks == [] then "" else Concat(chunks[..|chunks| - 1]) + chunks[|chunks| - 1]
  }

  function Last(n: nat, text: string): string {
    if |text| > n then text[|text| - n..] else text
  }

  // ----- layer 1

  /** The text the i-th inline evaluation looks at. */
  function View(width: nat, chunks: seq<string>, i: nat): string
    requires i < |chunks|
  {
    Last(width, Concat(chunks[..i])) + chunks[i]
  }

  lemma LastSlides(width: nat, text: string, chunk: string)
    ensures Last(width, Last(width, text) + chunk) == Last(width, text + chunk)
  {
  }

  lemma ViewOfPrefix(width: nat, chunks: seq<string>, n: nat, i: nat)
    requires i < n <= |chunks|
    ensures View(width, chunks[..n], i) == View(width, chunks, i)
  {
    assert chunks[..n][..i] == chunks[..i];
  }

  lemma ContainsPart(text: string, a: nat, b: nat, p: string)
    requires a <= b <= |text| && Contains(text[a..b], p)
    ensures Contains(text, p)
  {
    var k :| OccursAt(text[a..b], p, k);
    assert OccursAt(text, p, a + k);
  }

  lemma LastIsPart(width: nat, text: string, chunk: string, p: string)
    requires Contains(Last(width, text) + chunk, p)
    ensures Contains(text + chunk, p)
  {
    var from := if |text| > width then |text| - width else 0;
    assert (text + chunk)[from..|text + chunk|] == Last(width, text) + chunk;
    ContainsPart(text + chunk, from, |text + chunk|, p);
  }

  lemma {:induction false} ConcatPrefix(chunks: seq<string>, n: nat)
    requires n <= |chunks|
    ensures Concat(chunks[..n]) <= Concat(chunks)
  {
    if n < |chunks| {
      ConcatPrefix(chunks[..|chunks| - 1], n);
      assert chunks[..|chunks| - 1][..n] == chunks[..n];
    } else {
      assert chunks[..n] == chunks;
    }
  }

  lemma ConcatStep(chunks: seq<string>, n: nat)
    requires n < |chunks|
    ensures Concat(chunks[..n + 1]) == Concat(chunks[..n]) + chunks[n]
  {
    assert chunks[..n + 1][..n] == chunks[..n];
  }

  /** Nothing is seen that is not in the text. */
  lemma ViewIsInText(width: nat, chunks: seq<string>, i: nat, p: string)
    requires i < |chunks| && Contains(View(width, chunks, i), p)
    ensures Contains(Concat(chunks), p)
  {
    ConcatStep(chunks, i);
    ConcatPrefix(chunks, i + 1);
    hide Concat, Contains;
    LastIsPart(width, Concat(chunks[..i]), chunks[i], p);
    var n := |Concat(chunks[..i + 1])|;
    assert Concat(chunks)[0..n] == Concat(chunks[..i + 1]);
    ContainsPart(Concat(chunks), 0, n, p);
  }

  /** The chunk that completes an occurrence sees all of it. */
  lemma CompletedIsSeen(width: nat, text: string, chunk: string, p: string)
    requires 0 < |p| <= width + 1 && Contains(text + chunk, p) && !Contains(text, p)
    ensures Contains(Last(width, text) + chunk, p)
  {
    var k :| OccursAt(text + chunk, p, k);
    assert k + |p| <= |text| ==> OccursAt(text, p, k);
    var from := if |text| > width then |text| - width else 0;
    var view := Last(width, text) + chunk;
    assert view == (text + chunk)[from..];
    assert OccursAt(view, p, k - from);
  }

  /** For every way of cutting a text into chunks, some inline evaluation sees a literal of at most
  width + 1 bytes exactly when the whole text contains it. */
  lemma {:induction false} SeenIffContained(width: nat, chunks: seq<string>, p: string)
    requires 0 < |p| <= width + 1
    ensures (exists i :: 0 <= i < |chunks| && Contains(View(width, chunks, i), p)) <==> Contains(Concat(chunks), p)
  {
    if i :| 0 <= i < |chunks| && Contains(View(width, chunks, i), p) {
      ViewIsInText(width, chunks, i, p);
    }
    if chunks != [] && Contains(Concat(chunks), p) {
      var n := |chunks| - 1;
      SeenIffContained(width, chunks[..n], p);
      if Contains(Concat(chunks[..n]), p) {
        var i :| 0 <= i < n && Contains(View(width, chunks[..n], i), p);
        ViewOfPrefix(width, chunks, n, i);
      } else {
        CompletedIsSeen(width, Concat(chunks[..n]), chunks[n], p);
        assert Contains(View(width, chunks, n), p);
      }
    }
  }

  function Bytes(text: string): seq<string> {
    seq(|text|, i requires 0 <= i < |text| => [text[i]])
  }

  lemma {:induction false} BytesConcat(text: string, n: nat)
    requires n <= |text|
    ensures Concat(Bytes(text)[..n]) == text[..n]
  {
    if n > 0 {
      BytesConcat(text, n - 1);
      ConcatStep(Bytes(text), n - 1);
    }
  }

  /** The bound is sharp: a longer literal that arrives byte by byte is never seen. */
  lemma LongerIsMissed(width: nat, p: string)
    requires |p| >= width + 2
    ensures Concat(Bytes(p)) == p && Contains(Concat(Bytes(p)), p)
    ensures forall i :: 0 <= i < |Bytes(p)| ==> !Contains(View(width, Bytes(p), i), p)
  {
    BytesConcat(p, |p|);
    assert Bytes(p)[..|p|] == Bytes(p) && p[..|p|] == p;
    assert OccursAt(p, p, 0);
    forall i | 0 <= i < |Bytes(p)| ensures |View(width, Bytes(p), i)| <= width + 1 {
    }
  }

  class InlineStreamGuard {
    const rules: seq<Rule>
    const windowBytes: nat
    var window: string
    ghost var text: string  // everything evaluated so far

    ghost predicate Valid() reads this {
      && WellFormed(rules) && windowBytes > 0
      && window == Last(windowBytes, text)
    }

    constructor (rules: seq<Rule>, windowBytes: int)
      requires WellFormed(rules)
      ensures Valid() && this.rules == rules && text == ""
      ensures this.windowBytes == if windowBytes <= 0 then 256 else windowBytes
    {
      this.rules := rules;
      this.windowBytes := if windowBytes <= 0 then 256 else windowBytes;
      window := "";
      text := "";
    }

    method Evaluate(chunk: string) returns (result: Result)
      requires Valid()
      modifies this
      ensures Valid() && text == old(text) + chunk
      ensures result == Verdict(rules, Last(windowBytes, old(text)) + chunk)
    {
      var combined := window + chunk;
      result := Guardrail.Evaluate(rules, combined);
      LastSlides(windowBytes, text, chunk);
      text := text + chunk;
      if |combined| > windowBytes {
        window := combined[|combined| - windowBytes..];
      } else {
        window := combined;
      }
    }
  }

  // ----- layer 2

  predicate HasBoundary(text: string) {
    '.' in text || '!' in text || '?' in text || '\n' in text
  }

  predicate IsSpace(c: char) {
    c == ' ' || '\t' <= c <= '\r'
  }

  /** The number of maximal runs of non-space characters; `inside` when one is already open. */
  function Fields(text: string, inside: bool): nat {
    if text == "" then 0
    else if IsSpace(text[0]) then Fields(text[1..], false)
    else (if inside then 0 else 1) + Fields(text[1..], true)
  }

  /** The white space of ASCII: space, tab, line feed, vertical tab, form feed, carriage return. */
  const SPACES := [' ', '\t', '\n', '\U{0B}', '\U{0C}', '\r']

  /** Where a word begins. */
  predicate Begins(text: string, i: nat)
    requires i < |text|
  {
    text[i] !in SPACES && (i == 0 || text[i - 1] in SPACES)
  }

  function Beginnings(text: string): set<nat> {
    set i | 0 <= i < |text| && Begins(text, i)
  }

  lemma SpacesAre(c: char)
    ensures IsSpace(c) <==> c in SPACES
  {
    assert SPACES[0] == ' ' && SPACES[1] == '\t' && SPACES[2] == '\n' && SPACES[3] == '\U{0B}' && SPACES[4] == '\U{0C}' && SPACES[5] == '\r';
    if '\t' <= c <= '\r' {
      assert c as int in {9, 10, 11, 12, 13};
    }
  }

  lemma {:induction false} FieldsAppend(a: string, c: char, inside: bool)
    ensures Fields(a + [c], inside) == Fields(a, inside) +
            if !IsSpace(c) && (if a == "" then !inside else IsSpace(a[|a| - 1])) then 1 else 0
  {
    if a == "" {
      assert a + [c] == [c] && [c][1..] == "";
    } else {
      assert (a + [c])[1..] == a[1..] + [c];
      FieldsAppend(a[1..], c, !IsSpace(a[0]));
    }
  }

  /** The count of fields is the number of places where a word begins. */
  lemma {:induction false} FieldsCountsWords(text: string)
    ensures Fields(text, false) == |Beginnings(text)|
  {
    if text != "" {
      var n := |text| - 1;
      var a, c := text[..n], text[n];
      assert text == a + [c];
      FieldsCountsWords(a);
      FieldsAppend(a, c, false);
      SpacesAre(c);
      if n > 0 {
        SpacesAre(text[n - 1]);
      }
      assert Beginnings(text) == Beginnings(a) + if Begins(text, n) then {n} else {} by {
        assert forall i :: 0 <= i < n ==> (Begins(text, i) <==> Begins(a, i));
      }
    }
  }

  /** The buffer with `chunk` at its end is complete. */
  predicate Releases(max: nat, value: string, chunk: string) {
    HasBoundary(chunk) || Fields(value, false) >= max
  }

  /** What the buffer holds after the chunks. */
  function Held(max: nat, chunks: seq<string>): string {
    if chunks == [] then ""
    else
      var last := chunks[|chunks| - 1];
      var value := Held(max, chunks[..|chunks| - 1]) + last;
      if Releases(max, value, last) then "" else value
  }

  /** The texts that were evaluated and released. */
  function Released(max: nat, chunks: seq<string>): seq<string> {
    if chunks == [] then []
    else
      var last := chunks[|chunks| - 1];
      var value := Held(max, chunks[..|chunks| - 1]) + last;
      Released(max, chunks[..|chunks| - 1]) + if Releases(max, value, last) then [value] else []
  }

  lemma ConcatAppend(texts: seq<string>, t: string)
    ensures Concat(texts + [t]) == Concat(texts) + t
  {
    assert (texts + [t])[..|texts|] == texts;
  }

  /** The evaluated texts, with what the final Flush evaluates, are exactly the input. */
  lemma {:induction false} NothingLost(max: nat, chunks: seq<string>)
    ensures Concat(Released(max, chunks)) + Held(max, chunks) == Concat(chunks)
  {
    if chunks != [] {
      var n := |chunks| - 1;
      var value := Held(max, chunks[..n]) + chunks[n];
      NothingLost(max, chunks[..n]);
      ConcatAppend(Released(max, chunks[..n]), value);
      assert Released(max, chunks[..n]) + [] == Released(max, chunks[..n]);
      assert Concat(Released(max, chunks[..n])) + value == Concat(chunks);
    }
  }

  /** Text that ended a sentence or filled the buffer is never held back. */
  lemma {:induction false} HeldIsIncomplete(max: nat, chunks: seq<string>)
    requires max > 0
    ensures !HasBoundary(Held(max, chunks)) && Fields(Held(max, chunks), false) < max
  {
    if chunks != [] {
      HeldIsIncomplete(max, chunks[..|chunks| - 1]);
    }
  }

  lemma EmptyIsHeld(max: nat)
    requires max > 0
    ensures !Releases(max, "", "")
  {
  }

  class BufferedStreamGuard {
    const rules: seq<Rule>
    const maxTokens: nat
    var buffer: string
    ghost var chunks: seq<string>

    ghost predicate Valid() reads this {
      && WellFormed(rules) && maxTokens > 0
      && buffer == Held(maxTokens, chunks)
    }

    constructor (rules: seq<Rule>, maxTokens: int)
      requires WellFormed(rules)
      ensures Valid() && this.rules == rules && chunks == []
      ensures this.maxTokens == if maxTokens <= 0 then 64 else maxTokens
    {
      this.rules := rules;
      this.maxTokens := if maxTokens <= 0 then 64 else maxTokens;
      buffer := "";
      chunks := [];
    }

    method Push(chunk: string) returns (result: Result, release: bool)
      requires Valid()
      modifies this
      ensures Valid() && chunks == old(chunks) + [chunk]
      ensures release == Releases(maxTokens, old(buffer) + chunk, chunk)
      ensures buffer == if release then "" else old(buffer) + chunk
      ensures result == if release then Verdict(rules, old(buffer) + chunk) else EMPTY
    {
      buffer := buffer + chunk;
      var value := buffer;
      release := HasBoundary(chunk) || Fields(value, false) >= maxTokens;
      chunks := chunks + [chunk];
      assert chunks[..|chunks| - 1] == old(chunks);
      if !release {
        return EMPTY, false;
      }
      result := Guardrail.Evaluate(rules, value);
      buffer := "";
    }

    /** Ends the stream: what was held is evaluated. */
    method Flush() returns (result: Result)
      requires Valid()
      modifies this
      ensures Valid() && chunks == [] && buffer == ""
      ensures result == if old(buffer) == "" then EMPTY else Verdict(rules, old(buffer))
    {
      var value := buffer;
      buffer := "";
      chunks := [];
      if value == "" {
        return EMPTY;
      }
      result := Guardrail.Evaluate(rules, value);
    }
  }

  // ----- the writer

  /** What reaches the client for a stream that is not cut and whose last delta is written as final, when
  no rule rewrites text: the final write hands on what Flush returns and drops what its Push returned. */
  function Delivered(max: nat, deltas: seq<string>): string
    requires deltas != []
  {
    var n := |deltas| - 1;
    Concat(Released(max, deltas[..n])) + Held(max, deltas)
  }

  /** The final delta completes the buffer. */
  predicate ReleasesLast(max: nat, deltas: seq<string>)
    requires deltas != []
  {
    var n := |deltas| - 1;
    Releases(max, Held(max, deltas[..n]) + deltas[n], deltas[n])
  }

  lemma Dropped(a: string, v: string, drop: bool)
    requires drop ==> v != ""
    ensures var kept := a + if drop then "" else v; kept <= a + v && (kept == a + v <==> !drop)
  {
    assert |a + v| == |a| + |v|;
  }

  lemma Assoc(a: string, b: string, c: string)
    ensures (a + b) + c == a + (b + c)
  {
  }

  lemma LastStep(max: nat, deltas: seq<string>)
    requires deltas != [] && max > 0
    ensures var n := |deltas| - 1;
            var sent := Concat(Released(max, deltas[..n]));
            var value := Held(max, deltas[..n]) + deltas[n];
            && Delivered(max, deltas) == sent + (if ReleasesLast(max, deltas) then "" else value)
            && (ReleasesLast(max, deltas) ==> value != "")
            && Concat(deltas) == sent + value
  {
    var n := |deltas| - 1;
    NothingLost(max, deltas[..n]);
    Assoc(Concat(Released(max, deltas[..n])), Held(max, deltas[..n]), deltas[n]);
    hide Released, HasBoundary;
  }

  /** The whole text reaches the client exactly when the final delta does not complete the buffer. */
  lemma DeliveredIffHeld(max: nat, deltas: seq<string>)
    requires deltas != [] && max > 0
    ensures Delivered(max, deltas) <= Concat(deltas)
    ensures Delivered(max, deltas) == Concat(deltas) <==> !ReleasesLast(max, deltas)
  {
    var n := |deltas| - 1;
    LastStep(max, deltas);
    hide Held, Released, Delivered, ReleasesLast, Concat;
    Dropped(Concat(Released(max, deltas[..n])), Held(max, deltas[..n]) + deltas[n], ReleasesLast(max, deltas));
  }

  /** A final write of no text loses nothing. */
  lemma EmptyFinalIsSafe(max: nat, deltas: seq<string>)
    requires max > 0
    ensures Delivered(max, deltas + [""]) == Concat(deltas)
  {
    assert (deltas + [""])[..|deltas|] == deltas;
    HeldIsIncomplete(max, deltas);
    assert Held(max, deltas) + "" == Held(max, deltas);
    DeliveredIffHeld(max, deltas + [""]);
    assert Concat(deltas) + "" == Concat(deltas);
  }

  /** The documented promise fails: the last sentence is dropped. */
  lemma FinalSentenceIsLost()
    ensures Delivered(64, ["Hello", " there."]) == ""
  {
    assert ["Hello", " there."][..1] == ["Hello"];
    assert ["Hello"][..0] == [];
    assert Held(64, []) + "Hello" == "Hello";
    assert Held(64, ["Hello"]) == "Hello" by {
      assert Fields("Hello", false) == 1 by {
        assert "Hello"[1..] == "ello" && "ello"[1..] == "llo" && "llo"[1..] == "lo" && "lo"[1..] == "o" && "o"[1..] == "";
      }
    }
    assert " there."[6] == '.';
  }

  class Writer {
    const inline: InlineStreamGuard
    const buffered: BufferedStreamGuard
    var stopped: bool

    ghost predicate Valid() reads this, inline, buffered {
      inline.Valid() && buffered.Valid() && inline.rules == buffered.rules
    }

    constructor (rules: seq<Rule>, windowBytes: int, bufferTokens: int)
      requires WellFormed(rules)
      ensures Valid() && !stopped && fresh(inline) && fresh(buffered) && inline.rules == rules
      ensures inline.text == "" && buffered.chunks == []
      ensures inline.windowBytes == if windowBytes <= 0 then 256 else windowBytes
      ensures buffered.maxTokens == if bufferTokens <= 0 then 64 else bufferTokens
    {
      inline := new InlineStreamGuard(rules, windowBytes);
      buffered := new BufferedStreamGuard(rules, bufferTokens);
      stopped := false;
    }

    /** One delta. `ok` is false when the stream is cut. */
    method Write(delta: string, final: bool) returns (delivered: string, ok: bool)
      requires Valid()
      modifies this, inline, buffered
      ensures Valid() && stopped == !ok
      ensures ok <==> !old(stopped) &&
                      (delta == "" || !Verdict(inline.rules, Last(inline.windowBytes, old(inline.text)) + delta).blocked)
      ensures ok ==> inline.text == old(inline.text) + delta
      ensures ok ==> buffered.chunks == if final then [] else old(buffered.chunks) + [delta]
      ensures !ok ==> delivered == ""
      ensures ok ==>
                var value := old(buffered.buffer) + delta;
                delivered == if Releases(buffered.maxTokens, value, delta) == final || value == "" then ""
                             else Verdict(inline.rules, value).content
    {
      EmptyIsHeld(buffered.maxTokens);
      hide Releases, Last, Held;
      if stopped {
        return "", false;
      }
      if delta != "" {
        var inlineResult := inline.Evaluate(delta);
        if inlineResult.blocked {
          stopped := true;
          return "", false;
        }
      } else {
        assert inline.text == inline.text + delta;
      }
      var result, release := buffered.Push(delta);
      if final {
        result := buffered.Flush();
        return result.content, true;
      }
      if !release {
        return "", true;
      }
      return result.content, true;
    }
  }

  // ----- a whole stream

  /** Layer 1 accepted the first n deltas. */
  ghost predicate Uncut(rules: seq<Rule>, width: nat, deltas: seq<string>, n: nat)
    requires WellFormed(rules) && n <= |deltas|
  {
    forall j :: 0 <= j < n && deltas[j] != "" ==> !Verdict(rules, View(width, deltas, j)).blocked
  }

  lemma {:induction false} SeenByDelta(width: nat, deltas: seq<string>, n: nat, p: string)
    requires n <= |deltas| && 0 < |p| <= width + 1 && Contains(Concat(deltas[..n]), p)
    ensures exists j :: 0 <= j < n && deltas[j] != "" && Contains(View(width, deltas, j), p)
  {
    if n > 0 {
      ConcatStep(deltas, n - 1);
      assert Concat(deltas[..n - 1]) + "" == Concat(deltas[..n - 1]);
      if Contains(Concat(deltas[..n - 1]), p) {
        SeenByDelta(width, deltas, n - 1, p);
      } else {
        CompletedIsSeen(width, Concat(deltas[..n - 1]), deltas[n - 1], p);
        assert Contains(View(width, deltas, n - 1), p);
      }
    }
  }

  /** No literal that blocks is longer than the window can see. */
  predicate Short(rules: seq<Rule>, width: nat) {
    forall i | 0 <= i < |rules| :: rules[i].action == Block && rules[i].Keyword? ==> |rules[i].pattern| <= width + 1
  }

  lemma CleanPrefix(a: string, b: string, banned: set<string>)
    requires a <= b
    ensures ContainsAny(a, banned) ==> ContainsAny(b, banned)
  {
    if ContainsAny(a, banned) {
      var p :| p in banned && Contains(a, p);
      assert b[0..|a|] == a;
      ContainsPart(b, 0, |a|, p);
    }
  }

  /** The texts that reach the client when the first n writes are accepted, the last delta being final. */
  function Passed(max: nat, deltas: seq<string>, n: nat): seq<string>
    requires n <= |deltas|
  {
    if n < |deltas| || n == 0 then Released(max, deltas[..n])
    else Released(max, deltas[..n - 1]) + if Held(max, deltas) == "" then [] else [Held(max, deltas)]
  }

  /** They reach it as the rules leave them. */
  function Shown(rules: seq<Rule>, texts: seq<string>): string
    requires WellFormed(rules)
  {
    if texts == [] then "" else Shown(rules, texts[..|texts| - 1]) + Verdict(rules, texts[|texts| - 1]).content
  }

  lemma ShownAppend(rules: seq<Rule>, texts: seq<string>, t: string)
    requires WellFormed(rules)
    ensures Shown(rules, texts + [t]) == Shown(rules, texts) + Verdict(rules, t).content
  {
    assert (texts + [t])[..|texts|] == texts;
  }

  predicate NoRewriting(rules: seq<Rule>) {
    forall i | 0 <= i < |rules| :: rules[i].action == Block
  }

  lemma {:induction false} ShownPlain(rules: seq<Rule>, texts: seq<string>)
    requires WellFormed(rules) && NoRewriting(rules)
    ensures Shown(rules, texts) == Concat(texts)
  {
    if texts != [] {
      ShownPlain(rules, texts[..|texts| - 1]);
      BlockersKeepText(rules, Result(texts[|texts| - 1], false, []));
    }
  }

  /** Only redactions, and none of them can write a literal. */
  ghost predicate OnlyRedacts(rules: seq<Rule>) {
    Clears(rules) && forall i :: 0 <= i < |rules| ==> rules[i].action == Redact
  }

  /** The text is one piece for each of the texts, none with a literal of the rules in it. */
  ghost predicate RedactedEach(rules: seq<Rule>, texts: seq<string>, text: string) {
    exists pieces: seq<string> ::
      |pieces| == |texts| && text == Concat(pieces) && forall i :: 0 <= i < |pieces| ==> Free(rules, pieces[i])
  }

  lemma {:induction false} ShownIsRedacted(rules: seq<Rule>, texts: seq<string>)
    requires WellFormed(rules) && OnlyRedacts(rules)
    ensures RedactedEach(rules, texts, Shown(rules, texts))
  {
    if texts == [] {
      assert Concat([]) == "";
    } else {
      var n := |texts| - 1;
      ShownIsRedacted(rules, texts[..n]);
      RedactorsNeverBlock(rules, Result(texts[n], false, []));
      VerdictIsFree(rules, texts[n]);
      hide Free, Apply, Clears;
      var pieces: seq<string> :| |pieces| == n && Shown(rules, texts[..n]) == Concat(pieces) &&
                                 forall i :: 0 <= i < |pieces| ==> Free(rules, pieces[i]);
      ConcatAppend(pieces, Verdict(rules, texts[n]).content);
      assert |pieces + [Verdict(rules, texts[n]).content]| == |texts|;
    }
  }

  lemma ConcatPassed(max: nat, deltas: seq<string>)
    ensures Concat(Passed(max, deltas, |deltas|)) == if deltas == [] then "" else Delivered(max, deltas)
  {
    if deltas != [] {
      var sent := Released(max, deltas[..|deltas| - 1]);
      ConcatAppend(sent, Held(max, deltas));
      assert sent + [] == sent && Concat(sent) + "" == Concat(sent);
      hide Concat, Released, Held;
    } else {
      assert deltas[..0] == [];
    }
  }

  /** What one write passes on. */
  lemma PassedStep(max: nat, deltas: seq<string>, i: nat)
    requires i < |deltas| && max > 0
    ensures var value := Held(max, deltas[..i]) + deltas[i];
            Passed(max, deltas, i + 1) == Passed(max, deltas, i) +
              if Releases(max, value, deltas[i]) == (i == |deltas| - 1) || value == "" then [] else [value]
  {
    var value := Held(max, deltas[..i]) + deltas[i];
    assert deltas[..i + 1][..i] == deltas[..i];
    assert deltas[..|deltas|] == deltas;
    assert value == "" ==> !Releases(max, value, deltas[i]);
    hide Fields, HasBoundary;
  }

  lemma ShownStep(rules: seq<Rule>, max: nat, deltas: seq<string>, i: nat)
    requires WellFormed(rules) && i < |deltas| && max > 0
    ensures var value := Held(max, deltas[..i]) + deltas[i];
            Shown(rules, Passed(max, deltas, i + 1)) == Shown(rules, Passed(max, deltas, i)) +
              if Releases(max, value, deltas[i]) == (i == |deltas| - 1) || value == "" then "" else Verdict(rules, value).content
  {
    hide Passed, Held, Releases, Shown;
    PassedStep(max, deltas, i);
    var value, sent := Held(max, deltas[..i]) + deltas[i], Passed(max, deltas, i);
    ShownAppend(rules, sent, value);
    assert sent + [] == sent;
  }

  /** The first n deltas were accepted, and n is as far as a stream without banned literals goes. */
  ghost predicate CutAt(deltas: seq<string>, n: nat, banned: set<string>) {
    && n <= |deltas| && !ContainsAny(Concat(deltas[..n]), banned)
    && (n < |deltas| ==> ContainsAny(Concat(deltas[..n + 1]), banned))
  }

  /** Layer 1 stopped the stream at delta n, if it did not reach the end. */
  ghost predicate StoppedAt(rules: seq<Rule>, width: nat, deltas: seq<string>, n: nat)
    requires WellFormed(rules)
  {
    && n <= |deltas| && Uncut(rules, width, deltas, n)
    && (n < |deltas| ==> deltas[n] != "" && Verdict(rules, View(width, deltas, n)).blocked)
  }

  lemma UnblockedIsClean(rules: seq<Rule>, text: string, p: string)
    requires WellFormed(rules) && LiteralBlocks(rules) && p in Banned(rules) && !Verdict(rules, text).blocked
    ensures !Contains(text, p)
  {
    BlocksBanned(rules, Result(text, false, []));
  }

  /** For short literals before any rewriting, that is where the text first holds one, however it was divided. */
  lemma StoppedIsCut(rules: seq<Rule>, width: nat, deltas: seq<string>, n: nat)
    requires WellFormed(rules) && LiteralBlocks(rules) && Short(rules, width) && StoppedAt(rules, width, deltas, n)
    ensures CutAt(deltas, n, Banned(rules))
  {
    var banned := Banned(rules);
    assert forall p :: p in banned ==> 0 < |p| <= width + 1;
    hide Concat, Banned, View;
    if ContainsAny(Concat(deltas[..n]), banned) {
      var p :| p in banned && Contains(Concat(deltas[..n]), p);
      SeenByDelta(width, deltas, n, p);
      var j :| 0 <= j < n && deltas[j] != "" && Contains(View(width, deltas, j), p);
      UnblockedIsClean(rules, View(width, deltas, j), p);
    }
    if n < |deltas| {
      BlocksBanned(rules, Result(View(width, deltas, n), false, []));
      var p :| p in banned && Contains(View(width, deltas, n), p);
      SeenIsThere(width, deltas, n, p);
    }
  }

  lemma SeenIsThere(width: nat, deltas: seq<string>, n: nat, p: string)
    requires n < |deltas| && Contains(View(width, deltas, n), p)
    ensures Contains(Concat(deltas[..n + 1]), p)
  {
    ConcatStep(deltas, n);
    LastIsPart(width, Concat(deltas[..n]), deltas[n], p);
  }

  lemma {:induction false} PassedIsPrefix(max: nat, deltas: seq<string>, n: nat)
    requires n <= |deltas| && max > 0
    ensures Concat(Passed(max, deltas, n)) <= Concat(deltas)
    ensures n == |deltas| && deltas != [] ==> (Concat(Passed(max, deltas, n)) == Concat(deltas) <==> !ReleasesLast(max, deltas))
  {
    if n < |deltas| {
      NothingLost(max, deltas[..n]);
      ConcatPrefix(deltas, n);
    } else {
      ConcatPassed(max, deltas);
      if deltas != [] {
        DeliveredIffHeld(max, deltas);
      }
    }
    hide Concat, Released, Held, Delivered, ReleasesLast;
  }

  /** When no rule rewrites, what is delivered is a prefix of the text, and all of it exactly when the stream is
  not cut and its last delta leaves the buffer open. */
  lemma DeliveredIsPrefix(rules: seq<Rule>, max: nat, deltas: seq<string>, n: nat)
    requires WellFormed(rules) && NoRewriting(rules) && max > 0 && n <= |deltas|
    ensures Shown(rules, Passed(max, deltas, n)) <= Concat(deltas)
    ensures n == |deltas| && deltas != [] ==>
              (Shown(rules, Passed(max, deltas, n)) == Concat(deltas) <==> !ReleasesLast(max, deltas))
  {
    ShownPlain(rules, Passed(max, deltas, n));
    PassedIsPrefix(max, deltas, n);
    hide Shown, Concat, Passed, ReleasesLast;
  }

  /** And it holds no banned literal where layer 1 would have seen it. */
  lemma DeliveredIsClean(rules: seq<Rule>, max: nat, deltas: seq<string>, n: nat)
    requires WellFormed(rules) && NoRewriting(rules) && max > 0 && CutAt(deltas, n, Banned(rules))
    ensures !ContainsAny(Shown(rules, Passed(max, deltas, n)), Banned(rules))
  {
    ShownPlain(rules, Passed(max, deltas, n));
    hide Shown, Concat, ContainsAny, Banned, Released, Held, Delivered, NoRewriting;
    if n < |deltas| || n == 0 {
      NothingLost(max, deltas[..n]);
      CleanPrefix(Concat(Released(max, deltas[..n])), Concat(deltas[..n]), Banned(rules));
    } else {
      assert deltas[..n] == deltas;
      ConcatPassed(max, deltas);
      DeliveredIffHeld(max, deltas);
      CleanPrefix(Delivered(max, deltas), Concat(deltas), Banned(rules));
    }
  }

  /** The writer has accepted the first n deltas. */
  ghost predicate Placed(writer: Writer, deltas: seq<string>, n: nat)
    requires n <= |deltas|
    reads writer, writer.inline, writer.buffered
  {
    && writer.Valid() && !writer.stopped && writer.inline.text == Concat(deltas[..n])
    && (n < |deltas| ==> writer.buffered.chunks == deltas[..n])
  }

  /** One write of a stream. */
  method WriteNext(writer: Writer, deltas: seq<string>, n: nat) returns (text: string, ok: bool)
    requires n < |deltas| && Placed(writer, deltas, n)
    modifies writer, writer.inline, writer.buffered
    ensures WellFormed(writer.inline.rules)
    ensures ok <==> deltas[n] == "" || !Verdict(writer.inline.rules, View(writer.inline.windowBytes, deltas, n)).blocked
    ensures ok ==> Placed(writer, deltas, n + 1)
    ensures ok ==> var rules, max := writer.inline.rules, writer.buffered.maxTokens;
                   Shown(rules, Passed(max, deltas, n + 1)) == Shown(rules, Passed(max, deltas, n)) + text
  {
    ConcatStep(deltas, n);
    ShownStep(writer.inline.rules, writer.buffered.maxTokens, deltas, n);
    assert deltas[..n + 1] == deltas[..n] + [deltas[n]];
    hide Concat, Released, Held, Fields, HasBoundary, Contains, Apply, Passed, Shown;
    text, ok := writer.Write(deltas[n], n == |deltas| - 1);
  }

  /** Writes every delta, the last as final, until the stream is cut after n of them. For any engine the stream is
  cut at the first delta that layer 1 blocks, and the client has what the rules leave of the texts released until
  then. For short literals before any rewriting the stream is cut exactly when the whole text holds a banned one,
  however it was divided; and when nothing rewrites, the client has a prefix of the text. */
  method WriteAll(rules: seq<Rule>, windowBytes: int, bufferTokens: int, deltas: seq<string>)
    returns (delivered: string, cut: bool, n: nat)
    requires WellFormed(rules)
    ensures StoppedAt(rules, if windowBytes <= 0 then 256 else windowBytes, deltas, n) && (cut <==> n < |deltas|)
    ensures delivered == Shown(rules, Passed(if bufferTokens <= 0 then 64 else bufferTokens, deltas, n))
    ensures LiteralBlocks(rules) && Short(rules, if windowBytes <= 0 then 256 else windowBytes) ==>
              && CutAt(deltas, n, Banned(rules)) && (cut <==> ContainsAny(Concat(deltas), Banned(rules)))
              && (NoRewriting(rules) ==> !ContainsAny(delivered, Banned(rules)))
    ensures OnlyRedacts(rules) ==>
              !cut && RedactedEach(rules, Passed(if bufferTokens <= 0 then 64 else bufferTokens, deltas, n), delivered)
    ensures NoRewriting(rules) ==> delivered <= Concat(deltas)
    ensures NoRewriting(rules) && !cut && deltas != [] ==>
              (delivered == Concat(deltas) <==> !ReleasesLast(if bufferTokens <= 0 then 64 else bufferTokens, deltas))
  {
    var writer := new Writer(rules, windowBytes, bufferTokens);
    ghost var max := writer.buffered.maxTokens;
    delivered, cut, n := "", false, 0;
    assert deltas[..0] == [] && Concat([]) == "" && Passed(max, deltas, 0) == [];
    hide Concat, Released, Held, ReleasesLast, Contains, ContainsAny, Apply, Passed, Short, LiteralBlocks, View;
    while n < |deltas|
      invariant n <= |deltas| && fresh(writer) && fresh(writer.inline) && fresh(writer.buffered)
      invariant Placed(writer, deltas, n) && writer.inline.rules == rules
      invariant Uncut(rules, writer.inline.windowBytes, deltas, n) && delivered == Shown(rules, Passed(max, deltas, n))
    {
      var text, ok := WriteNext(writer, deltas, n);
      if !ok {
        cut := true;
        break;
      }
      delivered := delivered + text;
      n := n + 1;
    }
    StreamMeans(rules, writer.inline.windowBytes, max, deltas, n);
    RedactionMeans(rules, writer.inline.windowBytes, max, deltas, n);
  }

  lemma RedactionMeans(rules: seq<Rule>, width: nat, max: nat, deltas: seq<string>, n: nat)
    requires WellFormed(rules) && StoppedAt(rules, width, deltas, n)
    ensures OnlyRedacts(rules) ==>
              n == |deltas| && RedactedEach(rules, Passed(max, deltas, n), Shown(rules, Passed(max, deltas, n)))
  {
    if OnlyRedacts(rules) {
      ShownIsRedacted(rules, Passed(max, deltas, n));
      if n < |deltas| {
        RedactorsNeverBlock(rules, Result(View(width, deltas, n), false, []));
      }
    }
  }

  lemma OneRedaction(p: string, other: string, text: string)
    requires p != "" && !Contains(text, p)
    ensures Verdict([Keyword("r", p, Redact, other)], text).content == text
  {
    var rules := [Keyword("r", p, Redact, other)];
    assert rules[0].pattern == p;
    FreeIsKept(rules, Result(text, false, []));
  }

  /** A piece at a time is all that is promised: a literal with the end of a sentence inside it is delivered in
  two pieces, whatever its replacement. */
  lemma LiteralAcrossPieces(max: nat, u: string, v: string, other: string)
    requires HasBoundary(u) && v != "" && !HasBoundary(v) && Fields(v, false) < max
    ensures Shown([Keyword("r", u + v, Redact, other)], Passed(max, [u, v, ""], 3)) == u + v
  {
    var rules := [Keyword("r", u + v, Redact, other)];
    var deltas := [u, v, ""];
    PassedAre(max, u, v);
    OneRedaction(u + v, other, u);
    OneRedaction(u + v, other, v);
    hide Verdict, Passed;
    assert [u, v][..1] == [u] && [u][..0] == [];
    assert Shown(rules, [u]) == "" + Verdict(rules, u).content == u;
  }

  lemma PassedAre(max: nat, u: string, v: string)
    requires HasBoundary(u) && v != "" && !HasBoundary(v) && Fields(v, false) < max
    ensures Passed(max, [u, v, ""], 3) == [u, v]
  {
    var deltas := [u, v, ""];
    assert deltas[..2] == [u, v] && [u, v][..1] == [u] && [u][..0] == [];
    assert Held(max, []) + u == u && Held(max, [u]) == "" && Released(max, [u]) == [u];
    assert "" + v == v && Held(max, [u, v]) == v && Released(max, [u, v]) == [u];
    assert v + "" == v && Held(max, deltas) == v;
  }

  lemma StreamMeans(rules: seq<Rule>, width: nat, max: nat, deltas: seq<string>, n: nat)
    requires WellFormed(rules) && max > 0 && StoppedAt(rules, width, deltas, n)
    ensures var delivered := Shown(rules, Passed(max, deltas, n));
            && (LiteralBlocks(rules) && Short(rules, width) ==>
                  && CutAt(deltas, n, Banned(rules)) && (n < |deltas| <==> ContainsAny(Concat(deltas), Banned(rules)))
                  && (NoRewriting(rules) ==> !ContainsAny(delivered, Banned(rules))))
            && (NoRewriting(rules) ==> delivered <= Concat(deltas))
            && (NoRewriting(rules) && n == |deltas| && deltas != [] ==> (delivered == Concat(deltas) <==> !ReleasesLast(max, deltas)))
  {
    hide Concat, ReleasesLast, ContainsAny, Banned, Passed, Shown, Short, LiteralBlocks, NoRewriting, CutAt;
    if LiteralBlocks(rules) && Short(rules, width) {
      StoppedIsCut(rules, width, deltas, n);
      CutMeans(deltas, n, Banned(rules));
      if NoRewriting(rules) {
        DeliveredIsClean(rules, max, deltas, n);
      }
    }
    if NoRewriting(rules) {
      DeliveredIsPrefix(rules, max, deltas, n);
    }
  }

  lemma CutMeans(deltas: seq<string>, n: nat, banned: set<string>)
    requires CutAt(deltas, n, banned)
    ensures n < |deltas| <==> ContainsAny(Concat(deltas), banned)
  {
    if n < |deltas| {
      ConcatPrefix(deltas, n + 1);
      CleanPrefix(Concat(deltas[..n + 1]), Concat(deltas), banned);
    } else {
      assert deltas[..n] == deltas;
    }
  }

  // ----- a release that is judged blocked and delivered

  /** What write i would release stands at the end of the text so far. */
  lemma ReleaseIsInText(max: nat, deltas: seq<string>, i: nat, p: string)
    requires i < |deltas| && Contains(Held(max, deltas[..i]) + deltas[i], p)
    ensures Contains(Concat(deltas[..i + 1]), p)
  {
    NothingLost(max, deltas[..i]);
    ConcatStep(deltas, i);
    var sent, value := Concat(Released(max, deltas[..i])), Held(max, deltas[..i]) + deltas[i];
    Assoc(sent, Held(max, deltas[..i]), deltas[i]);
    hide Concat, Released, Held, Contains;
    var text := Concat(deltas[..i + 1]);
    assert text == sent + value;
    assert text[|sent|..|text|] == value;
    ContainsPart(text, |sent|, |text|, p);
  }

  /** The writer hands on a release whose verdict is blocked exactly when it holds a banned literal, and then
  every banned literal in it is longer than the window can see. */
  lemma BlockedReleaseIff(rules: seq<Rule>, width: nat, max: nat, deltas: seq<string>, i: nat)
    requires WellFormed(rules) && LiteralBlocks(rules) && i < |deltas| && Uncut(rules, width, deltas, i + 1)
    ensures var value := Held(max, deltas[..i]) + deltas[i];
            && (Verdict(rules, value).blocked <==> ContainsAny(value, Banned(rules)))
            && forall p :: p in Banned(rules) && Contains(value, p) ==> |p| > width + 1
  {
    var value := Held(max, deltas[..i]) + deltas[i];
    BlocksBanned(rules, Result(value, false, []));
    forall p | p in Banned(rules) && Contains(value, p) ensures |p| > width + 1 {
      if |p| <= width + 1 {
        ReleaseIsInText(max, deltas, i, p);
        SeenByDelta(width, deltas, i + 1, p);
        var j :| 0 <= j < i + 1 && deltas[j] != "" && Contains(View(width, deltas, j), p);
        UnblockedIsClean(rules, View(width, deltas, j), p);
      }
    }
  }

  lemma {:induction false} FieldsOfPrefix(text: string, n: nat, inside: bool)
    requires n <= |text|
    ensures Fields(text[..n], inside) <= Fields(text, inside)
  {
    if n > 0 {
      FieldsOfPrefix(text[1..], n - 1, !IsSpace(text[0]));
      assert text[..n][1..] == text[1..][..n - 1];
    }
  }

  /** Text without a boundary and with few words is held, byte by byte. */
  lemma {:induction false} BytesAreHeld(max: nat, text: string, n: nat)
    requires n <= |text| && !HasBoundary(text) && Fields(text, false) < max
    ensures Held(max, Bytes(text)[..n]) == text[..n]
  {
    if n > 0 {
      BytesAreHeld(max, text, n - 1);
      FieldsOfPrefix(text, n, false);
      assert Bytes(text)[..n][..n - 1] == Bytes(text)[..n - 1];
      assert text[..n - 1] + [text[n - 1]] == text[..n];
    }
  }

  lemma OneLiteral(p: string, text: string)
    requires p != ""
    ensures var v := Verdict([Keyword("r", p, Block, "")], text); v.content == text && (v.blocked <==> Contains(text, p))
  {
    var rules := [Keyword("r", p, Block, "")];
    assert rules[0] == Keyword("r", p, Block, "");
    assert Banned(rules) == {p};
    BlockersKeepText(rules, Result(text, false, []));
    BlocksBanned(rules, Result(text, false, []));
  }

  /** It does happen: any literal longer than the window can see that arrives byte by byte, with a full stop
  after it, passes layer 1, is judged blocked by layer 2, and is released unchanged. */
  lemma LongLiteralIsDelivered(width: nat, max: nat, p: string)
    requires |p| >= width + 2 && !HasBoundary(p) && Fields(p, false) < max
    ensures var rules := [Keyword("r", p, Block, "")];
            var deltas := Bytes(p) + ["."];
            && Uncut(rules, width, deltas, |deltas|)
            && Held(max, deltas[..|p|]) + "." == p + "." && Releases(max, p + ".", ".")
            && Verdict(rules, p + ".").blocked && Verdict(rules, p + ".").content == p + "."
  {
    var rules := [Keyword("r", p, Block, "")];
    var deltas := Bytes(p) + ["."];
    forall j | 0 <= j < |deltas| && deltas[j] != "" ensures !Verdict(rules, View(width, deltas, j)).blocked {
      assert |View(width, deltas, j)| <= width + 1;
      OneLiteral(p, View(width, deltas, j));
    }
    OneLiteral(p, p + ".");
    BytesAreHeld(max, p, |p|);
    assert deltas[..|p|] == Bytes(p)[..|p|] && p[..|p|] == p;
    assert OccursAt(p + ".", p, 0);
    assert "."[0] == '.';
  }
}
