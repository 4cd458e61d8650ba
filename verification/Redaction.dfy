/** Which values the configuration diff hides, told from the keys of the document alone. */
module Redaction {
  import opened Json
  import opened Text
  import opened JsonPointer
  import opened Decimal
  import opened PointerEval
  import opened ConfigDiff

  // ----- lower case

  function LowerChar(c: char): char {
    if 'A' <= c <= 'Z' then (c as int + 32) as char else c
  }

  lemma {:induction false} LowerAt(s: string, i: nat)
    requires i < |s|
    ensures |Lower(s)| == |s| && Lower(s)[i] == LowerChar(s[i])
  {
    if |s| > 1 {
      LowerAt(s[1..], if i > 0 then i - 1 else 0);
    }
  }

  /** Lower-casing keeps the length, turns the ASCII capitals into the small letters and nothing else. */
  lemma LowerIs(s: string)
    ensures |Lower(s)| == |s| && forall i :: 0 <= i < |s| ==> Lower(s)[i] == LowerChar(s[i])
  {
    forall i | 0 <= i < |s| ensures |Lower(s)| == |s| && Lower(s)[i] == LowerChar(s[i]) {
      LowerAt(s, i);
    }
  }

  lemma LowerConcat(a: string, b: string)
    ensures Lower(a + b) == Lower(a) + Lower(b)
  {
    LowerIs(a);
    LowerIs(b);
    LowerIs(a + b);
    hide Lower;
    assert forall i :: 0 <= i < |a + b| ==> Lower(a + b)[i] == (Lower(a) + Lower(b))[i];
  }

  // ----- the last part of a path

  lemma {:induction false} SplitLast(prefix: string, t: string)
    requires '/' !in t
    ensures var parts := Split(prefix + "/" + t, '/'); parts[|parts| - 1] == t && |parts| > 1
  {
    if prefix == "" {
      assert prefix + "/" + t == "/" + t && ("/" + t)[1..] == t;
      SplitOfAtom(t, '/');
    } else {
      assert (prefix + "/" + t)[1..] == prefix[1..] + "/" + t;
      SplitLast(prefix[1..], t);
    }
  }

  /** The names that are hidden. */
  ghost predicate Secret(name: string) {
    || name == "secret_ref" || name == "authorization"
    || (exists a: string, b: string :: name == a + "password" + b)
    || (exists a: string, b: string :: name == a + "secret" + b)
  }

  lemma HoldsIs(text: string, part: string)
    ensures Holds(text, part) <==> exists a: string, b: string :: text == a + part + b
  {
    if Holds(text, part) {
      var k :| 0 <= k <= |text| && OccursAt(text, part, k);
      assert text == text[..k] + part + text[k + |part|..];
    }
    if a: string, b: string :| text == a + part + b {
      assert OccursAt(text, part, |a|);
    }
  }

  lemma SensitiveIff(prefix: string, t: string)
    requires '/' !in t
    ensures SensitivePath(prefix + "/" + t) <==> Secret(Lower(t))
  {
    LowerConcat(prefix + "/", t);
    LowerConcat(prefix, "/");
    assert Lower("/") == "/";
    LowerIs(t);
    hide Lower;
    assert Lower(prefix + "/" + t) == Lower(prefix) + "/" + Lower(t);
    assert '/' !in Lower(t);
    SplitLast(Lower(prefix), Lower(t));
    HoldsIs(Lower(t), "password");
    HoldsIs(Lower(t), "secret");
  }

  lemma RootIsPlain()
    ensures !SensitivePath("")
  {
    assert Split("", '/') == [""];
  }

  // ----- a key needs no escaping to be judged

  /** No character that escaping touches or writes. */
  predicate Plain(p: string) {
    forall i | 0 <= i < |p| :: p[i] !in "~/01"
  }

  lemma {:induction false} PrefixOfEscape(p: string, key: string)
    requires Plain(p)
    ensures p <= Lower(Escape(key)) <==> p <= Lower(key)
  {
    if p != "" && key != "" {
      EscapeStep(key);
      var head := if key[0] == '~' then "~0" else if key[0] == '/' then "~1" else [key[0]];
      LowerConcat(head, Escape(key[1..]));
      PrefixOfEscape(p[1..], key[1..]);
      if key[0] == '~' || key[0] == '/' {
        assert Lower(head)[0] == '~' && p[0] != '~' && p[0] != '/';
      } else {
        assert Lower(head) == [LowerChar(key[0])];
        PrefixStep(p, LowerChar(key[0]), Lower(Escape(key[1..])));
        PrefixStep(p, LowerChar(key[0]), Lower(key[1..]));
      }
    }
  }

  lemma PrefixStep(p: string, c: char, rest: string)
    requires p != ""
    ensures p <= [c] + rest <==> p[0] == c && p[1..] <= rest
  {
    if p[0] == c && p[1..] <= rest {
      assert p == [c] + p[1..];
    }
  }

  lemma HoldsStep(text: string, p: string)
    requires text != "" && p != ""
    ensures Holds(text, p) <==> p <= text || Holds(text[1..], p)
  {
    if Holds(text, p) && !(p <= text) {
      var k :| 0 <= k <= |text| && OccursAt(text, p, k);
      assert k != 0;
      assert OccursAt(text[1..], p, k - 1);
    }
    if p <= text {
      assert OccursAt(text, p, 0);
    }
    if Holds(text[1..], p) {
      var k :| 0 <= k <= |text[1..]| && OccursAt(text[1..], p, k);
      assert OccursAt(text, p, k + 1);
    }
  }

  lemma {:induction false} HoldsEscaped(p: string, key: string)
    requires p != "" && Plain(p)
    ensures Holds(Lower(Escape(key)), p) <==> Holds(Lower(key), p)
  {
    if key != "" {
      EscapeStep(key);
      var rest := Escape(key[1..]);
      PrefixOfEscape(p, key);
      HoldsEscaped(p, key[1..]);
      HoldsStep(Lower(key), p);
      HoldsStep(Lower(Escape(key)), p);
      if key[0] == '~' || key[0] == '/' {
        var c := if key[0] == '~' then '0' else '1';
        assert Escape(key)[1..] == [c] + rest && ([c] + rest)[1..] == rest;
        HoldsStep(Lower([c] + rest), p);
        assert Lower([c] + rest) == [c] + Lower(rest);
      }
    }
  }

  lemma {:induction false} LowerEscapeIs(name: string, key: string)
    requires Plain(name)
    ensures Lower(Escape(key)) == name <==> Lower(key) == name
  {
    if key == "" {
    } else {
      EscapeStep(key);
      if name != "" {
        LowerEscapeIs(name[1..], key[1..]);
      }
      hide Escape;
    }
  }

  /** Escaping does not change whether a key is hidden. */
  lemma SecretEscaped(key: string)
    ensures Secret(Lower(Escape(key))) <==> Secret(Lower(key))
  {
    LowerEscapeIs("secret_ref", key);
    LowerEscapeIs("authorization", key);
    HoldsEscaped("password", key);
    HoldsEscaped("secret", key);
    forall text: string ensures Secret(text) <==> text == "secret_ref" || text == "authorization" || Holds(text, "password") || Holds(text, "secret") {
      HoldsIs(text, "password");
      HoldsIs(text, "secret");
    }
  }

  lemma DigitsArePlain(n: nat)
    ensures !Secret(Lower(Digits(n))) && '/' !in Digits(n)
  {
    DigitsRoundTrip(n);
    DigitsHaveNoSlash(n);
    var s := Lower(Digits(n));
    LowerIs(Digits(n));
    hide Lower, Digits;
    assert forall i :: 0 <= i < |s| ==> s[i] <= '9';
    forall a: string, b: string ensures s != a + "password" + b && s != a + "secret" + b {
      assert (a + "password" + b)[|a|] == 'p' && (a + "secret" + b)[|a|] == 's';
    }
    assert "secret_ref"[0] == 's' && "authorization"[0] == 'a';
  }

  // ----- the entries

  /** An entry shows, on each side, nothing, the value, or that it is hidden. */
  ghost predicate Shows(e: Entry, before: Json, after: Json, secret: bool) {
    && e.sensitive == secret
    && e.before == (if Leaf(before, e.path).None? then Absent else if secret then Redacted else Readable(Leaf(before, e.path).value))
    && e.after == (if Leaf(after, e.path).None? then Absent else if secret then Redacted else Readable(Leaf(after, e.path).value))
  }

  lemma ShowsSensitive(entries: seq<Entry>, before: Json, after: Json, i: nat)
    requires Describes(entries, before, after) && i < |entries|
    ensures Shows(entries[i], before, after, SensitivePath(entries[i].path))
  {
    hide Leaf, SensitivePath;
  }

  /** The operation tells on which side there is a value. */
  lemma OperationIsTrue(entries: seq<Entry>, before: Json, after: Json, i: nat)
    requires Describes(entries, before, after) && i < |entries|
    ensures var e, l, r := entries[i], Leaf(before, entries[i].path), Leaf(after, entries[i].path);
            && (e.operation == Added <==> l.None? && r.Some?)
            && (e.operation == Removed <==> l.Some? && r.None?)
            && (e.operation == Modified <==> l.Some? && r.Some? && l != r)
  {
    assert Paths(entries)[i] in Paths(entries);
  }

  /** Under a key, values are hidden exactly when the key is, whatever its case. */
  lemma KeyIsHidden(entries: seq<Entry>, before: Json, after: Json, i: nat, prefix: string, key: string)
    requires Describes(entries, before, after) && i < |entries| && entries[i].path == prefix + "/" + Escape(key)
    ensures Shows(entries[i], before, after, Secret(Lower(Escape(key))))
    ensures Secret(Lower(Escape(key))) <==> Secret(Lower(key))
  {
    ShowsSensitive(entries, before, after, i);
    EscapeHasNoSlash(key);
    SensitiveIff(prefix, Escape(key));
    SecretEscaped(key);
  }

  /** An item of an array is never hidden. */
  lemma ItemIsShown(entries: seq<Entry>, before: Json, after: Json, i: nat, prefix: string, n: nat)
    requires Describes(entries, before, after) && i < |entries| && entries[i].path == prefix + "/" + Digits(n)
    ensures Shows(entries[i], before, after, false)
  {
    ShowsSensitive(entries, before, after, i);
    DigitsArePlain(n);
    SensitiveIff(prefix, Digits(n));
  }

  /** A position is hidden by its last step alone. */
  ghost predicate HiddenAt(steps: seq<Step>) {
    steps != [] && steps[|steps| - 1].Key? && Secret(Lower(steps[|steps| - 1].key))
  }

  lemma {:induction false} RenderLast(steps: seq<Step>)
    requires steps != []
    ensures Render(steps) == Render(steps[..|steps| - 1]) + "/" + StepToken(steps[|steps| - 1])
  {
    var n := |steps| - 1;
    hide StepToken;
    if n == 0 {
      assert steps[1..] == [] && steps[..0] == [];
    } else {
      RenderLast(steps[1..]);
      assert steps[1..][..n - 1] == steps[..n][1..] && steps[..n][0] == steps[0];
    }
  }

  /** A position of a document is hidden exactly when its last step is a hidden key. */
  lemma PositionIsHidden(entries: seq<Entry>, before: Json, after: Json, i: nat, steps: seq<Step>)
    requires Describes(entries, before, after) && i < |entries| && entries[i].path == Render(steps)
    ensures Shows(entries[i], before, after, HiddenAt(steps))
  {
    if steps == [] {
      RootIsPlain();
      ShowsSensitive(entries, before, after, i);
    } else {
      RenderLast(steps);
      hide Shows, Secret, Render, Describes;
      var prefix := Render(steps[..|steps| - 1]);
      match steps[|steps| - 1]
      case Key(key) => KeyIsHidden(entries, before, after, i, prefix, key);
      case At(n) => ItemIsShown(entries, before, after, i, prefix, n);
    }
  }
}
