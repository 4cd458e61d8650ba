/** JSON Pointer (RFC 6901) as the comparator reads it and the config diff writes it. */
module JsonPointer {
  import opened Json
  import opened Text

  /** `strings.ReplaceAll(s, "~", "~0")`. */
  function EscapeTilde(s: string): string {
    if s == "" then "" else (if s[0] == '~' then "~0" else [s[0]]) + EscapeTilde(s[1..])
  }

  /** `strings.ReplaceAll(s, "/", "~1")`. */
  function EscapeSlash(s: string): string {
    if s == "" then "" else (if s[0] == '/' then "~1" else [s[0]]) + EscapeSlash(s[1..])
  }

  /** `strings.ReplaceAll(s, "~" + code, to)`: leftmost matches, no overlap. */
  function Replace(s: string, code: char, to: char): string {
    if s == "" then ""
    else if |s| >= 2 && s[0] == '~' && s[1] == code then [to] + Replace(s[2..], code, to)
    else [s[0]] + Replace(s[1..], code, to)
  }

  function Escape(key: string): string {
    EscapeSlash(EscapeTilde(key))
  }

  function Unescape(token: string): string {
    Replace(Replace(token, '1', '/'), '0', '~')
  }

  lemma {:induction false} EscapeSlashConcat(a: string, b: string)
    ensures EscapeSlash(a + b) == EscapeSlash(a) + EscapeSlash(b)
  {
    if a == "" {
      assert a + b == b;
    } else {
      var head := if a[0] == '/' then "~1" else [a[0]];
      calc {
        EscapeSlash(a + b);
        { assert (a + b)[1..] == a[1..] + b; }
        head + EscapeSlash(a[1..] + b);
        { EscapeSlashConcat(a[1..], b); }
        head + (EscapeSlash(a[1..]) + EscapeSlash(b));
        EscapeSlash(a) + EscapeSlash(b);
      }
    }
  }

  /** One key character is escaped independently of the rest. */
  lemma EscapeStep(key: string)
    requires key != ""
    ensures Escape(key) ==
            (if key[0] == '~' then "~0" else if key[0] == '/' then "~1" else [key[0]]) + Escape(key[1..])
  {
    var head := if key[0] == '~' then "~0" else [key[0]];
    EscapeSlashConcat(head, EscapeTilde(key[1..]));
    if key[0] == '~' {
      assert EscapeSlash("~0") == "~" + EscapeSlash("0") == "~0";
    } else {
      assert EscapeSlash([key[0]]) == if key[0] == '/' then "~1" else [key[0]];
    }
  }

  /** Replacing "~1" passes over one escaped character. */
  lemma ReplaceHead(c: char, rest: string)
    ensures c == '~' ==> Replace("~0" + rest, '1', '/') == "~0" + Replace(rest, '1', '/')
    ensures c == '/' ==> Replace("~1" + rest, '1', '/') == "/" + Replace(rest, '1', '/')
    ensures c != '~' && c != '/' ==> Replace([c] + rest, '1', '/') == [c] + Replace(rest, '1', '/')
  {
    if c == '~' {
      calc {
        Replace("~0" + rest, '1', '/');
        { assert ("~0" + rest)[1..] == "0" + rest; }
        "~" + Replace("0" + rest, '1', '/');
        { assert ("0" + rest)[1..] == rest; }
        "~" + ("0" + Replace(rest, '1', '/'));
        "~0" + Replace(rest, '1', '/');
      }
    } else if c == '/' {
      assert ("~1" + rest)[2..] == rest;
    } else {
      assert ([c] + rest)[1..] == rest;
    }
  }

  /** The first replacement turns an escaped key into the key with only its tildes escaped. */
  lemma {:induction false} UnescapeSlashes(key: string)
    ensures Replace(Escape(key), '1', '/') == EscapeTilde(key)
  {
    if key != "" {
      EscapeStep(key);
      UnescapeSlashes(key[1..]);
      ReplaceHead(key[0], Escape(key[1..]));
    }
  }

  lemma {:induction false} UnescapeTildes(key: string)
    ensures Replace(EscapeTilde(key), '0', '~') == key
  {
    if key != "" {
      UnescapeTildes(key[1..]);
      var rest := EscapeTilde(key[1..]);
      if key[0] == '~' {
        assert ("~0" + rest)[2..] == rest;
      } else {
        assert ([key[0]] + rest)[1..] == rest;
      }
    }
  }

  /** Unescaping undoes escaping on every string, in the replacement order both Go files use. */
  lemma UnescapeEscape(key: string)
    ensures Unescape(Escape(key)) == key
  {
    UnescapeSlashes(key);
    UnescapeTildes(key);
  }

  lemma {:induction false} EscapeHasNoSlash(key: string)
    ensures '/' !in Escape(key)
  {
    if key != "" {
      EscapeStep(key);
      EscapeHasNoSlash(key[1..]);
    }
  }

  // ----- localPointer of the comparator: objects only, no array indices

  predicate IsLocal(ref: string) {
    "#/" <= ref
  }

  function Walk(current: Json, tokens: seq<string>): Option<Json> {
    if tokens == [] then Some(current)
    else if !current.Obj? || Unescape(tokens[0]) !in current.fields then None
    else Walk(current.fields[Unescape(tokens[0])], tokens[1..])
  }

  function LocalPointer(doc: Fields, ref: string): Option<Json>
    requires IsLocal(ref)
  {
    Walk(Obj(doc), Split(ref[2..], '/'))
  }

  /** A local reference is "#/" and a pointer's tokens; a single token selects a member of the document. */
  lemma LocalIs(doc: Fields, token: string)
    requires '/' !in token
    ensures IsLocal("#/" + token)
    ensures LocalPointer(doc, "#/" + token) == if Unescape(token) in doc then Some(doc[Unescape(token)]) else None
  {
    assert ("#/" + token)[2..] == token;
    SplitOfAtom(token, '/');
    var tokens := [token];
    assert Walk(Obj(doc), tokens) ==
           if Unescape(token) in doc then Walk(doc[Unescape(token)], tokens[1..]) else None;
  }

  /** The source's loop over the split reference. */
  method FollowPointer(doc: Fields, ref: string) returns (target: Option<Json>)
    requires IsLocal(ref)
    ensures target == LocalPointer(doc, ref)
  {
    var current := Obj(doc);
    var tokens := Split(ref[2..], '/');
    for i := 0 to |tokens|
      invariant Walk(current, tokens[i..]) == LocalPointer(doc, ref)
    {
      var part := Unescape(tokens[i]);
      assert tokens[i..][1..] == tokens[i + 1..];
      if !current.Obj? || part !in current.fields {
        return None;
      }
      current := current.fields[part];
    }
    return Some(current);
  }

  /** A pointer that resolves leads to a value of the document. */
  lemma {:induction false} WalkStaysInside(doc: Json, current: Json, tokens: seq<string>)
    requires current in SubValues(doc) && Walk(current, tokens).Some?
    ensures Walk(current, tokens).value in SubValues(doc)
    decreases |tokens|
  {
    if tokens != [] {
      ChildInside(doc, current, Unescape(tokens[0]));
      WalkStaysInside(doc, current.fields[Unescape(tokens[0])], tokens[1..]);
    }
  }
}
