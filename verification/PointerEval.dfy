/** Evaluation of a JSON Pointer against a document, sections 3 and 4 of RFC 6901: the reference the
flattened paths of the config diff are compared with. */
module PointerEval {
  import opened Json
  import opened JsonPointer
  import opened Decimal

  /** A reference token: no slash, and every tilde starts "~0" or "~1". */
  predicate IsToken(t: string) {
    t == "" ||
    if t[0] == '~' then |t| >= 2 && (t[1] == '0' || t[1] == '1') && IsToken(t[2..])
    else t[0] != '/' && IsToken(t[1..])
  }

  lemma {:induction false} EscapeIsToken(key: string)
    ensures IsToken(Escape(key))
  {
    if key != "" {
      EscapeStep(key);
      EscapeIsToken(key[1..]);
      var rest := Escape(key[1..]);
      assert key[0] == '~' ==> ("~0" + rest)[2..] == rest;
      assert key[0] == '/' ==> ("~1" + rest)[2..] == rest;
      assert ([key[0]] + rest)[1..] == rest;
    }
  }

  /** Unescaping one escaped character. */
  lemma UnescapeHead(c: char, rest: string)
    ensures Unescape("~0" + rest) == "~" + Unescape(rest)
    ensures Unescape("~1" + rest) == "/" + Unescape(rest)
    ensures c != '~' && c != '/' ==> Unescape([c] + rest) == [c] + Unescape(rest)
  {
    ReplaceHead('~', rest);
    ReplaceHead('/', rest);
    ReplaceHead(c, rest);
    var middle := Replace(rest, '1', '/');
    assert ("~0" + middle)[2..] == middle;
    assert ("/" + middle)[1..] == middle;
    assert ([c] + middle)[1..] == middle;
  }

  /** Escaping undoes unescaping on every token, so a token names exactly one key. */
  lemma {:induction false} EscapeUnescape(t: string)
    requires IsToken(t)
    ensures Escape(Unescape(t)) == t
  {
    if t == "" {
    } else if t[0] == '~' {
      EscapeUnescape(t[2..]);
      UnescapeHead(t[0], t[2..]);
      assert t == (if t[1] == '0' then "~0" else "~1") + t[2..];
      assert Unescape(t)[1..] == Unescape(t[2..]);
      EscapeStep(Unescape(t));
    } else {
      EscapeUnescape(t[1..]);
      UnescapeHead(t[0], t[1..]);
      assert t == [t[0]] + t[1..];
      assert Unescape(t)[1..] == Unescape(t[1..]);
      EscapeStep(Unescape(t));
    }
  }

  /** The member or item a token selects. */
  function Child(j: Json, t: string): Option<Json> {
    match j
    case Obj(f) => if IsToken(t) && Unescape(t) in f then Some(f[Unescape(t)]) else None
    case Arr(items) => if IsIndex(t) && Value(t) < |items| then Some(items[Value(t)]) else None
    case _ => None
  }

  /** The text up to the first slash. */
  function Token(s: string): string {
    if s == "" || s[0] == '/' then "" else [s[0]] + Token(s[1..])
  }

  lemma {:induction false} TokenIsPrefix(s: string)
    ensures Token(s) <= s
  {
    if s != "" && s[0] != '/' {
      TokenIsPrefix(s[1..]);
    }
  }

  function Eval(j: Json, pointer: string): Option<Json>
    decreases |pointer|
  {
    if pointer == "" then Some(j)
    else if pointer[0] != '/' then None
    else
      TokenIsPrefix(pointer[1..]);
      var t := Token(pointer[1..]);
      match Child(j, t)
      case None => None
      case Some(child) => Eval(child, pointer[1 + |t|..])
  }

  /** A value that is not a container. */
  predicate IsScalar(j: Json) {
    !j.Arr? && !j.Obj?
  }

  /** The scalar a pointer leads to. */
  function Leaf(j: Json, pointer: string): Option<Json> {
    match Eval(j, pointer)
    case None => None
    case Some(v) => if IsScalar(v) then Some(v) else None
  }

  /** The text after a token: nothing, or the next token's slash. */
  predicate Boundary(rest: string) {
    rest != "" ==> rest[0] == '/'
  }

  lemma {:induction false} TokenStops(t: string, rest: string)
    requires '/' !in t && Boundary(rest)
    ensures Token(t + rest) == t
  {
    if t == "" {
      assert t + rest == rest;
    } else {
      TokenStops(t[1..], rest);
      assert (t + rest)[1..] == t[1..] + rest;
    }
  }

  lemma {:induction false} TokenBoundary(s: string)
    ensures Token(s) <= s && '/' !in Token(s) && Boundary(s[|Token(s)|..])
  {
    if s != "" && s[0] != '/' {
      TokenBoundary(s[1..]);
      assert s[|Token(s)|..] == s[1..][|Token(s[1..])|..];
    }
  }

  /** One token in front of a pointer. */
  lemma EvalStep(j: Json, t: string, rest: string)
    requires '/' !in t && Boundary(rest)
    ensures Eval(j, "/" + t + rest) == match Child(j, t) case None => None case Some(child) => Eval(child, rest)
  {
    var p := "/" + t + rest;
    TokenStops(t, rest);
    assert p[1..] == t + rest && p[1 + |t|..] == rest;
  }

  lemma EvalBoundary(j: Json, s: string)
    ensures Eval(j, s).Some? ==> Boundary(s)
  {
  }

  /** A pointer that does not name the whole document starts with a token that selects a child. */
  lemma EvalUnfold(j: Json, p: string) returns (t: string, rest: string)
    requires p != "" && Eval(j, p).Some?
    ensures '/' !in t && Boundary(rest) && p == "/" + t + rest
    ensures Child(j, t).Some? && Eval(j, p) == Eval(Child(j, t).value, rest)
  {
    TokenBoundary(p[1..]);
    t := Token(p[1..]);
    rest := p[1 + |t|..];
    assert p[1..][|t|..] == rest;
    assert p == "/" + t + rest;
  }

  /** The members of an object are selected by their escaped keys, one each. */
  lemma ObjectChild(f: Fields, t: string)
    ensures Child(Obj(f), t).Some? <==> exists k :: k in f && Escape(k) == t
    ensures forall k :: k in f && Escape(k) == t ==> Child(Obj(f), t) == Some(f[k])
  {
    forall k | k in f && Escape(k) == t ensures Child(Obj(f), t) == Some(f[k]) {
      EscapeIsToken(k);
      UnescapeEscape(k);
    }
    if IsToken(t) {
      EscapeUnescape(t);
    }
  }

  /** The items of an array are selected by their positions in decimal. */
  lemma ArrayChild(items: seq<Json>, t: string)
    ensures Child(Arr(items), t).Some? <==> exists i :: 0 <= i < |items| && Digits(i) == t
    ensures forall i :: 0 <= i < |items| && Digits(i) == t ==> Child(Arr(items), t) == Some(items[i])
  {
    forall i | 0 <= i < |items| && Digits(i) == t ensures Child(Arr(items), t) == Some(items[i]) {
      DigitsRoundTrip(i);
    }
    if IsIndex(t) {
      IndexRoundTrip(t);
    }
  }

  lemma DigitsHaveNoSlash(n: nat)
    ensures '/' !in Digits(n)
  {
    DigitsRoundTrip(n);
  }
}
