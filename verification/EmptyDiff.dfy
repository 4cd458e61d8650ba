/** What an empty config diff means: exactly which documents the diff cannot tell apart. */
module EmptyDiff {
  import opened Json
  import opened JsonPointer
  import opened Decimal
  import opened PointerEval
  import opened ConfigDiff

  /** No scalar anywhere inside: an empty container, or containers of such. */
  predicate Bare(j: Json) {
    match j
    case Obj(f) => forall k | k in f :: Bare(f[k])
    case Arr(items) => forall i | 0 <= i < |items| :: Bare(items[i])
    case _ => false
  }

  /** The pointer tokens of a container that lead to a scalar somewhere. */
  function Tokens(j: Json): set<string> {
    match j
    case Obj(f) => set k | k in f && !Bare(f[k]) :: Escape(k)
    case Arr(items) => set i | 0 <= i < |items| && !Bare(items[i]) :: Digits(i)
    case _ => {}
  }

  /** Equal scalars; or two containers, of either kind, whose children with a scalar inside stand under the same
  tokens and are alike. */
  predicate Alike(a: Json, b: Json)
    decreases a
  {
    if IsScalar(a) || IsScalar(b) then a == b
    else
      && Tokens(a) == Tokens(b)
      && forall t | t in Tokens(a) :: Child(a, t).Some? && Child(b, t).Some? && Alike(Child(a, t).value, Child(b, t).value)
  }

  ghost predicate SameLeaves(a: Json, b: Json) {
    forall p :: Leaf(a, p) == Leaf(b, p)
  }

  lemma TokenIs(j: Json, t: string)
    ensures t in Tokens(j) <==> Child(j, t).Some? && !Bare(Child(j, t).value)
    ensures t in Tokens(j) ==> '/' !in t
  {
    match j
    case Obj(f) =>
      ObjectChild(f, t);
      if t in Tokens(j) {
        var k :| k in f && !Bare(f[k]) && Escape(k) == t;
        EscapeHasNoSlash(k);
      }
    case Arr(items) =>
      ArrayChild(items, t);
      if t in Tokens(j) {
        var i :| 0 <= i < |items| && !Bare(items[i]) && Digits(i) == t;
        DigitsHaveNoSlash(i);
      }
    case _ =>
  }

  lemma LeafStep(j: Json, t: string, rest: string)
    requires '/' !in t && Boundary(rest)
    ensures Leaf(j, "/" + t + rest) == match Child(j, t) case None => None case Some(child) => Leaf(child, rest)
  {
    EvalStep(j, t, rest);
  }

  /** A document has a leaf exactly when it is not bare. */
  lemma {:induction false} HasLeaf(j: Json) returns (p: string)
    requires !Bare(j)
    ensures Leaf(j, p).Some?
    decreases j
  {
    if IsScalar(j) {
      p := "";
    } else {
      var t :| t in Tokens(j) by {
        match j
        case Obj(f) => var k :| k in f && !Bare(f[k]); assert Escape(k) in Tokens(j);
        case Arr(items) => var i :| 0 <= i < |items| && !Bare(items[i]); assert Digits(i) in Tokens(j);
      }
      TokenIs(j, t);
      var rest := HasLeaf(Child(j, t).value);
      EvalBoundary(Child(j, t).value, rest);
      LeafStep(j, t, rest);
      p := "/" + t + rest;
    }
  }

  lemma {:induction false} BareHasNoLeaf(j: Json, p: string)
    requires Bare(j)
    ensures Leaf(j, p) == None
    decreases j
  {
    if p != "" && Eval(j, p).Some? {
      var t, rest := EvalUnfold(j, p);
      match j {
        case Obj(f) => ObjectChild(f, t);
        case Arr(items) => ArrayChild(items, t);
      }
      BareHasNoLeaf(Child(j, t).value, rest);
    }
  }

  /** A leaf of a container is a leaf of one of its children with a scalar inside. */
  lemma LeafUnder(j: Json, p: string) returns (t: string, rest: string)
    requires !IsScalar(j) && Leaf(j, p).Some?
    ensures t in Tokens(j) && '/' !in t && Boundary(rest) && p == "/" + t + rest
    ensures Child(j, t).Some? && Leaf(j, p) == Leaf(Child(j, t).value, rest)
  {
    t, rest := EvalUnfold(j, p);
    TokenIs(j, t);
    if Bare(Child(j, t).value) {
      BareHasNoLeaf(Child(j, t).value, rest);
    }
  }

  /** Alike documents have the same leaves. */
  lemma {:induction false} AlikeLeaf(a: Json, b: Json, p: string)
    requires Alike(a, b) && Leaf(a, p).Some?
    ensures Leaf(b, p) == Leaf(a, p)
    decreases a
  {
    if !IsScalar(a) && !IsScalar(b) {
      var t, rest := LeafUnder(a, p);
      AlikeLeaf(Child(a, t).value, Child(b, t).value, rest);
      LeafStep(b, t, rest);
    }
  }

  lemma {:induction false} AlikeBack(a: Json, b: Json)
    requires Alike(a, b)
    ensures Alike(b, a)
    decreases a
  {
    if !IsScalar(a) && !IsScalar(b) {
      forall t | t in Tokens(b) ensures Alike(Child(b, t).value, Child(a, t).value) {
        AlikeBack(Child(a, t).value, Child(b, t).value);
      }
    }
  }

  /** A child with a leaf is a child of both, with the same leaves. */
  lemma SharedChild(a: Json, b: Json, t: string)
    requires SameLeaves(a, b) && t in Tokens(a)
    ensures t in Tokens(b) && Child(a, t).Some? && Child(b, t).Some? && SameLeaves(Child(a, t).value, Child(b, t).value)
  {
    TokenIs(a, t);
    var x := Child(a, t).value;
    var leaf := HasLeaf(x);
    EvalBoundary(x, leaf);
    LeafStep(a, t, leaf);
    LeafStep(b, t, leaf);
    assert Child(b, t).Some?;
    var y := Child(b, t).value;
    forall p ensures Leaf(x, p) == Leaf(y, p) {
      if Boundary(p) {
        LeafStep(a, t, p);
        LeafStep(b, t, p);
      }
    }
    if Bare(y) {
      BareHasNoLeaf(y, leaf);
    }
    TokenIs(b, t);
  }

  lemma SameLeavesBack(a: Json, b: Json)
    requires SameLeaves(a, b)
    ensures SameLeaves(b, a)
  {
  }

  lemma {:induction false} SameLeavesAlike(a: Json, b: Json)
    requires SameLeaves(a, b)
    ensures Alike(a, b)
    decreases a
  {
    assert Leaf(a, "") == Leaf(b, "");
    if !IsScalar(a) && !IsScalar(b) {
      SameLeavesBack(a, b);
      forall t | t in Tokens(b) ensures t in Tokens(a) {
        SharedChild(b, a, t);
      }
      forall t | t in Tokens(a)
        ensures t in Tokens(b) && Child(a, t).Some? && Child(b, t).Some? && Alike(Child(a, t).value, Child(b, t).value)
      {
        SharedChild(a, b, t);
        TokenIs(a, t);
        TokenIs(b, t);
        SameLeavesAlike(Child(a, t).value, Child(b, t).value);
      }
    }
  }

  /** Documents have the same leaves exactly when they are alike. */
  lemma SameLeavesIffAlike(a: Json, b: Json)
    ensures SameLeaves(a, b) <==> Alike(a, b)
  {
    if SameLeaves(a, b) {
      SameLeavesAlike(a, b);
    }
    if Alike(a, b) {
      AlikeBack(a, b);
      forall p ensures Leaf(a, p) == Leaf(b, p) {
        if Leaf(a, p).Some? {
          AlikeLeaf(a, b, p);
        } else if Leaf(b, p).Some? {
          AlikeLeaf(b, a, p);
        }
      }
    }
  }

  /** For any two documents the diff is empty exactly when they are alike. */
  lemma EmptyIffAlike(entries: seq<Entry>, before: Json, after: Json)
    requires Describes(entries, before, after)
    ensures entries == [] <==> Alike(before, after)
  {
    EmptyIffSame(entries, before, after);
    SameLeavesIffAlike(before, after);
  }

  // ----- documents that are alike only when equal

  /** No empty object or array anywhere. */
  predicate Solid(j: Json) {
    match j
    case Obj(f) => f != map[] && forall k | k in f :: Solid(f[k])
    case Arr(items) => items != [] && forall i | 0 <= i < |items| :: Solid(items[i])
    case _ => true
  }

  /** No object key that reads as an array index. */
  predicate Plain(j: Json) {
    match j
    case Obj(f) => forall k | k in f :: !IsIndex(Escape(k)) && Plain(f[k])
    case Arr(items) => forall i | 0 <= i < |items| :: Plain(items[i])
    case _ => true
  }

  lemma {:induction false} SolidIsNotBare(j: Json)
    requires Solid(j)
    ensures !Bare(j)
    decreases j
  {
    match j
    case Obj(f) =>
      var k :| k in f;
      SolidIsNotBare(f[k]);
    case Arr(items) => SolidIsNotBare(items[0]);
    case _ =>
  }

  lemma MemberToken(f: Fields, k: string)
    requires Solid(Obj(f)) && k in f
    ensures Escape(k) in Tokens(Obj(f)) && Child(Obj(f), Escape(k)) == Some(f[k])
  {
    SolidIsNotBare(f[k]);
    ObjectChild(f, Escape(k));
  }

  lemma ItemToken(items: seq<Json>, i: nat)
    requires Solid(Arr(items)) && i < |items|
    ensures Digits(i) in Tokens(Arr(items)) && Child(Arr(items), Digits(i)) == Some(items[i])
  {
    SolidIsNotBare(items[i]);
    ArrayChild(items, Digits(i));
  }

  /** A token of an object is the escape of one of its keys; a token of an array is an index in range. */
  lemma TokenOfMember(f: Fields, k: string)
    requires Escape(k) in Tokens(Obj(f))
    ensures k in f
  {
    var k' :| k' in f && Escape(k') == Escape(k);
    UnescapeEscape(k);
    UnescapeEscape(k');
  }

  lemma TokenOfItem(items: seq<Json>, i: nat)
    requires Digits(i) in Tokens(Arr(items))
    ensures i < |items|
  {
    var i' :| 0 <= i' < |items| && Digits(i') == Digits(i);
    DigitsInjective(i, i');
  }

  /** Containers of different kinds share no token when keys do not read as indices. */
  lemma KindsDiffer(f: Fields, items: seq<Json>, t: string)
    requires Plain(Obj(f)) && t in Tokens(Arr(items))
    ensures t !in Tokens(Obj(f))
  {
    var i :| 0 <= i < |items| && Digits(i) == t;
    DigitsRoundTrip(i);
  }

  ghost predicate Ordinary(j: Json) {
    Solid(j) && Plain(j)
  }

  lemma SameKind(a: Json, b: Json)
    requires Alike(a, b) && Ordinary(a) && Ordinary(b) && !IsScalar(a) && !IsScalar(b)
    ensures a.Obj? <==> b.Obj?
  {
    if a.Obj? && b.Arr? {
      ItemToken(b.items, 0);
      KindsDiffer(a.fields, b.items, Digits(0));
    } else if a.Arr? && b.Obj? {
      ItemToken(a.items, 0);
      KindsDiffer(b.fields, a.items, Digits(0));
    }
  }

  lemma SameMember(a: Json, b: Json, k: string)
    requires Alike(a, b) && Ordinary(a) && Ordinary(b) && a.Obj? && b.Obj?
    ensures k in a.fields <==> k in b.fields
    ensures k in a.fields ==> Alike(a.fields[k], b.fields[k]) && Ordinary(a.fields[k]) && Ordinary(b.fields[k])
  {
    if k in a.fields {
      MemberToken(a.fields, k);
      TokenOfMember(b.fields, k);
      MemberToken(b.fields, k);
    } else if k in b.fields {
      MemberToken(b.fields, k);
      TokenOfMember(a.fields, k);
    }
  }

  lemma SameItem(a: Json, b: Json, i: nat)
    requires Alike(a, b) && Ordinary(a) && Ordinary(b) && a.Arr? && b.Arr?
    ensures i < |a.items| <==> i < |b.items|
    ensures i < |a.items| ==> Alike(a.items[i], b.items[i]) && Ordinary(a.items[i]) && Ordinary(b.items[i])
  {
    if i < |a.items| {
      ItemToken(a.items, i);
      TokenOfItem(b.items, i);
      ItemToken(b.items, i);
    } else if i < |b.items| {
      ItemToken(b.items, i);
      TokenOfItem(a.items, i);
    }
  }

  lemma {:induction false} AlikeIsEqual(a: Json, b: Json)
    requires Alike(a, b) && Ordinary(a) && Ordinary(b)
    ensures a == b
    decreases a
  {
    if !IsScalar(a) && !IsScalar(b) {
      SameKind(a, b);
      hide Alike, Ordinary;
      if a.Obj? {
        forall k ensures k in a.fields <==> k in b.fields
                 ensures k in a.fields ==> a.fields[k] == b.fields[k] {
          SameMember(a, b, k);
          if k in a.fields {
            AlikeIsEqual(a.fields[k], b.fields[k]);
          }
        }
        assert a.fields == b.fields;
      } else {
        SameItem(a, b, |a.items|);
        SameItem(a, b, |b.items|);
        forall i | 0 <= i < |a.items| ensures a.items[i] == b.items[i] {
          SameItem(a, b, i);
          AlikeIsEqual(a.items[i], b.items[i]);
        }
        assert a.items == b.items;
      }
    }
  }

  lemma {:induction false} AlikeItself(a: Json)
    ensures Alike(a, a)
  {
    SameLeavesAlike(a, a);
  }

  /** For documents without empty containers and index-like keys the diff is empty exactly when nothing changed. */
  lemma EmptyIffEqual(entries: seq<Entry>, before: Json, after: Json)
    requires Describes(entries, before, after)
    requires Solid(before) && Solid(after) && Plain(before) && Plain(after)
    ensures entries == [] <==> before == after
  {
    EmptyIffAlike(entries, before, after);
    if Alike(before, after) {
      AlikeIsEqual(before, after);
    } else if before == after {
      AlikeItself(before);
    }
  }

  /** Without the first condition a change can go unseen: an empty list added. */
  lemma EmptyContainerIsUnseen(key: string)
    ensures Alike(Obj(map[]), Obj(map[key := Arr([])])) && Obj(map[]) != Obj(map[key := Arr([])])
  {
    assert key in map[key := Arr([])];
    assert Bare(Arr([]));
  }

  /** Without the second one too: an array turned into an object with the keys "0", "1", ... */
  lemma IndexKeyIsUnseen(value: Json)
    ensures Alike(Arr([value]), Obj(map["0" := value]))
  {
    var a, b := Arr([value]), Obj(map["0" := value]);
    assert Escape("0") == "0" by {
      EscapeStep("0");
      assert "0"[1..] == "";
    }
    forall t ensures Child(a, t) == Child(b, t) {
      ArrayChild([value], t);
      ObjectChild(map["0" := value], t);
      assert Digits(0) == "0";
    }
    forall p ensures Leaf(a, p) == Leaf(b, p) {
    }
    SameLeavesAlike(a, b);
  }
}
