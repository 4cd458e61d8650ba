/** `$ref` resolution of the compatibility comparator: a chain of local references, each target
overlaid with the siblings of the reference, and the chain itself as the identity of the result. */
module OpenApiResolve {
  import opened Json
  import opened JsonPointer
  import Text

  /** `current["$ref"].(string)`, or "" when there is none. */
  function RefOf(f: Fields): string {
    match Field(f, "$ref") case Str(s) => s case _ => ""
  }

  /** The result of `resolve`: no fields at all for a value that is not an object. */
  datatype Resolved = Resolved(found: bool, fields: Fields, id: string)

  const NOT_AN_OBJECT := Resolved(false, map[], "")

  /** `strings.Join(refs, "->")`. */
  function JoinRefs(refs: seq<string>): string {
    if refs == [] then "" else if |refs| == 1 then refs[0] else refs[0] + "->" + JoinRefs(refs[1..])
  }

  /** One reference is its own identity; each further one is appended after an arrow. */
  lemma {:induction false} JoinAppend(refs: seq<string>, ref: string)
    ensures JoinRefs(refs + [ref]) == if refs == [] then ref else JoinRefs(refs) + "->" + ref
  {
    if refs != [] {
      assert (refs + [ref])[1..] == refs[1..] + [ref];
      JoinAppend(refs[1..], ref);
    }
  }

  /** The target with the siblings of `$ref` written over it. */
  function Overlay(target: Fields, current: Fields): Fields {
    target + (current - {"$ref"})
  }

  /** Every reference written anywhere in a document. */
  function RefStrings(doc: Fields): set<string> {
    set x | x in SubValues(Obj(doc)) && x.Obj? && RefOf(x.fields) != "" :: RefOf(x.fields)
  }

  /** The references that can still be followed: those of the document and the one at hand, less
  those already followed. It shrinks with every reference followed, however cyclic the document. */
  function Pending(doc: Fields, current: Fields, refs: seq<string>): set<string> {
    RefStrings(doc) + (if RefOf(current) == "" then {} else {RefOf(current)}) - (set r | r in refs)
  }

  predicate Stops(current: Fields, refs: seq<string>) {
    var ref := RefOf(current);
    ref == "" || !IsLocal(ref) || ref in refs
  }

  lemma FollowingShrinks(doc: Fields, current: Fields, refs: seq<string>)
    requires !Stops(current, refs)
    requires LocalPointer(doc, RefOf(current)).Some? && LocalPointer(doc, RefOf(current)).value.Obj?
    ensures var target := LocalPointer(doc, RefOf(current)).value.fields;
            && RefOf(Overlay(target, current)) == RefOf(target)
            && Pending(doc, Overlay(target, current), refs + [RefOf(current)]) < Pending(doc, current, refs)
  {
    var ref := RefOf(current);
    var target := LocalPointer(doc, ref).value;
    WalkStaysInside(Obj(doc), Obj(doc), Text.Split(ref[2..], '/'));
    assert RefOf(Overlay(target.fields, current)) == RefOf(target.fields);
    assert RefOf(target.fields) != "" ==> RefOf(target.fields) in RefStrings(doc);
    var next := Pending(doc, Overlay(target.fields, current), refs + [ref]);
    assert next <= Pending(doc, current, refs);
    assert ref in Pending(doc, current, refs) && ref !in next by {
      assert ref in refs + [ref];
    }
  }

  function ResolveFrom(doc: Fields, current: Fields, refs: seq<string>): (r: Resolved)
    ensures r.found
    decreases Pending(doc, current, refs)
  {
    var ref := RefOf(current);
    if Stops(current, refs) then Resolved(true, current, JoinRefs(refs))
    else
      var target := LocalPointer(doc, ref);
      if target.None? || !target.value.Obj? then Resolved(true, current, JoinRefs(refs + [ref]))
      else
        FollowingShrinks(doc, current, refs);
        ResolveFrom(doc, Overlay(target.value.fields, current), refs + [ref])
  }

  function Resolve(doc: Fields, value: Json): (r: Resolved)
    ensures r.found <==> value.Obj?
  {
    if value.Obj? then ResolveFrom(doc, value.fields, []) else NOT_AN_OBJECT
  }

  /** The source's loop, with its `visited` set and its growing list of references. */
  method ResolveLoop(doc: Fields, value: Json) returns (r: Resolved)
    ensures r == Resolve(doc, value)
  {
    if !value.Obj? {
      return NOT_AN_OBJECT;
    }
    var current := value.fields;
    var refs: seq<string> := [];
    var visited: set<string> := {};
    while true
      invariant visited == set x | x in refs
      invariant ResolveFrom(doc, current, refs) == Resolve(doc, value)
      decreases Pending(doc, current, refs)
    {
      var ref := RefOf(current);
      if ref == "" || !IsLocal(ref) || ref in visited {
        return Resolved(true, current, JoinRefs(refs));
      }
      var target := FollowPointer(doc, ref);
      if target.None? || !target.value.Obj? {
        return Resolved(true, current, JoinRefs(refs + [ref]));
      }
      FollowingShrinks(doc, current, refs);
      visited := visited + {ref};
      refs := refs + [ref];
      current := Overlay(target.value.fields, current);
    }
  }

  // ----- where the resolved fields come from

  ghost predicate FieldsInside(doc: Fields, f: Fields) {
    forall k :: k in f ==> f[k] in SubValues(Obj(doc))
  }

  lemma {:induction false} ResolveFromInside(doc: Fields, current: Fields, refs: seq<string>)
    requires FieldsInside(doc, current)
    ensures FieldsInside(doc, ResolveFrom(doc, current, refs).fields)
    decreases Pending(doc, current, refs)
  {
    if !Stops(current, refs) {
      var ref := RefOf(current);
      var target := LocalPointer(doc, ref);
      if target.Some? && target.value.Obj? {
        WalkStaysInside(Obj(doc), Obj(doc), Text.Split(ref[2..], '/'));
        forall k | k in target.value.fields ensures target.value.fields[k] in SubValues(Obj(doc)) {
          ChildInside(Obj(doc), target.value, k);
        }
        FollowingShrinks(doc, current, refs);
        ResolveFromInside(doc, Overlay(target.value.fields, current), refs + [ref]);
      }
    }
  }

  /** A value the comparator may be handed: one of the document's, or a missing one. */
  ghost predicate Known(doc: Fields, value: Json) {
    value == Null || value in SubValues(Obj(doc))
  }

  /** Whatever siblings are overlaid, the entries of a resolved object are values of the document. */
  lemma ResolveInside(doc: Fields, value: Json)
    requires Known(doc, value)
    ensures FieldsInside(doc, Resolve(doc, value).fields)
  {
    if value.Obj? {
      forall k | k in value.fields ensures value.fields[k] in SubValues(Obj(doc)) {
        ChildInside(Obj(doc), value, k);
      }
      ResolveFromInside(doc, value.fields, []);
    }
  }

  lemma {:induction false} IdOfFollowed(doc: Fields, current: Fields, refs: seq<string>)
    requires refs != [] && refs[0] != ""
    ensures ResolveFrom(doc, current, refs).id != ""
    decreases Pending(doc, current, refs)
  {
    var ref := RefOf(current);
    assert JoinRefs(refs) != "";
    if !Stops(current, refs) {
      assert (refs + [ref])[0] == refs[0];
      var target := LocalPointer(doc, ref);
      if target.Some? && target.value.Obj? {
        FollowingShrinks(doc, current, refs);
        IdOfFollowed(doc, Overlay(target.value.fields, current), refs + [ref]);
      }
    }
  }

  /** An empty identity means nothing was followed: the object is the value as written. */
  lemma NoIdMeansInline(doc: Fields, value: Json)
    requires value.Obj?
    ensures Resolve(doc, value).id == "" <==> Stops(value.fields, [])
    ensures Resolve(doc, value).id == "" ==> Resolve(doc, value).fields == value.fields
  {
    var ref := RefOf(value.fields);
    if !Stops(value.fields, []) {
      var target := LocalPointer(doc, ref);
      assert [] + [ref] == [ref];
      if target.Some? && target.value.Obj? {
        FollowingShrinks(doc, value.fields, []);
        IdOfFollowed(doc, Overlay(target.value.fields, value.fields), [ref]);
      }
    }
  }
}
