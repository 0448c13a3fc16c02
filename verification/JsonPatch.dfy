/** JSON documents and the patch operations the console sends, as sections 4 and 5 of RFC 6902 apply them. */
module JsonPatch {
  import opened Options

  datatype Json =
    | Null
    | Text(text: string)
    | Arr(items: seq<Json>)
    | Obj(members: map<string, Json>)

  /** One reference token of a JSON pointer: a member name, an index, or the end of an array. */
  datatype Token = Key(name: string) | At(index: nat) | End

  datatype Op =
    | Add(path: seq<Token>, value: Json)
    | Replace(path: seq<Token>, value: Json)
    | Remove(path: seq<Token>)
    | Test(path: seq<Token>, value: Json)

  function Child(doc: Json, t: Token): Option<Json> {
    if t.Key? && doc.Obj? && t.name in doc.members then Some(doc.members[t.name])
    else if t.At? && doc.Arr? && t.index < |doc.items| then Some(doc.items[t.index])
    else None
  }

  function Get(doc: Json, path: seq<Token>): Option<Json>
    decreases |path|
  {
    if path == [] then Some(doc)
    else if Child(doc, path[0]).None? then None
    else Get(Child(doc, path[0]).value, path[1..])
  }

  /** doc with an existing child replaced. */
  function WithChild(doc: Json, t: Token, child: Json): Json
    requires Child(doc, t).Some?
  {
    if t.Key? then Obj(doc.members[t.name := child]) else Arr(doc.items[t.index := child])
  }

  /** add on an object sets the member, on an array inserts before the index or at the end. */
  function AddHere(doc: Json, t: Token, value: Json): Option<Json> {
    if t.Key? && doc.Obj? then Some(Obj(doc.members[t.name := value]))
    else if t.At? && doc.Arr? && t.index <= |doc.items| then
      Some(Arr(doc.items[..t.index] + [value] + doc.items[t.index..]))
    else if t.End? && doc.Arr? then Some(Arr(doc.items + [value]))
    else None
  }

  function RemoveHere(doc: Json, t: Token): Option<Json> {
    if Child(doc, t).None? then None
    else if t.Key? then Some(Obj(doc.members - {t.name}))
    else Some(Arr(doc.items[..t.index] + doc.items[t.index + 1..]))
  }

  function ReplaceHere(doc: Json, t: Token, value: Json): Option<Json> {
    if Child(doc, t).None? then None else Some(WithChild(doc, t, value))
  }

  function Here(doc: Json, t: Token, op: Op): Option<Json> {
    match op
    case Add(_, v) => AddHere(doc, t, v)
    case Replace(_, v) => ReplaceHere(doc, t, v)
    case Remove(_) => RemoveHere(doc, t)
    case Test(_, v) => if Child(doc, t) == Some(v) then Some(doc) else None
  }

  /** Applies the operation at the end of its path; the whole document is never the target. */
  function Edit(doc: Json, path: seq<Token>, op: Op): Option<Json>
    decreases |path|
  {
    if path == [] then None
    else if |path| == 1 then Here(doc, path[0], op)
    else if Child(doc, path[0]).None? then None
    else
      var inner := Edit(Child(doc, path[0]).value, path[1..], op);
      if inner.None? then None else Some(WithChild(doc, path[0], inner.value))
  }

  function ApplyOp(doc: Json, op: Op): Option<Json> {
    if op.Test? then (if Get(doc, op.path) == Some(op.value) then Some(doc) else None)
    else Edit(doc, op.path, op)
  }

  /** In order, all or nothing. */
  function Apply(doc: Json, ops: seq<Op>): Option<Json>
    decreases |ops|
  {
    if ops == [] then Some(doc)
    else if ApplyOp(doc, ops[0]).None? then None
    else Apply(ApplyOp(doc, ops[0]).value, ops[1..])
  }

  lemma {:induction false} ApplyConcat(doc: Json, a: seq<Op>, b: seq<Op>)
    ensures Apply(doc, a + b) == if Apply(doc, a).None? then None else Apply(Apply(doc, a).value, b)
    decreases |a|
  {
    if a == [] {
      assert a + b == b;
    } else {
      assert (a + b)[1..] == a[1..] + b;
      if ApplyOp(doc, a[0]).Some? { ApplyConcat(ApplyOp(doc, a[0]).value, a[1..], b); }
    }
  }

  // ---- two-level paths, the only ones the console writes under ----

  /** The member two levels down: doc.a.b */
  function Get2(doc: Json, a: string, b: string): Option<Json> {
    if Child(doc, Key(a)).None? then None else Child(Child(doc, Key(a)).value, Key(b))
  }

  lemma GetStep(doc: Json, t: Token, rest: seq<Token>)
    ensures Get(doc, [t] + rest) == if Child(doc, t).None? then None else Get(Child(doc, t).value, rest)
    ensures Get(doc, [t]) == Child(doc, t)
  {
    assert ([t] + rest)[1..] == rest && [t][1..] == [];
    if Child(doc, t).Some? { assert Get(Child(doc, t).value, []) == Child(doc, t); }
  }

  lemma GetTwo(doc: Json, a: string, b: string)
    ensures Get(doc, [Key(a), Key(b)]) == Get2(doc, a, b)
  {
    assert [Key(a), Key(b)] == [Key(a)] + [Key(b)];
    GetStep(doc, Key(a), [Key(b)]);
    if Child(doc, Key(a)).Some? { GetStep(Child(doc, Key(a)).value, Key(b), []); }
  }

  lemma GetFour(doc: Json, a: string, b: string, t: Token, u: Token)
    ensures Get(doc, [Key(a), Key(b), t, u]) ==
            if Get2(doc, a, b).None? || Child(Get2(doc, a, b).value, t).None? then None
            else Child(Child(Get2(doc, a, b).value, t).value, u)
  {
    assert [Key(a), Key(b), t, u] == [Key(a)] + [Key(b), t, u];
    assert [Key(b), t, u] == [Key(b)] + [t, u] && [t, u] == [t] + [u];
    GetStep(doc, Key(a), [Key(b), t, u]);
    if Child(doc, Key(a)).Some? { GetStep(Child(doc, Key(a)).value, Key(b), [t, u]); }
    if Get2(doc, a, b).Some? { GetStep(Get2(doc, a, b).value, t, [u]); }
    if Get2(doc, a, b).Some? && Child(Get2(doc, a, b).value, t).Some? {
      GetStep(Child(Get2(doc, a, b).value, t).value, u, []);
    }
  }

  /** doc with doc.a.b set, when doc.a is an object. */
  function Set2(doc: Json, a: string, b: string, v: Json): Json
    requires Child(doc, Key(a)).Some? && Child(doc, Key(a)).value.Obj?
  {
    Obj(doc.members[a := Obj(doc.members[a].members[b := v])])
  }

  lemma EditStep(doc: Json, t: Token, rest: seq<Token>, op: Op)
    ensures Edit(doc, [t], op) == Here(doc, t, op)
    ensures rest != [] && Child(doc, t).None? ==> Edit(doc, [t] + rest, op) == None
    ensures rest != [] && Child(doc, t).Some? ==>
      var inner := Edit(Child(doc, t).value, rest, op);
      Edit(doc, [t] + rest, op) == if inner.None? then None else Some(WithChild(doc, t, inner.value))
  {
    assert ([t] + rest)[1..] == rest;
  }

  lemma AddTwo(doc: Json, a: string, b: string, v: Json)
    ensures Edit(doc, [Key(a), Key(b)], Add([Key(a), Key(b)], v)) ==
            if Child(doc, Key(a)).None? || !Child(doc, Key(a)).value.Obj? then None else Some(Set2(doc, a, b, v))
  {
    assert [Key(a), Key(b)] == [Key(a)] + [Key(b)];
    EditStep(doc, Key(a), [Key(b)], Add([Key(a), Key(b)], v));
    if Child(doc, Key(a)).Some? { EditStep(Child(doc, Key(a)).value, Key(b), [], Add([Key(a), Key(b)], v)); }
  }

  /** An operation on the list at doc.a.b acts on that list and nothing else. */
  lemma EditList(doc: Json, a: string, b: string, t: Token, op: Op)
    ensures Edit(doc, [Key(a), Key(b), t], op) ==
            if Get2(doc, a, b).None? || Here(Get2(doc, a, b).value, t, op).None? then None
            else Some(Set2(doc, a, b, Here(Get2(doc, a, b).value, t, op).value))
  {
    assert [Key(a), Key(b), t] == [Key(a)] + [Key(b), t] && [Key(b), t] == [Key(b)] + [t];
    EditStep(doc, Key(a), [Key(b), t], op);
    if Child(doc, Key(a)).Some? { EditStep(Child(doc, Key(a)).value, Key(b), [t], op); }
    if Get2(doc, a, b).Some? { EditStep(Get2(doc, a, b).value, t, [], op); }
  }

  lemma SetTwoGet(doc: Json, a: string, b: string, v: Json, c: string, d: string)
    requires Child(doc, Key(a)).Some? && Child(doc, Key(a)).value.Obj?
    ensures Get2(Set2(doc, a, b, v), c, d) == if a == c && b == d then Some(v) else Get2(doc, c, d)
  {
  }
}
