/**
  Console clients holding stale snapshots send patches to one API server. The server stores every
  version it ever had, so a snapshot is an index into that history; a patch applies to the newest
  version, all or nothing.
*/
module PatchServer {
  import opened Options
  import opened Text
  import opened K8sNames
  import opened Numerals
  import opened JsonPatch
  import opened Patches

  // ---- documents ----

  function Rows(doc: Json): Option<seq<Json>> {
    match Get2(doc, SPEC, WAIVERS)
    case Some(Arr(items)) => Some(items)
    case _ => None
  }

  function Bound(doc: Json): Option<seq<Json>> {
    match Get2(doc, SPEC, TAILORED)
    case Some(Arr(items)) => Some(items)
    case _ => None
  }

  ghost predicate RowsOk(rows: seq<Json>) {
    && |rows| <= WAIVER_MAX
    && (forall i :: 0 <= i < |rows| ==> RowName(rows[i]).Some?)
    && (forall i, j :: 0 <= i < j < |rows| ==> RowName(rows[i]) != RowName(rows[j]))
  }

  ghost predicate BoundOk(items: seq<Json>) {
    && |items| <= TAILORED_MAX
    && (forall i :: 0 <= i < |items| ==> items[i].Text?)
    && (forall i, j :: 0 <= i < j < |items| ==> items[i] != items[j])
  }

  /** Where the lists are present they are lists, named once each and within their bounds. */
  ghost predicate DocOk(doc: Json) {
    && Child(doc, Key(SPEC)).Some? && Child(doc, Key(SPEC)).value.Obj?
    && Child(doc, Key(METADATA)).Some? && Child(doc, Key(METADATA)).value.Obj?
    && (Get2(doc, SPEC, WAIVERS).Some? ==> Rows(doc).Some? && RowsOk(Rows(doc).value))
    && (Get2(doc, SPEC, TAILORED).Some? ==> Bound(doc).Some? && BoundOk(Bound(doc).value))
  }

  /** Where the document keeps the two lists, the version and the annotations. */
  lemma PlacesExactly(spec: map<string, Json>, metadata: map<string, Json>)
    ensures var doc := Obj(map["spec" := Obj(spec), "metadata" := Obj(metadata)]);
      && Rows(doc) == (if "waivers" in spec && spec["waivers"].Arr? then Some(spec["waivers"].items) else None)
      && Bound(doc) == (if "tailoredProfiles" in spec && spec["tailoredProfiles"].Arr? then Some(spec["tailoredProfiles"].items)
                        else None)
      && Get2(doc, METADATA, VERSION) == (if "resourceVersion" in metadata then Some(metadata["resourceVersion"]) else None)
      && Get2(doc, METADATA, ANNOTATIONS) == (if "annotations" in metadata then Some(metadata["annotations"]) else None)
  {
  }

  // ---- what a request means ----

  /** Replace the named row in place, or append it. */
  function Put(rows: seq<Json>, name: string, row: Json): seq<Json> {
    var i := IndexOf(rows, name);
    if i < |rows| then rows[i := row] else rows + [row]
  }

  function Lookup(rows: seq<Json>, name: string): Option<Json> {
    var i := IndexOf(rows, name);
    if i < |rows| then Some(rows[i]) else None
  }

  /** The rows with other names, in their order. */
  function Others(rows: seq<Json>, name: string): seq<Json> {
    if rows == [] then []
    else if RowName(rows[0]) == Some(name) then Others(rows[1..], name)
    else [rows[0]] + Others(rows[1..], name)
  }

  function Taken(rows: seq<Json>, i: nat): seq<Json>
    requires i < |rows|
  {
    rows[..i] + rows[i + 1..]
  }

  lemma {:induction false} OthersConcat(a: seq<Json>, b: seq<Json>, name: string)
    ensures Others(a + b, name) == Others(a, name) + Others(b, name)
    decreases |a|
  {
    if a == [] {
      assert a + b == b;
    } else {
      assert (a + b)[1..] == a[1..] + b;
      OthersConcat(a[1..], b, name);
    }
  }

  lemma OthersSingle(row: Json, name: string)
    ensures Others([row], name) == if RowName(row) == Some(name) then [] else [row]
  {
    assert [row][1..] == [];
  }

  /** Putting a row touches no other row, not even its place among the others. */
  lemma PutKeepsOthers(rows: seq<Json>, name: string, row: Json)
    requires RowName(row) == Some(name)
    ensures Others(Put(rows, name, row), name) == Others(rows, name)
  {
    var i := IndexOf(rows, name);
    OthersSingle(row, name);
    if i < |rows| {
      assert rows == rows[..i] + [rows[i]] + rows[i + 1..];
      assert rows[i := row] == rows[..i] + [row] + rows[i + 1..];
      OthersSingle(rows[i], name);
      OthersConcat(rows[..i] + [rows[i]], rows[i + 1..], name);
      OthersConcat(rows[..i], [rows[i]], name);
      OthersConcat(rows[..i] + [row], rows[i + 1..], name);
      OthersConcat(rows[..i], [row], name);
    } else {
      OthersConcat(rows, [row], name);
    }
  }

  lemma TakenKeepsOthers(rows: seq<Json>, name: string, i: nat)
    requires i < |rows| && RowName(rows[i]) == Some(name)
    ensures Others(Taken(rows, i), name) == Others(rows, name)
  {
    assert rows == rows[..i] + [rows[i]] + rows[i + 1..];
    OthersSingle(rows[i], name);
    OthersConcat(rows[..i] + [rows[i]], rows[i + 1..], name);
    OthersConcat(rows[..i], [rows[i]], name);
    OthersConcat(rows[..i], rows[i + 1..], name);
  }

  lemma PutIsOk(rows: seq<Json>, name: string, row: Json)
    requires RowsOk(rows) && RowName(row) == Some(name) && (IndexOf(rows, name) == |rows| ==> |rows| < WAIVER_MAX)
    ensures RowsOk(Put(rows, name, row))
  {
    var i := IndexOf(rows, name);
    if i < |rows| {
      LookupIs(rows, name);
    }
  }

  /** In a list of distinct names a row is found wherever it stands. */
  lemma LookupIs(rows: seq<Json>, n: string)
    ensures forall k :: 0 <= k < |rows| && RowName(rows[k]) == Some(n) && RowsOk(rows) ==> IndexOf(rows, n) == k
  {
    var i := IndexOf(rows, n);
    forall k | 0 <= k < |rows| && RowName(rows[k]) == Some(n) && RowsOk(rows) ensures i == k {
      assert i <= k;
    }
  }

  lemma TakenIsOk(rows: seq<Json>, name: string, i: nat)
    requires RowsOk(rows) && i < |rows| && RowName(rows[i]) == Some(name)
    ensures RowsOk(Taken(rows, i))
    ensures forall n :: Lookup(Taken(rows, i), n) == if n == name then None else Lookup(rows, n)
  {
    var r := Taken(rows, i);
    assert forall k :: 0 <= k < |r| ==> r[k] == if k < i then rows[k] else rows[k + 1];
    forall n ensures Lookup(r, n) == if n == name then None else Lookup(rows, n) {
      LookupIs(rows, n);
      LookupIs(r, n);
      var k, j := IndexOf(rows, n), IndexOf(r, n);
      if n != name && k < |rows| {
        assert r[if k < i then k else k - 1] == rows[k];
      }
      if j < |r| {
        assert r[j] == rows[if j < i then j else j + 1];
      }
    }
  }

  // ---- what an accepted patch did ----

  lemma ApplyOne(doc: Json, op: Op)
    ensures Apply(doc, [op]) == ApplyOp(doc, op)
  {
    assert [op][1..] == [];
  }

  lemma ApplyTwo(doc: Json, a: Op, b: Op)
    ensures Apply(doc, [a, b]) == if ApplyOp(doc, a).None? then None else ApplyOp(ApplyOp(doc, a).value, b)
  {
    assert [a, b][1..] == [b];
    if ApplyOp(doc, a).Some? { ApplyOne(ApplyOp(doc, a).value, b); }
  }

  /** A guarded patch that applies met its own version; the guard changes nothing else. */
  lemma GuardPasses(doc: Json, version: string, ops: seq<Op>)
    requires Apply(doc, ResourceVersionTest(version) + ops).Some?
    ensures version != "" ==> Get2(doc, METADATA, VERSION) == Some(Text(version))
    ensures Apply(doc, ResourceVersionTest(version) + ops) == Apply(doc, ops)
  {
    var guard := ResourceVersionTest(version);
    ApplyConcat(doc, guard, ops);
    if version != "" {
      ApplyOne(doc, guard[0]);
      GetTwo(doc, METADATA, VERSION);
    }
  }

  /** The waiver patch lost nothing: it put its row into the list that was there. */
  lemma AddRowApplied(doc: Json, rows: Option<seq<Json>>, name: string, row: Json, version: string)
    requires DocOk(doc) && AddRow(rows, name, row, version) != [] && RowName(row) == Some(name)
    requires Apply(doc, AddRow(rows, name, row, version)).Some?
    requires rows.None? ==> Rows(doc).None?
    ensures Apply(doc, AddRow(rows, name, row, version))
         == Some(Set2(doc, SPEC, WAIVERS, Arr(Put(Rows(doc).Or([]), name, row))))
    ensures IndexOf(Rows(doc).Or([]), name) == |Rows(doc).Or([])| ==> |Rows(doc).Or([])| < WAIVER_MAX
  {
    hide Apply, ApplyOp, Get, RowsOk, ResourceVersionTest;
    var path := [Key(SPEC), Key(WAIVERS)];
    if rows.None? {
      var op := Add(path, Arr([row]));
      GuardPasses(doc, version, [op]);
      ApplyOne(doc, op);
      CreateApplied(doc, row);
      assert Put([], name, row) == [row];
    } else {
      var i := IndexOf(rows.value, name);
      if i < |rows.value| {
        var t, op := Test([Key(SPEC), Key(WAIVERS), At(i), Key("name")], Text(name)), Replace(path + [At(i)], row);
        assert op.path == [Key(SPEC), Key(WAIVERS), At(i)];
        GuardPasses(doc, version, [t, op]);
        ApplyTwo(doc, t, op);
        ReplaceApplied(doc, name, row, i);
      } else {
        var t, op := Test(path, Arr(rows.value)), Add(path + [End], row);
        assert op.path == [Key(SPEC), Key(WAIVERS), End];
        GuardPasses(doc, version, [t, op]);
        ApplyTwo(doc, t, op);
        AppendApplied(doc, WAIVERS, rows.value, row);
      }
    }
  }

  lemma CreateApplied(doc: Json, row: Json)
    requires DocOk(doc)
    ensures ApplyOp(doc, Add([Key(SPEC), Key(WAIVERS)], Arr([row]))) == Some(Set2(doc, SPEC, WAIVERS, Arr([row])))
  {
    AddTwo(doc, SPEC, WAIVERS, Arr([row]));
  }

  lemma ReplaceApplied(doc: Json, name: string, row: Json, i: nat)
    requires DocOk(doc)
    requires ApplyOp(doc, Test([Key(SPEC), Key(WAIVERS), At(i), Key("name")], Text(name))).Some?
    ensures Rows(doc).Some? && i < |Rows(doc).value| && IndexOf(Rows(doc).value, name) == i
    ensures ApplyOp(doc, Test([Key(SPEC), Key(WAIVERS), At(i), Key("name")], Text(name))) == Some(doc)
    ensures ApplyOp(doc, Replace([Key(SPEC), Key(WAIVERS), At(i)], row))
         == Some(Set2(doc, SPEC, WAIVERS, Arr(Rows(doc).value[i := row])))
  {
    hide Edit, Get;
    GetFour(doc, SPEC, WAIVERS, At(i), Key("name"));
    var op := Replace([Key(SPEC), Key(WAIVERS), At(i)], row);
    EditList(doc, SPEC, WAIVERS, At(i), op);
    LookupIs(Rows(doc).value, name);
  }

  /** The append shapes act only on the very list they tested. */
  lemma AppendApplied(doc: Json, list: string, items: seq<Json>, row: Json)
    requires ApplyOp(doc, Test([Key(SPEC), Key(list)], Arr(items))).Some?
    ensures Get2(doc, SPEC, list) == Some(Arr(items))
    ensures ApplyOp(doc, Test([Key(SPEC), Key(list)], Arr(items))) == Some(doc)
    ensures ApplyOp(doc, Add([Key(SPEC), Key(list), End], row)) == Some(Set2(doc, SPEC, list, Arr(items + [row])))
  {
    hide Edit, Get;
    GetTwo(doc, SPEC, list);
    var op := Add([Key(SPEC), Key(list), End], row);
    EditList(doc, SPEC, list, End, op);
  }

  lemma RemoveApplied(doc: Json, index: nat, name: string, version: string)
    requires DocOk(doc) && name != ""
    requires Apply(doc, RemoveWaiver(index, name, version)).Some?
    ensures Rows(doc).Some? && index < |Rows(doc).value| && RowName(Rows(doc).value[index]) == Some(name)
    ensures Apply(doc, RemoveWaiver(index, name, version))
         == Some(Set2(doc, SPEC, WAIVERS, Arr(Taken(Rows(doc).value, index))))
  {
    hide Edit, Get, Apply, ResourceVersionTest;
    var t, op := Test([Key(SPEC), Key(WAIVERS), At(index), Key("name")], Text(name)), Remove([Key(SPEC), Key(WAIVERS), At(index)]);
    GuardPasses(doc, version, [t, op]);
    ApplyTwo(doc, t, op);
    GetFour(doc, SPEC, WAIVERS, At(index), Key("name"));
    EditList(doc, SPEC, WAIVERS, At(index), op);
  }

  /** A binding patch only ever appends one new name, or creates the list it found absent. */
  lemma BindingApplied(doc: Json, current: Option<seq<string>>, name: string, version: string)
    requires DocOk(doc) && TailoredProfileBinding(current, name, version) != []
    requires Apply(doc, TailoredProfileBinding(current, name, version)).Some?
    requires current.None? ==> Bound(doc).None?
    ensures Text(name) !in Bound(doc).Or([]) && |Bound(doc).Or([])| < TAILORED_MAX
    ensures Apply(doc, TailoredProfileBinding(current, name, version))
         == Some(Set2(doc, SPEC, TAILORED, Arr(Bound(doc).Or([]) + [Text(name)])))
  {
    hide Apply, ApplyOp, Get, RowsOk, ResourceVersionTest, ValidTailoredName;
    if current.Some? {
      var items := Texts(current.value);
      var t, op := Test([Key(SPEC), Key(TAILORED)], Arr(items)), Add([Key(SPEC), Key(TAILORED), End], Text(name));
      GuardPasses(doc, version, [t, op]);
      ApplyTwo(doc, t, op);
      AppendApplied(doc, TAILORED, items, Text(name));
    } else {
      var op := Add([Key(SPEC), Key(TAILORED)], Arr([Text(name)]));
      GuardPasses(doc, version, [op]);
      ApplyOne(doc, op);
      BindCreated(doc, name);
      assert [] + [Text(name)] == [Text(name)];
    }
  }

  lemma BindCreated(doc: Json, name: string)
    requires DocOk(doc)
    ensures ApplyOp(doc, Add([Key(SPEC), Key(TAILORED)], Arr([Text(name)])))
         == Some(Set2(doc, SPEC, TAILORED, Arr([Text(name)])))
  {
    AddTwo(doc, SPEC, TAILORED, Arr([Text(name)]));
  }

  // ---- the server and its clients ----

  /** Every version the object ever had; the newest is last. */
  datatype Server = Server(docs: seq<Json>)

  function Version(i: nat): Json { Text(Decimal(i)) }

  /** A client's action on the snapshot it holds: any version so far, guarded by it or not. */
  datatype Request =
    | AddW(read: nat, entry: Waiver, guarded: bool)
    | RemoveW(read: nat, index: int, name: string, guarded: bool)
    | Bind(read: nat, profile: string, guarded: bool)
    | Batch(read: nat, names: seq<string>, guarded: bool)
    | Elsewhere(a: string, b: string, v: Json)

  function Newest(s: Server): Json
    requires s.docs != []
  {
    s.docs[|s.docs| - 1]
  }

  function Seen(s: Server, read: nat): nat
    requires s.docs != []
  {
    if read < |s.docs| then read else |s.docs| - 1
  }

  function Guard(s: Server, read: nat, guarded: bool): string
    requires s.docs != []
  {
    if guarded then Decimal(Seen(s, read)) else ""
  }

  function NamesOf(items: seq<Json>): (r: seq<string>)
    ensures |r| == |items|
    ensures (forall i :: 0 <= i < |items| ==> items[i].Text?) ==> Texts(r) == items
  {
    seq(|items|, i requires 0 <= i < |items| => if items[i].Text? then items[i].text else "")
  }

  function Names(items: Option<seq<Json>>): Option<seq<string>> {
    if items.None? then None else Some(NamesOf(items.value))
  }

  function Ops(s: Server, r: Request, finite: string -> bool): seq<Op>
    requires s.docs != []
  {
    match r
    case AddW(read, entry, guarded) => AddWaiver(Rows(s.docs[Seen(s, read)]), entry, Guard(s, read, guarded), finite)
    case RemoveW(read, index, name, guarded) => RemoveWaiver(index, name, Guard(s, read, guarded))
    case Bind(read, profile, guarded) =>
      TailoredProfileBinding(Names(Bound(s.docs[Seen(s, read)])), profile, Guard(s, read, guarded))
    case Batch(read, names, guarded) =>
      BatchOps(Get2(s.docs[Seen(s, read)], METADATA, ANNOTATIONS).Some?, BatchNames(names, []), Guard(s, read, guarded))
    case Elsewhere(a, b, v) => [Add([Key(a), Key(b)], v)]
  }

  predicate Accepted(s: Server, r: Request, finite: string -> bool)
    requires s.docs != []
  {
    Ops(s, r, finite) != [] && Apply(Newest(s), Ops(s, r, finite)).Some?
  }

  /** A patch that changes the object stores it under the next version. */
  function Handle(s: Server, r: Request, finite: string -> bool): Server
    requires s.docs != []
  {
    if !Accepted(s, r, finite) then s
    else
      var doc := Apply(Newest(s), Ops(s, r, finite)).value;
      if doc == Newest(s) || Child(doc, Key(METADATA)).None? || !Child(doc, Key(METADATA)).value.Obj? then s
      else Server(s.docs + [Set2(doc, METADATA, VERSION, Version(|s.docs|))])
  }

  /** Other writers stay away from the two lists and the version. */
  predicate Polite(r: Request) {
    r.Elsewhere? ==>
      (r.a, r.b) != (SPEC, WAIVERS) && (r.a, r.b) != (SPEC, TAILORED) && (r.a, r.b) != (METADATA, VERSION)
  }

  /** The one shape that can cost the lists an entry without a version: creating one the snapshot did not hold. */
  predicate BlindCreate(s: Server, r: Request)
    requires s.docs != []
  {
    || (r.AddW? && !r.guarded && Rows(s.docs[Seen(s, r.read)]).None?)
    || (r.Bind? && !r.guarded && Bound(s.docs[Seen(s, r.read)]).None?)
  }

  ghost predicate ServerOk(s: Server) {
    && s.docs != []
    && forall i :: 0 <= i < |s.docs| ==> DocOk(s.docs[i]) && Get2(s.docs[i], METADATA, VERSION) == Some(Version(i))
  }

  /** A guarded patch is accepted only against the very version it was built from. */
  lemma GuardedActsOnItsSnapshot(s: Server, r: Request, finite: string -> bool)
    requires ServerOk(s) && Accepted(s, r, finite) && !r.Elsewhere? && r.guarded
    ensures s.docs[Seen(s, r.read)] == Newest(s)
  {
    hide AddWaiver, Apply, Edit;
    var i := Seen(s, r.read);
    DecimalDistinct(i, |s.docs| - 1);
    var ops := Ops(s, r, finite);
    GuardStandsFirst(s, r, finite);
    GuardPasses(Newest(s), Decimal(i), ops[1..]);
  }

  lemma GuardStandsFirst(s: Server, r: Request, finite: string -> bool)
    requires s.docs != [] && Ops(s, r, finite) != [] && !r.Elsewhere? && r.guarded
    ensures var ops := Ops(s, r, finite);
            ops == ResourceVersionTest(Decimal(Seen(s, r.read))) + ops[1..]
  {
    hide Storable, Row, IndexOf, BatchNames, ValidTailoredName;
    DecimalDistinct(Seen(s, r.read), 0);
  }

  // ---- every accepted request acts on the current list ----

  /** The waiver rows after a request, as if clients took turns. */
  function RowsAfter(rows: Option<seq<Json>>, r: Request): Option<seq<Json>> {
    match r
    case AddW(_, entry, _) => Some(Put(rows.Or([]), entry.name, Row(Stored(entry))))
    case RemoveW(_, index, _, _) =>
      if rows.Some? && 0 <= index < |rows.value| then Some(Taken(rows.value, index)) else rows
    case _ => rows
  }

  function BoundAfter(items: Option<seq<Json>>, r: Request): Option<seq<Json>> {
    if r.Bind? then Some(items.Or([]) + [Text(r.profile)]) else items
  }

  /** doc changed at most in these two lists, as the request says, and stayed well formed. */
  ghost predicate Served(cur: Json, doc: Json, r: Request) {
    && DocOk(doc)
    && Rows(doc) == RowsAfter(Rows(cur), r) && Bound(doc) == BoundAfter(Bound(cur), r)
    && Get2(doc, METADATA, VERSION) == Get2(cur, METADATA, VERSION)
    && (r.RemoveW? ==> Rows(cur).Some? && 0 <= r.index < |Rows(cur).value|
                       && RowName(Rows(cur).value[r.index]) == Some(r.name))
    && (r.Bind? ==> Text(r.profile) !in Bound(cur).Or([]))
  }

  lemma SetKeepsDoc(doc: Json, list: string, items: seq<Json>)
    requires DocOk(doc) && (list == WAIVERS || list == TAILORED)
    requires list == WAIVERS ==> RowsOk(items)
    requires list == TAILORED ==> BoundOk(items)
    ensures var r := Set2(doc, SPEC, list, Arr(items));
            && DocOk(r) && Get2(r, METADATA, VERSION) == Get2(doc, METADATA, VERSION)
            && Rows(r) == (if list == WAIVERS then Some(items) else Rows(doc))
            && Bound(r) == (if list == TAILORED then Some(items) else Bound(doc))
  {
    hide RowsOk, BoundOk;
    SetTwoGet(doc, SPEC, list, Arr(items), SPEC, WAIVERS);
    SetTwoGet(doc, SPEC, list, Arr(items), SPEC, TAILORED);
    SetTwoGet(doc, SPEC, list, Arr(items), METADATA, VERSION);
  }

  lemma EmptyRowsOk()
    ensures RowsOk([]) && BoundOk([])
  {
  }

  lemma AddServed(cur: Json, rows: Option<seq<Json>>, r: Request, version: string, finite: string -> bool)
    requires DocOk(cur) && r.AddW? && (rows.None? ==> Rows(cur).None?)
    requires AddWaiver(rows, r.entry, version, finite) != []
    requires Apply(cur, AddWaiver(rows, r.entry, version, finite)).Some?
    ensures Served(cur, Apply(cur, AddWaiver(rows, r.entry, version, finite)).value, r)
  {
    hide Apply, AddRow, RowsOk, BoundOk, Storable, Row, Put;
    var row := Row(Stored(r.entry));
    var now := Rows(cur).Or([]);
    AddRowApplied(cur, rows, r.entry.name, row, version);
    EmptyRowsOk();
    PutIsOk(now, r.entry.name, row);
    SetKeepsDoc(cur, WAIVERS, Put(now, r.entry.name, row));
  }

  lemma RemoveServed(cur: Json, r: Request, version: string)
    requires DocOk(cur) && r.RemoveW? && RemoveWaiver(r.index, r.name, version) != []
    requires Apply(cur, RemoveWaiver(r.index, r.name, version)).Some?
    ensures Served(cur, Apply(cur, RemoveWaiver(r.index, r.name, version)).value, r)
  {
    hide Apply, RowsOk, BoundOk, Taken;
    RemoveApplied(cur, r.index, r.name, version);
    TakenIsOk(Rows(cur).value, r.name, r.index);
    SetKeepsDoc(cur, WAIVERS, Taken(Rows(cur).value, r.index));
  }

  lemma BindServed(cur: Json, current: Option<seq<string>>, r: Request, version: string)
    requires DocOk(cur) && r.Bind? && (current.None? ==> Bound(cur).None?)
    requires TailoredProfileBinding(current, r.profile, version) != []
    requires Apply(cur, TailoredProfileBinding(current, r.profile, version)).Some?
    ensures Served(cur, Apply(cur, TailoredProfileBinding(current, r.profile, version)).value, r)
  {
    hide Apply, TailoredProfileBinding, RowsOk;
    BindingApplied(cur, current, r.profile, version);
    EmptyRowsOk();
    var now := Bound(cur).Or([]);
    assert BoundOk(now + [Text(r.profile)]);
    SetKeepsDoc(cur, TAILORED, now + [Text(r.profile)]);
  }

  lemma ElsewhereServed(cur: Json, r: Request)
    requires DocOk(cur) && r.Elsewhere? && Polite(r)
    requires Apply(cur, [Add([Key(r.a), Key(r.b)], r.v)]).Some?
    ensures Served(cur, Apply(cur, [Add([Key(r.a), Key(r.b)], r.v)]).value, r)
  {
    hide RowsOk, BoundOk;
    ApplyOne(cur, Add([Key(r.a), Key(r.b)], r.v));
    AddTwo(cur, r.a, r.b, r.v);
    SetTwoGet(cur, r.a, r.b, r.v, SPEC, WAIVERS);
    SetTwoGet(cur, r.a, r.b, r.v, SPEC, TAILORED);
    SetTwoGet(cur, r.a, r.b, r.v, METADATA, VERSION);
  }

  lemma BatchServed(cur: Json, hasAnnotations: bool, list: seq<string>, r: Request, version: string)
    requires DocOk(cur) && r.Batch? && BatchOps(hasAnnotations, list, version) != []
    requires Apply(cur, BatchOps(hasAnnotations, list, version)).Some?
    ensures Served(cur, Apply(cur, BatchOps(hasAnnotations, list, version)).value, r)
  {
    hide Apply, ResourceVersionTest, RowsOk, BoundOk, Edit, Join;
    var value := Text(Join(list, ','));
    if hasAnnotations {
      var op := Add([Key(METADATA), Key(ANNOTATIONS), Key(BATCH_APPLY)], value);
      GuardPasses(cur, version, [op]);
      ApplyOne(cur, op);
      EditList(cur, METADATA, ANNOTATIONS, Key(BATCH_APPLY), op);
      AnnotationsServed(cur, Here(Get2(cur, METADATA, ANNOTATIONS).value, Key(BATCH_APPLY), op).value, r);
    } else {
      var op := Add([Key(METADATA), Key(ANNOTATIONS)], Obj(map[BATCH_APPLY := value]));
      GuardPasses(cur, version, [op]);
      ApplyOne(cur, op);
      AddTwo(cur, METADATA, ANNOTATIONS, Obj(map[BATCH_APPLY := value]));
      AnnotationsServed(cur, Obj(map[BATCH_APPLY := value]), r);
    }
  }

  lemma AnnotationsServed(cur: Json, annotations: Json, r: Request)
    requires DocOk(cur) && r.Batch?
    ensures Served(cur, Set2(cur, METADATA, ANNOTATIONS, annotations), r)
  {
    hide RowsOk, BoundOk;
    SetTwoGet(cur, METADATA, ANNOTATIONS, annotations, SPEC, WAIVERS);
    SetTwoGet(cur, METADATA, ANNOTATIONS, annotations, SPEC, TAILORED);
    SetTwoGet(cur, METADATA, ANNOTATIONS, annotations, METADATA, VERSION);
  }

  /** Guarded or not, an accepted request other than a blind create acts on the current lists. */
  lemma AcceptedActsOnCurrent(s: Server, r: Request, finite: string -> bool)
    requires ServerOk(s) && Polite(r) && !BlindCreate(s, r) && Accepted(s, r, finite)
    ensures Served(Newest(s), Apply(Newest(s), Ops(s, r, finite)).value, r)
  {
    hide Apply, AddWaiver, RemoveWaiver, TailoredProfileBinding, BatchOps, Served;
    var cur := Newest(s);
    assert DocOk(cur);
    if !r.Elsewhere? && r.guarded { GuardedActsOnItsSnapshot(s, r, finite); }
    match r
    case AddW(read, entry, guarded) =>
      AddServed(cur, Rows(s.docs[Seen(s, read)]), r, Guard(s, read, guarded), finite);
    case RemoveW(read, index, name, guarded) => RemoveServed(cur, r, Guard(s, read, guarded));
    case Bind(read, profile, guarded) =>
      BindServed(cur, Names(Bound(s.docs[Seen(s, read)])), r, Guard(s, read, guarded));
    case Batch(read, names, guarded) =>
      BatchServed(cur, Get2(s.docs[Seen(s, read)], METADATA, ANNOTATIONS).Some?, BatchNames(names, []), r,
                  Guard(s, read, guarded));
    case Elsewhere(a, b, v) => ElsewhereServed(cur, r);
  }

  // ---- whole runs ----

  function Run(s: Server, rs: seq<Request>, finite: string -> bool): (t: Server)
    requires s.docs != []
    ensures t.docs != []
    decreases |rs|
  {
    if rs == [] then s else Run(Handle(s, rs[0], finite), rs[1..], finite)
  }

  /** The waivers the accepted requests add up to, one map taking them in order. */
  function Ledger(m: map<string, Json>, s: Server, r: Request, finite: string -> bool): map<string, Json>
    requires s.docs != []
  {
    if !Accepted(s, r, finite) then m
    else if r.AddW? then m[r.entry.name := Row(Stored(r.entry))]
    else if r.RemoveW? then m - {r.name}
    else m
  }

  function RunLedger(m: map<string, Json>, s: Server, rs: seq<Request>, finite: string -> bool): map<string, Json>
    requires s.docs != []
    decreases |rs|
  {
    if rs == [] then m
    else RunLedger(Ledger(m, s, rs[0], finite), Handle(s, rs[0], finite), rs[1..], finite)
  }

  /** Every request is polite, and none is a blind create where it arrives. */
  predicate Careful(s: Server, rs: seq<Request>, finite: string -> bool)
    requires s.docs != []
    decreases |rs|
  {
    rs == [] || (Polite(rs[0]) && !BlindCreate(s, rs[0]) && Careful(Handle(s, rs[0], finite), rs[1..], finite))
  }

  ghost predicate Tracks(m: map<string, Json>, rows: Option<seq<Json>>) {
    forall n :: Lookup(rows.Or([]), n) == if n in m then Some(m[n]) else None
  }

  ghost predicate Extends(a: Option<seq<Json>>, b: Option<seq<Json>>) {
    a.Or([]) <= b.Or([])
  }

  lemma StampKeeps(doc: Json, i: nat)
    requires DocOk(doc)
    ensures var r := Set2(doc, METADATA, VERSION, Version(i));
            DocOk(r) && Rows(r) == Rows(doc) && Bound(r) == Bound(doc) && Get2(r, METADATA, VERSION) == Some(Version(i))
  {
    hide RowsOk, BoundOk;
    SetTwoGet(doc, METADATA, VERSION, Version(i), SPEC, WAIVERS);
    SetTwoGet(doc, METADATA, VERSION, Version(i), SPEC, TAILORED);
    SetTwoGet(doc, METADATA, VERSION, Version(i), METADATA, VERSION);
  }

  lemma HandleServes(s: Server, r: Request, finite: string -> bool)
    requires ServerOk(s) && Polite(r) && !BlindCreate(s, r)
    ensures var t := Handle(s, r, finite);
            && ServerOk(t)
            && (if Accepted(s, r, finite) then
                  Rows(Newest(t)) == RowsAfter(Rows(Newest(s)), r) && Bound(Newest(t)) == BoundAfter(Bound(Newest(s)), r)
                  && (r.RemoveW? ==> Rows(Newest(s)).Some? && 0 <= r.index < |Rows(Newest(s)).value|
                                     && RowName(Rows(Newest(s)).value[r.index]) == Some(r.name))
                else t == s)
  {
    hide Apply, Ops, RowsAfter, BoundAfter, Rows, Bound;
    if Accepted(s, r, finite) {
      AcceptedActsOnCurrent(s, r, finite);
      var doc := Apply(Newest(s), Ops(s, r, finite)).value;
      StampKeeps(doc, |s.docs|);
    }
  }

  lemma LedgerStep(m: map<string, Json>, s: Server, r: Request, finite: string -> bool)
    requires ServerOk(s) && Polite(r) && !BlindCreate(s, r) && Tracks(m, Rows(Newest(s)))
    ensures Tracks(Ledger(m, s, r, finite), Rows(Newest(Handle(s, r, finite))))
    ensures Extends(Bound(Newest(s)), Bound(Newest(Handle(s, r, finite))))
  {
    hide Handle, Accepted, Row, Put, Taken, Lookup;
    HandleServes(s, r, finite);
    assert DocOk(Newest(s));
    var rows := Rows(Newest(s)).Or([]);
    EmptyRowsOk();
    if Accepted(s, r, finite) {
      if r.AddW? {
        PutTracks(rows, r.entry.name, Row(Stored(r.entry)));
      } else if r.RemoveW? {
        TakenIsOk(rows, r.name, r.index);
      }
    }
  }

  /** Looking up after a put needs no bound on the list. */
  lemma {:induction false} PutTracks(rows: seq<Json>, name: string, row: Json)
    requires RowName(row) == Some(name)
    ensures forall n :: Lookup(Put(rows, name, row), n) == if n == name then Some(row) else Lookup(rows, n)
  {
    var r := Put(rows, name, row);
    forall n ensures Lookup(r, n) == if n == name then Some(row) else Lookup(rows, n) {
      var i, j, k := IndexOf(rows, n), IndexOf(r, n), IndexOf(rows, name);
      assert r[k] == row;
      assert forall x :: 0 <= x < |rows| && x != k ==> r[x] == rows[x];
      assert i < |rows| && n != name ==> r[i] == rows[i];
      assert j < |rows| && n != name ==> RowName(r[j]) == RowName(rows[j]) || j == k;
    }
  }

  lemma HasDocs(s: Server)
    requires ServerOk(s)
    ensures s.docs != []
  {
  }

  /**
    Under any interleaving of clients with stale snapshots, no accepted waiver is lost or undone by
    anything but an accepted removal: the stored list always equals the accepted requests taken in
    turn, its names stay distinct, and both lists stay within their bounds.
  */
  lemma {:induction false} NoWaiverLost(m: map<string, Json>, s: Server, rs: seq<Request>, finite: string -> bool)
    requires ServerOk(s) && Careful(s, rs, finite) && Tracks(m, Rows(Newest(s)))
    ensures ServerOk(Run(s, rs, finite))
    ensures Tracks(RunLedger(m, s, rs, finite), Rows(Newest(Run(s, rs, finite))))
    ensures Extends(Bound(Newest(s)), Bound(Newest(Run(s, rs, finite))))
    decreases |rs|
  {
    hide Handle, Ledger, ServerOk, Tracks, Polite, BlindCreate, Rows, Bound;
    if rs != [] {
      HasDocs(s);
      var t := Handle(s, rs[0], finite);
      HandleServes(s, rs[0], finite);
      LedgerStep(m, s, rs[0], finite);
      NoWaiverLost(Ledger(m, s, rs[0], finite), t, rs[1..], finite);
    }
  }

  /** An accepted waiver change leaves every other entry as it was, in its order. */
  lemma OthersKeepOrder(s: Server, r: Request, finite: string -> bool)
    requires ServerOk(s) && Polite(r) && !BlindCreate(s, r) && Accepted(s, r, finite) && (r.AddW? || r.RemoveW?)
    ensures var name := if r.AddW? then r.entry.name else r.name;
            Others(Rows(Newest(Handle(s, r, finite))).Or([]), name) == Others(Rows(Newest(s)).Or([]), name)
  {
    hide Handle, Accepted, Row, Put, Taken, Others;
    HandleServes(s, r, finite);
    var rows := Rows(Newest(s)).Or([]);
    if r.AddW? {
      PutKeepsOthers(rows, r.entry.name, Row(Stored(r.entry)));
    } else {
      TakenKeepsOthers(rows, r.name, r.index);
    }
  }

  /**
    A blind create replaces the whole list. It keeps every other waiver if and only if the list
    it did not see holds no entry under another name.
  */
  lemma BlindCreateKeepsOthersIff(doc: Json, name: string, row: Json)
    requires DocOk(doc) && RowName(row) == Some(name)
    ensures Apply(doc, AddRow(None, name, row, "")) == Some(Set2(doc, SPEC, WAIVERS, Arr([row])))
    ensures (forall n :: n != name ==> Lookup([row], n) == Lookup(Rows(doc).Or([]), n))
        <==> (forall i :: 0 <= i < |Rows(doc).Or([])| ==> RowName(Rows(doc).Or([])[i]) == Some(name))
  {
    hide Apply, ApplyOp;
    var rows := Rows(doc).Or([]);
    EmptyRowsOk();
    ApplyOne(doc, Add([Key(SPEC), Key(WAIVERS)], Arr([row])));
    CreateApplied(doc, row);
    assert AddRow(None, name, row, "") == [Add([Key(SPEC), Key(WAIVERS)], Arr([row]))];
    forall i | 0 <= i < |rows| && RowName(rows[i]) != Some(name)
      ensures exists n :: n != name && Lookup([row], n) != Lookup(rows, n)
    {
      var n := RowName(rows[i]).value;
      LookupIs(rows, n);
      assert Lookup(rows, n) == Some(rows[i]) && Lookup([row], n) == None;
    }
  }

  lemma WithinOne(items: seq<Json>, x: Json)
    requires |items| > 1 ==> items[0] != items[1]
    ensures (forall y :: y in items ==> y in [x]) <==> items <= [x]
  {
    if forall y :: y in items ==> y in [x] {
      forall i | 0 <= i < |items| ensures items[i] == x {
        assert items[i] in items;
      }
    }
  }

  /** A blind binding keeps every other binding if and only if there was none. */
  lemma BlindBindKeepsOthersIff(doc: Json, name: string)
    requires DocOk(doc) && ValidTailoredName(name)
    ensures Apply(doc, TailoredProfileBinding(None, name, "")) == Some(Set2(doc, SPEC, TAILORED, Arr([Text(name)])))
    ensures (forall x :: x in Bound(doc).Or([]) ==> x in [Text(name)]) <==> Bound(doc).Or([]) <= [Text(name)]
  {
    hide Apply, ApplyOp, ValidTailoredName;
    var items := Bound(doc).Or([]);
    EmptyRowsOk();
    ApplyOne(doc, Add([Key(SPEC), Key(TAILORED)], Arr([Text(name)])));
    BindCreated(doc, name);
    assert TailoredProfileBinding(None, name, "") == [Add([Key(SPEC), Key(TAILORED)], Arr([Text(name)]))];
    assert |items| > 1 ==> items[0] != items[1];
    WithinOne(items, Text(name));
  }

  // ---- annotations ----

  function Annotations(doc: Json): map<string, Json> {
    match Get2(doc, METADATA, ANNOTATIONS)
    case Some(Obj(members)) => members
    case _ => map[]
  }

  /** An unguarded batch request that creates the annotations, because its snapshot held none. */
  predicate BlindMap(s: Server, r: Request)
    requires s.docs != []
  {
    r.Batch? && !r.guarded && Get2(s.docs[Seen(s, r.read)], METADATA, ANNOTATIONS).None?
  }

  lemma BatchOpsApplied(doc: Json, hasAnnotations: bool, list: seq<string>, version: string)
    requires DocOk(doc) && BatchOps(hasAnnotations, list, version) != []
    requires Apply(doc, BatchOps(hasAnnotations, list, version)).Some?
    ensures Annotations(Apply(doc, BatchOps(hasAnnotations, list, version)).value)
         == (if hasAnnotations then Annotations(doc) else map[])[BATCH_APPLY := Text(Join(list, ','))]
  {
    hide Apply, ResourceVersionTest, RowsOk, BoundOk, Edit, Join;
    var value := Text(Join(list, ','));
    if hasAnnotations {
      var op := Add([Key(METADATA), Key(ANNOTATIONS), Key(BATCH_APPLY)], value);
      GuardPasses(doc, version, [op]);
      ApplyOne(doc, op);
      EditList(doc, METADATA, ANNOTATIONS, Key(BATCH_APPLY), op);
    } else {
      var op := Add([Key(METADATA), Key(ANNOTATIONS)], Obj(map[BATCH_APPLY := value]));
      GuardPasses(doc, version, [op]);
      ApplyOne(doc, op);
      AddTwo(doc, METADATA, ANNOTATIONS, Obj(map[BATCH_APPLY := value]));
    }
  }

  /** An accepted batch request sets its annotation among the current ones, unless it creates the map blindly. */
  lemma BatchAnnotates(s: Server, r: Request, finite: string -> bool)
    requires ServerOk(s) && r.Batch? && Accepted(s, r, finite)
    ensures Annotations(Apply(Newest(s), Ops(s, r, finite)).value)
         == (if BlindMap(s, r) then map[] else Annotations(Newest(s)))
            ["baselinesecurity.openshift.io/batch-apply" := Text(Join(BatchNames(r.names, []), ','))]
  {
    hide Apply, BatchOps, BatchNames;
    var seen := s.docs[Seen(s, r.read)];
    assert DocOk(Newest(s));
    if r.guarded { GuardedActsOnItsSnapshot(s, r, finite); }
    BatchOpsApplied(Newest(s), Get2(seen, METADATA, ANNOTATIONS).Some?, BatchNames(r.names, []), Guard(s, r.read, r.guarded));
  }

  /**
    It keeps every other annotation, the operator's recovery records among them, if and only if it
    does not create the map blindly or there is no other annotation to lose.
  */
  lemma BatchKeepsOthersIff(s: Server, r: Request, finite: string -> bool)
    requires ServerOk(s) && r.Batch? && Accepted(s, r, finite)
    ensures var now, after := Annotations(Newest(s)), Annotations(Apply(Newest(s), Ops(s, r, finite)).value);
      (forall k :: k in now && k != BATCH_APPLY ==> k in after && after[k] == now[k])
      <==> !BlindMap(s, r) || forall k :: k in now ==> k == BATCH_APPLY
  {
    hide Apply, Ops, Accepted, BlindMap, Annotations, ServerOk;
    BatchAnnotates(s, r, finite);
  }

  // ---- what gets through ----

  /** The guard passes on the version it names, and without a version there is none. */
  lemma GuardHolds(doc: Json, version: string, ops: seq<Op>)
    requires version == "" || Get2(doc, METADATA, VERSION) == Some(Text(version))
    ensures Apply(doc, ResourceVersionTest(version) + ops) == Apply(doc, ops)
  {
    hide Apply;
    var guard := ResourceVersionTest(version);
    ApplyConcat(doc, guard, ops);
    if version != "" {
      ApplyOne(doc, guard[0]);
      GetTwo(doc, METADATA, VERSION);
      assert guard == [guard[0]];
    } else {
      ApplyNone(doc);
    }
  }

  lemma ApplyNone(doc: Json)
    ensures Apply(doc, []) == Some(doc)
  {
  }

  /** A waiver patch built from the document it meets is applied. */
  lemma AddRowGetsThrough(doc: Json, name: string, row: Json, version: string)
    requires DocOk(doc) && RowName(row) == Some(name) && AddRow(Rows(doc), name, row, version) != []
    requires version == "" || Get2(doc, METADATA, VERSION) == Some(Text(version))
    ensures Apply(doc, AddRow(Rows(doc), name, row, version)).Some?
  {
    hide Apply, RowsOk, ResourceVersionTest, Edit, Get;
    var path := [Key(SPEC), Key(WAIVERS)];
    if Rows(doc).None? {
      var op := Add(path, Arr([row]));
      GuardHolds(doc, version, [op]);
      ApplyOne(doc, op);
      CreateApplied(doc, row);
    } else {
      var rows := Rows(doc).value;
      var i := IndexOf(rows, name);
      if i < |rows| {
        var t, op := Test([Key(SPEC), Key(WAIVERS), At(i), Key("name")], Text(name)), Replace(path + [At(i)], row);
        assert op.path == [Key(SPEC), Key(WAIVERS), At(i)];
        GuardHolds(doc, version, [t, op]);
        ApplyTwo(doc, t, op);
        GetFour(doc, SPEC, WAIVERS, At(i), Key("name"));
        ReplaceApplied(doc, name, row, i);
      } else {
        var t, op := Test(path, Arr(rows)), Add(path + [End], row);
        assert op.path == [Key(SPEC), Key(WAIVERS), End];
        GuardHolds(doc, version, [t, op]);
        ApplyTwo(doc, t, op);
        GetTwo(doc, SPEC, WAIVERS);
        AppendApplied(doc, WAIVERS, rows, row);
      }
    }
  }

  lemma RemoveGetsThrough(doc: Json, index: nat, name: string, version: string)
    requires DocOk(doc) && RemoveWaiver(index, name, version) != [] && Rows(doc).Some? && index < |Rows(doc).value|
    requires RowName(Rows(doc).value[index]) == Some(name)
    requires version == "" || Get2(doc, METADATA, VERSION) == Some(Text(version))
    ensures Apply(doc, RemoveWaiver(index, name, version)).Some?
  {
    hide Edit, Get, Apply, ResourceVersionTest, RowsOk;
    var t, op := Test([Key(SPEC), Key(WAIVERS), At(index), Key("name")], Text(name)), Remove([Key(SPEC), Key(WAIVERS), At(index)]);
    GuardHolds(doc, version, [t, op]);
    ApplyTwo(doc, t, op);
    GetFour(doc, SPEC, WAIVERS, At(index), Key("name"));
    EditList(doc, SPEC, WAIVERS, At(index), op);
  }

  lemma BindGetsThrough(doc: Json, name: string, version: string)
    requires DocOk(doc) && TailoredProfileBinding(Names(Bound(doc)), name, version) != []
    requires version == "" || Get2(doc, METADATA, VERSION) == Some(Text(version))
    ensures Apply(doc, TailoredProfileBinding(Names(Bound(doc)), name, version)).Some?
  {
    hide Apply, Edit, Get, RowsOk, ResourceVersionTest, ValidTailoredName;
    if Bound(doc).Some? {
      var items := Bound(doc).value;
      assert Texts(NamesOf(items)) == items;
      var t, op := Test([Key(SPEC), Key(TAILORED)], Arr(items)), Add([Key(SPEC), Key(TAILORED), End], Text(name));
      GuardHolds(doc, version, [t, op]);
      ApplyTwo(doc, t, op);
      GetTwo(doc, SPEC, TAILORED);
      AppendApplied(doc, TAILORED, items, Text(name));
    } else {
      var op := Add([Key(SPEC), Key(TAILORED)], Arr([Text(name)]));
      GuardHolds(doc, version, [op]);
      ApplyOne(doc, op);
      BindCreated(doc, name);
    }
  }

  lemma BatchGetsThrough(doc: Json, list: seq<string>, version: string)
    requires DocOk(doc) && BatchOps(Get2(doc, METADATA, ANNOTATIONS).Some?, list, version) != []
    requires Get2(doc, METADATA, ANNOTATIONS).Some? ==> Get2(doc, METADATA, ANNOTATIONS).value.Obj?
    requires version == "" || Get2(doc, METADATA, VERSION) == Some(Text(version))
    ensures Apply(doc, BatchOps(Get2(doc, METADATA, ANNOTATIONS).Some?, list, version)).Some?
  {
    hide Apply, ResourceVersionTest, RowsOk, BoundOk, Edit, Join;
    var value := Text(Join(list, ','));
    if Get2(doc, METADATA, ANNOTATIONS).Some? {
      var op := Add([Key(METADATA), Key(ANNOTATIONS), Key(BATCH_APPLY)], value);
      GuardHolds(doc, version, [op]);
      ApplyOne(doc, op);
      EditList(doc, METADATA, ANNOTATIONS, Key(BATCH_APPLY), op);
    } else {
      var op := Add([Key(METADATA), Key(ANNOTATIONS)], Obj(map[BATCH_APPLY := value]));
      GuardHolds(doc, version, [op]);
      ApplyOne(doc, op);
      AddTwo(doc, METADATA, ANNOTATIONS, Obj(map[BATCH_APPLY := value]));
    }
  }

  /**
    A request built from the newest version is accepted, guarded or not, whenever the builder emits
    it: a removal when the row it names stands there, a batch when the annotations are a map.
  */
  lemma FreshIsAccepted(s: Server, r: Request, finite: string -> bool)
    requires ServerOk(s) && !r.Elsewhere? && Seen(s, r.read) == |s.docs| - 1 && Ops(s, r, finite) != []
    requires r.RemoveW? ==>
      var rows := Rows(Newest(s)).Or([]);
      0 <= r.index < |rows| && RowName(rows[r.index]) == Some(r.name)
    requires r.Batch? ==>
      var a := Get2(Newest(s), METADATA, ANNOTATIONS);
      a.Some? ==> a.value.Obj?
    ensures Accepted(s, r, finite)
  {
    hide Apply, AddRow, RemoveWaiver, TailoredProfileBinding, BatchNames, BatchOps, Storable, Row, RowName;
    hide DocOk, Get2, Rows, Bound, Names, Decimal, ResourceVersionTest;
    var cur := Newest(s);
    var version := Guard(s, r.read, r.guarded);
    match r
    case AddW(_, entry, _) => AddRowGetsThrough(cur, entry.name, Row(Stored(entry)), version);
    case RemoveW(_, index, name, _) => RemoveGetsThrough(cur, index, name, version);
    case Bind(_, profile, _) => BindGetsThrough(cur, profile, version);
    case Batch(_, names, _) => BatchGetsThrough(cur, BatchNames(names, []), version);
  }
}
