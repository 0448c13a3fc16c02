/** Character classes the console strips from stored and exported text. */
module DisplayText {

  /** Unicode category Cc: C0 and C1 controls. */
  predicate IsControl(c: char) {
    c <= '\U{1F}' || '\U{7F}' <= c <= '\U{9F}'
  }

  /** Unicode category Cf: soft hyphen, direction and joining marks, BOM and other invisible characters. */
  predicate IsFormat(c: char) {
    c == '\U{AD}' || '\U{600}' <= c <= '\U{605}' || c == '\U{61C}' || c == '\U{6DD}' || c == '\U{70F}'
    || '\U{890}' <= c <= '\U{891}' || c == '\U{8E2}' || c == '\U{180E}' || '\U{200B}' <= c <= '\U{200F}'
    || '\U{202A}' <= c <= '\U{202E}' || '\U{2060}' <= c <= '\U{2064}' || '\U{2066}' <= c <= '\U{206F}'
    || c == '\U{FEFF}' || '\U{FFF9}' <= c <= '\U{FFFB}' || c == '\U{110BD}' || c == '\U{110CD}'
    || '\U{13430}' <= c <= '\U{1343F}' || '\U{1BCA0}' <= c <= '\U{1BCA3}' || '\U{1D173}' <= c <= '\U{1D17A}'
    || c == '\U{E0001}' || '\U{E0020}' <= c <= '\U{E007F}'
  }

  predicate IsJoiner(c: char) { c == '\U{200C}' || c == '\U{200D}' }

  function Keep(s: string, keep: char -> bool): (r: string)
    ensures forall c :: c in r <==> c in s && keep(c)
    ensures |r| <= |s|
    ensures (forall c :: c in s ==> keep(c)) ==> r == s
  {
    if s == "" then ""
    else
      assert s == [s[0]] + s[1..];
      if keep(s[0]) then [s[0]] + Keep(s[1..], keep) else Keep(s[1..], keep)
  }

  function StripInvisible(s: string): string {
    Keep(s, c => !IsControl(c) && (!IsFormat(c) || IsJoiner(c)))
  }

  function StripControlAndFormat(s: string): string {
    Keep(s, c => !IsControl(c) && !IsFormat(c))
  }
}

/** The console's JSON patches: waivers, tailored-profile bindings and the batch request. */
module Patches {
  import opened Options
  import opened Text
  import opened K8sNames
  import opened Dates
  import opened DisplayText
  import opened JsonPatch

  const WAIVER_MAX: nat := 256
  const TAILORED_MAX: nat := 32
  const TAILORED_NAME_MAX: nat := 51
  const BATCH_MAX: nat := 256
  const REASON_MAX: nat := 1024
  const ATTRIBUTION_MAX: nat := 253

  const SPEC := "spec"
  const WAIVERS := "waivers"
  const TAILORED := "tailoredProfiles"
  const METADATA := "metadata"
  const VERSION := "resourceVersion"
  const ANNOTATIONS := "annotations"
  const BATCH_APPLY := "baselinesecurity.openshift.io/batch-apply"

  datatype Waiver = Waiver(
    name: string, reason: Option<string>, requestedBy: Option<string>, approvedBy: Option<string>,
    expiresAt: Option<string>, reviewBy: Option<string>)

  /** No guard when the version is unknown. */
  function ResourceVersionTest(version: string): seq<Op> {
    if version == "" then [] else [Test([Key(METADATA), Key(VERSION)], Text(version))]
  }

  // ---- waivers ----

  function RowName(row: Json): Option<string> {
    if row.Obj? && "name" in row.members && row.members["name"].Text? then Some(row.members["name"].text) else None
  }

  function IndexOf(rows: seq<Json>, name: string): (i: nat)
    ensures i <= |rows|
    ensures i < |rows| ==> RowName(rows[i]) == Some(name)
    ensures forall k :: 0 <= k < i ==> RowName(rows[k]) != Some(name)
  {
    if rows == [] then 0
    else if RowName(rows[0]) == Some(name) then 0
    else
      assert forall k :: 0 < k < |rows| ==> rows[k] == rows[1..][k - 1];
      1 + IndexOf(rows[1..], name)
  }

  /** The entry as stored: trimmed, stripped, empty fields left out. */
  function Stored(w: Waiver): Waiver {
    Waiver(w.name,
           NonEmpty(StripInvisible(Trim(w.reason.Or("")))),
           NonEmpty(StripControlAndFormat(Trim(w.requestedBy.Or("")))),
           NonEmpty(StripControlAndFormat(Trim(w.approvedBy.Or("")))),
           NonEmpty(Trim(w.expiresAt.Or(""))),
           NonEmpty(Trim(w.reviewBy.Or(""))))
  }

  function NonEmpty(s: string): Option<string> {
    if s == "" then None else Some(s)
  }

  predicate Storable(w: Waiver, finite: string -> bool) {
    && ValidName(w.name)
    && |w.reason.Or("")| <= REASON_MAX
    && |w.requestedBy.Or("")| <= ATTRIBUTION_MAX && |w.approvedBy.Or("")| <= ATTRIBUTION_MAX
    && (w.expiresAt.Some? ==> RealTime(Trim(w.expiresAt.value), finite))
    && (w.reviewBy.Some? ==> RealTime(Trim(w.reviewBy.value), finite))
  }

  function With(m: map<string, Json>, key: string, v: Option<string>): map<string, Json> {
    if v.Some? then m[key := Text(v.value)] else m
  }

  /** The JSON row of a stored entry. */
  function Row(w: Waiver): (r: Json)
    ensures RowName(r) == Some(w.name)
  {
    var m := map["name" := Text(w.name)];
    var m1 := With(m, "reason", w.reason);
    var m2 := With(m1, "requestedBy", w.requestedBy);
    var m3 := With(m2, "approvedBy", w.approvedBy);
    var m4 := With(m3, "expiresAt", w.expiresAt);
    Obj(With(m4, "reviewBy", w.reviewBy))
  }

  function AddRow(rows: Option<seq<Json>>, name: string, row: Json, version: string): seq<Op> {
    var guard := ResourceVersionTest(version);
    if rows.None? then guard + [Add([Key(SPEC), Key(WAIVERS)], Arr([row]))]
    else
      var i := IndexOf(rows.value, name);
      if i < |rows.value| then
        guard + [Test([Key(SPEC), Key(WAIVERS), At(i), Key("name")], Text(name)),
                 Replace([Key(SPEC), Key(WAIVERS), At(i)], row)]
      else if |rows.value| >= WAIVER_MAX then []
      else
        guard + [Test([Key(SPEC), Key(WAIVERS)], Arr(rows.value)),
                 Add([Key(SPEC), Key(WAIVERS), End], row)]
  }

  function AddWaiver(rows: Option<seq<Json>>, entry: Waiver, version: string, finite: string -> bool): seq<Op> {
    if !Storable(Stored(entry), finite) then [] else AddRow(rows, entry.name, Row(Stored(entry)), version)
  }

  /** Fills the clean entry field by field, then picks the shape. */
  method AddWaiverPatch(rows: Option<seq<Json>>, entry: Waiver, version: string, finite: string -> bool)
    returns (ops: seq<Op>)
    ensures ops == AddWaiver(rows, entry, version, finite)
  {
    hide RealTime, Trim, StripInvisible, StripControlAndFormat, ValidName, AddRow, Row;
    var name := entry.name;
    var reason := StripInvisible(Trim(entry.reason.Or("")));
    var requestedBy := StripControlAndFormat(Trim(entry.requestedBy.Or("")));
    var approvedBy := StripControlAndFormat(Trim(entry.approvedBy.Or("")));
    var expiresAt := Trim(entry.expiresAt.Or(""));
    var reviewBy := Trim(entry.reviewBy.Or(""));
    var expiresOk := true;
    if expiresAt != "" { expiresOk := IsParseableTime(expiresAt, finite); }
    var reviewOk := true;
    if reviewBy != "" { reviewOk := IsParseableTime(reviewBy, finite); }
    if !ValidName(name) || |reason| > REASON_MAX || |requestedBy| > ATTRIBUTION_MAX
       || |approvedBy| > ATTRIBUTION_MAX || !expiresOk || !reviewOk
    {
      return [];
    }
    var clean := CleanRow(name, reason, requestedBy, approvedBy, expiresAt, reviewBy);
    ops := AddRow(rows, name, clean, version);
  }

  /** Drops empty optional fields so the stored entry stays minimal. */
  method CleanRow(name: string, reason: string, requestedBy: string, approvedBy: string,
                  expiresAt: string, reviewBy: string)
    returns (row: Json)
    ensures row == Row(Waiver(name, NonEmpty(reason), NonEmpty(requestedBy), NonEmpty(approvedBy),
                              NonEmpty(expiresAt), NonEmpty(reviewBy)))
  {
    var clean := map["name" := Text(name)];
    if reason != "" { clean := clean["reason" := Text(reason)]; }
    if requestedBy != "" { clean := clean["requestedBy" := Text(requestedBy)]; }
    if approvedBy != "" { clean := clean["approvedBy" := Text(approvedBy)]; }
    if expiresAt != "" { clean := clean["expiresAt" := Text(expiresAt)]; }
    if reviewBy != "" { clean := clean["reviewBy" := Text(reviewBy)]; }
    row := Obj(clean);
  }

  function RemoveWaiver(index: int, name: string, version: string): seq<Op> {
    if index < 0 || name == "" then []
    else
      ResourceVersionTest(version) + [
        Test([Key(SPEC), Key(WAIVERS), At(index), Key("name")], Text(name)),
        Remove([Key(SPEC), Key(WAIVERS), At(index)])]
  }

  // ---- tailored profiles ----

  function Texts(names: seq<string>): (r: seq<Json>)
    ensures |r| == |names| && forall i :: 0 <= i < |r| ==> r[i] == Text(names[i])
  {
    seq(|names|, i requires 0 <= i < |names| => Text(names[i]))
  }

  predicate ValidTailoredName(name: string) {
    |name| <= TAILORED_NAME_MAX && ValidName(name)
  }

  function TailoredProfileBinding(current: Option<seq<string>>, name: string, version: string): seq<Op> {
    if !ValidTailoredName(name) || name in current.Or([]) || |current.Or([])| >= TAILORED_MAX then []
    else if current.Some? then
      ResourceVersionTest(version) + [
        Test([Key(SPEC), Key(TAILORED)], Arr(Texts(current.value))),
        Add([Key(SPEC), Key(TAILORED), End], Text(name))]
    else ResourceVersionTest(version) + [Add([Key(SPEC), Key(TAILORED)], Arr([Text(name)]))]
  }

  // ---- the batch request ----

  /** The first 256 distinct valid names, trimmed, in order. */
  function BatchNames(names: seq<string>, list: seq<string>): (r: seq<string>)
    requires |list| < BATCH_MAX
    ensures |r| <= BATCH_MAX && list <= r
    ensures (forall x :: x in list ==> ValidName(x)) ==> forall x :: x in r ==> ValidName(x)
    decreases |names|
  {
    if names == [] then list
    else
      var n := TrimSpace(names[0]);
      if n == "" || !ValidName(n) || n in list then BatchNames(names[1..], list)
      else if |list| + 1 >= BATCH_MAX then list + [n]
      else BatchNames(names[1..], list + [n])
  }

  function BatchOps(hasAnnotations: bool, list: seq<string>, version: string): seq<Op> {
    if list == [] then []
    else if hasAnnotations then
      ResourceVersionTest(version) + [Add([Key(METADATA), Key(ANNOTATIONS), Key(BATCH_APPLY)], Text(Join(list, ',')))]
    else
      ResourceVersionTest(version)
      + [Add([Key(METADATA), Key(ANNOTATIONS)], Obj(map[BATCH_APPLY := Text(Join(list, ','))]))]
  }

  method BatchApplyPatch(hasAnnotations: bool, names: seq<string>, version: string) returns (ops: seq<Op>)
    ensures ops == BatchOps(hasAnnotations, BatchNames(names, []), version)
  {
    hide TrimSpace, ValidName;
    var seen: set<string> := {};
    var list: seq<string> := [];
    assert names[0..] == names;
    for i := 0 to |names|
      invariant |list| < BATCH_MAX && (forall x :: x in seen <==> x in list)
      invariant BatchNames(names, []) == BatchNames(names[i..], list)
    {
      assert names[i..][0] == names[i] && names[i..][1..] == names[i + 1..];
      var n := TrimSpace(names[i]);
      if n == "" || !ValidName(n) || n in seen { continue; }
      seen := seen + {n};
      list := list + [n];
      if |list| >= BATCH_MAX { return BatchOps(hasAnnotations, list, version); }
    }
    ops := BatchOps(hasAnnotations, list, version);
  }

  /** Whether the annotation names anything at all. */
  method BatchApplyRequested(raw: Option<string>) returns (r: bool)
    ensures r <==> raw.Some? && SplitCsv(raw.value) != []
  {
    if raw.None? || raw.value == "" {
      assert Split("", ',') == [""] && TrimmedItems([""]) == [] + TrimmedItems([""][1..]);
      return false;
    }
    var parts := Split(raw.value, ',');
    assert parts[0..] == parts;
    for i := 0 to |parts|
      invariant TrimmedItems(parts) == TrimmedItems(parts[i..])
    {
      TrimmedStep(parts, i);
      if TrimSpace(parts[i]) != "" { return true; }
    }
    r := false;
  }

  ghost predicate Unique(s: seq<string>) {
    forall i, j :: 0 <= i < j < |s| ==> s[i] != s[j]
  }

  lemma {:induction false} BatchNamesDistinct(names: seq<string>, list: seq<string>)
    requires |list| < BATCH_MAX && Unique(list)
    ensures Unique(BatchNames(names, list))
    decreases |names|
  {
    hide TrimSpace, ValidName;
    if names != [] {
      var n := TrimSpace(names[0]);
      if n == "" || !ValidName(n) || n in list { BatchNamesDistinct(names[1..], list); }
      else if |list| + 1 < BATCH_MAX { BatchNamesDistinct(names[1..], list + [n]); }
    }
  }

  /**
    The value the patch writes parses back, by the operator's own reading, to exactly the names
    it was built from: at most 256, all valid, none lost, and it counts as a request.
  */
  lemma BatchValueParsesBack(names: seq<string>)
    ensures var list := BatchNames(names, []);
            && (list != [] ==> SplitCsv(Join(list, ',')) == list)
            && (list != [] ==> forall x :: x in NamesIn(Join(list, ',')) <==> x in list)
            && (list != [] ==> |NamesIn(Join(list, ','))| <= BATCH_MAX)
            && (forall x :: x in list ==> ValidName(x))
  {
    hide ValidName;
    var list := BatchNames(names, []);
    forall x | x in list ensures PlainItem(x) && x != "" { ValidIsPlain(x); }
    if list != [] { SplitCsvJoin(list); }
  }
}
