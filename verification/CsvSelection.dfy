/**
  Choosing the Compliance Operator's CSV: the newest of each tier, found in one list or folded
  page by page over a cluster-wide walk that may stop early.
*/
module CsvSelection {
  import opened Options
  import opened Text
  import opened CsvVersion
  import opened CsvPrecedence

  const LOCAL := "openshift-compliance"
  const MAX_PAGES := 50

  /** A CSV's name, namespace and whether its phase reads Succeeded. */
  datatype Csv = Csv(name: string, ns: string, succeeded: bool)

  predicate InTier(c: Csv, ns: string, succeeded: bool) {
    (ns == "" || c.ns == ns) && HasPrefix(c.name) && c.succeeded == succeeded
  }

  /** c is the newest of its tier: nothing there is newer, nothing before it is as new. */
  ghost predicate Newest(items: seq<Csv>, ns: string, succeeded: bool, k: nat) {
    && k < |items| && InTier(items[k], ns, succeeded)
    && (forall i :: 0 <= i < |items| && InTier(items[i], ns, succeeded) ==>
          CompareNames(items[i].name, items[k].name) <= 0)
    && (forall i :: 0 <= i < k && InTier(items[i], ns, succeeded) ==>
          CompareNames(items[i].name, items[k].name) < 0)
  }

  predicate Replaces(c: Csv, best: Option<Csv>) {
    best.None? || CompareNames(c.name, best.value.name) > 0
  }

  /** The running best over a list, read left to right, after an incumbent. */
  function Best(best: Option<Csv>, items: seq<Csv>, ns: string, succeeded: bool): Option<Csv>
    decreases |items|
  {
    if items == [] then best
    else
      Best(if InTier(items[0], ns, succeeded) && Replaces(items[0], best) then Some(items[0]) else best,
           items[1..], ns, succeeded)
  }

  /** Folding a second page over the first's best is folding both pages at once. */
  lemma {:induction false} BestOfPages(best: Option<Csv>, a: seq<Csv>, b: seq<Csv>, ns: string, succeeded: bool)
    ensures Best(Best(best, a, ns, succeeded), b, ns, succeeded) == Best(best, a + b, ns, succeeded)
    decreases |a|
  {
    if a == [] {
      assert a + b == b;
    } else {
      assert (a + b)[1..] == a[1..] + b;
      BestOfPages(if InTier(a[0], ns, succeeded) && Replaces(a[0], best) then Some(a[0]) else best,
                  a[1..], b, ns, succeeded);
    }
  }

  lemma BestStep(items: seq<Csv>, c: Csv, ns: string, succeeded: bool)
    ensures Best(None, items + [c], ns, succeeded)
         == if InTier(c, ns, succeeded) && Replaces(c, Best(None, items, ns, succeeded)) then Some(c)
            else Best(None, items, ns, succeeded)
  {
    BestOfPages(None, items, [c], ns, succeeded);
    assert [c][1..] == [];
  }

  /** The running best is the newest of the tier, the first of equals, or none when the tier is empty. */
  lemma {:induction false} BestIsNewest(items: seq<Csv>, ns: string, succeeded: bool)
    ensures match Best(None, items, ns, succeeded)
            case None => forall i :: 0 <= i < |items| ==> !InTier(items[i], ns, succeeded)
            case Some(c) => exists k: nat :: Newest(items, ns, succeeded, k) && items[k] == c
    decreases |items|
  {
    hide InTier, CompareNames;
    if items != [] {
      var front, c := items[..|items| - 1], items[|items| - 1];
      assert items == front + [c];
      BestIsNewest(front, ns, succeeded);
      BestStep(front, c, ns, succeeded);
      var best := Best(None, front, ns, succeeded);
      if best.Some? {
        var k: nat :| Newest(front, ns, succeeded, k) && front[k] == best.value;
        if InTier(c, ns, succeeded) && Replaces(c, best) {
          NewestReplaced(front, c, ns, succeeded, k);
        } else {
          NewestKept(front, c, ns, succeeded, k);
        }
      } else if InTier(c, ns, succeeded) {
        NamesTotallyOrdered(c.name, c.name, c.name);
        assert Newest(items, ns, succeeded, |front|);
      }
    }
  }

  lemma NewestReplaced(front: seq<Csv>, c: Csv, ns: string, succeeded: bool, k: nat)
    requires Newest(front, ns, succeeded, k) && InTier(c, ns, succeeded)
    requires CompareNames(c.name, front[k].name) > 0
    ensures Newest(front + [c], ns, succeeded, |front|)
  {
    hide InTier, CompareNames;
    NamesTotallyOrdered(c.name, c.name, c.name);
    forall i | 0 <= i < |front| && InTier(front[i], ns, succeeded)
      ensures CompareNames(front[i].name, c.name) < 0
    {
      NamesTotallyOrdered(c.name, front[k].name, front[i].name);
      NamesTotallyOrdered(front[i].name, front[k].name, c.name);
      NamesTotallyOrdered(front[k].name, front[i].name, c.name);
      NamesChained(front[i].name, front[k].name, c.name);
    }
  }

  lemma NewestKept(front: seq<Csv>, c: Csv, ns: string, succeeded: bool, k: nat)
    requires Newest(front, ns, succeeded, k)
    requires !InTier(c, ns, succeeded) || CompareNames(c.name, front[k].name) <= 0
    ensures Newest(front + [c], ns, succeeded, k) && (front + [c])[k] == front[k]
  {
    hide InTier, CompareNames;
  }

  // ---- tiers ----

  /** A CSV of this operator in the namespace asked for, all of them when none is, in the given state. */
  predicate Member(c: Csv, ns: string, succeeded: bool) {
    (ns == "" || c.ns == ns) && "compliance-operator.v" <= c.name && c.succeeded == succeeded
  }

  ghost predicate Occupied(items: seq<Csv>, ns: string, succeeded: bool) {
    exists c :: c in items && Member(c, ns, succeeded)
  }

  /** best is of the tier, and no other of the tier has the greater name by version. */
  ghost predicate Tops(items: seq<Csv>, ns: string, succeeded: bool, best: Option<Csv>) {
    && best.Some? && best.value in items && Member(best.value, ns, succeeded)
    && forall c :: c in items && Member(c, ns, succeeded) ==> !Lesser(best.value.name, c.name)
  }

  lemma BestTops(items: seq<Csv>, ns: string, succeeded: bool)
    ensures if Occupied(items, ns, succeeded) then Tops(items, ns, succeeded, Best(None, items, ns, succeeded))
            else Best(None, items, ns, succeeded) == None
  {
    hide CompareNames, Lesser, Best;
    BestIsNewest(items, ns, succeeded);
    forall c: Csv ensures Member(c, ns, succeeded) <==> InTier(c, ns, succeeded) {
    }
    var best := Best(None, items, ns, succeeded);
    if best.Some? {
      var k: nat :| Newest(items, ns, succeeded, k) && items[k] == best.value;
      forall c | c in items && Member(c, ns, succeeded) ensures !Lesser(best.value.name, c.name) {
        NamesExactly(c.name, best.value.name);
      }
    }
  }

  /** The search's answer, by what is there: local Succeeded, any Succeeded, local other, any other, or none. */
  ghost predicate RightAnswer(local: seq<Csv>, walked: seq<Csv>, r: Option<Csv>) {
    if Occupied(local, "openshift-compliance", true) then Tops(local, "openshift-compliance", true, r)
    else if Occupied(walked, "", true) then Tops(walked, "", true, r)
    else if Occupied(local, "openshift-compliance", false) then Tops(local, "openshift-compliance", false, r)
    else if Occupied(walked, "", false) then Tops(walked, "", false, r)
    else r == None
  }

  lemma AnswerIsRight(local: seq<Csv>, walked: seq<Csv>)
    ensures RightAnswer(local, walked, Answer(local, walked))
  {
    hide Best, Occupied, Tops;
    BestTops(local, LOCAL, true);
    BestTops(walked, "", true);
    BestTops(local, LOCAL, false);
    BestTops(walked, "", false);
    forall items, ns, succeeded, best | Tops(items, ns, succeeded, best) ensures best.Some? { Topped(items, ns, succeeded, best); }
  }

  lemma Topped(items: seq<Csv>, ns: string, succeeded: bool, best: Option<Csv>)
    requires Tops(items, ns, succeeded, best)
    ensures best.Some?
  {
  }

  // ---- the loops ----

  /** The newest of one tier in one list, remembered by index. */
  method PickComplianceOperatorCSV(items: seq<Csv>, ns: string, succeededOnly: bool) returns (best: Option<Csv>)
    ensures best == Best(None, items, ns, succeededOnly)
  {
    hide CompareNames, HasPrefix;
    var bestIdx := -1;
    for i := 0 to |items|
      invariant -1 <= bestIdx < i
      invariant Best(None, items[..i], ns, succeededOnly) == if bestIdx < 0 then None else Some(items[bestIdx])
    {
      assert items[..i + 1] == items[..i] + [items[i]];
      BestStep(items[..i], items[i], ns, succeededOnly);
      var csv := items[i];
      if ns != "" && csv.ns != ns { continue; }
      if !HasPrefix(csv.name) { continue; }
      if succeededOnly != csv.succeeded { continue; }
      if bestIdx < 0 || CompareNames(csv.name, items[bestIdx].name) > 0 { bestIdx := i; }
    }
    assert items[..|items|] == items;
    best := if bestIdx < 0 then None else Some(items[bestIdx]);
  }

  /** A tier's leader on one page: an index, or the incumbent carried in. */
  datatype Leader = Leader(idx: int, csv: Option<Csv>)

  /** One page folded into the newest Succeeded and the newest other CSV. */
  method FoldComplianceOperatorCSVs(items: seq<Csv>, bestSucceeded: Option<Csv>, bestOther: Option<Csv>)
    returns (succeeded: Option<Csv>, other: Option<Csv>)
    ensures succeeded == Best(bestSucceeded, items, "", true)
    ensures other == Best(bestOther, items, "", false)
  {
    hide CompareNames, HasPrefix;
    var s, o := Leader(-1, bestSucceeded), Leader(-1, bestOther);
    for i := 0 to |items|
      invariant -1 <= s.idx < i && -1 <= o.idx < i
      invariant s.csv == Best(bestSucceeded, items[..i], "", true)
      invariant o.csv == Best(bestOther, items[..i], "", false)
      invariant if s.idx >= 0 then s.csv == Some(items[s.idx]) else s.csv == bestSucceeded
      invariant if o.idx >= 0 then o.csv == Some(items[o.idx]) else o.csv == bestOther
    {
      assert items[..i + 1] == items[..i] + [items[i]] && [items[i]][1..] == [];
      BestOfPages(bestSucceeded, items[..i], [items[i]], "", true);
      BestOfPages(bestOther, items[..i], [items[i]], "", false);
      var csv := items[i];
      if !HasPrefix(csv.name) { continue; }
      if csv.succeeded {
        if Replaces(csv, s.csv) { s := Leader(i, Some(csv)); }
        continue;
      }
      if Replaces(csv, o.csv) { o := Leader(i, Some(csv)); }
    }
    assert items[..|items|] == items;
    succeeded := if s.idx >= 0 then Some(items[s.idx]) else bestSucceeded;
    other := if o.idx >= 0 then Some(items[o.idx]) else bestOther;
  }

  // ---- the search ----

  datatype Response = Page(items: seq<Csv>, next: string) | NoMatch | Failed

  datatype Found = Error | Result(csv: Option<Csv>)

  function First(a: Option<Csv>, b: Option<Csv>): Option<Csv> {
    if a.Some? then a else b
  }

  /** The first non-empty of: local Succeeded, any Succeeded, local other, any other. */
  function Answer(local: seq<Csv>, walked: seq<Csv>): Option<Csv> {
    First(Best(None, local, LOCAL, true),
          First(Best(None, walked, "", true),
                First(Best(None, local, LOCAL, false), Best(None, walked, "", false))))
  }

  /** How the walk over the cluster-wide pages ends, and everything it read before that. */
  datatype Walk = Aborted | Walked(items: seq<Csv>)

  function Read(w: Walk): seq<Csv> {
    if w.Walked? then w.items else []
  }

  function WalkFrom(responses: seq<Response>, cont: string, page: nat, read: seq<Csv>): Walk
    decreases |responses|
  {
    if responses == [] || responses[0].Failed? then Aborted
    else if responses[0].NoMatch? then Walked(read)
    else
      var more := read + responses[0].items;
      var next := responses[0].next;
      if next == "" || next == cont || page + 1 >= MAX_PAGES then Walked(more)
      else WalkFrom(responses[1..], next, page + 1, more)
  }

  function WalkedBest(succeeded: Option<Csv>, other: Option<Csv>, localFallback: Option<Csv>): Option<Csv> {
    if succeeded.Some? then succeeded else if localFallback.Some? then localFallback else other
  }

  /** Every exit of the search, complete or cut short, gives the tier answer on what was read. */
  method FindComplianceOperatorCSV(local: Response, responses: seq<Response>) returns (r: Found)
    requires |responses| >= MAX_PAGES
    ensures local.NoMatch? ==> r == Result(None)
    ensures local.Failed? ==> r == Error
    ensures local.Page? && Best(None, local.items, LOCAL, true).Some? ==>
              r == Result(Best(None, local.items, LOCAL, true))
    ensures local.Page? && Best(None, local.items, LOCAL, true).None? ==>
              match WalkFrom(responses, "", 0, [])
              case Aborted => r == Error
              case Walked(items) => r == Result(Answer(local.items, items))
    ensures local.Page? && r.Result? ==> RightAnswer(local.items, Read(WalkFrom(responses, "", 0, [])), r.csv)
  {
    hide Best, InTier, Replaces, RightAnswer;
    if local.NoMatch? { return Result(None); }
    if local.Failed? { return Error; }
    AnswerIsRight(local.items, Read(WalkFrom(responses, "", 0, [])));
    var csv := PickComplianceOperatorCSV(local.items, LOCAL, true);
    if csv.Some? { return Result(csv); }
    var localFallback := PickComplianceOperatorCSV(local.items, LOCAL, false);
    var bestSucceeded: Option<Csv>, bestOther: Option<Csv> := None, None;
    ghost var read: seq<Csv> := [];
    var cont := "";
    var page := 0;
    BestOfNothing(true);
    BestOfNothing(false);
    assert responses[0..] == responses;
    while true
      invariant page < MAX_PAGES
      invariant bestSucceeded == Best(None, read, "", true) && bestOther == Best(None, read, "", false)
      invariant WalkFrom(responses, "", 0, []) == WalkFrom(responses[page..], cont, page, read)
      decreases MAX_PAGES - page
    {
      var response := responses[page];
      assert responses[page..][0] == response && responses[page..][1..] == responses[page + 1..];
      if response.NoMatch? { return Result(WalkedBest(bestSucceeded, bestOther, localFallback)); }
      if response.Failed? { return Error; }
      BestOfPages(None, read, response.items, "", true);
      BestOfPages(None, read, response.items, "", false);
      read := read + response.items;
      bestSucceeded, bestOther := FoldComplianceOperatorCSVs(response.items, bestSucceeded, bestOther);
      var next := response.next;
      if next == "" { break; }
      if next == cont || page + 1 >= MAX_PAGES {
        return Result(WalkedBest(bestSucceeded, bestOther, localFallback));
      }
      cont := next;
      page := page + 1;
    }
    assert WalkFrom(responses, "", 0, []) == Walked(read);
    if bestSucceeded.Some? { return Result(bestSucceeded); }
    if localFallback.Some? { return Result(localFallback); }
    r := Result(bestOther);
  }

  lemma BestOfNothing(succeeded: bool)
    ensures Best(None, [], "", succeeded) == None
  {
  }

  // ---- what a walk reads ----

  function PagesOf(responses: seq<Response>, n: nat): (pages: seq<seq<Csv>>)
    requires n <= |responses| && forall i :: 0 <= i < n ==> responses[i].Page?
    ensures |pages| == n && forall i :: 0 <= i < n ==> pages[i] == responses[i].items
  {
    seq(n, i requires 0 <= i < n => responses[i].items)
  }

  /** The token with which page i is asked for. */
  function Asked(responses: seq<Response>, cont: string, i: nat): string
    requires i <= |responses| && forall j :: 0 <= j < i ==> responses[j].Page?
  {
    if i == 0 then cont else responses[i - 1].next
  }

  /** Page i leads to another one. */
  predicate Leads(responses: seq<Response>, cont: string, i: nat)
    requires i < |responses| && forall j :: 0 <= j <= i ==> responses[j].Page?
  {
    responses[i].next != "" && responses[i].next != Asked(responses, cont, i)
  }

  /** The walk read the first n pages, and no further one leads on, is allowed, or has its kind. */
  ghost predicate ReadsPages(responses: seq<Response>, cont: string, room: nat, n: nat) {
    && n <= |responses| && n <= room && (forall i :: 0 <= i < n ==> responses[i].Page?)
    && (forall i :: 0 <= i < n - 1 ==> Leads(responses, cont, i))
    && (|| (n > 0 && (n == room || !Leads(responses, cont, n - 1)))
        || (n < |responses| && n < room && responses[n].NoMatch? && (n > 0 ==> Leads(responses, cont, n - 1))))
  }

  lemma ReadsFirst(responses: seq<Response>, cont: string, room: nat)
    requires responses != [] && room > 0
    ensures responses[0].NoMatch? ==> ReadsPages(responses, cont, room, 0)
    ensures responses[0].Page? && (room == 1 || !Leads(responses, cont, 0)) ==> ReadsPages(responses, cont, room, 1)
  {
  }

  lemma ReadsMore(responses: seq<Response>, cont: string, room: nat, rest: nat)
    requires responses != [] && responses[0].Page? && Leads(responses, cont, 0) && room > 1
    requires ReadsPages(responses[1..], responses[0].next, room - 1, rest)
    ensures ReadsPages(responses, cont, room, rest + 1)
  {
    var tail, next := responses[1..], responses[0].next;
    forall i: nat | i < rest ensures responses[i + 1].Page? && Leads(responses, cont, i + 1) == Leads(tail, next, i) {
      assert tail[i] == responses[i + 1];
      assert forall j :: 0 <= j <= i + 1 ==> responses[j].Page? by {
        forall j | 0 <= j <= i + 1 ensures responses[j].Page? { if j > 0 { assert tail[j - 1] == responses[j]; } }
      }
    }
    forall i | 0 <= i < rest ensures Leads(responses, cont, i) {
      if i > 0 { assert Leads(tail, next, i - 1); }
    }
  }

  /**
    A walk that is not cut off by an error has read the first pages one after another, all the
    way to the last one, to a token that does not advance, to the fiftieth page, or to the CRD's
    disappearance.
  */
  lemma {:induction false} WalkReads(responses: seq<Response>, cont: string, page: nat, read: seq<Csv>) returns (n: nat)
    requires page < MAX_PAGES && WalkFrom(responses, cont, page, read).Walked?
    ensures ReadsPages(responses, cont, 50 - page, n)
    ensures WalkFrom(responses, cont, page, read) == Walked(read + Concat(PagesOf(responses, n)))
    decreases |responses|
  {
    hide ReadsPages;
    ReadsFirst(responses, cont, MAX_PAGES - page);
    if responses[0].NoMatch? {
      n := 0;
      assert PagesOf(responses, 0) == [] && read + [] == read;
    } else {
      var more, next := read + responses[0].items, responses[0].next;
      if next == "" || next == cont || page + 1 >= MAX_PAGES {
        n := 1;
        assert PagesOf(responses, 1) == [responses[0].items] && [responses[0].items][1..] == [];
        assert responses[0].items + [] == responses[0].items;
      } else {
        var rest := WalkReads(responses[1..], next, page + 1, more);
        n := rest + 1;
        ReadsMore(responses, cont, MAX_PAGES - page, rest);
        assert PagesOf(responses, n) == [responses[0].items] + PagesOf(responses[1..], rest);
        assert more + Concat(PagesOf(responses[1..], rest)) == read + Concat(PagesOf(responses, n));
      }
    }
  }

  /** Page n is asked for, and the API server fails to give it. */
  ghost predicate FailsAt(responses: seq<Response>, cont: string, room: nat, n: nat) {
    && n < |responses| && n < room && responses[n].Failed?
    && (forall i :: 0 <= i < n ==> responses[i].Page?)
    && (forall i :: 0 <= i < n ==> Leads(responses, cont, i))
  }

  lemma FailsLater(responses: seq<Response>, cont: string, room: nat, n: nat)
    requires responses != [] && responses[0].Page? && Leads(responses, cont, 0) && room > 1
    requires FailsAt(responses[1..], responses[0].next, room - 1, n)
    ensures FailsAt(responses, cont, room, n + 1)
  {
    var tail, next := responses[1..], responses[0].next;
    forall i | 0 <= i <= n ensures responses[i].Page? {
      if i > 0 { assert tail[i - 1] == responses[i]; }
    }
    forall i | 0 <= i <= n ensures Leads(responses, cont, i) {
      if i > 0 { assert Leads(tail, next, i - 1) && tail[i - 1] == responses[i]; }
    }
  }

  /** The walk ends in an error only for a page it needed and was refused: nothing else cuts it off. */
  lemma {:induction false} WalkAborts(responses: seq<Response>, cont: string, page: nat, read: seq<Csv>) returns (n: nat)
    requires page < MAX_PAGES && |responses| >= 50 - page && WalkFrom(responses, cont, page, read).Aborted?
    ensures FailsAt(responses, cont, 50 - page, n)
    decreases |responses|
  {
    hide FailsAt;
    if responses[0].Failed? {
      n := 0;
      FailsFirst(responses, cont, MAX_PAGES - page);
    } else {
      var rest := WalkAborts(responses[1..], responses[0].next, page + 1, read + responses[0].items);
      FailsLater(responses, cont, MAX_PAGES - page, rest);
      n := rest + 1;
    }
  }

  lemma FailsFirst(responses: seq<Response>, cont: string, room: nat)
    requires responses != [] && responses[0].Failed? && room > 0
    ensures FailsAt(responses, cont, room, 0)
  {
  }

  // ---- page splits do not matter ----

  function Concat(pages: seq<seq<Csv>>): seq<Csv> {
    if pages == [] then [] else pages[0] + Concat(pages[1..])
  }

  /** The apiserver's answers for a list served in these pages, with advancing tokens. */
  predicate Serves(responses: seq<Response>, pages: seq<seq<Csv>>) {
    && 0 < |pages| <= |responses|
    && (forall i :: 0 <= i < |pages| ==> responses[i].Page? && responses[i].items == pages[i])
    && (forall i :: 0 <= i < |pages| - 1 ==> responses[i].next != "")
    && (forall i :: 0 < i < |pages| - 1 ==> responses[i].next != responses[i - 1].next)
    && responses[|pages| - 1].next == ""
  }

  lemma {:induction false} ServedIsWalked(responses: seq<Response>, pages: seq<seq<Csv>>, cont: string, page: nat, read: seq<Csv>)
    requires Serves(responses, pages) && page + |pages| <= MAX_PAGES
    requires |pages| > 1 ==> responses[0].next != cont
    ensures WalkFrom(responses, cont, page, read) == Walked(read + Concat(pages))
    decreases |pages|
  {
    if |pages| == 1 {
      assert pages[1..] == [] && read + pages[0] == read + (pages[0] + []);
    } else {
      assert Serves(responses[1..], pages[1..]);
      ServedIsWalked(responses[1..], pages[1..], responses[0].next, page + 1, read + pages[0]);
      assert read + pages[0] + Concat(pages[1..]) == read + (pages[0] + Concat(pages[1..]));
    }
  }

  /** A complete walk of at most 50 pages finds the same CSV however the list was split. */
  lemma SplitDoesNotMatter(a: seq<Response>, b: seq<Response>, p: seq<seq<Csv>>, q: seq<seq<Csv>>)
    requires Serves(a, p) && Serves(b, q) && |p| <= MAX_PAGES && |q| <= MAX_PAGES && Concat(p) == Concat(q)
    ensures WalkFrom(a, "", 0, []) == WalkFrom(b, "", 0, []) == Walked(Concat(p))
  {
    ServedIsWalked(a, p, "", 0, []);
    ServedIsWalked(b, q, "", 0, []);
    assert [] + Concat(p) == Concat(p);
  }
}
