/**
  The status rollup: every owned check result is counted once, by page, into its profile's
  bucket and the pooled totals; named failures feed the scan difference.
*/
module Aggregate {
  import opened Options
  import opened Text
  import opened Scores
  import opened HistoryModel
  import HistoryRecorder
  import Inconsistent

  /**
    A check result: its suite label, name, raw status ("" when missing or not text), severity, and
    the two annotations in which an INCONSISTENT result spells its nodes' states.
  */
  datatype Item = Item(suite: string, name: string, status: string, severity: string, source: string, common: string)

  /** An accepted risk: a check's name, and the instant it expires, if any. */
  datatype Waiver = Waiver(name: string, expires: Option<int>)

  /** The selected profiles in spec order, the spec's waivers, the scoring mode and the clock. */
  datatype Config = Config(keys: seq<Key>, waivers: seq<Waiver>, weighted: bool, now: int)

  datatype Class = Pass | Fail | Manual | Info | Error | Inconsistent | Waived | NotApplicable

  datatype Counts = Counts(
    pass: nat, fail: nat, manual: nat, info: nat, error: nat, inconsistent: nat, waived: nat, notApplicable: nat)

  const ZERO := Counts(0, 0, 0, 0, 0, 0, 0, 0)

  // ---- one item ----

  const BINDING := "baseline-"
  const TAILORED_BINDING := "baseline-tp-"

  /** The profile a suite label names; tailored suites are never built-in ones. */
  function KeyOfSuite(suite: string): Option<Key> {
    if TAILORED_BINDING <= suite && |suite| > |TAILORED_BINDING| then Some(Key.Tailored(suite[|TAILORED_BINDING|..]))
    else if BINDING <= suite && |suite| > |BINDING| && !("tp-" <= suite[|BINDING|..]) then
      Some(Key.Profile(suite[|BINDING|..]))
    else None
  }

  /** The selected bucket an item belongs to. */
  function Owner(cfg: Config, x: Item): Option<Key> {
    var k := KeyOfSuite(x.suite);
    if k.Some? && k.value in cfg.keys then k else None
  }

  /** A raw WAIVED is nobody's waiver; INCONSISTENT is what its nodes collapse to. */
  function Effective(x: Item): string {
    if x.status == "WAIVED" then "ERROR"
    else if x.status == "INCONSISTENT" then Inconsistent.Collapse(Inconsistent.States(x.source, x.common))
    else x.status
  }

  predicate Unexpired(w: Waiver, now: int) {
    w.expires.None? || w.expires.value > now
  }

  /** The names an unexpired waiver accepts. */
  function ActiveNames(cfg: Config): set<string> {
    set w | w in cfg.waivers && w.name != "" && Unexpired(w, cfg.now) :: w.name
  }

  predicate RawFail(x: Item) { Effective(x) == "FAIL" }

  predicate IsWaived(cfg: Config, x: Item) {
    RawFail(x) && x.name != "" && x.name in ActiveNames(cfg)
  }

  /** Exactly one class per item; anything unrecognised is an error. */
  function ClassOf(cfg: Config, x: Item): Class {
    if IsWaived(cfg, x) then Waived else ClassOfStatus(Effective(x))
  }

  function ClassOfStatus(s: string): Class {
    if s == "PASS" then Pass
    else if s == "FAIL" then Fail
    else if s == "MANUAL" then Manual
    else if s == "INFO" then Info
    else if s == "INCONSISTENT" then Inconsistent
    else if s == "WAIVED" then Waived
    else if s == "SKIP" || s == "NOT-APPLICABLE" then NotApplicable
    else Error
  }

  function Weight(severity: string): nat {
    if severity == "high" then 10 else if severity == "medium" then 5 else if severity == "low" then 2 else 1
  }

  // ---- what is measured ----

  datatype Measure = Every | In(kind: Class) | Mass(side: Class)

  function Amount(cfg: Config, m: Measure, x: Item): nat {
    match m
    case Every => 1
    case In(c) => if ClassOf(cfg, x) == c then 1 else 0
    case Mass(c) => if cfg.weighted && ClassOf(cfg, x) == c then Weight(x.severity) else 0
  }

  /** An item's share of bucket k, or of the pool when no bucket is named. */
  function Share(cfg: Config, k: Option<Key>, m: Measure, x: Item): nat {
    if Owner(cfg, x).None? then 0
    else if k.None? || k == Owner(cfg, x) then Amount(cfg, m, x)
    else 0
  }

  function Sum(cfg: Config, k: Option<Key>, m: Measure, items: seq<Item>): nat {
    if items == [] then 0 else Sum(cfg, k, m, items[..|items| - 1]) + Share(cfg, k, m, items[|items| - 1])
  }

  lemma {:induction false} SumConcat(cfg: Config, k: Option<Key>, m: Measure, a: seq<Item>, b: seq<Item>)
    ensures Sum(cfg, k, m, a + b) == Sum(cfg, k, m, a) + Sum(cfg, k, m, b)
    decreases |b|
  {
    hide Share;
    if b == [] {
      assert a + b == a;
    } else {
      assert (a + b)[..|a + b| - 1] == a + b[..|b| - 1];
      SumConcat(cfg, k, m, a, b[..|b| - 1]);
    }
  }

  lemma SumOne(cfg: Config, k: Option<Key>, m: Measure, x: Item)
    ensures Sum(cfg, k, m, [x]) == Share(cfg, k, m, x)
  {
    hide Share;
    assert [x][..0] == [];
  }

  /** Sums do not depend on the order of the items. */
  lemma {:induction false} SumPermuted(cfg: Config, k: Option<Key>, m: Measure, a: seq<Item>, b: seq<Item>)
    requires multiset(a) == multiset(b)
    ensures Sum(cfg, k, m, a) == Sum(cfg, k, m, b)
    decreases |a|
  {
    hide Share;
    if a == [] {
      assert |multiset(b)| == 0;
      assert b == [];
    } else {
      var i := Moved(a, b);
      var x, front := a[|a| - 1], a[..|a| - 1];
      SumPermuted(cfg, k, m, front, b[..i] + b[i + 1..]);
      assert b == b[..i] + [x] + b[i + 1..];
      SumConcat(cfg, k, m, b[..i] + [x], b[i + 1..]);
      SumConcat(cfg, k, m, b[..i], [x]);
      SumConcat(cfg, k, m, b[..i], b[i + 1..]);
      SumOne(cfg, k, m, x);
    }
  }

  lemma MultisetSplit<T>(b: seq<T>, i: nat)
    requires i < |b|
    ensures multiset(b) == multiset(b[..i] + b[i + 1..]) + multiset{b[i]}
  {
    assert b == b[..i] + [b[i]] + b[i + 1..];
  }

  /** Where the last item of a stands in its permutation b. */
  lemma Moved<T>(a: seq<T>, b: seq<T>) returns (i: nat)
    requires multiset(a) == multiset(b) && a != []
    ensures i < |b| && b[i] == a[|a| - 1]
    ensures multiset(a[..|a| - 1]) == multiset(b[..i] + b[i + 1..])
  {
    var n := |a| - 1;
    assert a[n] in multiset(b);
    i :| 0 <= i < |b| && b[i] == a[n];
    MultisetSplit(a, n);
    MultisetSplit(b, i);
    assert a[..n] + a[n + 1..] == a[..n];
    Cancel(multiset(a[..n]), multiset(b[..i] + b[i + 1..]), a[n]);
  }

  lemma Cancel<T>(a: multiset<T>, b: multiset<T>, x: T)
    requires a + multiset{x} == b + multiset{x}
    ensures a == b
  {
    assert a == (a + multiset{x}) - multiset{x} == b;
  }

  // ---- conservation ----

  function SumKeys(cfg: Config, ks: seq<Key>, m: Measure, items: seq<Item>): nat {
    if ks == [] then 0 else Sum(cfg, Some(ks[0]), m, items) + SumKeys(cfg, ks[1..], m, items)
  }

  function ShareKeys(cfg: Config, ks: seq<Key>, m: Measure, x: Item): nat {
    if ks == [] then 0 else Share(cfg, Some(ks[0]), m, x) + ShareKeys(cfg, ks[1..], m, x)
  }

  ghost predicate Distinct(ks: seq<Key>) {
    forall i, j :: 0 <= i < j < |ks| ==> ks[i] != ks[j]
  }

  lemma {:induction false} SumKeysStep(cfg: Config, ks: seq<Key>, m: Measure, items: seq<Item>)
    requires items != []
    ensures SumKeys(cfg, ks, m, items)
         == SumKeys(cfg, ks, m, items[..|items| - 1]) + ShareKeys(cfg, ks, m, items[|items| - 1])
    decreases |ks|
  {
    hide Share;
    if ks != [] { SumKeysStep(cfg, ks[1..], m, items); }
  }

  lemma {:induction false} SumKeysNone(cfg: Config, ks: seq<Key>, m: Measure)
    ensures SumKeys(cfg, ks, m, []) == 0
    decreases |ks|
  {
    if ks != [] { SumKeysNone(cfg, ks[1..], m); }
  }

  /** Of distinct buckets exactly the owner's takes the item. */
  lemma {:induction false} ShareOnce(cfg: Config, ks: seq<Key>, m: Measure, x: Item)
    requires Distinct(ks)
    ensures ShareKeys(cfg, ks, m, x)
         == if Owner(cfg, x).Some? && Owner(cfg, x).value in ks then Amount(cfg, m, x) else 0
    decreases |ks|
  {
    hide Owner, Amount;
    if ks != [] {
      ShareOnce(cfg, ks[1..], m, x);
      assert ks == [ks[0]] + ks[1..];
    }
  }

  lemma OwnerIsKept(cfg: Config, x: Item)
    ensures Owner(cfg, x).Some? ==> Owner(cfg, x).value in cfg.keys
  {
  }

  /** Any measure summed over the selected buckets is the pooled measure: nothing lost, nothing twice. */
  lemma {:induction false} Conserved(cfg: Config, m: Measure, items: seq<Item>)
    requires Distinct(cfg.keys)
    ensures SumKeys(cfg, cfg.keys, m, items) == Sum(cfg, None, m, items)
    decreases |items|
  {
    hide Owner, Amount, SumKeys, ShareKeys;
    if items == [] {
      SumKeysNone(cfg, cfg.keys, m);
    } else {
      var x := items[|items| - 1];
      Conserved(cfg, m, items[..|items| - 1]);
      SumKeysStep(cfg, cfg.keys, m, items);
      ShareOnce(cfg, cfg.keys, m, x);
      OwnerIsKept(cfg, x);
    }
  }

  function CountsOf(cfg: Config, k: Option<Key>, items: seq<Item>): Counts {
    Counts(Sum(cfg, k, In(Pass), items), Sum(cfg, k, In(Fail), items), Sum(cfg, k, In(Manual), items),
           Sum(cfg, k, In(Info), items), Sum(cfg, k, In(Error), items), Sum(cfg, k, In(Inconsistent), items),
           Sum(cfg, k, In(Waived), items), Sum(cfg, k, In(NotApplicable), items))
  }

  function Total(c: Counts): nat {
    c.pass + c.fail + c.manual + c.info + c.error + c.inconsistent + c.waived + c.notApplicable
  }

  lemma SharesAddUp(cfg: Config, k: Option<Key>, x: Item)
    ensures Share(cfg, k, Every, x)
         == Share(cfg, k, In(Pass), x) + Share(cfg, k, In(Fail), x) + Share(cfg, k, In(Manual), x)
            + Share(cfg, k, In(Info), x) + Share(cfg, k, In(Error), x) + Share(cfg, k, In(Inconsistent), x)
            + Share(cfg, k, In(Waived), x) + Share(cfg, k, In(NotApplicable), x)
  {
    hide ClassOf, Owner;
  }

  /** The eight counts of a bucket add up to its items. */
  lemma {:induction false} CountsAddUp(cfg: Config, k: Option<Key>, items: seq<Item>)
    ensures Total(CountsOf(cfg, k, items)) == Sum(cfg, k, Every, items)
    decreases |items|
  {
    hide ClassOf, Owner, Share;
    if items != [] {
      CountsAddUp(cfg, k, items[..|items| - 1]);
      SharesAddUp(cfg, k, items[|items| - 1]);
    }
  }

  function TotalKeys(cfg: Config, ks: seq<Key>, items: seq<Item>): nat {
    if ks == [] then 0 else Total(CountsOf(cfg, Some(ks[0]), items)) + TotalKeys(cfg, ks[1..], items)
  }

  lemma {:induction false} TotalsAddUp(cfg: Config, ks: seq<Key>, items: seq<Item>)
    ensures TotalKeys(cfg, ks, items) == SumKeys(cfg, ks, Every, items)
    decreases |ks|
  {
    hide CountsOf, Total, Sum;
    if ks != [] {
      CountsAddUp(cfg, Some(ks[0]), items);
      TotalsAddUp(cfg, ks[1..], items);
    }
  }

  /** The number of owned results. */
  function Owned(cfg: Config, items: seq<Item>): nat {
    if items == [] then 0
    else Owned(cfg, items[..|items| - 1]) + (if Owner(cfg, items[|items| - 1]).Some? then 1 else 0)
  }

  lemma {:induction false} OwnedIsPooled(cfg: Config, items: seq<Item>)
    ensures Sum(cfg, None, Every, items) == Owned(cfg, items)
    decreases |items|
  {
    hide Owner;
    if items != [] { OwnedIsPooled(cfg, items[..|items| - 1]); }
  }

  /** The eight counts over all buckets add up to the number of owned results. */
  lemma CountsConserve(cfg: Config, items: seq<Item>)
    requires Distinct(cfg.keys)
    ensures TotalKeys(cfg, cfg.keys, items) == Owned(cfg, items)
  {
    TotalsAddUp(cfg, cfg.keys, items);
    Conserved(cfg, Every, items);
    OwnedIsPooled(cfg, items);
  }

  // ---- failing names ----

  /** The names of owned, named, raw failures, waived ones included. */
  function FailNames(cfg: Config, items: seq<Item>): seq<string> {
    if items == [] then []
    else
      FailNames(cfg, items[..|items| - 1])
      + (var x := items[|items| - 1];
         if Owner(cfg, x).Some? && RawFail(x) && x.name != "" then [x.name] else [])
  }

  lemma {:induction false} FailNamesConcat(cfg: Config, a: seq<Item>, b: seq<Item>)
    ensures FailNames(cfg, a + b) == FailNames(cfg, a) + FailNames(cfg, b)
    decreases |b|
  {
    hide Owner, RawFail;
    if b == [] {
      assert a + b == a;
    } else {
      assert (a + b)[..|a + b| - 1] == a + b[..|b| - 1];
      FailNamesConcat(cfg, a, b[..|b| - 1]);
    }
  }

  lemma MultisetMiddle(f: seq<string>, g: seq<string>, p: seq<string>, q: seq<string>)
    requires multiset(f) == multiset(p + q)
    ensures multiset(f + g) == multiset(p + g + q)
  {
  }

  lemma {:induction false} FailNamesPermuted(cfg: Config, a: seq<Item>, b: seq<Item>)
    requires multiset(a) == multiset(b)
    ensures multiset(FailNames(cfg, a)) == multiset(FailNames(cfg, b))
    decreases |a|
  {
    hide FailNames;
    if a == [] {
      assert |multiset(b)| == 0;
      assert b == [];
    } else {
      var i := Moved(a, b);
      var x, front := a[|a| - 1], a[..|a| - 1];
      var p, q := b[..i], b[i + 1..];
      FailNamesPermuted(cfg, front, p + q);
      assert b == p + [x] + q && a == front + [x];
      FailNamesConcat(cfg, p + [x], q);
      FailNamesConcat(cfg, p, [x]);
      FailNamesConcat(cfg, p, q);
      FailNamesConcat(cfg, front, [x]);
      MultisetMiddle(FailNames(cfg, front), FailNames(cfg, [x]), FailNames(cfg, p), FailNames(cfg, q));
    }
  }

  /** Inserts a name into an ascending list, after its equals. */
  function Place(x: string, s: seq<string>): (r: seq<string>)
    ensures multiset(r) == multiset(s) + multiset{x}
  {
    if s == [] then [x]
    else if Less(x, s[0]) then [x] + s
    else
      assert s == [s[0]] + s[1..];
      [s[0]] + Place(x, s[1..])
  }

  lemma {:induction false} PlaceAscends(x: string, s: seq<string>)
    requires HistoryRecorder.Ascending(s)
    ensures HistoryRecorder.Ascending(Place(x, s))
    ensures Place(x, s) != [] && (Place(x, s)[0] == x || (s != [] && Place(x, s)[0] == s[0]))
  {
    if s != [] {
      AscendingTail(s);
      if Less(x, s[0]) {
        AscendingFront(x, s);
      } else {
        PlaceAscends(x, s[1..]);
        CompareAntisymmetric(s[0], x);
        assert |s| > 1 ==> Compare(s[1 - 1], s[1]) <= 0;
        AscendingFront(s[0], Place(x, s[1..]));
      }
    }
  }

  lemma AscendingFront(x: string, s: seq<string>)
    requires HistoryRecorder.Ascending(s) && (s != [] ==> Compare(x, s[0]) <= 0)
    ensures HistoryRecorder.Ascending([x] + s)
  {
    var r := [x] + s;
    forall i | 0 < i < |r| ensures Compare(r[i - 1], r[i]) <= 0 {
      var j := i - 1;
      assert j > 0 ==> Compare(s[j - 1], s[j]) <= 0;
    }
  }

  function Sorted(s: seq<string>): (r: seq<string>)
    ensures HistoryRecorder.Ascending(r) && multiset(r) == multiset(s)
  {
    if s == [] then []
    else
      assert s == s[..|s| - 1] + [s[|s| - 1]];
      var t := Sorted(s[..|s| - 1]);
      PlaceAscends(s[|s| - 1], t);
      Place(s[|s| - 1], t)
  }

  /** An ascending list is determined by its names and their number. */
  lemma {:induction false} AscendingIsCanonical(a: seq<string>, b: seq<string>)
    requires HistoryRecorder.Ascending(a) && HistoryRecorder.Ascending(b) && multiset(a) == multiset(b)
    ensures a == b
    decreases |a|
  {
    if a == [] {
      assert |multiset(b)| == 0;
    } else {
      SameFirst(a, b);
      assert a == [a[0]] + a[1..] && b == [b[0]] + b[1..];
      assert multiset(a) == multiset(a[1..]) + multiset{a[0]};
      assert multiset(b) == multiset(b[1..]) + multiset{b[0]};
      Cancel(multiset(a[1..]), multiset(b[1..]), a[0]);
      AscendingTail(a);
      AscendingTail(b);
      AscendingIsCanonical(a[1..], b[1..]);
    }
  }

  lemma SameFirst(a: seq<string>, b: seq<string>)
    requires HistoryRecorder.Ascending(a) && HistoryRecorder.Ascending(b) && multiset(a) == multiset(b) && a != []
    ensures b != [] && a[0] == b[0]
  {
    assert a[0] in multiset(b);
    var i :| 0 <= i < |b| && b[i] == a[0];
    assert b[0] in multiset(a);
    var j :| 0 <= j < |a| && a[j] == b[0];
    HistoryRecorder.AscendingFrom(a, 0, j);
    HistoryRecorder.AscendingFrom(b, 0, i);
    CompareAntisymmetric(a[0], b[0]);
  }

  lemma AscendingTail(a: seq<string>)
    requires HistoryRecorder.Ascending(a) && a != []
    ensures HistoryRecorder.Ascending(a[1..])
  {
    forall i | 0 < i < |a| - 1 ensures Compare(a[1..][i - 1], a[1..][i]) <= 0 {
      var j := i + 1;
      assert Compare(a[j - 1], a[j]) <= 0;
    }
  }

  // ---- distinct names ----

  /** How many items carry a name. */
  function Named(items: seq<Item>, n: string): nat {
    if items == [] then 0 else Named(items[..|items| - 1], n) + (if items[|items| - 1].name == n then 1 else 0)
  }

  lemma {:induction false} FailNamesAtMost(cfg: Config, items: seq<Item>, n: string)
    ensures multiset(FailNames(cfg, items))[n] <= Named(items, n)
    decreases |items|
  {
    hide Owner, RawFail;
    if items != [] { FailNamesAtMost(cfg, items[..|items| - 1], n); }
  }

  lemma TwiceCounts(s: seq<string>, i: nat, j: nat)
    requires i < j < |s| && s[i] == s[j]
    ensures multiset(s)[s[i]] >= 2
  {
    assert s == s[..i] + [s[i]] + s[i + 1..j] + [s[j]] + s[j + 1..];
  }

  /** Results with distinct names give a strictly sorted failure list, the form the scan difference works on. */
  lemma FailListIsStrict(cfg: Config, items: seq<Item>)
    requires forall n :: n != "" ==> Named(items, n) <= 1
    ensures StrictlySorted(RollupOf(cfg, items).fails)
  {
    hide FailNames, Named;
    var s := Sorted(FailNames(cfg, items));
    forall i, j | 0 <= i < j < |s| ensures Less(s[i], s[j]) {
      HistoryRecorder.AscendingFrom(s, i, j);
      FailListExactly(cfg, items, s[i]);
      FailNamesAtMost(cfg, items, s[i]);
      if s[i] == s[j] { TwiceCounts(s, i, j); }
    }
  }

  // ---- the rollup ----

  datatype Rollup = Rollup(counts: map<Key, Counts>, buckets: map<Key, Bucket>, score: Option<int>, fails: seq<string>)

  function BucketOf(cfg: Config, k: Key, items: seq<Item>): Bucket {
    Bucket(Sum(cfg, Some(k), In(Pass), items), Sum(cfg, Some(k), In(Fail), items),
           Sum(cfg, Some(k), Mass(Pass), items), Sum(cfg, Some(k), Mass(Fail), items))
  }

  function Score(cfg: Config, items: seq<Item>): Option<int> {
    if cfg.weighted then Score64(Sum(cfg, None, Mass(Pass), items), Sum(cfg, None, Mass(Fail), items))
    else Score64(Sum(cfg, None, In(Pass), items), Sum(cfg, None, In(Fail), items))
  }

  function RollupOf(cfg: Config, items: seq<Item>): Rollup {
    Rollup(map k | k in cfg.keys :: CountsOf(cfg, Some(k), items),
           map k | k in cfg.keys :: BucketOf(cfg, k, items),
           if cfg.keys == [] then None else Score(cfg, items),
           Sorted(FailNames(cfg, items)))
  }

  function Concat(pages: seq<seq<Item>>): seq<Item> {
    if pages == [] then [] else Concat(pages[..|pages| - 1]) + pages[|pages| - 1]
  }

  /** The whole rollup depends on neither the order of the results nor their split into pages. */
  lemma OrderAndPagingDoNotMatter(cfg: Config, a: seq<seq<Item>>, b: seq<seq<Item>>)
    requires multiset(Concat(a)) == multiset(Concat(b))
    ensures RollupOf(cfg, Concat(a)) == RollupOf(cfg, Concat(b))
  {
    hide CountsOf, BucketOf, Score, Sorted, FailNames;
    var x, y := Concat(a), Concat(b);
    forall k ensures CountsOf(cfg, Some(k), x) == CountsOf(cfg, Some(k), y) && BucketOf(cfg, k, x) == BucketOf(cfg, k, y) {
      BucketsPermuted(cfg, k, x, y);
    }
    ScorePermuted(cfg, x, y);
    FailNamesPermuted(cfg, x, y);
    AscendingIsCanonical(Sorted(FailNames(cfg, x)), Sorted(FailNames(cfg, y)));
    assert RollupOf(cfg, x).counts == RollupOf(cfg, y).counts;
    assert RollupOf(cfg, x).buckets == RollupOf(cfg, y).buckets;
  }

  lemma BucketsPermuted(cfg: Config, k: Key, x: seq<Item>, y: seq<Item>)
    requires multiset(x) == multiset(y)
    ensures CountsOf(cfg, Some(k), x) == CountsOf(cfg, Some(k), y) && BucketOf(cfg, k, x) == BucketOf(cfg, k, y)
  {
    hide Sum;
    forall m ensures Sum(cfg, Some(k), m, x) == Sum(cfg, Some(k), m, y) { SumPermuted(cfg, Some(k), m, x, y); }
  }

  lemma ScorePermuted(cfg: Config, x: seq<Item>, y: seq<Item>)
    requires multiset(x) == multiset(y)
    ensures Score(cfg, x) == Score(cfg, y)
  {
    hide Sum, Score64;
    forall m ensures Sum(cfg, None, m, x) == Sum(cfg, None, m, y) { SumPermuted(cfg, None, m, x, y); }
  }

  /** Pooled passes and failures, plain and weighted, are the sums over the buckets. */
  lemma PooledIsSummed(cfg: Config, items: seq<Item>)
    requires Distinct(cfg.keys)
    ensures Sum(cfg, None, In(Pass), items) == SumKeys(cfg, cfg.keys, In(Pass), items)
    ensures Sum(cfg, None, In(Fail), items) == SumKeys(cfg, cfg.keys, In(Fail), items)
    ensures Sum(cfg, None, Mass(Pass), items) == SumKeys(cfg, cfg.keys, Mass(Pass), items)
    ensures Sum(cfg, None, Mass(Fail), items) == SumKeys(cfg, cfg.keys, Mass(Fail), items)
  {
    Conserved(cfg, In(Pass), items);
    Conserved(cfg, In(Fail), items);
    Conserved(cfg, Mass(Pass), items);
    Conserved(cfg, Mass(Fail), items);
  }

  // ---- waivers ----

  /** The spec holds an unexpired waiver for the result's name. */
  ghost predicate Accepted(cfg: Config, x: Item) {
    x.name != "" && exists w :: w in cfg.waivers && w.name == x.name && (w.expires.None? || w.expires.value > cfg.now)
  }

  lemma WaivedClass(cfg: Config, x: Item)
    ensures ClassOf(cfg, x) == Waived <==> RawFail(x) && Accepted(cfg, x)
    ensures ClassOf(cfg, x) == Fail <==> RawFail(x) && !Accepted(cfg, x)
  {
    assert x.name in ActiveNames(cfg) <==> Accepted(cfg, x);
  }

  ghost function Where(items: seq<Item>, P: Item -> bool): set<nat> {
    set i: nat | 0 <= i < |items| && P(items[i])
  }

  lemma WhereOneMore(items: seq<Item>, x: Item, P: Item -> bool)
    ensures |Where(items + [x], P)| == |Where(items, P)| + (if P(x) then 1 else 0)
  {
    assert Where(items + [x], P) == Where(items, P) + if P(x) then {|items|} else {};
  }

  /** A count is the number of results of its class in the bucket. */
  lemma {:induction false} CountIsNumber(cfg: Config, k: Key, c: Class, items: seq<Item>)
    ensures Sum(cfg, Some(k), In(c), items) == |Where(items, x => Owner(cfg, x) == Some(k) && ClassOf(cfg, x) == c)|
    decreases |items|
  {
    hide Owner, ClassOf;
    if items != [] {
      var front, x := items[..|items| - 1], items[|items| - 1];
      assert items == front + [x];
      CountIsNumber(cfg, k, c, front);
      WhereOneMore(front, x, x => Owner(cfg, x) == Some(k) && ClassOf(cfg, x) == c);
    }
  }

  /**
    A bucket's Waived count is the number of its raw failures whose name an unexpired waiver
    accepts, and its Fail count the number of its other raw failures.
  */
  lemma WaivedExactly(cfg: Config, k: Key, items: seq<Item>)
    ensures CountsOf(cfg, Some(k), items).waived
         == |set i: nat | i < |items| && Owner(cfg, items[i]) == Some(k) && RawFail(items[i]) && Accepted(cfg, items[i])|
    ensures CountsOf(cfg, Some(k), items).fail
         == |set i: nat | i < |items| && Owner(cfg, items[i]) == Some(k) && RawFail(items[i]) && !Accepted(cfg, items[i])|
  {
    hide Owner, ClassOf, RawFail, Accepted, Sum;
    forall x ensures ClassOf(cfg, x) == Waived <==> RawFail(x) && Accepted(cfg, x)
             ensures ClassOf(cfg, x) == Fail <==> RawFail(x) && !Accepted(cfg, x)
    {
      WaivedClass(cfg, x);
    }
    CountIsNumber(cfg, k, Waived, items);
    CountIsNumber(cfg, k, Fail, items);
    assert Where(items, x => Owner(cfg, x) == Some(k) && ClassOf(cfg, x) == Waived)
        == set i: nat | i < |items| && Owner(cfg, items[i]) == Some(k) && RawFail(items[i]) && Accepted(cfg, items[i]);
    assert Where(items, x => Owner(cfg, x) == Some(k) && ClassOf(cfg, x) == Fail)
        == set i: nat | i < |items| && Owner(cfg, items[i]) == Some(k) && RawFail(items[i]) && !Accepted(cfg, items[i]);
  }

  // ---- counts on the texts ----

  /** The number of a bucket's results that satisfy P. */
  ghost function Number(cfg: Config, k: Key, items: seq<Item>, P: Item -> bool): nat {
    |set i: nat | i < |items| && Owner(cfg, items[i]) == Some(k) && P(items[i])|
  }

  lemma NumberIs(cfg: Config, k: Key, c: Class, items: seq<Item>, P: Item -> bool)
    requires forall x :: P(x) <==> ClassOf(cfg, x) == c
    ensures Sum(cfg, Some(k), In(c), items) == Number(cfg, k, items, P)
  {
    hide Owner, ClassOf, Sum;
    CountIsNumber(cfg, k, c, items);
    assert Where(items, x => Owner(cfg, x) == Some(k) && ClassOf(cfg, x) == c)
        == set i: nat | i < |items| && Owner(cfg, items[i]) == Some(k) && P(items[i]);
  }

  /** A check counts as failed on no waiver of its own, as waived on one. */
  ghost predicate Fails(cfg: Config, x: Item) { Effective(x) == "FAIL" && !Accepted(cfg, x) }
  ghost predicate Excused(cfg: Config, x: Item) { Effective(x) == "FAIL" && Accepted(cfg, x) }

  /** A status no count but the errors' knows. */
  predicate Unknown(s: string) {
    s !in {"PASS", "FAIL", "MANUAL", "INFO", "INCONSISTENT", "SKIP", "NOT-APPLICABLE"}
  }

  lemma NeverWaived(x: Item)
    ensures Effective(x) != "WAIVED"
  {
  }

  /**
    Each of a bucket's eight counts is the number of its results of that status: a failure with an
    unexpired waiver counts as waived, a skipped check as not applicable, and any other status,
    a raw WAIVED among them, as an error.
  */
  lemma CountsExactly(cfg: Config, k: Key, items: seq<Item>)
    ensures var n := CountsOf(cfg, Some(k), items);
      && n.pass == Number(cfg, k, items, x => Effective(x) == "PASS")
      && n.fail == Number(cfg, k, items, x => Fails(cfg, x))
      && n.waived == Number(cfg, k, items, x => Excused(cfg, x))
      && n.manual == Number(cfg, k, items, x => Effective(x) == "MANUAL")
      && n.info == Number(cfg, k, items, x => Effective(x) == "INFO")
      && n.inconsistent == Number(cfg, k, items, x => Effective(x) == "INCONSISTENT")
      && n.notApplicable == Number(cfg, k, items, x => Effective(x) == "SKIP" || Effective(x) == "NOT-APPLICABLE")
      && n.error == Number(cfg, k, items, x => Unknown(Effective(x)))
  {
    hide Owner, Effective, Accepted, Sum, Number;
    forall x ensures ClassOf(cfg, x) == Waived <==> Excused(cfg, x)
             ensures ClassOf(cfg, x) == Fail <==> Fails(cfg, x)
             ensures Effective(x) != "WAIVED"
    {
      WaivedClass(cfg, x);
      NeverWaived(x);
    }
    NumberIs(cfg, k, Pass, items, x => Effective(x) == "PASS");
    NumberIs(cfg, k, Fail, items, x => Fails(cfg, x));
    NumberIs(cfg, k, Waived, items, x => Excused(cfg, x));
    NumberIs(cfg, k, Manual, items, x => Effective(x) == "MANUAL");
    NumberIs(cfg, k, Info, items, x => Effective(x) == "INFO");
    NumberIs(cfg, k, Inconsistent, items, x => Effective(x) == "INCONSISTENT");
    NumberIs(cfg, k, NotApplicable, items, x => Effective(x) == "SKIP" || Effective(x) == "NOT-APPLICABLE");
    NumberIs(cfg, k, Error, items, x => Unknown(Effective(x)));
  }

  // ---- weights and scores on the texts ----

  ghost function WithSeverity(P: Item -> bool, severity: string): Item -> bool {
    x => P(x) && x.severity == severity
  }

  ghost function WithNoneOf(P: Item -> bool): Item -> bool {
    x => P(x) && x.severity !in {"high", "medium", "low"}
  }

  /** Ten for each high result, five for a medium, two for a low, one for any other. */
  ghost function MassOf(items: seq<Item>, P: Item -> bool): nat {
    10 * |Where(items, WithSeverity(P, "high"))| + 5 * |Where(items, WithSeverity(P, "medium"))|
    + 2 * |Where(items, WithSeverity(P, "low"))| + |Where(items, WithNoneOf(P))|
  }

  lemma MassOneMore(items: seq<Item>, x: Item, P: Item -> bool)
    ensures MassOf(items + [x], P) == MassOf(items, P) + (if P(x) then Weight(x.severity) else 0)
  {
    hide Where;
    WhereOneMore(items, x, WithSeverity(P, "high"));
    WhereOneMore(items, x, WithSeverity(P, "medium"));
    WhereOneMore(items, x, WithSeverity(P, "low"));
    WhereOneMore(items, x, WithNoneOf(P));
  }

  lemma MassOfNothing(P: Item -> bool)
    ensures MassOf([], P) == 0 && |Where([], P)| == 0
  {
    assert Where([], WithSeverity(P, "high")) == {} && Where([], WithSeverity(P, "medium")) == {};
    assert Where([], WithSeverity(P, "low")) == {} && Where([], WithNoneOf(P)) == {} && Where([], P) == {};
  }

  /** A weighted sum over a bucket, or over all of them, is the mass of its results of that class. */
  lemma {:induction false} MassIs(cfg: Config, k: Option<Key>, c: Class, items: seq<Item>, P: Item -> bool)
    requires forall x :: P(x) <==> Owner(cfg, x).Some? && (k.None? || k == Owner(cfg, x)) && ClassOf(cfg, x) == c
    ensures Sum(cfg, k, Mass(c), items) == if cfg.weighted then MassOf(items, P) else 0
    ensures Sum(cfg, k, In(c), items) == |Where(items, P)|
    decreases |items|
  {
    hide Owner, ClassOf, MassOf, Where, Weight;
    if items == [] {
      MassOfNothing(P);
    } else {
      var front, x := items[..|items| - 1], items[|items| - 1];
      assert items == front + [x];
      MassIs(cfg, k, c, front, P);
      MassOneMore(front, x, P);
      WhereOneMore(front, x, P);
    }
  }

  /** A result of this bucket, or of any bucket, that passes; or that fails without a waiver. */
  ghost function Passing(cfg: Config, k: Option<Key>): Item -> bool {
    x => Owner(cfg, x).Some? && (k.None? || k == Owner(cfg, x)) && Effective(x) == "PASS"
  }

  ghost function Failing(cfg: Config, k: Option<Key>): Item -> bool {
    x => Owner(cfg, x).Some? && (k.None? || k == Owner(cfg, x)) && Fails(cfg, x)
  }

  lemma PassAndFail(cfg: Config, k: Option<Key>, items: seq<Item>)
    ensures Sum(cfg, k, In(Pass), items) == |Where(items, Passing(cfg, k))|
    ensures Sum(cfg, k, In(Fail), items) == |Where(items, Failing(cfg, k))|
    ensures Sum(cfg, k, Mass(Pass), items) == if cfg.weighted then MassOf(items, Passing(cfg, k)) else 0
    ensures Sum(cfg, k, Mass(Fail), items) == if cfg.weighted then MassOf(items, Failing(cfg, k)) else 0
  {
    hide Owner, Effective, Accepted, MassOf, Where, Sum;
    forall x ensures ClassOf(cfg, x) == Fail <==> Fails(cfg, x)
             ensures ClassOf(cfg, x) == Pass <==> Effective(x) == "PASS"
    {
      WaivedClass(cfg, x);
    }
    MassIs(cfg, k, Pass, items, Passing(cfg, k));
    MassIs(cfg, k, Fail, items, Failing(cfg, k));
  }

  /** s is the floored percentage of p in p + f, when there is anything countable at all. */
  ghost predicate Percentage(s: Option<int>, p: nat, f: nat) {
    && (s.Some? <==> 0 < p + f <= 0x7FFF_FFFF_FFFF_FFFF)
    && (s.Some? ==> s.value * (p + f) <= 100 * p < (s.value + 1) * (p + f))
  }

  /**
    The score is the floored percentage of passing results among those that pass or fail without a
    waiver, each counted once in Flat mode and by its severity's weight in the weighted one; a
    bucket carries its own two numbers and its own two masses.
  */
  lemma ScoreExactly(cfg: Config, items: seq<Item>)
    ensures cfg.keys == [] ==> RollupOf(cfg, items).score == None
    ensures cfg.keys != [] && !cfg.weighted ==>
      Percentage(RollupOf(cfg, items).score, |Where(items, Passing(cfg, None))|, |Where(items, Failing(cfg, None))|)
    ensures cfg.keys != [] && cfg.weighted ==>
      Percentage(RollupOf(cfg, items).score, MassOf(items, Passing(cfg, None)), MassOf(items, Failing(cfg, None)))
    ensures forall k :: k in cfg.keys ==>
      var b := RollupOf(cfg, items).buckets[k];
      && b.pass == |Where(items, Passing(cfg, Some(k)))| && b.fail == |Where(items, Failing(cfg, Some(k)))|
      && b.wPass == (if cfg.weighted then MassOf(items, Passing(cfg, Some(k))) else 0)
      && b.wFail == (if cfg.weighted then MassOf(items, Failing(cfg, Some(k))) else 0)
  {
    hide MassOf, Where, Sum, FailNames, Sorted;
    PassAndFail(cfg, None, items);
    forall k | k in cfg.keys
      ensures var b := RollupOf(cfg, items).buckets[k];
        && b.pass == |Where(items, Passing(cfg, Some(k)))| && b.fail == |Where(items, Failing(cfg, Some(k)))|
        && b.wPass == (if cfg.weighted then MassOf(items, Passing(cfg, Some(k))) else 0)
        && b.wFail == (if cfg.weighted then MassOf(items, Failing(cfg, Some(k))) else 0)
    {
      PassAndFail(cfg, Some(k), items);
    }
  }

  /** What a raw status comes to: itself, except that WAIVED is an error and INCONSISTENT what its nodes say. */
  lemma EffectiveExactly(x: Item)
    ensures x.status != "WAIVED" && x.status != "INCONSISTENT" ==> Effective(x) == x.status
    ensures x.status == "WAIVED" ==> Effective(x) == "ERROR"
    ensures x.status == "INCONSISTENT" ==>
      var states := Inconsistent.States(x.source, x.common);
      var benign := forall st :: st in states ==> st in {"PASS", "NOT-APPLICABLE", "SKIP"};
      Effective(x) == if !benign || states == [] then "INCONSISTENT"
                      else if "PASS" in states then "PASS" else "NOT-APPLICABLE"
  {
    hide Inconsistent.States;
    var states := Inconsistent.States(x.source, x.common);
    assert states != [] ==> states[0] in states;
  }

  /** A built-in profile's suite is named baseline- and its key, a tailored one's baseline-tp- and its name. */
  lemma SuitesExactly(suite: string)
    ensures match KeyOfSuite(suite)
            case Some(Tailored(n)) => n != "" && suite == "baseline-tp-" + n
            case Some(Profile(k)) => k != "" && !("tp-" <= k) && suite == "baseline-" + k
            case None => forall s :: s != "" ==> suite != "baseline-tp-" + s && ("tp-" <= s || suite != "baseline-" + s)
  {
    assert TAILORED_BINDING == BINDING + "tp-";
    if KeyOfSuite(suite).None? {
      forall s | s != "" ensures suite != "baseline-tp-" + s && ("tp-" <= s || suite != "baseline-" + s) {
        assert ("baseline-tp-" + s)[..|TAILORED_BINDING|] == TAILORED_BINDING;
        assert ("baseline-" + s)[|BINDING|..] == s && ("baseline-" + s)[..|BINDING|] == BINDING;
      }
    } else if KeyOfSuite(suite).value.Tailored? {
      assert suite == suite[..|TAILORED_BINDING|] + suite[|TAILORED_BINDING|..];
    } else {
      assert suite == suite[..|BINDING|] + suite[|BINDING|..];
    }
  }

  /** A name is on the failure list exactly when some owned raw failure carries it, waived or not. */
  lemma {:induction false} FailListExactly(cfg: Config, items: seq<Item>, n: string)
    ensures n in Sorted(FailNames(cfg, items)) <==>
      n != "" && exists x :: x in items && Owner(cfg, x).Some? && RawFail(x) && x.name == n
  {
    hide Owner, RawFail;
    assert n in Sorted(FailNames(cfg, items)) <==> n in multiset(FailNames(cfg, items));
    InFailNames(cfg, items, n);
  }

  lemma {:induction false} InFailNames(cfg: Config, items: seq<Item>, n: string)
    ensures n in FailNames(cfg, items) <==>
      n != "" && exists x :: x in items && Owner(cfg, x).Some? && RawFail(x) && x.name == n
    decreases |items|
  {
    hide Owner, RawFail;
    if items != [] {
      var front, last := items[..|items| - 1], items[|items| - 1];
      assert items == front + [last];
      InFailNames(cfg, front, n);
      if x :| x in items && Owner(cfg, x).Some? && RawFail(x) && x.name == n { assert x in front || x == last; }
    }
  }

  // ---- the loops ----

  class Aggregator {
    const cfg: Config
    var counts: map<Key, Counts>
    var weights: map<Key, (nat, nat)>
    var pass: nat
    var fail: nat
    var wPass: nat
    var wFail: nat
    var currentFails: seq<string>
    var waived: set<string>

    ghost function T(): Totals
      reads this
    {
      Totals(counts, weights, pass, fail, wPass, wFail, currentFails)
    }

    ghost predicate Tallied(items: seq<Item>)
      reads this
    {
      Tallies(cfg, T(), items)
    }

    constructor (c: Config)
      ensures cfg == c && Tallied([])
    {
      cfg := c;
      counts := map k | k in c.keys :: ZERO;
      weights := map k | k in c.keys :: (0, 0);
      pass, fail, wPass, wFail, currentFails, waived := 0, 0, 0, 0, [], {};
    }

    /** Routes one result's class into its bucket and the pooled counts. */
    method Tally(k: Key, c: Class)
      requires k in counts
      modifies this`counts, this`pass, this`fail
      ensures counts == old(counts)[k := Bumped(old(counts[k]), c)]
      ensures pass == old(pass) + (if c == Pass then 1 else 0) && fail == old(fail) + (if c == Fail then 1 else 0)
    {
      var n := counts[k];
      match c {
        case Pass => n := n.(pass := n.pass + 1); pass := pass + 1;
        case Fail => n := n.(fail := n.fail + 1); fail := fail + 1;
        case Manual => n := n.(manual := n.manual + 1);
        case Info => n := n.(info := n.info + 1);
        case Error => n := n.(error := n.error + 1);
        case Inconsistent => n := n.(inconsistent := n.inconsistent + 1);
        case Waived => n := n.(waived := n.waived + 1);
        case NotApplicable => n := n.(notApplicable := n.notApplicable + 1);
      }
      counts := counts[k := n];
    }

    method AddWeight(k: Key, c: Class, w: nat)
      requires k in weights
      modifies this`weights, this`wPass, this`wFail
      ensures weights == old(weights)[k := Heavier(old(weights[k]), c, w)]
      ensures wPass == old(wPass) + (if c == Pass then w else 0) && wFail == old(wFail) + (if c == Fail then w else 0)
    {
      if c != Pass && c != Fail { weights := weights[k := weights[k]]; return; }
      if c == Pass { wPass := wPass + w; } else { wFail := wFail + w; }
      var s := weights[k];
      weights := weights[k := if c == Pass then (s.0 + w, s.1) else (s.0, s.1 + w)];
    }

    /** The names accepted now, from the spec's waivers. */
    method CollectWaivers()
      modifies this`waived
      ensures waived == ActiveNames(cfg)
    {
      waived := {};
      for i := 0 to |cfg.waivers|
        invariant forall n :: n in waived <==>
          exists j :: 0 <= j < i && cfg.waivers[j].name == n != "" && Unexpired(cfg.waivers[j], cfg.now)
      {
        var w := cfg.waivers[i];
        if w.name == "" { continue; }
        if w.expires.Some? && w.expires.value <= cfg.now { continue; }
        waived := waived + {w.name};
      }
      forall n | n in ActiveNames(cfg) ensures n in waived {
        var w :| w in cfg.waivers && w.name == n != "" && Unexpired(w, cfg.now);
        var j :| 0 <= j < |cfg.waivers| && cfg.waivers[j] == w;
      }
    }

    method EffectiveStatus(x: Item) returns (status: string)
      ensures status == Effective(x)
    {
      status := x.status;
      if status == "WAIVED" { status := "ERROR"; }
      if status == "INCONSISTENT" { status := Inconsistent.EffectiveInconsistentStatus(x.source, x.common); }
    }

    method Visit(x: Item)
      requires counts.Keys == weights.Keys == (set k | k in cfg.keys)
      requires waived == ActiveNames(cfg)
      modifies this
      ensures T() == Visited(cfg, old(T()), x) && waived == old(waived)
    {
      hide Owner, ClassOfStatus, ActiveNames, Weight, Bumped, Heavier, Effective;
      OwnerIsKept(cfg, x);
      var k := Owner(cfg, x);
      if k.None? { return; }
      var status := EffectiveStatus(x);
      var rawFail := status == "FAIL";
      var c := if rawFail && x.name != "" && x.name in waived then Waived else ClassOfStatus(status);
      Tally(k.value, c);
      if rawFail && x.name != "" { currentFails := currentFails + [x.name]; }
      if cfg.weighted { AddWeight(k.value, c, Weight(x.severity)); }
    }

    /** Walks the pages and folds each into the running totals, then sorts the failing names. */
    method AggregateStatus(pages: seq<seq<Item>>) returns (r: Rollup)
      requires Tallied([])
      modifies this
      ensures r == RollupOf(cfg, Concat(pages))
    {
      hide Tallies, FailNames, Sum, Sorted, Visited, ActiveNames;
      CollectWaivers();
      for i := 0 to |pages|
        invariant Tallied(Concat(pages[..i])) && waived == ActiveNames(cfg)
      {
        assert pages[..i + 1][..i] == pages[..i];
        ghost var before := Concat(pages[..i]);
        assert before + pages[i][..0] == before;
        for j := 0 to |pages[i]|
          invariant Tallied(before + pages[i][..j]) && waived == ActiveNames(cfg)
        {
          assert before + pages[i][..j + 1] == before + pages[i][..j] + [pages[i][j]];
          VisitTallies(cfg, T(), before + pages[i][..j], pages[i][j]);
          TallyKeys(cfg, T(), before + pages[i][..j]);
          Visit(pages[i][j]);
        }
        assert pages[i][..|pages[i]|] == pages[i];
      }
      assert pages[..|pages|] == pages;
      r := Finish(Concat(pages));
    }

    method Finish(ghost items: seq<Item>) returns (r: Rollup)
      requires Tallied(items)
      ensures r == RollupOf(cfg, items)
    {
      hide FailNames, Sum, Sorted, Score64;
      var score := if cfg.keys == [] then None
                   else if cfg.weighted then Score64(wPass, wFail) else Score64(pass, fail);
      var buckets := map k | k in counts.Keys :: Bucket(counts[k].pass, counts[k].fail, weights[k].0, weights[k].1);
      r := Rollup(counts, buckets, score, Sorted(currentFails));
      assert r.counts == RollupOf(cfg, items).counts;
      assert r.buckets == RollupOf(cfg, items).buckets;
    }
  }

  datatype Totals = Totals(
    counts: map<Key, Counts>, weights: map<Key, (nat, nat)>, pass: nat, fail: nat, wPass: nat, wFail: nat,
    fails: seq<string>)

  /** The running totals are what the items seen so far measure. */
  ghost predicate Tallies(cfg: Config, t: Totals, items: seq<Item>) {
    && t.counts.Keys == t.weights.Keys == (set k | k in cfg.keys)
    && (forall k :: k in t.counts ==> t.counts[k] == CountsOf(cfg, Some(k), items))
    && (forall k :: k in t.weights ==> t.weights[k] == Weighed(cfg, k, items))
    && t.pass == Sum(cfg, None, In(Pass), items) && t.fail == Sum(cfg, None, In(Fail), items)
    && t.wPass == Sum(cfg, None, Mass(Pass), items) && t.wFail == Sum(cfg, None, Mass(Fail), items)
    && t.fails == FailNames(cfg, items)
  }

  function Visited(cfg: Config, t: Totals, x: Item): Totals
    requires t.counts.Keys == t.weights.Keys == (set k | k in cfg.keys)
  {
    if Owner(cfg, x).None? then t
    else
      OwnerIsKept(cfg, x);
      var k, c := Owner(cfg, x).value, ClassOf(cfg, x);
      var w := if cfg.weighted then Weight(x.severity) else 0;
      Totals(t.counts[k := Bumped(t.counts[k], c)],
             if cfg.weighted then t.weights[k := Heavier(t.weights[k], c, w)] else t.weights,
             t.pass + (if c == Pass then 1 else 0), t.fail + (if c == Fail then 1 else 0),
             t.wPass + (if c == Pass then w else 0), t.wFail + (if c == Fail then w else 0),
             t.fails + (if RawFail(x) && x.name != "" then [x.name] else []))
  }

  lemma TallyKeys(cfg: Config, t: Totals, items: seq<Item>)
    requires Tallies(cfg, t, items)
    ensures t.counts.Keys == t.weights.Keys == (set k | k in cfg.keys)
  {
  }

  lemma VisitTallies(cfg: Config, t: Totals, seen: seq<Item>, x: Item)
    requires Tallies(cfg, t, seen)
    ensures Tallies(cfg, Visited(cfg, t, x), seen + [x])
  {
    hide Owner, ClassOf, RawFail, Weight, Sum, CountsOf, Weighed, FailNames, Bumped, Heavier;
    OwnerIsKept(cfg, x);
    FailsGrow(cfg, seen, x);
    PoolGrows(cfg, seen, x);
    forall k | k in cfg.keys
      ensures CountsOf(cfg, Some(k), seen + [x])
           == if Owner(cfg, x) == Some(k) then Bumped(CountsOf(cfg, Some(k), seen), ClassOf(cfg, x))
              else CountsOf(cfg, Some(k), seen)
      ensures Weighed(cfg, k, seen + [x])
           == if Owner(cfg, x) == Some(k) && cfg.weighted
              then Heavier(Weighed(cfg, k, seen), ClassOf(cfg, x), Weight(x.severity))
              else Weighed(cfg, k, seen)
    {
      BucketGrows(cfg, k, seen, x);
    }
  }

  function Bumped(n: Counts, c: Class): Counts {
    match c
    case Pass => n.(pass := n.pass + 1)
    case Fail => n.(fail := n.fail + 1)
    case Manual => n.(manual := n.manual + 1)
    case Info => n.(info := n.info + 1)
    case Error => n.(error := n.error + 1)
    case Inconsistent => n.(inconsistent := n.inconsistent + 1)
    case Waived => n.(waived := n.waived + 1)
    case NotApplicable => n.(notApplicable := n.notApplicable + 1)
  }

  function Heavier(s: (nat, nat), c: Class, w: nat): (nat, nat) {
    if c == Pass then (s.0 + w, s.1) else if c == Fail then (s.0, s.1 + w) else s
  }

  function Weighed(cfg: Config, k: Key, items: seq<Item>): (nat, nat) {
    (Sum(cfg, Some(k), Mass(Pass), items), Sum(cfg, Some(k), Mass(Fail), items))
  }

  /** What one more item adds to its bucket, and to no other. */
  lemma BucketGrows(cfg: Config, k: Key, seen: seq<Item>, x: Item)
    ensures CountsOf(cfg, Some(k), seen + [x])
         == if Owner(cfg, x) == Some(k) then Bumped(CountsOf(cfg, Some(k), seen), ClassOf(cfg, x))
            else CountsOf(cfg, Some(k), seen)
    ensures Weighed(cfg, k, seen + [x])
         == if Owner(cfg, x) == Some(k) && cfg.weighted
            then Heavier(Weighed(cfg, k, seen), ClassOf(cfg, x), Weight(x.severity))
            else Weighed(cfg, k, seen)
  {
    hide Owner, ClassOf, Weight;
    assert (seen + [x])[..|seen|] == seen;
  }

  /** What it adds to the pooled passes and failures, plain and weighted. */
  lemma PoolGrows(cfg: Config, seen: seq<Item>, x: Item)
    ensures var c, owned := ClassOf(cfg, x), Owner(cfg, x).Some?;
            var w := if owned && cfg.weighted then Weight(x.severity) else 0;
            && Sum(cfg, None, In(Pass), seen + [x]) == Sum(cfg, None, In(Pass), seen) + (if owned && c == Pass then 1 else 0)
            && Sum(cfg, None, In(Fail), seen + [x]) == Sum(cfg, None, In(Fail), seen) + (if owned && c == Fail then 1 else 0)
            && Sum(cfg, None, Mass(Pass), seen + [x]) == Sum(cfg, None, Mass(Pass), seen) + (if c == Pass then w else 0)
            && Sum(cfg, None, Mass(Fail), seen + [x]) == Sum(cfg, None, Mass(Fail), seen) + (if c == Fail then w else 0)
  {
    hide Owner, ClassOf, Weight;
    assert (seen + [x])[..|seen|] == seen;
  }

  lemma FailsGrow(cfg: Config, seen: seq<Item>, x: Item)
    ensures FailNames(cfg, seen + [x]) ==
      FailNames(cfg, seen) + (if Owner(cfg, x).Some? && RawFail(x) && x.name != "" then [x.name] else [])
  {
    assert (seen + [x])[..|seen|] == seen;
  }
}
