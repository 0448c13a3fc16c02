/**
  What an INCONSISTENT result means: the node states its two annotations spell decide whether the
  disagreement is real or the check merely does not apply everywhere.
*/
module Inconsistent {
  import opened Text
  import opened Numerals

  predicate IsLower(c: char) { 'a' <= c <= 'z' }

  /** ASCII letters only: no other letter may turn into a protocol token. */
  function UpChar(c: char): char {
    if IsLower(c) then (c as int - 'a' as int + 'A' as int) as char else c
  }

  function Upper(s: string): string {
    seq(|s|, i requires 0 <= i < |s| => UpChar(s[i]))
  }

  method UpperStatusToken(s: string) returns (r: string)
    ensures r == Upper(s)
  {
    for i := 0 to |s|
      invariant forall j :: 0 <= j < i ==> !IsLower(s[j])
    {
      if !IsLower(s[i]) { continue; }
      var b := s;
      for j := 0 to |s|
        invariant |b| == |s|
        invariant forall k :: 0 <= k < j ==> b[k] == Upper(s)[k]
        invariant forall k :: j <= k < |s| ==> b[k] == s[k]
      {
        if IsLower(b[j]) { b := b[j := UpChar(b[j])]; }
      }
      assert b == Upper(s);
      return b;
    }
    assert Upper(s) == s;
    r := s;
  }

  /** The state after the first colon of one node's entry, or "". */
  function StateOf(entry: string): string {
    Upper(TrimSpace(Cut(entry, ':').1))
  }

  function EntryStates(entries: seq<string>): seq<string> {
    if entries == [] then []
    else (if StateOf(entries[0]) == "" then [] else [StateOf(entries[0])]) + EntryStates(entries[1..])
  }

  /** Every state the annotations spell: one per node entry, and the most common one. */
  function States(source: string, common: string): seq<string> {
    var mc := Upper(TrimSpace(common));
    EntryStates(SplitCsv(source)) + if mc == "" then [] else [mc]
  }

  predicate Inapplicable(st: string) { st == "NOT-APPLICABLE" || st == "SKIP" }

  /** A pass where the check applies, nowhere applicable, or a disagreement to review. */
  function Collapse(states: seq<string>): string {
    if exists st :: st in states && st != "PASS" && !Inapplicable(st) then "INCONSISTENT"
    else if "PASS" in states then "PASS"
    else if states != [] then "NOT-APPLICABLE"
    else "INCONSISTENT"
  }

  /** FAIL, ERROR and unknown states share the last flag: each asks for a review. */
  datatype Flags = Flags(pass: bool, inapplicable: bool, other: bool)

  function Flagged(f: Flags, st: string): Flags {
    if st == "PASS" then f.(pass := true)
    else if Inapplicable(st) then f.(inapplicable := true)
    else f.(other := true)
  }

  /** The flags say which states were seen. */
  ghost predicate Sees(f: Flags, states: seq<string>) {
    && (f.pass <==> "PASS" in states)
    && (f.inapplicable <==> exists st :: st in states && Inapplicable(st))
    && (f.other <==> exists st :: st in states && st != "PASS" && !Inapplicable(st))
  }

  lemma SeesOneMore(f: Flags, states: seq<string>, st: string)
    requires Sees(f, states)
    ensures Sees(Flagged(f, st), states + [st])
  {
    assert forall x :: x in states + [st] <==> x in states || x == st;
  }

  lemma {:induction false} EntryStatesAppend(a: seq<string>, b: seq<string>)
    ensures EntryStates(a + b) == EntryStates(a) + EntryStates(b)
  {
    if a == [] {
      assert a + b == b;
    } else {
      assert (a + b)[0] == a[0] && (a + b)[1..] == a[1..] + b;
      EntryStatesAppend(a[1..], b);
    }
  }

  lemma OneMoreEntry(entries: seq<string>, e: string)
    ensures EntryStates(entries + [e]) == if StateOf(e) == "" then EntryStates(entries) else EntryStates(entries) + [StateOf(e)]
  {
    EntryStatesAppend(entries, [e]);
    assert EntryStates([e]) == (if StateOf(e) == "" then [] else [StateOf(e)]) + EntryStates([]);
    assert EntryStates(entries) + [] == EntryStates(entries);
  }

  /** One pass over the node entries and the most common state, in three flags. */
  method EffectiveInconsistentStatus(source: string, common: string) returns (status: string)
    ensures status == Collapse(States(source, common))
  {
    hide Sees, Flagged, TrimSpace, Cut, Collapse, Upper, SplitCsv;
    var entries := SplitCsv(source);
    var f := Flags(false, false, false);
    assert Sees(f, []) by { NothingSeen(); }
    for i := 0 to |entries|
      invariant Sees(f, EntryStates(entries[..i]))
    {
      assert entries[..i + 1] == entries[..i] + [entries[i]];
      OneMoreEntry(entries[..i], entries[i]);
      var st := UpperStatusToken(TrimSpace(Cut(entries[i], ':').1));
      if st != "" {
        SeesOneMore(f, EntryStates(entries[..i]), st);
        f := Flagged(f, st);
      }
    }
    assert entries[..|entries|] == entries;
    var mc := UpperStatusToken(TrimSpace(common));
    if mc != "" {
      SeesOneMore(f, EntryStates(entries), mc);
      f := Flagged(f, mc);
    }
    assert EntryStates(entries) + [] == EntryStates(entries);
    status := if f.other then "INCONSISTENT" else if f.pass then "PASS"
              else if f.inapplicable then "NOT-APPLICABLE" else "INCONSISTENT";
    FlagsCollapse(f, States(source, common));
  }

  lemma NothingSeen()
    ensures Sees(Flags(false, false, false), [])
  {
  }

  lemma FlagsCollapse(f: Flags, states: seq<string>)
    requires Sees(f, states)
    ensures Collapse(states) == if f.other then "INCONSISTENT" else if f.pass then "PASS"
                                else if f.inapplicable then "NOT-APPLICABLE" else "INCONSISTENT"
  {
    if !f.other && !f.pass && states != [] {
      assert states[0] in states;
    }
  }

  /** Upper case is 32 below lower case, for the ASCII letters alone. */
  lemma UpperExactly(s: string, i: nat)
    requires i < |s|
    ensures |Upper(s)| == |s|
    ensures Upper(s)[i] == if 'a' <= s[i] <= 'z' then (s[i] as int - 32) as char else s[i]
  {
  }

  /** One node's entry: its name, a colon and its state. */
  function Entry(node: string, state: string): string {
    node + ":" + state
  }

  function Entries(nodes: seq<string>, states: seq<string>): (r: seq<string>)
    requires |nodes| == |states|
    ensures |r| == |nodes| && forall i :: 0 <= i < |r| ==> r[i] == Entry(nodes[i], states[i])
  {
    seq(|nodes|, i requires 0 <= i < |nodes| => Entry(nodes[i], states[i]))
  }

  /** A name that can stand in an entry. */
  predicate NodeName(s: string) {
    s != "" && ',' !in s && ':' !in s && !IsGoSpace(s[0])
  }

  predicate StateName(s: string) {
    s != "" && forall c :: c in s ==> 'A' <= c <= 'Z' || c == '-'
  }

  lemma StateIsPlain(s: string)
    requires StateName(s)
    ensures PlainItem(s) && Upper(s) == s && TrimSpace(s) == s
  {
    assert s[0] in s && s[|s| - 1] in s;
    forall i | 0 <= i < |s| ensures Upper(s)[i] == s[i] { assert s[i] in s; }
  }

  lemma EntryReads(node: string, state: string)
    requires NodeName(node) && StateName(state)
    ensures PlainItem(Entry(node, state)) && StateOf(Entry(node, state)) == state
  {
    hide IsGoSpace, TrimSpace;
    StateIsPlain(state);
    CutAt(node, ':', state);
    var e := Entry(node, state);
    assert e[0] == node[0] && e[|e| - 1] == state[|state| - 1];
  }

  lemma {:induction false} EntriesRead(nodes: seq<string>, states: seq<string>)
    requires |nodes| == |states|
    requires forall i :: 0 <= i < |nodes| ==> NodeName(nodes[i]) && StateName(states[i])
    ensures EntryStates(Entries(nodes, states)) == states
    decreases |nodes|
  {
    hide StateOf, NodeName, StateName;
    if nodes != [] {
      EntryReads(nodes[0], states[0]);
      EntriesRead(nodes[1..], states[1..]);
      assert Entries(nodes, states)[1..] == Entries(nodes[1..], states[1..]);
      assert states == [states[0]] + states[1..] && states[0] != "" by { NotEmpty(states[0]); }
    }
  }

  lemma NotEmpty(s: string)
    requires StateName(s)
    ensures s != ""
  {
  }

  /** The states an annotation was written with, and the most common one, are the states it is read with. */
  lemma StatesComeBack(nodes: seq<string>, states: seq<string>, common: string)
    requires |nodes| == |states| && nodes != [] && StateName(common)
    requires forall i :: 0 <= i < |nodes| ==> NodeName(nodes[i]) && StateName(states[i])
    ensures States(Join(Entries(nodes, states), ','), common) == states + [common]
    ensures States(Join(Entries(nodes, states), ','), "") == states
  {
    hide StateOf, NodeName, StateName, EntryStates, SplitCsv, Join, Upper, TrimSpace;
    var es := Entries(nodes, states);
    forall e | e in es ensures PlainItem(e) {
      var i :| 0 <= i < |es| && es[i] == e;
      EntryReads(nodes[i], states[i]);
    }
    SplitCsvJoin(es);
    EntriesRead(nodes, states);
    StateIsPlain(common);
    NotEmpty(common);
    assert Upper(TrimSpace("")) == "" by { NothingTrims(); }
    assert states + [] == states;
  }

  lemma NothingTrims()
    ensures Upper(TrimSpace("")) == ""
  {
  }
}
