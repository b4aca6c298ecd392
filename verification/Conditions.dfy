/**
  pkg/client/condition.go: the condition table of one status update. The table starts from the four
  conditions the operator owns, all unknown, and is overlaid with what is stored.
 */
module Conditions {

  datatype ConditionStatus = ConditionTrue | ConditionFalse | ConditionUnknown

  /** Condition types: the four the operator owns, and those of anyone else. */
  datatype Kind = Available | Progressing | Degraded | Upgradeable | Foreign(name: string)

  /** A condition entry; times are clock readings. */
  datatype Condition = Condition(kind: Kind, status: ConditionStatus, time: int, message: string, reason: string)

  datatype OperandVersion = OperandVersion(name: string, version: string)

  type Table = map<Kind, Condition>

  ghost predicate WellKeyed(t: Table) {
    forall k :: k in t ==> t[k].kind == k
  }

  function Unknown(kind: Kind, time: int): Condition {
    Condition(kind, ConditionUnknown, time, "", "")
  }

  function Base(time: int): Table {
    map[
      Available := Unknown(Available, time),
      Progressing := Unknown(Progressing, time),
      Degraded := Unknown(Degraded, time),
      Upgradeable := Unknown(Upgradeable, time)
    ]
  }

  /** Conditions entered into a table one after the other. */
  function Overlay(t: Table, cs: seq<Condition>): Table {
    if cs == [] then t
    else
      var c := cs[|cs| - 1];
      Overlay(t, cs[..|cs| - 1])[c.kind := c]
  }

  function CurrentVersion(versions: seq<OperandVersion>): string {
    if |versions| > 0 then versions[0].version else ""
  }

  /** One condition being set: kept as it is unless its status or message is new. */
  function Entered(t: Table, kind: Kind, status: ConditionStatus, message: string, reason: string, time: int): Table {
    if kind in t && t[kind].status == status && t[kind].message == message then t
    else t[kind := Condition(kind, status, time, message, reason)]
  }

  /** Going into progress is ignored while available at the wanted version. */
  predicate Suppressed(t: Table, current: string, target: string, kind: Kind, status: ConditionStatus) {
    && kind == Progressing && status == ConditionTrue
    && Available in t && t[Available].status == ConditionTrue
    && target == current
  }

  class ConditionTable {
    var entryMap: Table
    var currentVersion: string
    var targetVersion: string

    constructor (stored: seq<Condition>, versions: seq<OperandVersion>, target: string, time: int)
      ensures entryMap == Overlay(Base(time), stored)
      ensures currentVersion == CurrentVersion(versions) && targetVersion == target
      ensures currentVersion == if versions == [] then "" else versions[0].version
    {
      var entries := Base(time);
      for i := 0 to |stored|
        invariant entries == Overlay(Base(time), stored[..i])
      {
        assert stored[..i + 1][..i] == stored[..i];
        entries := entries[stored[i].kind := stored[i]];
      }
      assert stored[..|stored|] == stored;
      entryMap := entries;
      currentVersion := if |versions| > 0 then versions[0].version else "";
      targetVersion := target;
    }

    method SetCondition(kind: Kind, status: ConditionStatus, message: string, reason: string, time: int)
      requires WellKeyed(entryMap)
      modifies `entryMap
      ensures WellKeyed(entryMap)
      ensures entryMap ==
              if Suppressed(old(entryMap), currentVersion, targetVersion, kind, status) then old(entryMap)
              else Entered(old(entryMap), kind, status, message, reason, time)
      ensures var t := old(entryMap);
              var differs := kind !in t || t[kind].status != status || t[kind].message != message;
              var suppressed := kind == Progressing && status == ConditionTrue && targetVersion == currentVersion &&
                                Available in t && t[Available].status == ConditionTrue;
              entryMap == if differs && !suppressed then t[kind := Condition(kind, status, time, message, reason)] else t
    {
      var entries := entryMap;
      if kind !in entryMap || entryMap[kind].status != status || entryMap[kind].message != message {
        entries := entries[kind := Condition(kind, status, time, message, reason)];
      }
      var wantsProgressing := kind == Progressing && status == ConditionTrue;
      var abort := wantsProgressing && Available in entryMap && entryMap[Available].status == ConditionTrue;
      abort := abort && targetVersion == currentVersion;
      if abort {
        return;
      }
      entryMap := entries;
    }

    /** The entries come out in whatever order the map is walked. */
    method Entries() returns (res: seq<Condition>)
      requires WellKeyed(entryMap)
      ensures Lists(res, entryMap)
    {
      res := [];
      var rest := entryMap.Keys;
      while rest != {}
        invariant rest <= entryMap.Keys
        invariant forall c :: c in res ==> c.kind in entryMap.Keys - rest && entryMap[c.kind] == c
        invariant forall k :: k in entryMap.Keys - rest ==> entryMap[k] in res
      {
        var k :| k in rest;
        res := res + [entryMap[k]];
        rest := rest - {k};
      }
    }
  }

  /** A listing of a table: its entries, in some order. */
  ghost predicate Lists(cs: seq<Condition>, t: Table) {
    && (forall c :: c in cs ==> c.kind in t && t[c.kind] == c)
    && (forall k :: k in t ==> t[k] in cs)
  }

  lemma {:induction false} OverlayDomain(t: Table, cs: seq<Condition>)
    ensures forall k :: k in Overlay(t, cs) <==> k in t || exists c :: c in cs && c.kind == k
    ensures WellKeyed(t) ==> WellKeyed(Overlay(t, cs))
  {
    if cs != [] {
      var n := |cs| - 1;
      OverlayDomain(t, cs[..n]);
      assert cs == cs[..n] + [cs[n]];
    }
  }

  /** The i-th entry is the last one of its kind. */
  ghost predicate LastOf(cs: seq<Condition>, i: nat, kind: Kind) {
    i < |cs| && cs[i].kind == kind && forall j :: i < j < |cs| ==> cs[j].kind != kind
  }

  ghost predicate NoneOf(cs: seq<Condition>, kind: Kind) {
    forall i :: 0 <= i < |cs| ==> cs[i].kind != kind
  }

  lemma {:induction false} LastEntryWins(t: Table, cs: seq<Condition>, i: nat, kind: Kind)
    requires LastOf(cs, i, kind)
    ensures kind in Overlay(t, cs) && Overlay(t, cs)[kind] == cs[i]
  {
    var n := |cs| - 1;
    if i < n {
      LastEntryWins(t, cs[..n], i, kind);
    }
  }

  lemma {:induction false} UnlistedKept(t: Table, cs: seq<Condition>, kind: Kind)
    requires NoneOf(cs, kind)
    ensures kind in Overlay(t, cs) <==> kind in t
    ensures kind in t ==> Overlay(t, cs)[kind] == t[kind]
  {
    if cs != [] {
      UnlistedKept(t, cs[..|cs| - 1], kind);
    }
  }

  /**
    What a table starts from: of several stored entries of one kind the last, and for the four kinds
    the operator owns an unknown one where none is stored.
   */
  lemma StoredEntriesRead(stored: seq<Condition>, time: int, kind: Kind)
    ensures var t := Overlay(Base(time), stored);
            && (forall i: nat :: LastOf(stored, i, kind) ==> kind in t && t[kind] == stored[i])
            && (NoneOf(stored, kind) ==>
                  (kind in t <==> !kind.Foreign?) &&
                  (kind in t ==> t[kind] == Condition(kind, ConditionUnknown, time, "", "")))
  {
    forall i: nat | LastOf(stored, i, kind)
      ensures kind in Overlay(Base(time), stored) && Overlay(Base(time), stored)[kind] == stored[i]
    {
      LastEntryWins(Base(time), stored, i, kind);
    }
    if NoneOf(stored, kind) {
      UnlistedKept(Base(time), stored, kind);
    }
  }

  lemma {:induction false} OverlayKeeps(t: Table, cs: seq<Condition>, full: Table)
    requires forall c :: c in cs ==> c.kind in full && full[c.kind] == c
    ensures forall k :: k in Overlay(t, cs) ==>
              (k in full && Overlay(t, cs)[k] == full[k]) || (k in t && Overlay(t, cs)[k] == t[k])
    ensures forall c :: c in cs ==> c.kind in Overlay(t, cs) && Overlay(t, cs)[c.kind] == c
  {
    if cs != [] {
      var n := |cs| - 1;
      OverlayKeeps(t, cs[..n], full);
      assert cs == cs[..n] + [cs[n]];
    }
  }

  /** Whatever order a table was written out in, it reads back as itself. */
  lemma ListingReadsBack(cs: seq<Condition>, t: Table)
    requires Lists(cs, t) && WellKeyed(t)
    ensures Overlay(map[], cs) == t
  {
    OverlayDomain(map[], cs);
    OverlayKeeps(map[], cs, t);
    forall k | k in t
      ensures k in Overlay(map[], cs) && Overlay(map[], cs)[k] == t[k]
    {
      assert t[k] in cs;
    }
    forall k | k in Overlay(map[], cs)
      ensures k in t
    {
      var c :| c in cs && c.kind == k;
    }
  }

  lemma {:induction false} OverlayOnTop(t: Table, cs: seq<Condition>)
    ensures Overlay(t, cs) == t + Overlay(map[], cs)
  {
    if cs != [] {
      OverlayOnTop(t, cs[..|cs| - 1]);
    }
  }
}
