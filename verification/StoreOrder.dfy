/**
 When the two stores keep one order (tracker/src/store.ts, tracker/src/sqlite-store.ts): the in-memory
 set moves a segment to the end when it is deleted and added again, a rewritten table leaves its row
 where it was. Exact conditions, for one new inventory, for every delta and for every run.
 */
module StoreOrder {
  import opened Inventory
  import opened Sequences
  import opened StoreAgreement

  // ---- One new inventory ----

  /** Reading the rewritten rows back gives the new inventory in the order that the in-memory store keeps. */
  predicate OrderKept(rows: seq<Segment>, next: seq<Segment>) { Rewritten(rows, next) == next }

  /**
   For any new inventory, also one that replaces the old: the order is kept exactly if the rows that
   stay come first in it, as they were.
   */
  lemma OrderKeptIff(rows: seq<Segment>, next: seq<Segment>)
    requires Distinct(rows) && Distinct(next)
    ensures OrderKept(rows, next) <==> Keep(rows, Elems(next)) <= next
  {
    var kept := Keep(rows, Elems(next));
    if kept <= next {
      var rest := next[|kept|..];
      KeepMembers(rows, Elems(next));
      SuffixIsApart(next, |kept|);
      assert next == kept + rest;
      assert Elems(kept) <= Elems(rows);
      forall x | x in Elems(rest) ensures x !in Elems(rows) {
        assert x in next && x !in Elems(next[..|kept|]);
      }
      hide Keep, Drop, Elems;
      DropHead(rows, kept, rest);
    }
  }

  /** Whatever inventory within the caps was stored, a replacement by `reported` keeps the order. */
  ghost predicate ReplacementAlwaysKeepsOrder(reported: seq<Segment>, max: nat) {
    forall rows :: Distinct(rows) && Fits(rows, max) ==> OrderKept(rows, MemoryReplace(reported, max))
  }

  lemma ReplacementIsDistinct(reported: seq<Segment>, max: nat)
    ensures Distinct(MemoryReplace(reported, max)) && Fits(MemoryReplace(reported, max), max)
  {
    AddAllAppends([], reported);
    LimitedIsLongestSuffix(AddAll([], reported), max);
  }

  /** It does so exactly if at most one segment of the report is kept. */
  lemma ReplacementsKeepOrderIff(reported: seq<Segment>, max: nat)
    ensures ReplacementAlwaysKeepsOrder(reported, max) <==> |MemoryReplace(reported, max)| <= 1
  {
    var next := MemoryReplace(reported, max);
    ReplacementIsDistinct(reported, max);
    hide MemoryReplace, OrderKept;
    if |next| <= 1 {
      forall rows | Distinct(rows) && Fits(rows, max) ensures OrderKept(rows, next) {
        if next != [] && next[0] in rows {
          KeepOnly(rows, Elems(next), next[0]);
        } else {
          KeepNone(rows, Elems(next));
        }
        OrderKeptIff(rows, next);
      }
    } else {
      var rows := [next[1]];
      OneElement(next[1], Elems(next));
      SuffixesGrow(next, 0, 1);
      assert Characters(rows) <= Characters(next[1..]) by { assert next[1..][0] == next[1] && rows[1..] == []; }
      assert next[0..] == next;
      OrderKeptIff(rows, next);
      assert !OrderKept(rows, next);
    }
  }

  // ---- Every delta ----

  /** What a delta adds is what it names, once each, less what is there. */
  lemma {:induction false} AddAllOnto(s: seq<Segment>, added: seq<Segment>)
    ensures AddAll(s, added) == s + Drop(AddAll([], added), Elems(s))
  {
    if added == [] {
      assert AddAll([], added) == [] && s + [] == s;
    } else {
      var rest, last := added[..|added| - 1], added[|added| - 1];
      var once := AddAll([], rest);
      AddAllOnto(s, rest);
      assert AddAll([], added) == if last in once then once else once + [last];
      assert AddAll(s, added) == if last in AddAll(s, rest) then AddAll(s, rest) else AddAll(s, rest) + [last];
      hide AddAll;
      OntoOneMore(s, once, last);
    }
  }

  lemma OntoOneMore(s: seq<Segment>, once: seq<Segment>, last: Segment)
    ensures var all := s + Drop(once, Elems(s));
      (if last in all then all else all + [last])
        == s + Drop(if last in once then once else once + [last], Elems(s))
  {
    var all := s + Drop(once, Elems(s));
    DropMembers(once, Elems(s));
    hide Drop;
    assert last in all <==> last in s || last in once;
    if last !in once {
      KeepSplits(once, [last], Elems(s));
      OneElement(last, Elems(s));
      assert Drop(once, Elems(s)) + [] == Drop(once, Elems(s));
    }
  }

  /** The inventory before the caps: what stays, then what is new. */
  function Uncapped(stays: seq<Segment>, once: seq<Segment>): seq<Segment> { stays + Drop(once, Elems(stays)) }

  lemma UncappedIsDistinct(stays: seq<Segment>, once: seq<Segment>)
    requires Distinct(stays) && Distinct(once)
    ensures Distinct(Uncapped(stays, once))
    ensures forall x :: x in Uncapped(stays, once) <==> x in stays || x in once
  {
    var extra := Drop(once, Elems(stays));
    DropMembers(once, Elems(stays));
    hide Drop;
    forall i, j | 0 <= i < |stays| && 0 <= j < |extra| ensures stays[i] != extra[j] {
      assert stays[i] in Elems(stays) && extra[j] in extra;
    }
  }

  /**
   `x` is both removed and added, and some stored inventory has it in front of others that survive it:
   with `stays` beside it within the caps, another segment still fits before it in the new inventory.
   */
  ghost predicate Overtakes(once: seq<Segment>, gone: set<Segment>, max: nat, x: Segment, stays: seq<Segment>) {
    && x in once && x in gone && Distinct(stays) && Elems(stays) !! gone && Fits([x] + stays, max)
    && exists k :: 0 < k < |Uncapped(stays, once)| && Uncapped(stays, once)[k] == x
         && Fits(Uncapped(stays, once)[k - 1..], max)
  }

  /** The stores keep the same order whatever inventory within the caps was stored. */
  ghost predicate AlwaysKeepsOrder(added: seq<Segment>, removed: seq<Segment>, max: nat) {
    forall rows :: Distinct(rows) && Fits(rows, max) ==> OrderKept(rows, MemoryDelta(rows, added, removed, max))
  }

  lemma DeltaIsUncapped(rows: seq<Segment>, added: seq<Segment>, removed: seq<Segment>, max: nat)
    requires Distinct(rows)
    ensures var stays, once := Drop(rows, Elems(removed)), AddAll([], added);
      && MemoryDelta(rows, added, removed, max) == Limited(Uncapped(stays, once), max)
      && Distinct(stays) && Distinct(once) && Elems(stays) !! Elems(removed)
      && Distinct(Uncapped(stays, once)) && Distinct(Limited(Uncapped(stays, once), max))
  {
    var stays, once := Drop(rows, Elems(removed)), AddAll([], added);
    var all := Uncapped(stays, once);
    DropMembers(rows, Elems(removed));
    AddAllOnto(stays, added);
    AddAllAppends([], added);
    assert MemoryDelta(rows, added, removed, max) == Limited(all, max);
    hide Drop, AddAll, Limited, MemoryDelta, Uncapped;
    UncappedIsDistinct(stays, once);
    LimitedIsLongestSuffix(all, max);
  }

  /** A suffix that fits survives the caps. */
  lemma SuffixSurvives(s: seq<Segment>, k: nat, max: nat)
    requires k <= |s| && Fits(s[k..], max)
    ensures |s| - |Limited(s, max)| <= k
  {
    LimitedIsLongestSuffix(s, max);
  }

  /** From such a segment, an inventory that comes out in another order. */
  lemma OvertakenOrderIsLost(added: seq<Segment>, removed: seq<Segment>, max: nat, x: Segment, stays: seq<Segment>)
    requires Overtakes(AddAll([], added), Elems(removed), max, x, stays)
    ensures Distinct([x] + stays) && Fits([x] + stays, max)
    ensures !OrderKept([x] + stays, MemoryDelta([x] + stays, added, removed, max))
  {
    hide Drop, AddAll, Limited, Uncapped, Elems, Fits, MemoryDelta, OrderKept, Distinct;
    var rows, gone, once := [x] + stays, Elems(removed), AddAll([], added);
    var all := Uncapped(stays, once);
    var k :| 0 < k < |all| && all[k] == x && Fits(all[k - 1..], max);
    OnlyFirstDropped(x, stays, gone);
    DeltaIsUncapped(rows, added, removed, max);
    SuffixSurvives(all, k - 1, max);
    FirstIsOvertaken(all, k, Limited(all, max), max, x, stays);
  }

  lemma OnlyFirstDropped(x: Segment, stays: seq<Segment>, gone: set<Segment>)
    requires x in gone && Distinct(stays) && Elems(stays) !! gone
    ensures Distinct([x] + stays) && Drop([x] + stays, gone) == stays
  {
    forall i | 0 <= i < |stays| ensures stays[i] != x { assert stays[i] in Elems(stays); }
    hide Drop, Elems, Distinct;
    FirstIsDistinct(x, stays);
    KeepSplits([x], stays, gone);
    OneElement(x, gone);
    KeepNone(stays, gone);
    assert [] + stays == stays;
  }

  lemma FirstIsDistinct(x: Segment, stays: seq<Segment>)
    requires Distinct(stays) && forall i :: 0 <= i < |stays| ==> stays[i] != x
    ensures Distinct([x] + stays)
  {
  }

  lemma FirstIsOvertaken(all: seq<Segment>, k: nat, next: seq<Segment>, max: nat, x: Segment, stays: seq<Segment>)
    requires Distinct(all) && 0 < k < |all| && all[k] == x && next == Limited(all, max) && |all| - |next| <= k - 1
    requires Distinct([x] + stays) && Distinct(next)
    ensures !OrderKept([x] + stays, next)
  {
    var start := |all| - |next|;
    LimitedIsLongestSuffix(all, max);
    hide Limited, Keep, OrderKept, Fits;
    assert next[0] != x by { assert next[0] == all[start] && start < k; }
    assert x in Elems(next) by { assert next[k - start] == x; }
    hide Distinct;
    KeepsFirst(x, stays, Elems(next));
    OrderKeptIff([x] + stays, next);
  }

  lemma KeepsFirst(x: Segment, stays: seq<Segment>, wanted: set<Segment>)
    requires x in wanted
    ensures Keep([x] + stays, wanted) != [] && Keep([x] + stays, wanted)[0] == x
  {
    KeepSplits([x], stays, wanted);
    OneElement(x, wanted);
  }

  lemma {:induction false} KeepSame(s: seq<Segment>, a: set<Segment>, b: set<Segment>)
    requires forall x :: x in s ==> (x in a <==> x in b)
    ensures Keep(s, a) == Keep(s, b)
  {
    if s != [] {
      assert forall x :: x in s[..|s| - 1] ==> x in s;
      KeepSame(s[..|s| - 1], a, b);
    }
  }

  /** If nothing that was removed and stored survives, what survives of the rows is where it was. */
  lemma UntouchedKeepOrder(rows: seq<Segment>, gone: set<Segment>, once: seq<Segment>, max: nat)
    requires Distinct(rows) && Distinct(once)
    requires forall x :: x in rows && x in gone ==> x !in Limited(Uncapped(Drop(rows, gone), once), max)
    ensures OrderKept(rows, Limited(Uncapped(Drop(rows, gone), once), max))
  {
    var stays := Drop(rows, gone);
    var all := Uncapped(stays, once);
    var next := Limited(all, max);
    DropMembers(rows, gone);
    UncappedIsDistinct(stays, once);
    LimitedIsLongestSuffix(all, max);
    hide Drop, Limited, OrderKept;
    var start := |all| - |next|;
    var k := if start < |stays| then start else |stays|;
    assert stays <= all;
    hide Uncapped;
    SuffixIsSplit(stays, all, start, k);
    KeepSurvivors(rows, gone, next, stays[..k], stays[k..]);
    OrderKeptIff(rows, next);
  }

  /** Of a sequence that begins with `stays`, a suffix begins with what is left of `stays`. */
  lemma SuffixIsSplit(stays: seq<Segment>, all: seq<Segment>, start: nat, k: nat)
    requires stays <= all && start <= |all| && k == Min(start, |stays|) && Distinct(all)
    ensures stays == stays[..k] + stays[k..] && Elems(stays[..k]) !! Elems(all[start..]) && stays[k..] <= all[start..]
    ensures Distinct(all[start..])
  {
    SuffixIsApart(all, start);
    forall x | x in Elems(stays[..k]) ensures x in Elems(all[..start]) {
      var i :| 0 <= i < k && stays[..k][i] == x;
      assert all[..start][i] == x;
    }
  }

  lemma KeepSurvivors(rows: seq<Segment>, gone: set<Segment>, next: seq<Segment>, head: seq<Segment>,
                      tail: seq<Segment>)
    requires forall x :: x in rows && x in gone ==> x !in next
    requires Drop(rows, gone) == head + tail && Elems(head) !! Elems(next) && tail <= next
    ensures Keep(rows, Elems(next)) == tail
  {
    var wanted := Elems(next) - gone;
    assert Elems(tail) <= Elems(next) by { assert forall x :: x in tail ==> x in next; }
    assert Elems(tail) <= wanted by {
      DropMembers(rows, gone);
      assert forall x :: x in tail ==> x in head + tail;
    }
    assert Elems(head) !! wanted;
    hide Keep, Drop;
    KeepSame(rows, Elems(next), wanted);
    KeepOfDrop(rows, gone, wanted);
    KeepSplits(head, tail, wanted);
    KeepNone(head, wanted);
    KeepAll(tail, wanted);
  }

  lemma {:induction false} DropShrinks(s: seq<Segment>, gone: set<Segment>)
    ensures |Drop(s, gone)| <= |s| && Characters(Drop(s, gone)) <= Characters(s)
  {
    if s != [] {
      var rest, last := s[..|s| - 1], s[|s| - 1];
      assert s == rest + [last];
      DropShrinks(rest, gone);
      hide Characters;
      CharactersAdd(rest, [last]);
      if last in gone {
        assert Drop(s, gone) == Drop(rest, gone);
      } else {
        CharactersAdd(Drop(rest, gone), [last]);
      }
    }
  }

  /** Dropping an element makes room for it. */
  lemma DropMakesRoom(s: seq<Segment>, gone: set<Segment>, x: Segment)
    requires x in s && x in gone
    ensures |Drop(s, gone)| < |s| && Characters([x] + Drop(s, gone)) <= Characters(s)
  {
    var i :| 0 <= i < |s| && s[i] == x;
    var a, b := s[..i], s[i + 1..];
    assert s == a + ([x] + b) && |s| == |a| + 1 + |b|;
    var stays := Drop(a, gone) + Drop(b, gone);
    assert Drop(s, gone) == stays by {
      KeepSplits(a, [x] + b, gone);
      KeepSplits([x], b, gone);
      OneElement(x, gone);
      assert [] + Drop(b, gone) == Drop(b, gone);
    }
    hide Drop, Characters;
    DropShrinks(a, gone);
    DropShrinks(b, gone);
    CharactersAdd(a, [x] + b);
    CharactersAdd([x], b);
    CharactersAdd([x], stays);
    CharactersAdd(Drop(a, gone), Drop(b, gone));
  }

  lemma {:induction false} CharactersAdd(a: seq<Segment>, b: seq<Segment>)
    ensures Characters(a + b) == Characters(a) + Characters(b)
  {
    if a == [] {
      assert a + b == b;
    } else {
      assert (a + b)[1..] == a[1..] + b;
      CharactersAdd(a[1..], b);
    }
  }

  lemma KeepOnly(s: seq<Segment>, wanted: set<Segment>, x: Segment)
    requires Distinct(s) && x in s && x in wanted && forall y :: y in s && y in wanted ==> y == x
    ensures Keep(s, wanted) == [x]
  {
    KeepMembers(s, wanted);
    hide Keep;
    assert Elems(Keep(s, wanted)) == {x};
    ElemsSize(Keep(s, wanted));
  }

  lemma RestFits(all: seq<Segment>, start: nat, k: nat, max: nat)
    requires start <= k <= |all| && Fits(all[start..], max)
    ensures Fits(all[k..], max)
  {
    SuffixesGrow(all, start, k);
  }

  /** What was removed and is there afterwards was added, and fits beside what stays. */
  lemma SurvivorIsAdded(rows: seq<Segment>, gone: set<Segment>, once: seq<Segment>, max: nat, x: Segment)
    requires Fits(rows, max) && x in rows && x in gone && x in Limited(Uncapped(Drop(rows, gone), once), max)
    ensures x in once && x !in Drop(rows, gone) && Fits([x] + Drop(rows, gone), max)
  {
    var stays := Drop(rows, gone);
    DropMembers(rows, gone);
    DropMembers(once, Elems(stays));
    hide Drop, Limited;
    LimitedIsLongestSuffix(Uncapped(stays, once), max);
    assert x in Uncapped(stays, once);
    DropMakesRoom(rows, gone, x);
  }

  lemma OnlyFirstSurvives(rows: seq<Segment>, gone: set<Segment>, once: seq<Segment>, max: nat)
    requires Distinct(rows) && Distinct(once)
    requires var next := Limited(Uncapped(Drop(rows, gone), once), max);
      forall y :: y in rows && y in gone && y in next ==> y == next[0]
    ensures OrderKept(rows, Limited(Uncapped(Drop(rows, gone), once), max))
  {
    hide Limited, Drop, Keep, OrderKept, Uncapped, Distinct;
    var next := Limited(Uncapped(Drop(rows, gone), once), max);
    if y :| y in rows && y in gone && y in next {
      AddedFirst(rows, gone, once, max);
      KeepOnly(rows, Elems(next), next[0]);
      OrderKeptIff(rows, next);
    } else {
      UntouchedKeepOrder(rows, gone, once, max);
    }
  }

  lemma BeginsInside(stays: seq<Segment>, all: seq<Segment>, start: nat)
    requires stays <= all && start < |all|
    ensures start < |stays| ==> all[start] in stays
  {
  }

  /** If what comes first was removed, nothing that stayed is left. */
  lemma AddedFirst(rows: seq<Segment>, gone: set<Segment>, once: seq<Segment>, max: nat)
    requires Distinct(rows) && Distinct(once)
    requires var next := Limited(Uncapped(Drop(rows, gone), once), max); next != [] && next[0] in gone
    ensures var next := Limited(Uncapped(Drop(rows, gone), once), max);
      Distinct(next) && forall y :: y in rows && y in next ==> y in gone
  {
    var stays := Drop(rows, gone);
    var all := Uncapped(stays, once);
    var next := Limited(all, max);
    assert stays <= all;
    DropMembers(rows, gone);
    hide Limited, Drop, Uncapped;
    UncappedIsDistinct(stays, once);
    LimitedIsLongestSuffix(all, max);
    var start := |all| - |next|;
    SuffixIsSplit(stays, all, start, Min(start, |stays|));
    BeginsInside(stays, all, start);
    assert start >= |stays| && stays[..|stays|] == stays;
    forall y | y in rows && y in next ensures y in gone {
      assert y in Elems(next) && (y in Elems(stays) <==> y !in gone);
    }
  }

  /** An inventory that comes out in another order has such a segment. */
  lemma LostOrderIsOvertaken(rows: seq<Segment>, added: seq<Segment>, removed: seq<Segment>, max: nat)
    returns (x: Segment, stays: seq<Segment>)
    requires Distinct(rows) && Fits(rows, max) && !OrderKept(rows, MemoryDelta(rows, added, removed, max))
    ensures Overtakes(AddAll([], added), Elems(removed), max, x, stays)
  {
    var gone, once := Elems(removed), AddAll([], added);
    stays := Drop(rows, gone);
    hide Drop, Keep, AddAll, Limited, Uncapped, OrderKept, Fits, Elems, MemoryDelta;
    var all := Uncapped(stays, once);
    var next := Limited(all, max);
    DeltaIsUncapped(rows, added, removed, max);
    if y :| y in rows && y in gone && y in next && y != next[0] {
      x := y;
      SurvivorIsAdded(rows, gone, once, max, x);
      var k := SurvivorIsBehind(all, max, x);
    } else {
      OnlyFirstSurvives(rows, gone, once, max);
    }
  }

  lemma SurvivorIsBehind(all: seq<Segment>, max: nat, x: Segment) returns (k: nat)
    requires x in Limited(all, max) && x != Limited(all, max)[0]
    ensures 0 < k < |all| && all[k] == x && Fits(all[k - 1..], max)
  {
    var next := Limited(all, max);
    LimitedIsLongestSuffix(all, max);
    hide Limited, Fits;
    var i :| 0 <= i < |next| && next[i] == x;
    k := |all| - |next| + i;
    RestFits(all, |all| - |next|, k - 1, max);
  }

  /** For any delta and caps: some stored inventory comes out in two orders exactly if there is such a segment. */
  lemma AlwaysKeepsOrderIff(added: seq<Segment>, removed: seq<Segment>, max: nat)
    ensures AlwaysKeepsOrder(added, removed, max)
      <==> !exists x, stays :: Overtakes(AddAll([], added), Elems(removed), max, x, stays)
  {
    hide OrderKept, Overtakes, MemoryDelta, AddAll, Elems, Fits;
    if x, stays :| Overtakes(AddAll([], added), Elems(removed), max, x, stays) {
      OvertakenOrderIsLost(added, removed, max, x, stays);
    }
    if rows :| Distinct(rows) && Fits(rows, max) && !OrderKept(rows, MemoryDelta(rows, added, removed, max)) {
      var x, stays := LostOrderIsOvertaken(rows, added, removed, max);
    }
  }

  // ---- Deltas whose added segments fit ----

  /** How many segments come after the last one that is also in `gone`. */
  function AfterLast(once: seq<Segment>, gone: set<Segment>): (n: nat)
    ensures n <= |once|
    ensures forall i :: |once| - n <= i < |once| ==> once[i] !in gone
    ensures n < |once| ==> once[|once| - n - 1] in gone
  {
    if once == [] || once[|once| - 1] in gone then 0 else 1 + AfterLast(once[..|once| - 1], gone)
  }

  /** Another segment, not in `gone`, fits into an inventory together with `x`. */
  ghost predicate FitsBeside(x: Segment, gone: set<Segment>) {
    exists b: Segment :: b !in gone && b != x && |b| + |x| <= MAX_INVENTORY_CHARACTERS_PER_PEER
  }

  /** The caps leave no room for one inventory in which an overlapping segment comes before another that stays. */
  ghost predicate NoRoom(once: seq<Segment>, gone: set<Segment>, max: nat) {
    2 * max < AfterLast(once, gone) + 3 || (|once| == 1 && !FitsBeside(once[0], gone))
  }

  /** An element that is both removed and added comes, in the uncapped inventory, after what stays. */
  lemma UncappedAround(stays: seq<Segment>, before: seq<Segment>, x: Segment, after: seq<Segment>)
    requires x !in stays
    ensures var dropped := Drop(before, Elems(stays));
      Uncapped(stays, before + ([x] + after)) == stays + dropped + ([x] + Drop(after, Elems(stays)))
  {
    var gone := Elems(stays);
    assert x !in gone;
    hide Drop, Elems;
    KeepSplits(before, [x] + after, gone);
    KeepSplits([x], after, gone);
    OneElement(x, gone);
    Reassociate(stays, Drop(before, gone), [x] + Drop(after, gone));
  }

  lemma Reassociate(a: seq<Segment>, b: seq<Segment>, c: seq<Segment>)
    ensures a + (b + c) == a + b + c
  {
  }

  lemma PlaceIsUnique(s: seq<Segment>, i: nat, j: nat)
    requires Distinct(s) && i < |s| && j < |s| && s[i] == s[j]
    ensures i == j
  {
  }

  /** Room on both sides of `x` bounds how much can come after it. */
  lemma RoomBounds(after: seq<Segment>, stays: seq<Segment>, max: nat)
    requires Distinct(after) && Distinct(stays) && 1 + |stays| <= max && |Drop(after, Elems(stays))| + 2 <= max
    ensures |after| + 3 <= 2 * max
  {
    var rest := Drop(after, Elems(stays));
    DropMembers(after, Elems(stays));
    hide Drop;
    ElemsSize(after);
    ElemsSize(stays);
    ElemsSize(rest);
    assert Elems(after) <= Elems(stays) + Elems(rest);
    SetSizes(Elems(after), Elems(stays) + Elems(rest));
  }

  /** What comes before and after `x`, once its place in the uncapped inventory is known. */
  lemma OvertakenAt(once: seq<Segment>, gone: set<Segment>, max: nat, x: Segment, stays: seq<Segment>,
                    j: nat) returns (k: nat)
    requires Distinct(once) && Overtakes(once, gone, max, x, stays) && j < |once| && once[j] == x
    ensures k == |stays| + |Drop(once[..j], Elems(stays))|
    ensures 0 < k < |Uncapped(stays, once)| == k + 1 + |Drop(once[j + 1..], Elems(stays))|
    ensures Fits(Uncapped(stays, once)[k - 1..], max)
    ensures Uncapped(stays, once)
      == stays + Drop(once[..j], Elems(stays)) + ([x] + Drop(once[j + 1..], Elems(stays)))
  {
    var all := Uncapped(stays, once);
    k :| 0 < k < |all| && all[k] == x && Fits(all[k - 1..], max);
    assert once == once[..j] + ([x] + once[j + 1..]);
    assert x !in stays by { assert x in gone && Elems(stays) !! gone; }
    UncappedIsDistinct(stays, once);
    UncappedAround(stays, once[..j], x, once[j + 1..]);
    hide Drop, Uncapped, Fits;
    PlaceIsUnique(all, k, |stays| + |Drop(once[..j], Elems(stays))|);
  }

  lemma OvertakingNeedsRoom(once: seq<Segment>, gone: set<Segment>, max: nat, x: Segment, stays: seq<Segment>)
    requires Distinct(once) && Overtakes(once, gone, max, x, stays)
    ensures !NoRoom(once, gone, max)
  {
    hide Drop, Uncapped;
    var j :| 0 <= j < |once| && once[j] == x;
    var k := OvertakenAt(once, gone, max, x, stays, j);
    RoomBounds(once[j + 1..], stays, max);
    if |once| == 1 {
      assert Drop(once[..0], Elems(stays)) == [] == Drop(once[1..], Elems(stays)) by {
        DropShrinks(once[..0], Elems(stays));
        DropShrinks(once[1..], Elems(stays));
      }
      var b := stays[k - 1];
      assert Uncapped(stays, once)[k - 1..] == [b, x];
      PairCharacters(b, x);
      assert b in Elems(stays);
    }
  }

  lemma PairCharacters(a: Segment, b: Segment)
    ensures Characters([a, b]) == |a| + |b|
  {
    assert [a, b][1..] == [b] && [b][1..] == [];
    assert Characters([b]) == |b|;
  }

  /** The added segments after the last overlapping one that have to be stored already. */
  /** Enough of the added segments after the last overlapping one, if they are stored already, let it overtake. */
  lemma StoredAhead(once: seq<Segment>, gone: set<Segment>, max: nat) returns (x: Segment, stays: seq<Segment>)
    requires Distinct(once) && Characters(once) <= MAX_INVENTORY_CHARACTERS_PER_PEER
    requires AfterLast(once, gone) < |once| && |once| > 1 && 2 * max >= AfterLast(once, gone) + 3
    ensures Overtakes(once, gone, max, x, stays)
  {
    hide AfterLast, Overtakes, Characters, Distinct;
    var n := AfterLast(once, gone);
    var j := |once| - n - 1;
    x := once[j];
    var z := if n + 2 > max then n + 2 - max else if j == 0 then 1 else 0;
    stays := once[j + 1..j + 1 + z];
    forall i | 0 <= i < |stays| ensures stays[i] !in gone { assert stays[i] == once[j + 1 + i]; }
    CutAround(once, j, j + 1 + z);
    AheadOvertakes(once, gone, max, once[..j], x, stays, once[j + 1 + z..]);
  }

  lemma CutAround(s: seq<Segment>, j: nat, k: nat)
    requires j < k <= |s|
    ensures s == s[..j] + ([s[j]] + (s[j + 1..k] + s[k..]))
  {
  }

  lemma AheadOvertakes(once: seq<Segment>, gone: set<Segment>, max: nat, before: seq<Segment>, x: Segment,
                       stays: seq<Segment>, rest: seq<Segment>)
    requires Distinct(once) && Characters(once) <= MAX_INVENTORY_CHARACTERS_PER_PEER
    requires once == before + ([x] + (stays + rest)) && x in gone
    requires forall i :: 0 <= i < |stays| ==> stays[i] !in gone
    requires 1 + |stays| <= max && 2 + |rest| <= max && |before| + |stays| > 0
    ensures Overtakes(once, gone, max, x, stays)
  {
    hide Drop, Characters, Uncapped;
    UncappedIs(once, before, x, stays, rest);
    var all := stays + before + ([x] + rest);
    var k := |stays| + |before|;
    assert all[k] == x;
    CharactersOfOrders(before, x, stays, rest);
    SuffixesGrow(all, 0, k - 1);
    assert all[0..] == all;
    assert Fits(all[k - 1..], max);
    forall i, l | 0 <= i < l < |stays| ensures stays[i] != stays[l] {
      assert once[|before| + 1 + i] == stays[i] && once[|before| + 1 + l] == stays[l];
    }
    assert once[|before|] == x;
  }

  lemma UncappedIs(once: seq<Segment>, before: seq<Segment>, x: Segment, stays: seq<Segment>, rest: seq<Segment>)
    requires Distinct(once) && once == before + ([x] + (stays + rest))
    ensures Uncapped(stays, once) == stays + before + ([x] + rest)
  {
    var apart := Elems(stays);
    PiecesAreApart(before, x, stays, rest);
    hide Drop, Uncapped, Elems, Distinct;
    UncappedAround(stays, before, x, stays + rest);
    KeepNone(before, apart);
    KeepNone(rest, apart);
    DropAll(stays, apart);
    KeepSplits(stays, rest, apart);
    assert [] + rest == rest;
  }

  lemma PiecesAreApart(before: seq<Segment>, x: Segment, stays: seq<Segment>, rest: seq<Segment>)
    requires Distinct(before + ([x] + (stays + rest)))
    ensures x !in stays && Elems(before) !! Elems(stays) && Elems(rest) !! Elems(stays)
  {
    var once, n := before + ([x] + (stays + rest)), |before|;
    assert once[n] == x;
    forall i | 0 <= i < |stays|
      ensures stays[i] != x && stays[i] !in before && stays[i] !in rest
    {
      assert once[n + 1 + i] == stays[i];
      forall j | 0 <= j < n ensures before[j] != stays[i] { assert once[j] == before[j]; }
      forall j | 0 <= j < |rest| ensures rest[j] != stays[i] { assert once[n + 1 + |stays| + j] == rest[j]; }
    }
  }

  lemma CharactersOfOrders(before: seq<Segment>, x: Segment, stays: seq<Segment>, rest: seq<Segment>)
    ensures Characters(stays + before + ([x] + rest)) == Characters(before + ([x] + (stays + rest)))
    ensures Characters([x] + stays) <= Characters(before + ([x] + (stays + rest)))
  {
    hide Characters;
    CharactersAdd(stays + before, [x] + rest);
    CharactersAdd(stays, before);
    CharactersAdd([x], rest);
    CharactersAdd(before, [x] + (stays + rest));
    CharactersAdd([x], stays + rest);
    CharactersAdd(stays, rest);
    CharactersAdd([x], stays);
  }

  /** The only segment of a delta, behind another one that was stored after it. */
  lemma StoredBeside(x: Segment, gone: set<Segment>, max: nat) returns (stays: seq<Segment>)
    requires x in gone && max >= 2 && FitsBeside(x, gone)
    ensures Overtakes([x], gone, max, x, stays)
  {
    var b: Segment :| b !in gone && b != x && |b| + |x| <= MAX_INVENTORY_CHARACTERS_PER_PEER;
    stays := [b];
    OneElement(x, Elems(stays));
    assert Uncapped(stays, [x]) == [b, x];
    hide Uncapped;
    PairCharacters(b, x);
    PairCharacters(x, b);
    assert [x] + stays == [x, b] && [b, x][0..] == [b, x];
    assert Uncapped(stays, [x])[1] == x;
  }

  /**
   For a delta whose added segments fit together: whatever was stored, both stores keep one order exactly
   if nothing is both added and removed, or the caps leave no room for anything to be overtaken.
   */
  lemma OverlapKeepsOtherOrder(added: seq<Segment>, removed: seq<Segment>, max: nat)
    requires Characters(AddAll([], added)) <= MAX_INVENTORY_CHARACTERS_PER_PEER
    ensures AlwaysKeepsOrder(added, removed, max)
      <==> Elems(added) !! Elems(removed) || NoRoom(AddAll([], added), Elems(removed), max)
  {
    var once, gone := AddAll([], added), Elems(removed);
    AddAllAppends([], added);
    assert Elems(once) == Elems(added);
    hide AddAll;
    AlwaysKeepsOrderIff(added, removed, max);
    hide AlwaysKeepsOrder;
    OvertakesIffRoom(once, gone, max);
  }

  lemma OvertakesIffRoom(once: seq<Segment>, gone: set<Segment>, max: nat)
    requires Distinct(once) && Characters(once) <= MAX_INVENTORY_CHARACTERS_PER_PEER
    ensures (exists x, stays :: Overtakes(once, gone, max, x, stays))
      <==> !(Elems(once) !! gone) && !NoRoom(once, gone, max)
  {
    if x, stays :| Overtakes(once, gone, max, x, stays) {
      OvertakingNeedsRoom(once, gone, max, x, stays);
      assert x in Elems(once);
    }
    if AfterLast(once, gone) < |once| && !NoRoom(once, gone, max) {
      if |once| > 1 {
        var x, stays := StoredAhead(once, gone, max);
      } else {
        assert once == [once[0]];
        var stays := StoredBeside(once[0], gone, max);
      }
    }
  }

  const MAX_SEGMENTS_PER_REPORT: nat := 512
  const MAX_SEGMENT_ID_LENGTH: nat := 512

  /** The lists of segments that the tracker takes from a peer. */
  predicate IsSegmentIdList(segments: seq<Segment>) {
    |segments| <= MAX_SEGMENTS_PER_REPORT && forall x :: x in segments ==> 0 < |x| <= MAX_SEGMENT_ID_LENGTH
  }

  lemma {:induction false} AddAllIsShort(added: seq<Segment>)
    ensures |AddAll([], added)| <= |added|
  {
    if added != [] { AddAllIsShort(added[..|added| - 1]); }
  }

  /** For deltas that the tracker accepts, and a store that can hold one: no exceptions. */
  lemma AcceptedOverlapKeepsOtherOrder(added: seq<Segment>, removed: seq<Segment>, max: nat)
    requires IsSegmentIdList(added) && IsSegmentIdList(removed) && max >= MAX_SEGMENTS_PER_REPORT
    requires Characters(AddAll([], added)) <= MAX_INVENTORY_CHARACTERS_PER_PEER
    ensures AlwaysKeepsOrder(added, removed, max) <==> Elems(added) !! Elems(removed)
  {
    var once, gone := AddAll([], added), Elems(removed);
    AddAllAppends([], added);
    AddAllIsShort(added);
    OverlapKeepsOtherOrder(added, removed, max);
    hide AlwaysKeepsOrder, AddAll;
    if x :| x in added && x in gone {
      assert x in once && AfterLast(once, gone) < |once|;
      var b := seq(MAX_SEGMENT_ID_LENGTH + 1, i => 'a');
      assert b !in gone && b !in once;
      assert FitsBeside(once[0], gone) by { assert |b| + |once[0]| <= MAX_INVENTORY_CHARACTERS_PER_PEER; }
    }
  }

  // ---- Runs of both stores ----

  /** The inventory that an operation gives its peer. */
  function NewInventory(rows: seq<Segment>, op: Op, max: nat): seq<Segment> {
    match op
    case Append(_, segments) => MemoryAppend(rows, segments, max)
    case Replace(_, segments) => MemoryReplace(segments, max)
    case Delta(_, added, removed) => MemoryDelta(rows, added, removed, max)
    case _ => rows
  }

  /** The stored segments that a report keeps come first in the new inventory, as they were. */
  ghost predicate KeepsRows(m: Memory, op: Op, max: nat) {
    (op.Append? || op.Replace? || op.Delta?) && op.peer in m.peers ==>
      var rows := m.peers[op.peer].segments;
      var next := NewInventory(rows, op, max);
      Keep(rows, Elems(next)) <= next
  }

  lemma NewInventoryIsDistinct(rows: seq<Segment>, op: Op, max: nat)
    requires Distinct(rows)
    ensures Distinct(NewInventory(rows, op, max))
  {
    match op
    case Append(_, segments) =>
      AddAllAppends([], rows + segments);
      LimitedIsLongestSuffix(AddAll([], rows + segments), max);
    case Replace(_, segments) => ReplacementIsDistinct(segments, max);
    case Delta(_, added, removed) => DeltaIsUncapped(rows, added, removed, max);
    case _ =>
  }

  lemma WriteAgreesIff(m: Memory, t: Tables, p: PeerId, next: seq<Segment>, now: int)
    requires Agree(m, t) && p in m.peers && Distinct(next)
    ensures Agree(m.(peers := m.peers[p := m.peers[p].(segments := next, lastSeenAt := now)]),
                  t.(segmentRows := Written(t.segmentRows, p, next), lastSeen := t.lastSeen[p := now]))
      <==> Keep(m.peers[p].segments, Elems(next)) <= next
  {
    var m1 := m.(peers := m.peers[p := m.peers[p].(segments := next, lastSeenAt := now)]);
    var t1 := t.(segmentRows := Written(t.segmentRows, p, next), lastSeen := t.lastSeen[p := now]);
    hide Rows, Written, Rewritten, Keep, Distinct;
    assert AgreeOn(m, t, p);
    OrderKeptIff(m.peers[p].segments, next);
    WrittenReadsBack(t.segmentRows, p, next, p);
    if Agree(m1, t1) {
      assert AgreeOn(m1, t1, p);
    }
    if Rewritten(m.peers[p].segments, next) == next {
      WriteAgrees(m, t, p, next, now);
    }
  }

  /** Two stores that agree still agree after an operation exactly if it keeps the rows in front. */
  lemma NextAgreesIff(m: Memory, t: Tables, op: Op, now: int, max: nat)
    requires Agree(m, t)
    ensures Agree(MemoryNext(m, op, now, max), TablesNext(t, op, now, max)) <==> KeepsRows(m, op, max)
  {
    if Known(op).Some? { assert AgreeOn(m, t, Known(op).value); }
    if (op.Append? || op.Replace? || op.Delta?) && op.peer in m.peers {
      var rows := m.peers[op.peer].segments;
      NewInventoryIsDistinct(rows, op, max);
      hide Written, MemoryDelta, MemoryAppend, MemoryReplace, Distinct, Agree, Keep, Elems;
      WriteAgreesIff(m, t, op.peer, NewInventory(rows, op, max), now);
    } else if Known(op).None? || Known(op).value in m.peers {
      hide *;
      NextAgrees(m, t, op, now, max);
    }
  }

  /** The stores agree after the first `k` operations of a run. */
  ghost predicate AgreesAt(run: seq<(Op, int)>, k: nat, max: nat)
    requires k <= |run|
  {
    Agree(MemoryAfter(run[..k], max), TablesAfter(run[..k], max))
  }

  /** The operation after the first `k` keeps the stored segments in front. */
  ghost predicate KeepsRowsAt(run: seq<(Op, int)>, k: nat, max: nat)
    requires k < |run|
  {
    KeepsRows(MemoryAfter(run[..k], max), run[k].0, max)
  }

  lemma StepAgreesIff(run: seq<(Op, int)>, k: nat, max: nat)
    requires k < |run| && AgreesAt(run, k, max)
    ensures AgreesAt(run, k + 1, max) <==> KeepsRowsAt(run, k, max)
  {
    assert run[..k + 1][..k] == run[..k];
    hide Agree, KeepsRows, MemoryNext, TablesNext;
    NextAgreesIff(MemoryAfter(run[..k], max), TablesAfter(run[..k], max), run[k].0, run[k].1, max);
  }

  ghost predicate AgreesUpTo(run: seq<(Op, int)>, n: nat, max: nat)
    requires n <= |run|
  {
    forall k :: 0 <= k <= n ==> AgreesAt(run, k, max)
  }

  ghost predicate KeepsRowsUpTo(run: seq<(Op, int)>, n: nat, max: nat)
    requires n <= |run|
  {
    forall k :: 0 <= k < n ==> KeepsRowsAt(run, k, max)
  }

  lemma UpToOneMore(run: seq<(Op, int)>, n: nat, max: nat)
    requires n < |run|
    ensures AgreesUpTo(run, n + 1, max) <==> AgreesUpTo(run, n, max) && AgreesAt(run, n + 1, max)
    ensures KeepsRowsUpTo(run, n + 1, max) <==> KeepsRowsUpTo(run, n, max) && KeepsRowsAt(run, n, max)
    ensures AgreesUpTo(run, n, max) ==> AgreesAt(run, n, max)
  {
    hide AgreesAt, KeepsRowsAt;
  }

  lemma StartAgrees(run: seq<(Op, int)>, max: nat)
    ensures AgreesAt(run, 0, max)
  {
    hide Agree;
    EveryRunAgrees(run[..0], max);
  }

  /** Whatever is reported: the stores agree up to `n` operations exactly if each of these keeps the rows in front. */
  lemma {:induction false} EveryRunAgreesIff(run: seq<(Op, int)>, n: nat, max: nat)
    requires n <= |run|
    ensures AgreesUpTo(run, n, max) <==> KeepsRowsUpTo(run, n, max)
  {
    if n == 0 {
      StartAgrees(run, max);
      hide AgreesAt, KeepsRowsAt;
    } else {
      hide AgreesAt, KeepsRowsAt, AgreesUpTo, KeepsRowsUpTo;
      EveryRunAgreesIff(run, n - 1, max);
      UpToOneMore(run, n - 1, max);
      if AgreesAt(run, n - 1, max) { StepAgreesIff(run, n - 1, max); }
    }
  }

  // ---- What a lost order leads to ----

  lemma NewestTwo(x: Segment, y: Segment, z: Segment)
    requires |y| + |z| <= MAX_INVENTORY_CHARACTERS_PER_PEER
    ensures Limited([x, y, z], 2) == [y, z] && Limited([y, z], 2) == [y, z]
  {
    PairCharacters(y, z);
    assert [x, y, z][1..] == [y, z] && [y, z][0..] == [y, z];
    hide Limited;
    LimitedIsLongestSuffix([x, y, z], 2);
    LimitedIsLongestSuffix([y, z], 2);
  }

  lemma AppendToTwo(x: Segment, y: Segment, z: Segment)
    requires x != y && y != z && z != x && |y| + |z| <= MAX_INVENTORY_CHARACTERS_PER_PEER
    ensures MemoryAppend([x, y], [z], 2) == [y, z]
  {
    AddAllOfDistinct([x, y, z]);
    assert [x, y] + [z] == [x, y, z];
    hide AddAll, Limited;
    NewestTwo(x, y, z);
  }

  lemma MovesToEnd(a: Segment, b: Segment)
    requires a != b && |a| + |b| <= MAX_INVENTORY_CHARACTERS_PER_PEER
    ensures MemoryDelta([a, b], [a], [a], 2) == [b, a]
  {
    assert [a, b] == [a] + [b] && Elems([a]) == {a};
    hide Elems, Limited;
    KeepSplits([a], [b], {a});
    OneElement(a, {a});
    OneElement(b, {a});
    assert [a][..0] == [] && AddAll([b], []) == [b];
    assert AddAll([b], [a]) == [b, a];
    hide Drop, AddAll, Keep;
    NewestTwo(a, b, a);
  }

  lemma StaysInPlace(a: Segment, b: Segment)
    ensures Rewritten([a, b], [b, a]) == [a, b]
  {
    assert Elems([a, b]) == Elems([b, a]);
    hide Elems, Keep, Drop;
    KeepAll([a, b], Elems([b, a]));
    DropAll([b, a], Elems([a, b]));
  }

  lemma ReplacesOldest(a: Segment, b: Segment, c: Segment)
    requires a != b && b != c && c != a
    ensures Rewritten([a, b], [b, c]) == [b, c]
  {
    var wanted := Elems([b, c]);
    assert [a, b] == [a] + [b] && [b, c] == [b] + [c] && [] + [b] == [b];
    assert a !in wanted && b in wanted && b in Elems([a, b]) && c !in Elems([a, b]);
    hide Keep, Drop, Elems;
    KeepSplits([a], [b], wanted);
    OneElement(a, wanted);
    OneElement(b, wanted);
    KeepSplits([b], [c], Elems([a, b]));
    OneElement(b, Elems([a, b]));
    OneElement(c, Elems([a, b]));
  }

  lemma NothingStored(s: seq<Segment>)
    ensures Rewritten([], s) == s
  {
    KeepNone(s, Elems([]));
  }

  /** After `run` the peer is known and has these inventories in memory and on disk. */
  ghost predicate Has(run: seq<(Op, int)>, max: nat, p: PeerId, inMemory: seq<Segment>, onDisk: seq<Segment>) {
    var m, t := MemoryAfter(run, max), TablesAfter(run, max);
    && p in m.peers && m.peers[p].segments == inMemory
    && p in t.lastSeen && Rows(t.segmentRows, p) == onDisk
  }

  lemma OneMoreOp(run: seq<(Op, int)>, op: Op, max: nat)
    ensures MemoryAfter(run + [(op, 0)], max) == MemoryNext(MemoryAfter(run, max), op, 0, max)
    ensures TablesAfter(run + [(op, 0)], max) == TablesNext(TablesAfter(run, max), op, 0, max)
  {
    assert (run + [(op, 0)])[..|run|] == run;
    hide MemoryNext, TablesNext;
  }

  lemma ReportStep(run: seq<(Op, int)>, op: Op, max: nat, inMemory: seq<Segment>, onDisk: seq<Segment>)
    requires (op.Append? || op.Replace? || op.Delta?) && Has(run, max, op.peer, inMemory, onDisk)
    ensures Has(run + [(op, 0)], max, op.peer, NewInventory(inMemory, op, max),
      Rewritten(onDisk, NewInventory(onDisk, op, max)))
  {
    hide MemoryAfter, TablesAfter, Written, Rewritten, Rows, MemoryAppend, MemoryDelta, MemoryReplace;
    OneMoreOp(run, op, max);
    WrittenReadsBack(TablesAfter(run, max).segmentRows, op.peer, NewInventory(onDisk, op, max), op.peer);
  }

  function LostOrderRun(p: PeerId, a: Segment, b: Segment, c: Segment): seq<(Op, int)> {
    [(Join(p), 0)] + [(Append(p, [a, b]), 0)] + [(Op.Delta(p, [a], [a]), 0)] + [(Append(p, [c]), 0)]
  }

  /** Once the orders differ, the caps can drop different segments, so that the stores differ in their contents. */
  lemma LostOrderReachesContents(p: PeerId, a: Segment, b: Segment, c: Segment)
    requires a != b && b != c && c != a && |a| + |b| + |c| <= MAX_INVENTORY_CHARACTERS_PER_PEER
    ensures Has(LostOrderRun(p, a, b, c), 2, p, [a, c], [b, c])
  {
    var run: seq<(Op, int)> := [(Join(p), 0)];
    JoinedIsEmpty(p);
    hide Has, MemoryAppend, MemoryDelta, Rewritten;
    ReportStep(run, Append(p, [a, b]), 2, [], []);
    AppendToNone(a, b);
    NothingStored([a, b]);
    run := run + [(Append(p, [a, b]), 0)];
    ReportStep(run, Op.Delta(p, [a], [a]), 2, [a, b], [a, b]);
    MovesToEnd(a, b);
    StaysInPlace(a, b);
    run := run + [(Op.Delta(p, [a], [a]), 0)];
    ReportStep(run, Append(p, [c]), 2, [b, a], [a, b]);
    AppendToTwo(a, b, c);
    AppendToTwo(b, a, c);
    ReplacesOldest(a, b, c);
  }

  lemma JoinedIsEmpty(p: PeerId)
    ensures Has([(Join(p), 0)], 2, p, [], [])
  {
    assert [(Join(p), 0)][..0] == [];
  }

  lemma AppendToNone(a: Segment, b: Segment)
    requires a != b && |a| + |b| <= MAX_INVENTORY_CHARACTERS_PER_PEER
    ensures MemoryAppend([], [a, b], 2) == [a, b]
  {
    AddAllOfDistinct([a, b]);
    assert [] + [a, b] == [a, b];
    hide AddAll, Limited;
    NewestTwo(a, a, b);
  }
}
