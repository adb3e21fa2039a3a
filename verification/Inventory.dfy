/**
 Segment inventories and the updates that change them
 (tracker/src/websocket.ts, peer/src/tracker.ts, sdk/src/ws-client.ts).

 An inventory is the set of segment names a peer holds. The tracker merges the updates of one
 batch interval into one; the lemmas show that this loses nothing, whenever a client joined.
 */
module Inventory {

  type Segment = string
  type PeerId = string

  datatype Update = Replace(segments: set<Segment>) | Delta(added: set<Segment>, removed: set<Segment>)

  /** What a client does with an update: removals, then additions. */
  function Apply(u: Update, inventory: set<Segment>): set<Segment> {
    match u
    case Replace(segments) => segments
    case Delta(added, removed) => inventory - removed + added
  }

  /** Merges a later update into a pending one. */
  function Merge(pending: Update, u: Update): Update {
    match u
    case Replace(segments) => u
    case Delta(added, removed) =>
      match pending
      case Replace(segments) => Replace(segments - removed + added)
      case Delta(a, r) => Delta(a - removed + added, r + removed - added)
  }

  /** The pending update after the reports `us` of one batch interval. */
  function MergeAll(us: seq<Update>): Update
    requires us != []
  {
    var n := |us| - 1;
    if n == 0 then Normal(us[0]) else Merge(MergeAll(us[..n]), us[n])
  }

  /** The first update of an interval is merged into an empty delta. */
  function Normal(u: Update): Update { Merge(Delta({}, {}), u) }

  function ApplyAll(us: seq<Update>, inventory: set<Segment>): set<Segment> {
    if us == [] then inventory else Apply(us[|us| - 1], ApplyAll(us[..|us| - 1], inventory))
  }

  lemma MergeIsComposition(pending: Update, u: Update, inventory: set<Segment>)
    ensures Apply(Merge(pending, u), inventory) == Apply(u, Apply(pending, inventory))
  {
  }

  lemma ApplyTwice(u: Update, inventory: set<Segment>)
    ensures Apply(u, Apply(u, inventory)) == Apply(u, inventory)
  {
  }

  /** Sending the merged update equals sending every report of the interval in order. */
  lemma {:induction false} MergeAllIsApplyAll(us: seq<Update>, inventory: set<Segment>)
    requires us != []
    ensures Apply(MergeAll(us), inventory) == ApplyAll(us, inventory)
  {
    var n := |us| - 1;
    if n == 0 {
      MergeIsComposition(Delta({}, {}), us[0], inventory);
      assert ApplyAll(us[..0], inventory) == inventory;
    } else {
      MergeAllIsApplyAll(us[..n], inventory);
      MergeIsComposition(MergeAll(us[..n]), us[n], inventory);
    }
  }

  /**
   A client that took its snapshot after any prefix of the interval's reports ends up, after
   the merged update, exactly where a client that saw every report is.
   */
  lemma {:induction false} MergedUpdateAbsorbsPrefixes(us: seq<Update>, k: nat, inventory: set<Segment>)
    requires us != [] && k <= |us|
    ensures Apply(MergeAll(us), ApplyAll(us[..k], inventory)) == ApplyAll(us, inventory)
  {
    var n := |us| - 1;
    if k == |us| {
      assert us[..k] == us;
      MergeAllIsApplyAll(us, inventory);
      ApplyTwice(MergeAll(us), inventory);
    } else if n == 0 {
      assert us[..0] == [];
      MergeAllIsApplyAll(us, inventory);
    } else {
      assert us[..n][..k] == us[..k];
      MergedUpdateAbsorbsPrefixes(us[..n], k, inventory);
      MergeIsComposition(MergeAll(us[..n]), us[n], ApplyAll(us[..k], inventory));
    }
  }

  /** A pending delta never adds and removes the same segment. */
  lemma {:induction false} PendingDeltaIsDisjoint(us: seq<Update>)
    requires us != []
    ensures MergeAll(us).Delta? ==> MergeAll(us).added !! MergeAll(us).removed
  {
    if |us| > 1 { PendingDeltaIsDisjoint(us[..|us| - 1]); }
  }

  // ---- Reports that a pending update does not absorb ----

  /** A pending update sent after `report` would undo part of it. */
  predicate Contradicts(pending: Update, report: Update) {
    match (pending, report)
    case (Delta(a, r), Delta(ra, rr)) => a * (rr - ra) != {} || (r - a) * ra != {}
    case (Delta(a, r), Replace(y)) => !(a <= y) || (r - a) * y != {}
    case (Replace(x), Delta(ra, rr)) => x * (rr - ra) != {} || !(ra <= x)
    case (Replace(x), Replace(y)) => x != y
  }

  /** For an inventory that already reflects `pending`, the test is exact. */
  lemma ContradictionIsExact(pending: Update, report: Update, inventory: set<Segment>)
    requires Apply(pending, inventory) == inventory
    ensures Contradicts(pending, report) <==> Apply(pending, Apply(report, inventory)) != Apply(report, inventory)
  {
    var after := Apply(report, inventory);
    var late := Apply(pending, after);
    if Contradicts(pending, report) {
      match (pending, report) {
        case (Delta(a, r), Delta(ra, rr)) =>
          if a * (rr - ra) != {} {
            var s :| s in a * (rr - ra);
            assert s in late && s !in after;
          } else {
            var s :| s in (r - a) * ra;
            assert s !in late && s in after;
          }
        case (Delta(a, r), Replace(y)) =>
          if !(a <= y) {
            var s :| s in a && s !in y;
            assert s in late && s !in after;
          } else {
            var s :| s in (r - a) * y;
            assert s !in late && s in after;
          }
        case (Replace(x), Delta(ra, rr)) =>
          if x * (rr - ra) != {} {
            var s :| s in x * (rr - ra);
            assert s in late && s !in after;
          } else {
            var s :| s in ra && s !in x;
            assert s !in late && s in after;
          }
        case (Replace(x), Replace(y)) =>
      }
    } else {
      forall s ensures s in late <==> s in after {
        match (pending, report) {
          case (Delta(a, r), Delta(ra, rr)) =>
            assert s in inventory <==> s in inventory - r + a;
            assert s !in a * (rr - ra) && s !in (r - a) * ra;
          case (Delta(a, r), Replace(y)) => assert s !in (r - a) * y;
          case (Replace(x), Delta(ra, rr)) => assert s !in x * (rr - ra);
          case (Replace(x), Replace(y)) =>
        }
      }
    }
  }

  /** Queued behind `pending`, the report reaches a client that has it already without harm. */
  lemma ReportAfterPending(pending: Update, report: Update, inventory: set<Segment>)
    requires Apply(pending, inventory) == inventory
    ensures Apply(report, Apply(pending, Apply(report, inventory))) == Apply(report, inventory)
  {
    forall s ensures s in Apply(report, Apply(pending, Apply(report, inventory))) <==> s in Apply(report, inventory) {
      assert s in inventory <==> s in Apply(pending, inventory);
    }
  }

  // ---- What a peer reports ----

  /** The delta a peer sends when it last reported `last` and now holds `current`; nothing when they agree. */
  function ReportDelta(current: set<Segment>, last: set<Segment>): Update {
    Delta(current - last, last - current)
  }

  lemma ReportDeltaRoundTrip(current: set<Segment>, last: set<Segment>)
    ensures Apply(ReportDelta(current, last), last) == current
    ensures ReportDelta(current, last).added !! ReportDelta(current, last).removed
    ensures current == last <==> ReportDelta(current, last) == Delta({}, {})
  {
    if ReportDelta(current, last) == Delta({}, {}) {
      assert forall s :: s in current ==> s in last || s in current - last;
      assert forall s :: s in last ==> s in current || s in last - current;
    }
  }
}
