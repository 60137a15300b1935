/** Connection admission: a per-tunnel counter table and a global pool of slots, used by any number of
    concurrent requests. */
module Admission {
  import opened Bytes

  type Key = string
  type Counts = map<Key, nat>

  function CountOf(counts: Counts, key: Key): nat {
    if key in counts then counts[key] else 0
  }

  /** Taking a tunnel permit. The entry is created before the limit is compared. */
  function Acquired(counts: Counts, key: Key, limit: nat): (Counts, bool) {
    var count := CountOf(counts, key);
    if count >= limit then (counts[key := count], false) else (counts[key := count + 1], true)
  }

  /** Dropping a tunnel permit. */
  function Released(counts: Counts, key: Key): Counts {
    if key !in counts then counts
    else if counts[key] <= 1 then counts - {key}
    else counts[key := counts[key] - 1]
  }

  class ConnectionCounts {
    var counts: Counts

    constructor ()
      ensures counts == map[]
    {
      counts := map[];
    }

    method Acquire(key: Key, limit: nat) returns (admitted: bool)
      modifies this
      ensures (counts, admitted) == Acquired(old(counts), key, limit)
    {
      if key !in counts {
        counts := counts[key := 0];
      }
      assert counts == old(counts)[key := CountOf(old(counts), key)];
      if counts[key] >= limit {
        return false;
      }
      counts := counts[key := counts[key] + 1];
      assert counts == old(counts)[key := CountOf(old(counts), key) + 1];
      admitted := true;
    }

    method Release(key: Key)
      modifies this
      ensures counts == Released(old(counts), key)
    {
      if key in counts {
        var left := if counts[key] == 0 then 0 else counts[key] - 1;
        counts := counts[key := left];
        if left == 0 {
          counts := counts - {key};
        }
      }
    }
  }

  // ---------- requests and their steps ----------

  datatype Stage =
    | New
    | Counted(key: Key)      // tunnel permit taken, slot not yet tried
    | Refused(key: Key)      // no slot; tunnel permit about to be dropped
    | Pending(key: Key)      // both taken, waiting for the upgrade
    | Serving(key: Key)
    | SlotOnly(key: Key)     // tunnel permit already dropped
    | CountOnly(key: Key)    // slot already dropped
    | Done(admitted: bool)

  datatype Gate = Gate(limit: nat, slots: nat, counts: Counts, used: nat, requests: seq<Stage>)

  datatype Step =
    | Arrive
    | Acquire(i: nat, key: Key)
    | TrySlot(i: nat)
    | Upgrade(i: nat)
    | Abandon(i: nat, countFirst: bool) // the upgrade never happens; the order of the drops is left open
    | Close(i: nat)
    | DropCount(i: nat)
    | DropSlot(i: nat)

  function AtLeastOne(n: nat): nat {
    if n == 0 then 1 else n
  }

  function Init(perTunnel: nat, connections: nat): Gate {
    Gate(AtLeastOne(perTunnel), AtLeastOne(connections), map[], 0, [])
  }

  function Move(g: Gate, i: nat, stage: Stage): Gate
    requires i < |g.requests|
  {
    g.(requests := g.requests[i := stage])
  }

  function Next(g: Gate, step: Step): Gate {
    if step.Arrive? then g.(requests := g.requests + [New])
    else if step.i >= |g.requests| then g
    else
      var i, stage := step.i, g.requests[step.i];
      match (step, stage)
      case (Acquire(_, key), New) =>
        var (counts, admitted) := Acquired(g.counts, key, g.limit);
        Move(g.(counts := counts), i, if admitted then Counted(key) else Done(false))
      case (TrySlot(_), Counted(key)) =>
        if g.used < g.slots then Move(g.(used := g.used + 1), i, Pending(key)) else Move(g, i, Refused(key))
      case (Upgrade(_), Pending(key)) => Move(g, i, Serving(key))
      case (Abandon(_, countFirst), Pending(key)) =>
        if countFirst then Move(g.(counts := Released(g.counts, key)), i, SlotOnly(key))
        else Move(g.(used := if g.used == 0 then 0 else g.used - 1), i, CountOnly(key))
      case (Close(_), Serving(key)) => Move(g.(counts := Released(g.counts, key)), i, SlotOnly(key))
      case (DropCount(_), Refused(key)) => Move(g.(counts := Released(g.counts, key)), i, Done(false))
      case (DropCount(_), CountOnly(key)) => Move(g.(counts := Released(g.counts, key)), i, Done(true))
      case (DropSlot(_), SlotOnly(key)) => Move(g.(used := if g.used == 0 then 0 else g.used - 1), i, Done(true))
      case _ => g
  }

  function Exec(g: Gate, steps: seq<Step>): Gate {
    if steps == [] then g else Next(Exec(g, steps[..|steps| - 1]), steps[|steps| - 1])
  }

  // ---------- who holds what ----------

  predicate HasCount(stage: Stage) {
    stage.Counted? || stage.Refused? || stage.Pending? || stage.Serving? || stage.CountOnly?
  }

  function HoldsCountOf(key: Key): Stage -> nat {
    (stage: Stage) => if HasCount(stage) && stage.key == key then 1 else 0
  }

  function HoldsCount(stage: Stage): nat {
    if HasCount(stage) then 1 else 0
  }

  function HoldsSlot(stage: Stage): nat {
    if stage.Pending? || stage.Serving? || stage.SlotOnly? then 1 else 0
  }

  /** Holding a tunnel permit without a slot: between the two acquires, or between the two releases. */
  function CountWithoutSlot(stage: Stage): nat {
    if stage.Counted? || stage.Refused? || stage.CountOnly? then 1 else 0
  }

  function SlotWithoutCount(stage: Stage): nat {
    if stage.SlotOnly? then 1 else 0
  }

  ghost function Total(counts: Counts): nat {
    if counts == map[] then 0
    else
      var key :| key in counts;
      counts[key] + Total(counts - {key})
  }

  ghost predicate Inv(g: Gate) {
    && (forall key :: CountOf(g.counts, key) == Sum(HoldsCountOf(key), g.requests))
    && (forall key :: key in g.counts ==> 0 < g.counts[key] <= g.limit)
    && Total(g.counts) == Sum(HoldsCount, g.requests)
    && g.used == Sum(HoldsSlot, g.requests)
    && g.used <= g.slots
    && g.limit > 0
  }

  // ---------- the total of a counter table ----------

  lemma {:induction false} TotalWithout(counts: Counts, key: Key)
    requires key in counts
    ensures Total(counts) == counts[key] + Total(counts - {key})
    decreases |counts|
  {
    var first :| first in counts && Total(counts) == counts[first] + Total(counts - {first});
    if first != key {
      TotalWithout(counts - {first}, key);
      TotalWithout(counts - {key}, first);
      assert counts - {first} - {key} == counts - {key} - {first};
    }
  }

  lemma TotalAfterSet(counts: Counts, key: Key, n: nat)
    ensures Total(counts[key := n]) + CountOf(counts, key) == Total(counts) + n
  {
    var after := counts[key := n];
    TotalWithout(after, key);
    assert after - {key} == counts - {key};
    if key in counts {
      TotalWithout(counts, key);
    } else {
      assert counts - {key} == counts;
    }
  }

  lemma TotalAfterRelease(counts: Counts, key: Key)
    requires key in counts && counts[key] > 0
    ensures Total(Released(counts, key)) + 1 == Total(counts)
  {
    if counts[key] == 1 {
      TotalWithout(counts, key);
    } else {
      TotalAfterSet(counts, key, counts[key] - 1);
    }
  }

  lemma CountAfterRelease(counts: Counts, key: Key, k: Key)
    requires key in counts && counts[key] > 0
    ensures CountOf(Released(counts, key), k) == CountOf(counts, k) - (if k == key then 1 else 0)
  {
  }

  // ---------- every step keeps it ----------

  lemma SumsAfterMove(requests: seq<Stage>, i: nat, stage: Stage)
    requires i < |requests|
    ensures var after := requests[i := stage];
            && Sum(HoldsCount, after) + HoldsCount(requests[i]) == Sum(HoldsCount, requests) + HoldsCount(stage)
            && Sum(HoldsSlot, after) + HoldsSlot(requests[i]) == Sum(HoldsSlot, requests) + HoldsSlot(stage)
            && forall key :: Sum(HoldsCountOf(key), after) + HoldsCountOf(key)(requests[i])
                          == Sum(HoldsCountOf(key), requests) + HoldsCountOf(key)(stage)
  {
    SumUpdate(HoldsCount, requests, i, stage);
    SumUpdate(HoldsSlot, requests, i, stage);
    forall key {
      SumUpdate(HoldsCountOf(key), requests, i, stage);
    }
  }

  lemma MoveKeepsInv(g: Gate, i: nat, stage: Stage, counts: Counts, used: nat)
    requires Inv(g) && i < |g.requests|
    requires forall key :: CountOf(counts, key) + HoldsCountOf(key)(g.requests[i])
                        == CountOf(g.counts, key) + HoldsCountOf(key)(stage)
    requires forall key :: key in counts ==> 0 < counts[key] <= g.limit
    requires Total(counts) + HoldsCount(g.requests[i]) == Total(g.counts) + HoldsCount(stage)
    requires used + HoldsSlot(g.requests[i]) == g.used + HoldsSlot(stage)
    requires used <= g.slots
    ensures Inv(Move(g.(counts := counts, used := used), i, stage))
  {
    SumsAfterMove(g.requests, i, stage);
  }

  /** A request that holds a permit is counted, so a release never underflows. */
  lemma HolderIsCounted(g: Gate, i: nat)
    requires Inv(g) && i < |g.requests|
    ensures HasCount(g.requests[i]) ==> g.requests[i].key in g.counts
    ensures HoldsSlot(g.requests[i]) <= g.used
  {
    if HasCount(g.requests[i]) {
      SumAtLeast(HoldsCountOf(g.requests[i].key), g.requests, i);
    }
    SumAtLeast(HoldsSlot, g.requests, i);
  }

  lemma AcquireKeepsInv(g: Gate, i: nat, key: Key)
    requires Inv(g) && i < |g.requests| && g.requests[i].New?
    ensures Inv(Next(g, Acquire(i, key)))
  {
    var (counts, admitted) := Acquired(g.counts, key, g.limit);
    if admitted {
      TotalAfterSet(g.counts, key, CountOf(g.counts, key) + 1);
      MoveKeepsInv(g, i, Counted(key), counts, g.used);
    } else {
      assert key in g.counts && counts == g.counts;
      MoveKeepsInv(g, i, Done(false), counts, g.used);
    }
  }

  lemma ReleaseKeepsInv(g: Gate, i: nat, stage: Stage)
    requires Inv(g) && i < |g.requests| && HasCount(g.requests[i])
    requires !HasCount(stage) && HoldsSlot(stage) == HoldsSlot(g.requests[i])
    ensures Inv(Move(g.(counts := Released(g.counts, g.requests[i].key)), i, stage))
  {
    var held := g.requests[i].key;
    HolderIsCounted(g, i);
    TotalAfterRelease(g.counts, held);
    forall key
      ensures CountOf(Released(g.counts, held), key) + HoldsCountOf(key)(g.requests[i])
           == CountOf(g.counts, key) + HoldsCountOf(key)(stage)
    {
      CountAfterRelease(g.counts, held, key);
    }
    MoveKeepsInv(g, i, stage, Released(g.counts, g.requests[i].key), g.used);
  }

  lemma StepKeepsInv(g: Gate, step: Step)
    requires Inv(g)
    ensures Inv(Next(g, step))
  {
    if step.Arrive? {
      ArriveKeepsInv(g);
    } else if step.i < |g.requests| {
      var i := step.i;
      HolderIsCounted(g, i);
      match (step, g.requests[i])
      case (Acquire(_, key), New) => AcquireKeepsInv(g, i, key);
      case (TrySlot(_), Counted(key)) =>
        if g.used < g.slots {
          MoveKeepsInv(g, i, Pending(key), g.counts, g.used + 1);
        } else {
          MoveKeepsInv(g, i, Refused(key), g.counts, g.used);
        }
      case (Upgrade(_), Pending(key)) => MoveKeepsInv(g, i, Serving(key), g.counts, g.used);
      case (Abandon(_, countFirst), Pending(key)) =>
        if countFirst {
          ReleaseKeepsInv(g, i, SlotOnly(key));
        } else {
          MoveKeepsInv(g, i, CountOnly(key), g.counts, g.used - 1);
        }
      case (Close(_), Serving(key)) => ReleaseKeepsInv(g, i, SlotOnly(key));
      case (DropCount(_), Refused(key)) => ReleaseKeepsInv(g, i, Done(false));
      case (DropCount(_), CountOnly(key)) => ReleaseKeepsInv(g, i, Done(true));
      case (DropSlot(_), SlotOnly(key)) => MoveKeepsInv(g, i, Done(true), g.counts, g.used - 1);
      case _ =>
    }
  }

  lemma ArriveKeepsInv(g: Gate)
    requires Inv(g)
    ensures Inv(Next(g, Arrive))
  {
  }

  lemma {:induction false} RunsKeepInv(perTunnel: nat, connections: nat, steps: seq<Step>)
    ensures Inv(Exec(Init(perTunnel, connections), steps))
  {
    if steps != [] {
      RunsKeepInv(perTunnel, connections, steps[..|steps| - 1]);
      StepKeepsInv(Exec(Init(perTunnel, connections), steps[..|steps| - 1]), steps[|steps| - 1]);
    }
  }

  lemma {:induction false} LimitsFixed(g: Gate, steps: seq<Step>)
    ensures Exec(g, steps).limit == g.limit && Exec(g, steps).slots == g.slots
  {
    if steps != [] {
      LimitsFixed(g, steps[..|steps| - 1]);
    }
  }

  lemma {:induction false} SumsBalance(requests: seq<Stage>)
    ensures Sum(HoldsCount, requests) + Sum(SlotWithoutCount, requests)
         == Sum(HoldsSlot, requests) + Sum(CountWithoutSlot, requests)
  {
    if requests != [] {
      SumsBalance(requests[..|requests| - 1]);
    }
  }

  // ---------- results ----------

  /** At every moment of every interleaving: each counter is the number of live permits of its tunnel,
      within its limit and never zero; the slots in use are within theirs; and the two bookkeepings
      differ exactly by the requests that hold one of the two. */
  lemma CountersAgree(perTunnel: nat, connections: nat, steps: seq<Step>, key: Key)
    ensures var g := Exec(Init(perTunnel, connections), steps);
            && CountOf(g.counts, key) == Sum(HoldsCountOf(key), g.requests)
            && CountOf(g.counts, key) <= (if perTunnel == 0 then 1 else perTunnel)
            && (key in g.counts ==> g.counts[key] > 0)
            && g.used == Sum(HoldsSlot, g.requests) <= (if connections == 0 then 1 else connections)
            && Total(g.counts) + Sum(SlotWithoutCount, g.requests) == g.used + Sum(CountWithoutSlot, g.requests)
  {
    RunsKeepInv(perTunnel, connections, steps);
    LimitsFixed(Init(perTunnel, connections), steps);
    SumsBalance(Exec(Init(perTunnel, connections), steps).requests);
  }

  /** A request is turned away at the tunnel limit exactly when that many permits are live, and at the
      connection limit exactly when every slot is in use. */
  lemma RejectionsAreExact(perTunnel: nat, connections: nat, steps: seq<Step>, i: nat, key: Key)
    requires i < |Exec(Init(perTunnel, connections), steps).requests|
    ensures var g := Exec(Init(perTunnel, connections), steps);
            && (g.requests[i].New? ==>
                  (Next(g, Acquire(i, key)).requests[i] == Done(false)
                   <==> Sum(HoldsCountOf(key), g.requests) == if perTunnel == 0 then 1 else perTunnel))
            && (g.requests[i].Counted? ==>
                  (Next(g, TrySlot(i)).requests[i].Refused?
                   <==> Sum(HoldsSlot, g.requests) == if connections == 0 then 1 else connections))
  {
    RunsKeepInv(perTunnel, connections, steps);
    LimitsFixed(Init(perTunnel, connections), steps);
    var g := Exec(Init(perTunnel, connections), steps);
    assert CountOf(g.counts, key) == Sum(HoldsCountOf(key), g.requests);
  }

  /** Nothing leaks: once every request is over, the table is empty and every slot is free. */
  lemma NothingLeaks(perTunnel: nat, connections: nat, steps: seq<Step>)
    requires forall stage :: stage in Exec(Init(perTunnel, connections), steps).requests ==> stage.Done?
    ensures var g := Exec(Init(perTunnel, connections), steps); g.counts == map[] && g.used == 0
  {
    RunsKeepInv(perTunnel, connections, steps);
    var g := Exec(Init(perTunnel, connections), steps);
    SumZero(HoldsSlot, g.requests);
    forall key
      ensures key !in g.counts
    {
      SumZero(HoldsCountOf(key), g.requests);
      assert CountOf(g.counts, key) == 0;
    }
    assert g.counts.Keys == {};
  }

  /** Steps a request still has before it at most. */
  function StepsLeft(stage: Stage): nat {
    match stage
    case New => 5
    case Counted(_) => 4
    case Pending(_) => 3
    case Serving(_) => 2
    case Done(_) => 0
    case _ => 1
  }

  lemma StepUsesOne(g: Gate, step: Step)
    requires !step.Arrive? && Next(g, step) != g
    ensures Sum(StepsLeft, Next(g, step).requests) < Sum(StepsLeft, g.requests)
  {
    var i := step.i;
    var stage := Next(g, step).requests[i];
    assert Next(g, step).requests == g.requests[i := stage];
    SumUpdate(StepsLeft, g.requests, i, stage);
  }

  /** The next step of a request; `comes` is whether a pending upgrade comes through, `countFirst` the order of
      the drops if it does not. */
  function NextStep(stage: Stage, i: nat, key: Key, comes: bool, countFirst: bool): Step {
    match stage
    case New => Acquire(i, key)
    case Counted(_) => TrySlot(i)
    case Pending(_) => if comes then Upgrade(i) else Abandon(i, countFirst)
    case Serving(_) => Close(i)
    case SlotOnly(_) => DropSlot(i)
    case _ => DropCount(i)
  }

  lemma UnfinishedMoves(g: Gate, i: nat, key: Key, comes: bool, countFirst: bool)
    requires i < |g.requests| && !g.requests[i].Done?
    ensures Next(g, NextStep(g.requests[i], i, key, comes, countFirst)) != g
  {
    assert Next(g, NextStep(g.requests[i], i, key, comes, countFirst)).requests[i] != g.requests[i];
  }

  predicate Waiting(g: Gate, key: Key, comes: bool, countFirst: bool) {
    forall i :: 0 <= i < |g.requests| && !g.requests[i].Done? ==>
      Next(g, NextStep(g.requests[i], i, key, comes, countFirst)) == g
  }

  /** No request waits for another: whatever the others do, and whether upgrades come through or are abandoned,
      every unfinished one can take its next step, and each step taken brings the end nearer. Where none is left,
      all permits and slots are back. */
  lemma EveryRequestEnds(perTunnel: nat, connections: nat, steps: seq<Step>, key: Key, comes: bool,
                         countFirst: bool, step: Step)
    ensures var g := Exec(Init(perTunnel, connections), steps);
            && (!step.Arrive? && Next(g, step) != g ==> Sum(StepsLeft, Next(g, step).requests) < Sum(StepsLeft, g.requests))
            && (Waiting(g, key, comes, countFirst) ==> g.counts == map[] && g.used == 0)
  {
    var g := Exec(Init(perTunnel, connections), steps);
    if !step.Arrive? && Next(g, step) != g {
      StepUsesOne(g, step);
    }
    if Waiting(g, key, comes, countFirst) {
      forall i | 0 <= i < |g.requests|
        ensures g.requests[i].Done?
      {
        if !g.requests[i].Done? {
          UnfinishedMoves(g, i, key, comes, countFirst);
        }
      }
      NothingLeaks(perTunnel, connections, steps);
    }
  }

  /** The limit is raised to one for a reason: at limit zero a rejection would leave a zero entry behind. */
  lemma LimitZeroLeavesEntry(key: Key)
    ensures Acquired(map[], key, 0) == (map[key := 0], false)
    ensures forall counts: Counts, limit: nat :: limit > 0 && !Acquired(counts, key, limit).1 ==>
              Acquired(counts, key, limit).0 == counts
  {
  }
}
