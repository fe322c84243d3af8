/** The writer lease and the broker's calls under it, as the atomic steps that any threads may take
    in any order. Each step is what one thread does while it holds the lease's or the broker's
    condition variable; waiting gives the variable up. */
module WriterLease {

  type Thread = nat

  function Depth(depths: map<Thread, nat>, t: Thread): nat {
    if t in depths then depths[t] else 0
  }

  function Inside(depths: map<Thread, nat>): set<Thread> {
    set t | t in depths && depths[t] > 0
  }

  datatype Step =
    | LookStep(t: Thread)
    | AdmitStep(t: Thread)
    | NestStep(t: Thread)
    | LeaveStep(t: Thread)
    | BeginCloseStep(t: Thread)
    | FinishCloseStep(t: Thread)

  /** What a moment of a schedule shows. */
  datatype Moment = Moment(closing: bool, closed: bool, active: nat, inside: set<Thread>)

  /** The active count is the number of threads inside; a closed lease has none; once closing begins
      it goes on, and nobody comes in. */
  ghost predicate Orderly(trace: seq<Moment>) {
    && (forall i :: 0 <= i < |trace| ==>
          && trace[i].active == |trace[i].inside|
          && (trace[i].closed ==> trace[i].closing && trace[i].inside == {}))
    && (forall i, j :: 0 <= i <= j < |trace| && trace[i].closing ==>
          trace[j].closing && trace[j].inside <= trace[i].inside)
    && (forall i, j :: 0 <= i <= j < |trace| && trace[i].closed ==> trace[j].closed)
  }

  class Lease {
    var closed: bool
    var closing: bool
    var active: nat
    /** How deep each thread is in operations. */
    var depths: map<Thread, nat>
    /** Threads that found the lease open and have not been admitted yet. */
    var looked: set<Thread>
    /** Threads that wait for the lease to drain. */
    var waiting: set<Thread>

    ghost predicate Valid()
      reads this
    {
      && active == |Inside(depths)|
      && (closed ==> closing && active == 0)
      && (forall t :: t in looked + waiting ==> Depth(depths, t) == 0)
      && (waiting != {} ==> closing)
      && looked !! waiting
    }

    /** What no step undoes. */
    twostate predicate Drains()
      reads this
    {
      && (old(closing) ==> closing && Inside(depths) <= old(Inside(depths)))
      && (old(closed) ==> closed)
    }

    constructor ()
      ensures Valid() && !closed && !closing && depths == map[] && looked == {} && waiting == {}
    {
      closed, closing, active, depths, looked, waiting := false, false, 0, map[], {}, {};
    }

    /** The beginning of an operation: without the variable, a thread reads whether the lease is
        closed. A thread that is inside never finds it closed. */
    method Look(t: Thread) returns (open: bool)
      requires Valid() && t !in waiting
      modifies this`looked
      ensures Valid() && open == !closed
      ensures Depth(depths, t) > 0 ==> open
      ensures looked == if open && Depth(depths, t) == 0 then old(looked) + {t} else old(looked)
    {
      if t in depths && depths[t] > 0 {
        assert t in Inside(depths);
      }
      open := !closed;
      if open && !(t in depths && depths[t] > 0) {
        looked := looked + {t};
      }
    }

    /** An outermost operation enters unless the lease is closing. */
    method Admit(t: Thread) returns (admitted: bool)
      requires Valid() && t in looked
      modifies this
      ensures Valid() && Drains() && admitted == !old(closing)
      ensures closed == old(closed) && closing == old(closing) && waiting == old(waiting) && looked == old(looked) - {t}
      ensures depths == if admitted then old(depths)[t := 1] else old(depths)
    {
      assert t in looked + waiting;
      looked := looked - {t};
      admitted := !closing;
      if admitted {
        assert Inside(depths[t := 1]) == Inside(depths) + {t} && t !in Inside(depths);
        active := active + 1;
        depths := depths[t := 1];
      }
    }

    /** A nested operation always enters, also while the lease is closing. */
    method Nest(t: Thread)
      requires Valid() && Depth(depths, t) > 0
      modifies this`depths
      ensures Valid() && Drains() && depths == old(depths)[t := old(depths)[t] + 1]
    {
      assert Inside(depths[t := depths[t] + 1]) == Inside(depths);
      depths := depths[t := depths[t] + 1];
    }

    method Leave(t: Thread)
      requires Valid() && Depth(depths, t) > 0
      modifies this`depths, this`active
      ensures Valid() && Drains() && depths == old(depths)[t := old(depths)[t] - 1]
    {
      var left := depths[t := depths[t] - 1];
      if depths[t] == 1 {
        assert Inside(left) == Inside(depths) - {t} && t in Inside(depths);
        active := active - 1;
      } else {
        assert Inside(left) == Inside(depths);
      }
      depths := left;
    }

    /** A close begins, unless its thread is inside an operation. */
    method BeginClose(t: Thread) returns (waits: bool)
      requires Valid() && t !in looked
      modifies this`closing, this`waiting
      ensures Valid() && Drains() && waits == (!closed && Depth(depths, t) == 0)
      ensures if waits then closing && waiting == old(waiting) + {t} else closing == old(closing) && waiting == old(waiting)
    {
      waits := !closed && !(t in depths && depths[t] > 0);
      if waits {
        closing, waiting := true, waiting + {t};
      }
    }

    /** A waiting close ends once nobody is inside. */
    method FinishClose(t: Thread) returns (done: bool)
      requires Valid() && t in waiting
      modifies this`closed, this`waiting
      ensures Valid() && Drains() && done == (Inside(depths) == {})
      ensures if done then closed && waiting == old(waiting) - {t} else closed == old(closed) && waiting == old(waiting)
    {
      done := active == 0;
      if done {
        closed, waiting := true, waiting - {t};
      }
    }

    // ----- Any schedule

    ghost function Now(): Moment
      reads this
    {
      Moment(closing, closed, active, Inside(depths))
    }

    /** A step, if its thread is where the step begins. */
    method Take(step: Step)
      requires Valid()
      modifies this
      ensures Valid() && Drains()
    {
      match step {
        case LookStep(t) => if t !in waiting { var open := Look(t); }
        case AdmitStep(t) => if t in looked { var admitted := Admit(t); }
        case NestStep(t) => if t in depths && depths[t] > 0 { Nest(t); }
        case LeaveStep(t) => if t in depths && depths[t] > 0 { Leave(t); }
        case BeginCloseStep(t) => if t !in looked { var waits := BeginClose(t); }
        case FinishCloseStep(t) => if t in waiting { var done := FinishClose(t); }
      }
    }

    /** Whatever the threads do in whatever order, the lease is orderly. */
    method Run(schedule: seq<Step>) returns (ghost trace: seq<Moment>)
      requires Valid()
      modifies this
      ensures Valid() && |trace| == |schedule| + 1 && Orderly(trace)
      ensures trace[0] == old(Now()) && trace[|schedule|] == Now()
    {
      trace := [Now()];
      for i := 0 to |schedule|
        invariant Valid() && |trace| == i + 1 && trace[0] == old(Now()) && trace[i] == Now() && Orderly(trace)
      {
        Take(schedule[i]);
        TraceGrows(trace, Now());
        trace := trace + [Now()];
      }
    }

    // ----- Closing ends

    /** A thread leaves all its operations. */
    method LeaveAll(t: Thread)
      requires Valid()
      modifies this`depths, this`active
      ensures Valid() && Drains() && Inside(depths) == old(Inside(depths)) - {t}
      ensures closing == old(closing)
    {
      while t in depths && depths[t] > 0
        invariant Valid() && Drains()
        invariant Inside(depths) - {t} == old(Inside(depths)) - {t} && Inside(depths) <= old(Inside(depths))
        decreases Depth(depths, t)
      {
        ghost var before := depths;
        Leave(t);
        assert forall u :: u != t ==> (u in Inside(depths) <==> u in Inside(before));
      }
    }

    /** While a close waits, every thread inside can leave, and when they have, in any order, the
        close ends: it waits for nothing else. */
    method Drain(t: Thread)
      requires Valid() && t in waiting
      modifies this
      ensures Valid() && closed && Inside(depths) == {}
    {
      var rest := set u | u in depths && depths[u] > 0;
      while rest != {}
        invariant Valid() && t in waiting && rest == Inside(depths)
        decreases |rest|
      {
        var u :| u in rest;
        LeaveAll(u);
        rest := rest - {u};
      }
      var done := FinishClose(t);
    }
  }

  /** One moment more, reached by a step. */
  lemma TraceGrows(trace: seq<Moment>, next: Moment)
    requires trace != [] && Orderly(trace)
    requires next.active == |next.inside| && (next.closed ==> next.closing && next.inside == {})
    requires
      var last := trace[|trace| - 1];
      && (last.closing ==> next.closing && next.inside <= last.inside)
      && (last.closed ==> next.closed)
    ensures Orderly(trace + [next])
  {
    var more := trace + [next];
    forall i, j | 0 <= i <= j < |more| && more[i].closing
      ensures more[j].closing && more[j].inside <= more[i].inside
    {
      if j == |trace| && i < |trace| {
        assert trace[|trace| - 1].closing && trace[|trace| - 1].inside <= trace[i].inside;
      }
    }
    forall i, j | 0 <= i <= j < |more| && more[i].closed
      ensures more[j].closed
    {
      if j == |trace| && i < |trace| {
        assert trace[|trace| - 1].closed;
      }
    }
  }

  // ----- The broker's calls

  datatype GateStep =
    | CallBegins(t: Thread)
    | LooksIn(t: Thread)
    | ComesIn(t: Thread)
    | Nests(t: Thread)
    | Leaves(t: Thread)
    | CallEnds(t: Thread)
    | CloseBegins(t: Thread)
    | CloseEnds(t: Thread)

  /** What a moment of a schedule of calls shows. */
  datatype GateMoment = GateMoment(closing: bool, closed: bool, callers: set<Thread>, lease: Moment)

  /** Operations run in calls; the lease closes only once no call is left; once closing begins it goes
      on, and nobody calls who did not. */
  ghost predicate WellGated(trace: seq<GateMoment>) {
    && (forall i :: 0 <= i < |trace| ==>
          && trace[i].lease.inside <= trace[i].callers
          && (trace[i].lease.closing ==> trace[i].closing && trace[i].callers == {})
          && (trace[i].closed ==> trace[i].closing && trace[i].callers == {} && trace[i].lease.closed))
    && (forall i, j :: 0 <= i <= j < |trace| && trace[i].closing ==>
          trace[j].closing && trace[j].callers <= trace[i].callers)
    && (forall i, j :: 0 <= i <= j < |trace| && trace[i].closed ==> trace[j].closed)
  }

  lemma GateTraceGrows(trace: seq<GateMoment>, next: GateMoment)
    requires trace != [] && WellGated(trace)
    requires next.lease.inside <= next.callers && (next.lease.closing ==> next.closing && next.callers == {})
    requires next.closed ==> next.closing && next.callers == {} && next.lease.closed
    requires
      var last := trace[|trace| - 1];
      && (last.closing ==> next.closing && next.callers <= last.callers)
      && (last.closed ==> next.closed)
    ensures WellGated(trace + [next])
  {
    var more := trace + [next];
    forall i, j | 0 <= i <= j < |more| && more[i].closing
      ensures more[j].closing && more[j].callers <= more[i].callers
    {
      if j == |trace| && i < |trace| {
        assert trace[|trace| - 1].closing && trace[|trace| - 1].callers <= trace[i].callers;
      }
    }
    forall i, j | 0 <= i <= j < |more| && more[i].closed
      ensures more[j].closed
    {
      if j == |trace| && i < |trace| {
        assert trace[|trace| - 1].closed;
      }
    }
  }

  lemma OneDeeper(before: map<Thread, nat>, after: map<Thread, nat>, counts: map<Thread, nat>, t: Thread)
    requires forall u :: Depth(before, u) <= Depth(counts, u)
    requires after == before[t := Depth(before, t) + 1] && Depth(before, t) < Depth(counts, t)
    ensures forall u :: Depth(after, u) <= Depth(counts, u)
  {
    forall u ensures Depth(after, u) <= Depth(counts, u) {
      assert u != t ==> Depth(after, u) == Depth(before, u);
    }
  }

  /** The broker counts its calls, and each runs in an operation of the broker's own lease. */
  class CallGate {
    const lease: Lease
    var closed: bool
    var closing: bool
    /** The calls of each thread that has any. */
    var counts: map<Thread, nat>

    ghost predicate Valid()
      reads this, lease
    {
      && lease.Valid() && lease.waiting == {}
      && (forall t :: t in counts ==> counts[t] > 0)
      && (forall t :: Depth(lease.depths, t) <= Depth(counts, t))
      && (forall t :: t in lease.looked ==> t in counts)
      && (closed ==> closing && counts == map[] && lease.closed)
      && (lease.closing ==> closing && counts == map[])
    }

    /** What no step undoes. */
    twostate predicate Empties()
      reads this
    {
      && (old(closing) ==> closing && counts.Keys <= old(counts.Keys))
      && (old(closed) ==> closed)
    }

    constructor ()
      ensures Valid() && fresh(lease) && !closed && !closing && counts == map[]
    {
      lease := new Lease();
      closed, closing, counts := false, false, map[];
    }

    /** A call begins: refused once closing began, unless its thread has another call running. */
    method BeginCall(t: Thread) returns (admitted: bool)
      requires Valid()
      modifies this`counts
      ensures Valid() && Empties()
      ensures admitted == (!closed && (!closing || t in old(counts)))
      ensures counts == if admitted then old(counts)[t := Depth(old(counts), t) + 1] else old(counts)
    {
      admitted := !closed && (!closing || t in counts);
      if admitted {
        counts := counts[t := Depth(counts, t) + 1];
      }
    }

    /** A call begins an operation of the lease: it never finds the lease closed. */
    method LookIn(t: Thread) returns (open: bool)
      requires Valid() && Depth(lease.depths, t) < Depth(counts, t)
      modifies lease`looked
      ensures Valid() && open && !lease.closing
      ensures lease.looked == if Depth(lease.depths, t) == 0 then old(lease.looked) + {t} else old(lease.looked)
    {
      assert t in counts;
      open := lease.Look(t);
    }

    /** And whatever others did since then, it is let in. */
    method ComeIn(t: Thread) returns (admitted: bool)
      requires Valid() && t in lease.looked
      modifies lease
      ensures Valid() && admitted && !lease.closing && lease.depths == old(lease.depths)[t := 1]
    {
      ghost var before := lease.depths;
      assert t in counts && t in lease.looked + lease.waiting;
      admitted := lease.Admit(t);
      OneDeeper(before, lease.depths, counts, t);
    }

    method NestIn(t: Thread)
      requires Valid() && 0 < Depth(lease.depths, t) < Depth(counts, t)
      modifies lease`depths
      ensures Valid() && lease.depths == old(lease.depths)[t := old(lease.depths)[t] + 1]
    {
      ghost var before := lease.depths;
      lease.Nest(t);
      OneDeeper(before, lease.depths, counts, t);
    }

    method LeaveOperation(t: Thread)
      requires Valid() && Depth(lease.depths, t) > 0
      modifies lease`depths, lease`active
      ensures Valid() && lease.depths == old(lease.depths)[t := old(lease.depths)[t] - 1]
    {
      lease.Leave(t);
    }

    /** A call ends, behind its operation. */
    method EndCall(t: Thread)
      requires Valid() && Depth(lease.depths, t) < Depth(counts, t) && t !in lease.looked
      modifies this`counts
      ensures Valid() && Empties()
      ensures counts == if old(counts)[t] == 1 then old(counts) - {t} else old(counts)[t := old(counts)[t] - 1]
    {
      counts := if counts[t] == 1 then counts - {t} else counts[t := counts[t] - 1];
    }

    /** A close begins, unless its thread has a call running. */
    method BeginClose(t: Thread) returns (waits: bool)
      requires Valid()
      modifies this`closing
      ensures Valid() && Empties() && waits == (!closed && t !in counts) && closing == (old(closing) || waits)
    {
      waits := !closed && t !in counts;
      closing := closing || waits;
    }

    /** Once no call is left the lease has nothing to drain: closing it never waits. */
    method FinishClose(t: Thread) returns (done: bool)
      requires Valid() && closing
      modifies this`closed, lease
      ensures Valid() && Empties() && done == (counts == map[])
      ensures if done then closed && lease.closed else closed == old(closed)
    {
      done := counts == map[];
      if done {
        assert Inside(lease.depths) == {} by {
          forall u | u in lease.depths
            ensures lease.depths[u] == 0
          {
            assert Depth(lease.depths, u) <= Depth(counts, u);
          }
        }
        var waits := lease.BeginClose(t);
        if waits {
          var drained := lease.FinishClose(t);
        }
        closed := true;
      }
    }

    // ----- Any schedule of calls

    ghost function Now(): GateMoment
      reads this, lease
    {
      GateMoment(closing, closed, counts.Keys, lease.Now())
    }

    /** A step, if its thread is where the step begins. */
    method Take(step: GateStep)
      requires Valid()
      modifies this, lease
      ensures Valid() && Empties()
    {
      match step {
        case CallBegins(t) => var admitted := BeginCall(t);
        case LooksIn(t) => if Depth(lease.depths, t) < Depth(counts, t) { var open := LookIn(t); }
        case ComesIn(t) => if t in lease.looked { var admitted := ComeIn(t); }
        case Nests(t) => if 0 < Depth(lease.depths, t) < Depth(counts, t) { NestIn(t); }
        case Leaves(t) => if Depth(lease.depths, t) > 0 { LeaveOperation(t); }
        case CallEnds(t) => if Depth(lease.depths, t) < Depth(counts, t) && t !in lease.looked { EndCall(t); }
        case CloseBegins(t) => var waits := BeginClose(t);
        case CloseEnds(t) => if closing { var done := FinishClose(t); }
      }
    }

    lemma InsideCalls()
      requires Valid()
      ensures Inside(lease.depths) <= counts.Keys
    {
      forall t | t in Inside(lease.depths) ensures t in counts {
        assert Depth(lease.depths, t) <= Depth(counts, t);
      }
    }

    /** Whatever the threads do in whatever order, the calls are well gated. */
    method Run(schedule: seq<GateStep>) returns (ghost trace: seq<GateMoment>)
      requires Valid()
      modifies this, lease
      ensures Valid() && |trace| == |schedule| + 1 && WellGated(trace)
      ensures trace[0] == old(Now()) && trace[|schedule|] == Now()
    {
      trace := [Now()];
      InsideCalls();
      for i := 0 to |schedule|
        invariant Valid() && |trace| == i + 1 && trace[0] == old(Now()) && trace[i] == Now() && WellGated(trace)
      {
        Take(schedule[i]);
        InsideCalls();
        GateTraceGrows(trace, Now());
        trace := trace + [Now()];
      }
    }

    // ----- Closing ends

    /** A thread ends all its calls. */
    method EndCalls(t: Thread)
      requires Valid()
      modifies this`counts, lease
      ensures Valid() && counts == old(counts) - {t}
    {
      while t in counts
        invariant Valid() && counts - {t} == old(counts) - {t}
        decreases t in lease.looked, Depth(counts, t) + Depth(lease.depths, t)
      {
        if t in lease.looked {
          var admitted := ComeIn(t);
        } else if Depth(lease.depths, t) == counts[t] {
          LeaveOperation(t);
        } else {
          EndCall(t);
        }
      }
    }

    /** While a close waits every call can end, and when they have, in any order, the close ends. */
    method Drain(t: Thread)
      requires Valid() && closing
      modifies this`counts, this`closed, lease
      ensures Valid() && closed && lease.closed && counts == map[]
    {
      while counts != map[]
        invariant Valid()
        decreases |counts|
      {
        var u :| u in counts;
        ghost var before := counts;
        EndCalls(u);
        assert before == (before - {u})[u := before[u]];
      }
      var done := FinishClose(t);
    }
  }
}
