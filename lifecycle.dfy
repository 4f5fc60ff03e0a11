/** The order lifecycle shared by the three order kinds: the status vocabulary, the star-side
    transition tables (written inline, once per kind, in the three dashboard controllers) and
    the status sets the admin endpoints accept without looking at the current status. */
module Lifecycle {
  import opened Common

  datatype OrderKind = Video | Merch | Digital

  /** Every status any order table uses; `Statuses(kind)` says which belong to which kind. */
  datatype Status = Pending | Approved | Rejected | Completed | Confirmed | Shipped | Delivered | Cancelled

  /** The status as stored in the database and sent over the wire. */
  function StatusName(s: Status): string
  {
    match s
    case Pending => "pending"
    case Approved => "approved"
    case Rejected => "rejected"
    case Completed => "completed"
    case Confirmed => "confirmed"
    case Shipped => "shipped"
    case Delivered => "delivered"
    case Cancelled => "cancelled"
  }

  /** Reads a status out of a request body; anything but the eight names is no status. */
  function ParseStatus(t: string): (r: Option<Status>)
    ensures forall s :: StatusName(s) == t <==> r == Some(s)
  {
    if t == "pending" then Some(Pending)
    else if t == "approved" then Some(Approved)
    else if t == "rejected" then Some(Rejected)
    else if t == "completed" then Some(Completed)
    else if t == "confirmed" then Some(Confirmed)
    else if t == "shipped" then Some(Shipped)
    else if t == "delivered" then Some(Delivered)
    else if t == "cancelled" then Some(Cancelled)
    else None
  }

  /** The statuses a row of each kind may hold: the `validStatuses` lists of the admin
      controllers. */
  function Statuses(kind: OrderKind): set<Status>
  {
    match kind
    case Video => {Pending, Approved, Completed, Rejected}
    case Merch => {Pending, Confirmed, Shipped, Delivered, Cancelled}
    case Digital => {Pending, Confirmed, Completed, Cancelled}
  }

  /** The `validTransitions` table of the star endpoint for `kind`, as data: the targets
      listed for `from`, and none for a status the table has no entry for. */
  function Successors(kind: OrderKind, from: Status): seq<Status>
  {
    match (kind, from)
    case (Video, Pending) => [Approved, Rejected]
    case (Video, Approved) => [Completed]
    case (Merch, Pending) => [Confirmed, Cancelled]
    case (Merch, Confirmed) => [Shipped, Cancelled]
    case (Merch, Shipped) => [Delivered]
    case (Digital, Pending) => [Confirmed, Cancelled]
    case (Digital, Confirmed) => [Completed, Cancelled]
    case _ => []
  }

  /** The one generic transition relation that the three inline tables instantiate. */
  predicate Transition(kind: OrderKind, from: Status, to: Status)
  {
    to in Successors(kind, from)
  }

  /** A status of the kind with no outgoing transition. */
  predicate Terminal(kind: OrderKind, s: Status)
  {
    s in Statuses(kind) && Successors(kind, s) == []
  }

  /** The star endpoint's guard: the requested status, or INVALID_TRANSITION naming both. */
  function CheckTransition(kind: OrderKind, from: Status, to: Status): (r: Result<Status>)
    ensures r.Ok? <==> Transition(kind, from, to)
    ensures r.Ok? ==> r.value == to
    ensures r.Err? ==> r.error == InvalidTransition(StatusName(from), StatusName(to))
  {
    if to in Successors(kind, from) then Ok(to)
    else Err(InvalidTransition(StatusName(from), StatusName(to)))
  }

  /** The admin endpoints' guard: any status of the kind, whatever the current one. */
  function AdminStatus(kind: OrderKind, requested: string): (r: Result<Status>)
    ensures r.Ok? <==> exists s :: s in Statuses(kind) && StatusName(s) == requested
    ensures r.Ok? ==> r.value in Statuses(kind) && StatusName(r.value) == requested
    ensures r.Err? ==> r.error == InvalidStatus
  {
    match ParseStatus(requested)
    case Some(s) => if s in Statuses(kind) then Ok(s) else Err(InvalidStatus)
    case None => Err(InvalidStatus)
  }

  lemma VideoTable(from: Status, to: Status)
    ensures Transition(Video, from, to) <==>
      (from == Pending && to == Approved) || (from == Pending && to == Rejected) ||
      (from == Approved && to == Completed)
  {
  }

  lemma MerchTable(from: Status, to: Status)
    ensures Transition(Merch, from, to) <==>
      (from == Pending && (to == Confirmed || to == Cancelled)) ||
      (from == Confirmed && (to == Shipped || to == Cancelled)) ||
      (from == Shipped && to == Delivered)
  {
  }

  lemma DigitalTable(from: Status, to: Status)
    ensures Transition(Digital, from, to) <==>
      (from == Pending && (to == Confirmed || to == Cancelled)) ||
      (from == Confirmed && (to == Completed || to == Cancelled))
  {
  }

  lemma TerminalStatuses(kind: OrderKind, s: Status)
    ensures Terminal(kind, s) <==>
      match kind
      case Video => s == Completed || s == Rejected
      case Merch => s == Delivered || s == Cancelled
      case Digital => s == Completed || s == Cancelled
  {
  }

  /** Every transition starts and ends inside the kind's statuses, and none leads back to
      pending. */
  lemma TransitionsWithinKind(kind: OrderKind, from: Status, to: Status)
    requires Transition(kind, from, to)
    ensures from in Statuses(kind) && to in Statuses(kind) && to != Pending
    ensures !Terminal(kind, from)
  {
  }

  /** The admin endpoints accept every move between statuses of the kind, including the
      ones the star table refuses, such as reopening a finished order. */
  lemma AdminOverridesTable(kind: OrderKind, from: Status, to: Status)
    requires from in Statuses(kind) && to in Statuses(kind)
    ensures AdminStatus(kind, StatusName(to)) == Ok(to)
    ensures !Transition(kind, from, Pending)
  {
  }

  /** Position of a status along the lifecycle; every transition strictly raises it. */
  function Rank(s: Status): (r: nat)
    ensures r <= 3
  {
    match s
    case Pending => 0
    case Approved => 1
    case Confirmed => 1
    case Shipped => 2
    case _ => 3
  }

  lemma TransitionRaisesRank(kind: OrderKind, from: Status, to: Status)
    requires Transition(kind, from, to)
    ensures Rank(from) < Rank(to)
  {
  }

  /** `run` is the sequence of statuses a star moves an order through, one accepted request
      at a time, starting from `start`. */
  ghost predicate IsRun(kind: OrderKind, start: Status, run: seq<Status>)
    decreases |run|
  {
    run == [] || (Transition(kind, start, run[0]) && IsRun(kind, run[0], run[1..]))
  }

  /** Along a run the rank strictly rises, so no status is visited twice and a run has at
      most three steps. */
  lemma {:induction false} RunRises(kind: OrderKind, start: Status, run: seq<Status>)
    requires IsRun(kind, start, run)
    ensures forall i :: 0 <= i < |run| ==> Rank(start) < Rank(run[i])
    ensures forall i, j :: 0 <= i < j < |run| ==> Rank(run[i]) < Rank(run[j])
    ensures |run| + Rank(start) <= 3
    decreases |run|
  {
    if run != [] {
      TransitionRaisesRank(kind, start, run[0]);
      RunRises(kind, run[0], run[1..]);
      forall i, j | 0 <= i < j < |run|
        ensures Rank(run[i]) < Rank(run[j])
      {
        if i > 0 {
          assert run[i] == run[1..][i - 1] && run[j] == run[1..][j - 1];
        } else {
          assert run[j] == run[1..][j - 1];
        }
      }
      forall i | 0 <= i < |run|
        ensures Rank(start) < Rank(run[i])
      {
        if i > 0 { assert run[i] == run[1..][i - 1]; }
      }
    }
  }

  /** Cancellation is terminal: along any run of the star endpoint an order is cancelled at
      most once, and a cancelled order admits no further step. This is what keeps the merch
      cancel from restoring stock twice. */
  lemma CancelledAtMostOnce(kind: OrderKind, start: Status, run: seq<Status>)
    requires IsRun(kind, start, run)
    ensures start == Cancelled ==> run == []
    ensures forall i, j :: 0 <= i < j < |run| && run[i] == Cancelled ==> run[j] != Cancelled
  {
    RunRises(kind, start, run);
    forall i, j | 0 <= i < j < |run| && run[i] == Cancelled
      ensures run[j] != Cancelled
    {
      assert Rank(run[i]) < Rank(run[j]);
    }
  }
}
