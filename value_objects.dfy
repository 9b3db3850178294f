/** Task status, task priority and user role, and the task status state
    machine. */
module ValueObjects {

  datatype TaskStatus = Pending | InProgress | Completed | Cancelled

  datatype TaskPriority = Low | Medium | High | Urgent

  datatype UserRole = Admin | Member | Viewer

  /** The string value of each status, as stored and as shown in messages. */
  function StatusName(s: TaskStatus): string {
    match s
    case Pending => "PENDING"
    case InProgress => "IN_PROGRESS"
    case Completed => "COMPLETED"
    case Cancelled => "CANCELLED"
  }

  function PriorityName(p: TaskPriority): string {
    match p
    case Low => "LOW"
    case Medium => "MEDIUM"
    case High => "HIGH"
    case Urgent => "URGENT"
  }

  /** `VALID_TRANSITIONS`: the successors each status may move to. At most
      two, never the status itself nor PENDING, and none from a terminal
      status. */
  function ValidTransitions(from: TaskStatus): (r: seq<TaskStatus>)
    ensures |r| <= 2 && from !in r && Pending !in r
    ensures r == [] <==> IsTerminal(from)
  {
    match from
    case Pending => [InProgress, Cancelled]
    case InProgress => [Completed, Cancelled]
    case Completed => []
    case Cancelled => []
  }

  /** `canTransition(from, to)`: a move changes the status, never leads
      back to PENDING and never leaves a terminal status. */
  function CanTransition(from: TaskStatus, to: TaskStatus): (b: bool)
    ensures b ==> from != to && to != Pending && !IsTerminal(from)
  {
    to in ValidTransitions(from)
  }

  predicate IsTerminal(s: TaskStatus) {
    s == Completed || s == Cancelled
  }

  /** The table, row by row: what each status may move to, and nothing else. */
  lemma TransitionTable(to: TaskStatus)
    ensures CanTransition(Pending, to) <==> to == InProgress || to == Cancelled
    ensures CanTransition(InProgress, to) <==> to == Completed || to == Cancelled
    ensures !CanTransition(Completed, to) && !CanTransition(Cancelled, to)
  {
  }

  /** No self-loops, nothing leads back to PENDING, PENDING cannot skip to
      COMPLETED, and the terminal states are absorbing. */
  lemma NoSelfLoopsNoReturn(from: TaskStatus, to: TaskStatus)
    ensures CanTransition(from, to) ==> from != to
    ensures !CanTransition(from, Pending)
    ensures !CanTransition(Pending, Completed)
    ensures IsTerminal(from) ==> !CanTransition(from, to)
  {
  }

  /** How far along the workflow a status is. */
  function Rank(s: TaskStatus): nat {
    match s
    case Pending => 0
    case InProgress => 1
    case Completed => 2
    case Cancelled => 2
  }

  /** Every legal transition moves strictly forward. */
  lemma TransitionMovesForward(from: TaskStatus, to: TaskStatus)
    requires CanTransition(from, to)
    ensures Rank(from) < Rank(to)
  {
  }

  /** A run of statuses in which each step is a legal transition. */
  predicate IsChain(c: seq<TaskStatus>) {
    forall i :: 0 <= i < |c| - 1 ==> CanTransition(c[i], c[i + 1])
  }

  /** Along a chain the rank grows by at least one per step. */
  lemma {:induction false} ChainRankGrows(c: seq<TaskStatus>, i: nat, j: nat)
    requires IsChain(c) && i <= j < |c|
    ensures Rank(c[i]) + (j - i) <= Rank(c[j])
    decreases j - i
  {
    if i < j {
      ChainRankGrows(c, i + 1, j);
      TransitionMovesForward(c[i], c[i + 1]);
    }
  }

  /** The relation is acyclic: no status occurs twice in a chain. */
  lemma ChainIsAcyclic(c: seq<TaskStatus>, i: nat, j: nat)
    requires IsChain(c) && i < j < |c|
    ensures c[i] != c[j]
  {
    ChainRankGrows(c, i, j);
  }

  /** Any chain makes at most two transitions; from a terminal status it
      makes none. */
  lemma ChainIsShort(c: seq<TaskStatus>)
    requires IsChain(c) && |c| > 0
    ensures |c| <= 3
    ensures IsTerminal(c[0]) ==> |c| == 1
  {
    ChainRankGrows(c, 0, |c| - 1);
  }
}
