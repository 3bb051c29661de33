/** The appointment status machine: PENDING may become CONFIRMED, REJECTED
    or CANCELLED; CONFIRMED may become CANCELLED; REJECTED and CANCELLED are
    final. */
module Lifecycle {
  import opened Domain

  /** `to` is `from` itself or one step of the machine away from it. */
  predicate CanMove(from: Status, to: Status)
  {
    || from == to
    || (from == Pending && to in {Confirmed, Rejected, Cancelled})
    || (from == Confirmed && to == Cancelled)
  }

  predicate Final(s: Status)
  {
    s == Rejected || s == Cancelled
  }

  /** Two moves make a move: the machine needs no transitive closure. */
  lemma CanMoveTransitive(a: Status, b: Status, c: Status)
    requires CanMove(a, b) && CanMove(b, c)
    ensures CanMove(a, c)
  {
  }

  /** Nothing leaves a final status, and nothing re-enters PENDING. */
  lemma FinalIsFinal(a: Status, b: Status)
    requires CanMove(a, b)
    ensures Final(a) ==> b == a
    ensures b == Pending ==> a == Pending
  {
  }
}
