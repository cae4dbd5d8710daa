/**
 The states of a join request and the effect an acceptance has on all requests of one status.
 Both the serial store and the statement-level protocol refer to it.
 */
module Requests {
  datatype RequestState = Pending | Accepted | Rejected

  // One request is accepted, the other pending ones are rejected, decided ones stay as they are.
  function Decide<K>(rows: map<K, RequestState>, accepted: K): map<K, RequestState> {
    map r | r in rows :: if r == accepted then Accepted else if rows[r] == Pending then Rejected else rows[r]
  }
}
