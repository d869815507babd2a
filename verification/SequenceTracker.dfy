/** The per-connection sequence tracker, over unsigned 64-bit numbers. */
module SequenceTrackers {
  import opened Wrappers

  const MAX_SEQUENCE := 0xFFFF_FFFF_FFFF_FFFF

  type SequenceNumber = n: nat | n <= MAX_SEQUENCE

  datatype SequenceStatus = First | InOrder | Duplicate | Stale | Gap

  datatype SequenceResult = SequenceResult(status: SequenceStatus, expected: SequenceNumber, received: SequenceNumber)

  /** Saturates at the largest number. */
  function NextExpected(last: SequenceNumber): SequenceNumber {
    if last == MAX_SEQUENCE then last else last + 1
  }

  function Classify(last: Option<SequenceNumber>, n: SequenceNumber): SequenceResult {
    if last.None? then SequenceResult(First, n, n)
    else
      var expected := NextExpected(last.value);
      SequenceResult(
        if n == last.value then Duplicate
        else if n < last.value then Stale
        else if n == expected then InOrder
        else Gap, expected, n)
  }

  predicate Advances(status: SequenceStatus) {
    status == First || status == InOrder
  }

  /** The tracker moves only on a first or an in-order number. */
  function Advance(last: Option<SequenceNumber>, n: SequenceNumber): Option<SequenceNumber> {
    if Advances(Classify(last, n).status) then Some(n) else last
  }

  class SequenceTracker {
    var last: Option<SequenceNumber>

    constructor ()
      ensures last == None
    {
      last := None;
    }

    method Observe(n: SequenceNumber) returns (r: SequenceResult)
      modifies this
      ensures r == Classify(old(last), n) && last == Advance(old(last), n)
    {
      if last.None? {
        last := Some(n);
        return SequenceResult(First, n, n);
      }
      var expected := NextExpected(last.value);
      if n == last.value {
        return SequenceResult(Duplicate, expected, n);
      }
      if n < last.value {
        return SequenceResult(Stale, expected, n);
      }
      if n == expected {
        last := Some(n);
        return SequenceResult(InOrder, expected, n);
      }
      return SequenceResult(Gap, expected, n);
    }

    method Reset()
      modifies this
      ensures last == None
    {
      last := None;
    }
  }

  /** An accepted number after the first is the successor of the one before; saturation never admits a repeat. */
  lemma {:induction false} InOrderIsSuccessor(last: Option<SequenceNumber>, n: SequenceNumber)
    ensures Classify(last, n).status == InOrder <==> last.Some? && n == last.value + 1
    ensures Classify(last, n).status == Gap <==> last.Some? && n > last.value + 1
  {}

  /** A number that is not accepted either repeats the last one or is older; only the very first has none before it. */
  lemma {:induction false} OthersAreOld(last: Option<SequenceNumber>, n: SequenceNumber)
    ensures Classify(last, n).status == First <==> last.None?
    ensures Classify(last, n).status == Duplicate <==> last == Some(n)
    ensures Classify(last, n).status == Stale <==> last.Some? && n < last.value
    ensures Classify(last, n).received == n
    ensures last.Some? ==>
      Classify(last, n).expected == if last.value == MAX_SEQUENCE then last.value else last.value + 1
  {}

  /** The numbers that moved the tracker while it observed a stream. */
  function AcceptedNumbers(ns: seq<SequenceNumber>): seq<SequenceNumber> {
    if ns == [] then []
    else
      var n := ns[|ns| - 1];
      var before := ns[..|ns| - 1];
      AcceptedNumbers(before) + if Advances(Classify(Position(before), n).status) then [n] else []
  }

  function Position(ns: seq<SequenceNumber>): Option<SequenceNumber> {
    if ns == [] then None else Advance(Position(ns[..|ns| - 1]), ns[|ns| - 1])
  }

  /** Whatever arrives, the accepted numbers are consecutive and end at the tracker's position. */
  lemma {:induction false} AcceptedNumbersAreConsecutive(ns: seq<SequenceNumber>)
    ensures var accepted := AcceptedNumbers(ns);
      && (accepted == [] <==> ns == [])
      && (ns != [] ==> Position(ns) == Some(accepted[|accepted| - 1]))
      && (forall i :: 0 <= i < |accepted| ==> accepted[i] == accepted[0] + i)
  {
    if ns != [] {
      AcceptedNumbersAreConsecutive(ns[..|ns| - 1]);
    }
  }
}
