/** The sibling digests that each family of receipts records: all receipts but one's own, in operation order. */
module Receipts {
  import opened Prelude

  function Pairs(operations: seq<string>, digests: map<string, string>): seq<string>
    requires forall op :: op in operations ==> op in digests
  {
    if operations == [] then [] else [operations[0], digests[operations[0]]] + Pairs(operations[1..], digests)
  }

  /** `SELECT operation_id, receipt_digest … WHERE operation_id<>? ORDER BY operation_id`, flattened. */
  function Siblings(digests: map<string, string>, operation: string): seq<string> {
    TextLessIsTotalOrder();
    var others := digests - {operation};
    Pairs(Ordered(others.Keys, TextLess), others)
  }

  /** A receipt of one's own does not show among the siblings. */
  lemma OwnIsSkipped(a: map<string, string>, b: map<string, string>, operation: string)
    requires a - {operation} == b - {operation}
    ensures Siblings(a, operation) == Siblings(b, operation)
  {
  }
}
