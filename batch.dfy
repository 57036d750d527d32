/** The batch runner of `main`: one lookup per loaded address, in order, every
    record appended whether the lookup succeeded or failed. */
module Batch {
  import opened Loader
  import opened Fetcher

  /** The records of a run in which the `i`-th request was answered by
      `responses[i]`. */
  function Results(addresses: seq<string>, responses: seq<Response>): (r: seq<AddressStats>)
    requires |responses| == |addresses|
    ensures |r| == |addresses|
  {
    if addresses == [] then []
    else
      var n := |addresses|;
      Results(addresses[..n - 1], responses[..n - 1]) + [GetAddressInfo(addresses[n - 1], responses[n - 1])]
  }

  /** The loop of `main` that fills `results`. */
  method RunBatch(addresses: seq<string>, responses: seq<Response>) returns (results: seq<AddressStats>)
    requires |responses| == |addresses|
    ensures results == Results(addresses, responses)
  {
    results := [];
    for i := 0 to |addresses|
      invariant results == Results(addresses[..i], responses[..i])
    {
      assert addresses[..i + 1][..i] == addresses[..i];
      assert responses[..i + 1][..i] == responses[..i];
      var info := GetAddressInfo(addresses[i], responses[i]);
      results := results + [info];
    }
    assert addresses[..|addresses|] == addresses;
    assert responses[..|responses|] == responses;
  }

  /** `main` up to the report: load the addresses, then look each one up. */
  method Run(rows: seq<seq<string>>, responses: seq<Response>) returns (results: seq<AddressStats>)
    requires |responses| == |Loaded(rows)|
    ensures results == Results(Loaded(rows), responses)
  {
    var addresses := LoadAddresses(rows);
    results := RunBatch(addresses, responses);
  }

  /** The `i`-th record is the lookup of the `i`-th address with the `i`-th answer. */
  lemma {:induction false} ResultsAt(addresses: seq<string>, responses: seq<Response>, i: nat)
    requires |responses| == |addresses| && i < |addresses|
    ensures Results(addresses, responses)[i] == GetAddressInfo(addresses[i], responses[i])
  {
    var n := |addresses|;
    if i < n - 1 {
      ResultsAt(addresses[..n - 1], responses[..n - 1], i);
    }
  }

  /** One record per address, in the same order: reading back the addresses of
      the records gives the input addresses. */
  lemma AddressesKept(addresses: seq<string>, responses: seq<Response>)
    requires |responses| == |addresses|
    ensures |Results(addresses, responses)| == |addresses|
    ensures forall i :: 0 <= i < |addresses| ==> Results(addresses, responses)[i].address == addresses[i]
  {
  }

  /** A failed request at position `j` yields the error shape there and leaves
      every other record, before and after it, as it would have been. */
  lemma FailureIsolated(addresses: seq<string>, responses: seq<Response>, j: nat, reason: string)
    requires |responses| == |addresses| && j < |addresses|
    ensures Results(addresses, responses[j := RequestFailed(reason)])[j] == Failure(addresses[j], reason)
    ensures forall i :: 0 <= i < |addresses| && i != j ==>
      Results(addresses, responses[j := RequestFailed(reason)])[i] == Results(addresses, responses)[i]
  {
    var failed := responses[j := RequestFailed(reason)];
    ResultsAt(addresses, failed, j);
    forall i | 0 <= i < |addresses| && i != j
      ensures Results(addresses, failed)[i] == Results(addresses, responses)[i]
    {
      ResultsAt(addresses, failed, i);
      ResultsAt(addresses, responses, i);
    }
  }

  /** Running two batches one after the other is running their concatenation. */
  lemma {:induction false} ResultsAppend(a1: seq<string>, r1: seq<Response>, a2: seq<string>, r2: seq<Response>)
    requires |r1| == |a1| && |r2| == |a2|
    ensures Results(a1 + a2, r1 + r2) == Results(a1, r1) + Results(a2, r2)
  {
    if a2 != [] {
      var n := |a2|;
      assert (a1 + a2)[..|a1 + a2| - 1] == a1 + a2[..n - 1];
      assert (r1 + r2)[..|r1 + r2| - 1] == r1 + r2[..n - 1];
      ResultsAppend(a1, r1, a2[..n - 1], r2[..n - 1]);
    } else {
      assert a1 + a2 == a1 && r1 + r2 == r1;
    }
  }

  /** The report has one record per row that has fields and is not a header. */
  lemma ReportSize(rows: seq<seq<string>>, responses: seq<Response>)
    requires |responses| == |Loaded(rows)|
    ensures |Results(Loaded(rows), responses)| == |Origins(rows)|
    ensures forall k :: 0 <= k < |Origins(rows)| ==>
      Origins(rows)[k] < |rows| && rows[Origins(rows)[k]] != [] &&
      Results(Loaded(rows), responses)[k].address == Text.Strip(rows[Origins(rows)[k]][0])
  {
    LoadedFromRows(rows);
    AddressesKept(Loaded(rows), responses);
  }
}
