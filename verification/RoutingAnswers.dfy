/** What a batch destroy reports when several drivers answer. */
module RoutingAnswers {
  import opened Options
  import opened Routing

  /** The error reported is that of the first call that had one. */
  lemma {:induction false} FirstErrorIsFirst(calls: seq<Call>, answer: Call -> Answer) returns (k: nat)
    ensures FirstError(calls, answer).None? <==> forall j | 0 <= j < |calls| :: answer(calls[j]).error.None?
    ensures FirstError(calls, answer).Some? ==>
      && k < |calls| && FirstError(calls, answer) == answer(calls[k]).error
      && forall j | 0 <= j < k :: answer(calls[j]).error.None?
    decreases |calls|
  {
    k := 0;
    if calls != [] && answer(calls[0]).error.None? {
      var later := FirstErrorIsFirst(calls[1..], answer);
      k := later + 1;
      assert forall j | 0 < j < |calls| :: calls[j] == calls[1..][j - 1];
    }
  }

  lemma {:induction false} Regrouped<T>(x: seq<T>, y: seq<T>, z: seq<T>)
    ensures x + (y + z) == x + y + z
  {
  }

  lemma {:induction false} FailuresOfLast(calls: seq<Call>, call: Call, answer: Call -> Answer)
    ensures Failures(calls + [call], answer) == Failures(calls, answer) + answer(call).failed
  {
    assert (calls + [call])[..|calls|] == calls;
  }

  /** Every call's failures are reported, in the order of the calls. */
  lemma {:induction false} FailuresInOrder(before: seq<Call>, call: Call, after: seq<Call>, answer: Call -> Answer)
    ensures Failures([], answer) == []
    ensures Failures(before + [call] + after, answer)
         == Failures(before, answer) + answer(call).failed + Failures(after, answer)
    decreases |after|
  {
    if after == [] {
      assert before + [call] + after == before + [call];
      FailuresOfLast(before, call, answer);
    } else {
      var front, last := after[..|after| - 1], after[|after| - 1];
      assert after == front + [last];
      FailuresInOrder(before, call, front, answer);
      FailuresOfLast(before + [call] + front, last, answer);
      FailuresOfLast(front, last, answer);
      Regrouped(before + [call], front, [last]);
      Regrouped(Failures(before, answer) + answer(call).failed, Failures(front, answer), answer(last).failed);
    }
  }
}
