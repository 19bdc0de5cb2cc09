/** The push reader's result in terms of what the agent pushed. */
module PushOutcome {
  import opened Prelude
  import opened Json
  import opened PushInbox
  import opened PushDelivery
  import StreamFold
  import SendMessage

  /** What the successive looks of a run return. */
  function Batches(setup: Setup, steps: seq<Step>): seq<seq<Json>> {
    if steps == [] then []
    else
      var init := steps[..|steps| - 1];
      Batches(setup, init) + if steps[|steps| - 1].Looked? then [New(setup, Run(setup, init))] else []
  }

  lemma {:induction false} BatchesAreReceived(setup: Setup, steps: seq<Step>)
    ensures SendMessage.Received(Batches(setup, steps)) == Run(setup, steps).received
  {
    if steps != [] {
      var init := steps[..|steps| - 1];
      BatchesAreReceived(setup, init);
      if steps[|steps| - 1].Looked? {
        var all := Batches(setup, steps);
        assert all[..|all| - 1] == Batches(setup, init);
      } else {
        assert Batches(setup, steps) == Batches(setup, init);
      }
    }
  }

  /** Up to `cap` events, the outcome a push reader computes after a look is that of all events pushed. */
  lemma OutcomeOfAllPushes(reading: StreamFold.Reading, setup: Setup, steps: seq<Step>)
    requires Undropped(setup, steps + [Looked])
    requires |All(setup, steps + [Looked], setup.reader)| <= Bound(setup.cap)
    ensures StreamFold.Fold(reading, SendMessage.Received(Batches(setup, steps + [Looked])))
         == StreamFold.Fold(reading, All(setup, steps, setup.reader))
  {
    hide StreamFold.Fold, Undropped, Batches, SendMessage.Received, Latest;
    var all := steps + [Looked];
    assert all[..|steps|] == steps;
    assert All(setup, all, setup.reader) == All(setup, steps, setup.reader);
    BatchesAreReceived(setup, all);
    DeliveryIsExact(setup, all);
  }
}
