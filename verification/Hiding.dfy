/**
 A definition guarded by `forall u: nat :: Unfold(topic, u) ==> ...` is used as a whole and
 is unfolded by the verifier only where `Unfold` is mentioned for the same topic.
*/
module Hiding {
  datatype Topic =
    | Consistency | Tokens | Bits | Words | Arguments | Commands | Steps | Blocks | Waiting | Marks
    | Types | Counts | Queues | Wakeups | Links | Giving | Serves | Settling | Dominating
    | Electing | Scans | Runs | Logs | Pipes | Packed | Sums | Orders | Turning | Books | Claiming

  ghost predicate Unfold(topic: Topic, u: nat) {
    true
  }
}
