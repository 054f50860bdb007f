/** Sequences of subscription requests against one store: unsubscribing
    undoes subscribing, and a repeated subscription is refused. */
module Scenarios {
  import opened Common
  import opened Models
  import opened Api

  /** Following an author and unfollowing them leaves the subscriptions as
      they were. */
  method SubscribeThenUnsubscribe(s: Store, requester: UserId, target: UserId)
    requires s.Valid() && requester in s.users && target in s.users && target != requester
    requires (requester, target) !in s.subscriptions
    modifies s`subscriptions
    ensures s.Valid() && s.subscriptions == old(s.subscriptions)
  {
    var created, _ := s.Subscribe(requester, target);
    var deleted := s.Unsubscribe(requester, target);
  }

  /** A second subscription to the same author is refused and changes
      nothing. */
  method SubscribeTwice(s: Store, requester: UserId, target: UserId) returns (first: Status, second: Status)
    requires s.Valid() && requester in s.users && target in s.users && target != requester
    requires (requester, target) !in s.subscriptions
    modifies s`subscriptions
    ensures s.Valid()
    ensures first == Created201 && second == BadRequest400
    ensures s.subscriptions == old(s.subscriptions) + {(requester, target)}
  {
    var answer;
    first, answer := s.Subscribe(requester, target);
    second, answer := s.Subscribe(requester, target);
  }
}
