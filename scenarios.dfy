/**
 * Clients of the widget that follow it through whole visits, using nothing
 * but the contracts of its methods.
 */
module Scenarios {
  import opened Wrappers
  import opened JsNumber
  import opened Payload
  import opened Services
  import opened AboutLike

  /** A reply whose body carries the count n in its `value` field. */
  function CountReply(n: int): Response {
    Reply(true, Parsed(Obj(map["value" := Num(Finite(n))])))
  }

  /** A stored "true" flag renders the button liked and disabled, and clicks are then ignored. */
  method StoredFlagLoadsLiked(net: seq<Response>)
    requires |net| == 2
  {
    var w := new LikeWidget(Some("true"), false);
    assert w.isLiked && w.disabled && w.buttonState == Liked;
    var started := w.OnClick(net, false, false);
    assert !started && w.buttonState == Liked;
  }

  /** Unreadable storage counts as not liked. */
  method UnreadableStorageLoadsIdle() {
    var w := new LikeWidget(Some("true"), true);
    assert !w.isLiked && !w.disabled && w.buttonState == Idle;
  }

  /** When both services fail, the click ends idle and clickable, with the failure text. */
  method BothServicesFail() {
    var w := new LikeWidget(None, false);
    var started := w.OnClick([NetworkError, Reply(false, Unparsable)], false, false);
    assert started;
    assert w.buttonState == Idle && !w.disabled && !w.isLiked;
    assert w.display == LikeFailed && w.stored == None;
    assert w.activeServiceIndex == 0;
  }

  lemma CountReplyOutcome(n: int)
    ensures ServiceOutcome(CountReply(n)) == Ok(n)
  {
    var fields := map["value" := Num(Finite(n))];
    assert FieldValue(fields, Candidates[0]) == Some(n);
  }

  lemma PairOutcomes(a: Response, b: Response)
    ensures Outcomes([a, b]) == [ServiceOutcome(a), ServiceOutcome(b)]
  {
  }

  /**
   * When the first service fails and the second answers, the second's count
   * is shown and the second is tried first next time.
   */
  method FallbackIsRemembered() {
    var w := new LikeWidget(None, false);
    CountReplyOutcome(41);
    var load := [NetworkError, CountReply(41)];
    PairOutcomes(NetworkError, CountReply(41));
    SelectFromFirstSuccess(Outcomes(load), 0, 0, 1);
    w.InitializeCount(load);
    assert w.display == Count(41) && w.activeServiceIndex == 1;
    assert w.countApi.initialized && w.countApi.createRequests == 1;
    RememberedServiceFirst(w);
  }

  /**
   * Once CountAPI has answered, it is the one called first: when both would
   * answer, only CountAPI is called, and its create request is not repeated.
   */
  method RememberedServiceFirst(w: LikeWidget)
    requires w.Valid() && w.services == [CounterApi, CountApi]
    requires w.activeServiceIndex == 1 && w.countApi.initialized
    modifies w, w.countApi
  {
    CountReplyOutcome(1);
    CountReplyOutcome(2);
    var both := [CountReply(1), CountReply(2)];
    PairOutcomes(CountReply(1), CountReply(2));
    var result, tried := w.AttemptServiceAction(both);
    assert tried == [1] && result == Ok(2);
    assert w.countApi.createRequests == 1;
  }

  /** A successful like persists the flag and disables further increments. */
  method LikePersists(net: seq<Response>)
    requires |net| == 2
  {
    var w := new LikeWidget(None, false);
    CountReplyOutcome(42);
    var like := [CountReply(42), NetworkError];
    assert Outcomes(like) == [Ok(42), Failed];
    var started := w.OnClick(like, false, false);
    assert started && w.isLiked && w.disabled && w.display == Count(42);
    assert w.stored == Some(LikedFlag);
    started := w.OnClick(net, false, false);
    assert !started && w.stored == Some(LikedFlag) && w.buttonState == Liked;
  }

  /**
   * When the celebration throws after a successful increment, the flag is
   * stored but the button is idle again, so a second click increments the
   * counter a second time.
   */
  method ConfettiThrowAllowsSecondLike() {
    var w := new LikeWidget(None, false);
    CountReplyOutcome(42);
    var like := [CountReply(42), NetworkError];
    assert Outcomes(like) == [Ok(42), Failed];
    var started := w.OnClick(like, false, true);
    assert started && w.stored == Some(LikedFlag);
    assert !w.isLiked && !w.disabled && w.buttonState == Idle && w.display == LikeFailed;
    CountReplyOutcome(43);
    var again := [CountReply(43), NetworkError];
    assert Outcomes(again) == [Ok(43), Failed];
    started := w.OnClick(again, false, false);
    assert started && w.isLiked && w.display == Count(43);
  }

  /** A negative count is shown as 0. */
  method NegativeCountShownAsZero() {
    var w := new LikeWidget(None, false);
    var load := [Reply(true, Parsed(Num(Finite(-3)))), NetworkError];
    assert Outcomes(load) == [Ok(-3), Failed];
    w.InitializeCount(load);
    assert w.display == Count(0);
  }
}
