/**
 * The like button itself: the count text, the button state machine (idle,
 * pending, liked), the persisted "liked" flag and the fallback between the
 * two counter services, with the services' network exchanges as parameters.
 */
module AboutLike {
  import opened Wrappers
  import opened JsNumber
  import opened Services

  /** The button's `data-state`: idle is clickable, pending and liked are disabled. */
  datatype ButtonState = Idle | Pending | Liked

  /**
   * What the count element shows: the page's own markup, the loading text, a
   * count, "service unavailable" after a failed load, "like failed" after a
   * failed increment.
   */
  datatype CountText = Markup | Loading | Count(n: nat) | Unavailable | LikeFailed

  /** The value stored under the like key once the visitor has liked. */
  const LikedFlag: string := "true"

  /**
   * The clamp `updateCountText` applies before showing a value: the least
   * non-negative integer not below a finite value, 0 for a non-finite one.
   */
  function SafeCount(v: Number): (r: nat)
    ensures v.Finite? ==> r >= v.value && (r == v.value || r == 0)
    ensures v.NonFinite? ==> r == 0
  {
    if v.Finite? && v.value >= 0 then v.value else 0
  }

  class LikeWidget {
    /** `services`, tried in rotation. */
    const services: seq<Service>
    /** The CountAPI client, with its one-shot initialisation latch. */
    const countApi: CountApiService
    var isLiked: bool
    var activeServiceIndex: nat
    /** The button's `disabled` property. */
    var disabled: bool
    var buttonState: ButtonState
    /** The count element's text. */
    var display: CountText
    /** The section's `data-like-service`: the name of the last service that answered. */
    var likeService: string
    /** The visitor's local storage under the like key; None when nothing is stored. */
    var stored: Option<string>

    /**
     * The remembered index names a service; isLiked, the disabled property and
     * the button state agree; the CountAPI latch is consistent.
     */
    ghost predicate Valid()
      reads this, countApi
    {
      && activeServiceIndex < |services|
      && (isLiked <==> buttonState == Liked)
      && (disabled <==> buttonState != Idle)
      && countApi.Valid()
    }

    /**
     * Page load: the two services, the first one preferred, and the button
     * liked exactly when the stored flag could be read and equals "true".
     */
    constructor (storedValue: Option<string>, readFails: bool)
      ensures Valid() && fresh(countApi) && !countApi.initialized
      ensures services == [CounterApi, CountApi] && activeServiceIndex == 0 && likeService == ""
      ensures stored == storedValue && display == Markup
      ensures isLiked == (!readFails && storedValue == Some(LikedFlag))
      ensures buttonState == (if isLiked then Liked else Idle) && disabled == isLiked
    {
      services := [CounterApi, CountApi];
      countApi := new CountApiService();
      isLiked := false;
      activeServiceIndex := 0;
      disabled := false;
      buttonState := Idle;
      display := Markup;
      likeService := "";
      stored := storedValue;
      new;
      var preference := if readFails then None else stored;
      SetButtonState(preference == Some(LikedFlag));
    }

    /** `setButtonState`: liked disables the button for good, not liked re-enables it. */
    method SetButtonState(liked: bool)
      requires Valid()
      modifies this`isLiked, this`disabled, this`buttonState
      ensures Valid()
      ensures isLiked == liked && disabled == liked
      ensures buttonState == if liked then Liked else Idle
    {
      isLiked := liked;
      disabled := liked;
      buttonState := if liked then Liked else Idle;
    }

    /** `updateCountText`: show the clamped count. */
    method UpdateCountText(value: int)
      requires Valid()
      modifies this`display
      ensures Valid()
      ensures display == Count(SafeCount(Finite(value)))
    {
      display := Count(SafeCount(Finite(value)));
    }

    /**
     * One call of service i: CountAPI first makes sure it is initialised, then
     * both turn their response into an outcome.
     */
    method CallService(i: nat, resp: Response) returns (o: Outcome)
      requires Valid() && i < |services|
      modifies countApi
      ensures Valid()
      ensures o == ServiceOutcome(resp)
      ensures countApi.initialized == (old(countApi.initialized) || services[i] == CountApi)
    {
      if services[i] == CountApi {
        countApi.EnsureInitialized();
      }
      o := ServiceOutcome(resp);
    }

    /**
     * The loop of `attemptServiceAction`: call the services in rotation from
     * start, each at most once, until one succeeds. tried lists the services
     * called, in order; the result and their number are those of the scan
     * Select specifies.
     */
    method ScanServices(net: seq<Response>, start: nat) returns (result: Outcome, tried: seq<nat>)
      requires Valid() && |net| == |services| && start < |services|
      modifies countApi
      ensures Valid()
      ensures var sel := Select(Outcomes(net), start);
        && result == sel.result && |tried| == sel.tries
        && (result.Ok? ==> sel.index == tried[|tried| - 1])
      ensures forall k :: 0 <= k < |tried| ==> tried[k] == RotationIndex(start, k, |services|)
      ensures countApi.initialized ==
        (old(countApi.initialized) || Invokes(services, start, |tried|, CountApi))
    {
      ghost var outs := Outcomes(net);
      var n := |services|;
      result := Failed;
      tried := [];
      var offset := 0;
      while offset < n && result.Failed?
        invariant offset <= n && |tried| == offset
        invariant forall k :: 0 <= k < offset ==> tried[k] == RotationIndex(start, k, n)
        invariant result.Failed? ==> forall m :: 0 <= m < offset ==> outs[RotationIndex(start, m, n)].Failed?
        invariant result.Ok? ==> 0 < offset && result == outs[tried[offset - 1]]
        invariant result.Ok? ==> forall m :: 0 <= m < offset - 1 ==> outs[RotationIndex(start, m, n)].Failed?
        invariant countApi.Valid()
        invariant countApi.initialized == (old(countApi.initialized) || Invokes(services, start, offset, CountApi))
      {
        var index := RotationIndex(start, offset, n);
        result := CallService(index, net[index]);
        assert result == outs[index];
        InvokesStep(services, start, offset, CountApi);
        tried := tried + [index];
        offset := offset + 1;
      }
      if result.Ok? {
        SelectFromFirstSuccess(outs, start, 0, offset - 1);
      } else {
        SelectFromNoSuccess(outs, start, 0);
      }
    }

    /**
     * `attemptServiceAction`: net[i] is the response service i gets if it is
     * called. The services are tried in rotation from the remembered index,
     * each at most once; the first success is returned and its index
     * remembered; when all fail the action fails and the index stays.
     * tried lists the services invoked, in order.
     */
    method AttemptServiceAction(net: seq<Response>) returns (result: Outcome, tried: seq<nat>)
      requires Valid() && |net| == |services|
      modifies this`activeServiceIndex, this`likeService, countApi
      ensures Valid()
      ensures var sel := Select(Outcomes(net), old(activeServiceIndex));
        result == sel.result && activeServiceIndex == sel.index && |tried| == sel.tries
      ensures forall k :: 0 <= k < |tried| ==> tried[k] == RotationIndex(old(activeServiceIndex), k, |services|)
      ensures forall j, k :: 0 <= j < k < |tried| ==> tried[j] != tried[k]
      ensures likeService == if result.Ok? then Name(services[activeServiceIndex]) else old(likeService)
      ensures countApi.initialized ==
        (old(countApi.initialized) || Invokes(services, old(activeServiceIndex), |tried|, CountApi))
    {
      result, tried := ScanServices(net, activeServiceIndex);
      if result.Ok? {
        activeServiceIndex := tried[|tried| - 1];
        likeService := Name(services[activeServiceIndex]);
      }
      RotationDistinct(old(activeServiceIndex), |services|);
    }

    /** `initializeCount`: load the count, or say the service is unavailable. */
    method InitializeCount(net: seq<Response>)
      requires Valid() && |net| == |services|
      modifies this`display, this`activeServiceIndex, this`likeService, countApi
      ensures Valid()
      ensures var sel := Select(Outcomes(net), old(activeServiceIndex));
        && activeServiceIndex == sel.index
        && display == (if sel.result.Ok? then Count(SafeCount(Finite(sel.result.value))) else Unavailable)
        && likeService == (if sel.result.Ok? then Name(services[sel.index]) else old(likeService))
        && countApi.initialized ==
          (old(countApi.initialized) || Invokes(services, old(activeServiceIndex), sel.tries, CountApi))
    {
      display := Loading;
      var result, tried := AttemptServiceAction(net);
      if result.Ok? {
        UpdateCountText(result.value);
      } else {
        display := Unavailable;
      }
    }

    /**
     * The state after an increment that started from the remembered index
     * start, with the latch, storage and service label as given. A success
     * whose celebration throws (confettiThrows) lands in the same handler as a
     * failed action: the count is shown and the flag stored, and then the
     * button goes back to idle with the failure text.
     */
    ghost predicate IncrementDone(net: seq<Response>, writeFails: bool, confettiThrows: bool, start: nat,
                                  wasInitialized: bool, wasStored: Option<string>, wasService: string)
      requires start < |services| && |net| == |services|
      reads this, countApi
    {
      var sel := Select(Outcomes(net), start);
      && activeServiceIndex == sel.index
      && countApi.initialized == (wasInitialized || Invokes(services, start, sel.tries, CountApi))
      && (sel.result.Ok? ==>
            && stored == (if writeFails then wasStored else Some(LikedFlag))
            && likeService == Name(services[sel.index])
            && (if confettiThrows then
                  !isLiked && !disabled && buttonState == Idle && display == LikeFailed
                else
                  isLiked && disabled && buttonState == Liked
                  && display == Count(SafeCount(Finite(sel.result.value)))))
      && (sel.result.Failed? ==>
            && !isLiked && !disabled && buttonState == Idle
            && display == LikeFailed
            && stored == wasStored
            && likeService == wasService)
    }

    /** The shared `catch` of `incrementLike`: back to idle, with the failure text. */
    method LikeFailedReset()
      requires Valid()
      modifies this`isLiked, this`disabled, this`buttonState, this`display
      ensures Valid()
      ensures !isLiked && !disabled && buttonState == Idle && display == LikeFailed
    {
      SetButtonState(false);
      display := LikeFailed;
    }

    /**
     * `incrementLike`: on success show the new count, go to liked, store the
     * flag (a failed write is ignored) and celebrate; on failure, or when the
     * celebration throws, go back to idle and say the like failed.
     */
    method IncrementLike(net: seq<Response>, writeFails: bool, confettiThrows: bool)
      requires Valid() && |net| == |services|
      modifies this, countApi
      ensures Valid()
      ensures IncrementDone(net, writeFails, confettiThrows, old(activeServiceIndex),
                            old(countApi.initialized), old(stored), old(likeService))
    {
      var result, tried := AttemptServiceAction(net);
      if result.Ok? {
        UpdateCountText(result.value);
        SetButtonState(true);
        if !writeFails {
          stored := Some(LikedFlag);
        }
        if confettiThrows {
          LikeFailedReset();
        }
      } else {
        LikeFailedReset();
      }
    }

    /** The click handler's first step: disable the button and mark it pending. */
    method EnterPending()
      requires Valid() && !isLiked
      modifies this`disabled, this`buttonState
      ensures Valid() && disabled && buttonState == Pending
    {
      disabled := true;
      buttonState := Pending;
    }

    /**
     * The click handler: a liked button ignores the click; otherwise it goes
     * pending and the increment runs. started says which happened.
     */
    method OnClick(net: seq<Response>, writeFails: bool, confettiThrows: bool) returns (started: bool)
      requires Valid() && |net| == |services|
      modifies this, countApi
      ensures Valid()
      ensures started == !old(isLiked)
      ensures !started ==> unchanged(this) && unchanged(countApi)
      ensures started ==> IncrementDone(net, writeFails, confettiThrows, old(activeServiceIndex),
                                        old(countApi.initialized), old(stored), old(likeService))
    {
      if isLiked {
        return false;
      }
      EnterPending();
      IncrementLike(net, writeFails, confettiThrows);
      started := true;
    }
  }
}
