/**
 * The two counter services and the rule that chooses between them. A service
 * call is one HTTP exchange, given here as its Response; the rotation that
 * `attemptServiceAction` follows is specified by SelectFrom.
 */
module Services {
  import opened Wrappers
  import opened Payload

  /** What `response.json()` made of the body: a JSON value, or an exception. */
  datatype Body = Parsed(json: Json) | Unparsable

  /** One HTTP exchange: `fetch` threw, or a response with its `ok` flag and body. */
  datatype Response = NetworkError | Reply(ok: bool, body: Body)

  /** What a service method (getCount or increment) resolves to: a count, or a thrown error. */
  datatype Outcome = Ok(value: int) | Failed

  datatype Service = CounterApi | CountApi

  /** The `name` each service reports, shown on the section once it has answered. */
  function Name(s: Service): string {
    match s
    case CounterApi => "counterapi"
    case CountApi => "countapi"
  }

  /**
   * How both services turn a response into an outcome: they throw on a fetch
   * error, on a status that is not ok, on a body that is not JSON and on a
   * body extractValue finds no count in; otherwise they return that count.
   */
  function ServiceOutcome(resp: Response): (o: Outcome)
    ensures o.Ok? <==> resp.Reply? && resp.ok && resp.body.Parsed? && ExtractValue(resp.body.json).Some?
    ensures o.Ok? ==> ExtractValue(resp.body.json) == Some(o.value)
  {
    match resp
    case NetworkError => Failed
    case Reply(ok, body) =>
      if !ok then Failed
      else match body
        case Unparsable => Failed
        case Parsed(json) => (match ExtractValue(json) case Some(v) => Ok(v) case None => Failed)
  }

  /** The outcome of each service, given the response each one would get. */
  function Outcomes(net: seq<Response>): seq<Outcome> {
    seq(|net|, i requires 0 <= i < |net| => ServiceOutcome(net[i]))
  }

  /** The service tried at step k of a rotation over n services that starts at start. */
  function RotationIndex(start: nat, k: nat, n: nat): (i: nat)
    requires n > 0
    ensures i < n
  {
    (start + k) % n
  }

  lemma WrapOnce(x: nat, n: nat)
    requires 0 < n && x < 2 * n
    ensures x % n == if x < n then x else x - n
  {
    if x >= n {
      assert x == (x - n) + n;
    }
  }

  /** In n steps a rotation tries no service twice. */
  lemma RotationDistinct(start: nat, n: nat)
    requires start < n
    ensures forall j, k :: 0 <= j < k < n ==> RotationIndex(start, j, n) != RotationIndex(start, k, n)
  {
    forall j, k | 0 <= j < k < n
      ensures RotationIndex(start, j, n) != RotationIndex(start, k, n)
    {
      WrapOnce(start + j, n);
      WrapOnce(start + k, n);
    }
  }

  /** In n steps a rotation tries every service: service i at step (i - start) mod n. */
  lemma RotationCovers(start: nat, n: nat, i: nat)
    requires start < n && i < n
    ensures var k := if start <= i then i - start else i + n - start;
      k < n && RotationIndex(start, k, n) == i
  {
    var k := if start <= i then i - start else i + n - start;
    WrapOnce(start + k, n);
  }

  /**
   * The result of a scan: the outcome, the service index remembered afterwards
   * and how many services were invoked.
   */
  datatype Selection = Selection(result: Outcome, index: nat, tries: nat)

  /**
   * `attemptServiceAction` from step k on: try the services in rotation from
   * start, stop at the first success and remember its index; when every one
   * fails, fail and keep start.
   */
  function SelectFrom(outs: seq<Outcome>, start: nat, k: nat): (s: Selection)
    requires start < |outs| && k <= |outs|
    decreases |outs| - k
    ensures k <= s.tries <= |outs| && s.index < |outs|
    ensures forall m :: k <= m < s.tries - 1 ==> outs[RotationIndex(start, m, |outs|)].Failed?
    ensures s.result.Ok? ==>
      && k < s.tries
      && s.index == RotationIndex(start, s.tries - 1, |outs|)
      && s.result == outs[s.index]
    ensures s.result.Failed? ==>
      && s.index == start
      && s.tries == |outs|
      && forall m :: k <= m < |outs| ==> outs[RotationIndex(start, m, |outs|)].Failed?
  {
    if k == |outs| then Selection(Failed, start, |outs|)
    else
      var i := RotationIndex(start, k, |outs|);
      if outs[i].Ok? then Selection(outs[i], i, k + 1) else SelectFrom(outs, start, k + 1)
  }

  /** A scan whose first success from step k on is at step j returns it, remembers its index and has made j + 1 calls. */
  lemma {:induction false} SelectFromFirstSuccess(outs: seq<Outcome>, start: nat, k: nat, j: nat)
    requires start < |outs| && k <= j < |outs|
    requires forall m :: k <= m < j ==> outs[RotationIndex(start, m, |outs|)].Failed?
    requires outs[RotationIndex(start, j, |outs|)].Ok?
    ensures var i := RotationIndex(start, j, |outs|);
      SelectFrom(outs, start, k) == Selection(outs[i], i, j + 1)
    decreases j - k
  {
    if k < j {
      SelectFromFirstSuccess(outs, start, k + 1, j);
    }
  }

  /** A scan in which every step from k on fails fails, keeps start and has called every service. */
  lemma {:induction false} SelectFromNoSuccess(outs: seq<Outcome>, start: nat, k: nat)
    requires start < |outs| && k <= |outs|
    requires forall m :: k <= m < |outs| ==> outs[RotationIndex(start, m, |outs|)].Failed?
    ensures SelectFrom(outs, start, k) == Selection(Failed, start, |outs|)
    decreases |outs| - k
  {
    if k < |outs| {
      SelectFromNoSuccess(outs, start, k + 1);
    }
  }

  /** A whole scan, from the first step. */
  function Select(outs: seq<Outcome>, start: nat): Selection
    requires start < |outs|
  {
    SelectFrom(outs, start, 0)
  }

  /** A scan succeeds exactly when some service succeeds. */
  lemma SelectSucceedsIff(outs: seq<Outcome>, start: nat)
    requires start < |outs|
    ensures Select(outs, start).result.Ok? <==> exists i :: 0 <= i < |outs| && outs[i].Ok?
  {
    var s := Select(outs, start);
    if s.result.Failed? {
      forall i | 0 <= i < |outs| ensures outs[i].Failed? {
        RotationCovers(start, |outs|, i);
      }
    }
  }

  /** Whether the first count steps of a rotation from start reach service target. */
  ghost predicate Invokes(services: seq<Service>, start: nat, count: nat, target: Service)
    requires start < |services| && count <= |services|
  {
    exists k :: 0 <= k < count && services[RotationIndex(start, k, |services|)] == target
  }

  /** One more step of a rotation reaches target when the steps so far did or the new one does. */
  lemma InvokesStep(services: seq<Service>, start: nat, count: nat, target: Service)
    requires start < |services| && count < |services|
    ensures Invokes(services, start, count + 1, target) <==>
      (Invokes(services, start, count, target) || services[RotationIndex(start, count, |services|)] == target)
  {
    if services[RotationIndex(start, count, |services|)] == target {
      assert Invokes(services, start, count + 1, target);
    }
  }

  /**
   * The CountAPI client's state: the `initialized` latch guarding its one
   * create request, and how many create requests it has issued.
   */
  class CountApiService {
    var initialized: bool
    ghost var createRequests: nat

    /** The latch is set exactly when the create request has gone out, once. */
    ghost predicate Valid()
      reads this
    {
      createRequests == if initialized then 1 else 0
    }

    constructor ()
      ensures Valid() && !initialized && createRequests == 0
    {
      initialized := false;
      createRequests := 0;
    }

    /**
     * `ensureInitialized`: on the first call set the latch and issue the create
     * request; its failure is swallowed, and the latch stays set either way.
     */
    method EnsureInitialized()
      requires Valid()
      modifies this
      ensures Valid() && initialized
      ensures createRequests == old(createRequests) + (if old(initialized) then 0 else 1)
    {
      if initialized {
        return;
      }
      initialized := true;
      createRequests := createRequests + 1;
    }
  }
}
