/**
 * Values, the CLAMP macro, and the specification of a brightness session as a
 * function of the history of set_value requests made on it.
 */
module Brightness {

  /** A D-Bus "i" value: the C `int`/`gint` the session stores and sends. */
  newtype Int32 = x: int | -0x8000_0000 <= x < 0x8000_0000

  datatype Option<T> = None | Some(value: T)

  /** Timeout of the getBrightnessParams call, in milliseconds. */
  const PARAMS_TIMEOUT_MS: int := 400
  /**
   * -1: the proxy's default timeout (GDBus's 25 s, since this proxy sets none);
   * a setUserBrightness call that times out fails like any other.
   */
  const DEFAULT_TIMEOUT: int := -1

  /** brightness_params_t, in the field order of the "((iiiib))" reply. */
  datatype Params = Params(dim: Int32, min: Int32, max: Int32, dflt: Int32, abSupported: bool)

  /** The visible effects on powerd and on owned resources, in the order they happen. */
  datatype Event =
    | NewProxyForBus                                      // g_dbus_proxy_new_for_bus_sync, attempted
    | CallGetBrightnessParams(timeoutMs: int)
    | CallSetUserBrightness(value: Int32, timeoutMs: int)
    | NewCancellable                                      // g_cancellable_new
    | Cancel                                              // g_cancellable_cancel
    | ReleaseCancellable                                  // g_object_unref (gcancel)
    | ReleaseProxy                                        // g_object_unref (powerd_proxy)

  /** A bootstrap that connected and fetched the parameters leaves this log. */
  const BOOTSTRAP_OK_LOG: seq<Event> := [NewProxyForBus, CallGetBrightnessParams(PARAMS_TIMEOUT_MS)]

  /** What ib_brightness_powerd_control_free does, in order. */
  const TEARDOWN_LOG: seq<Event> := [Cancel, ReleaseCancellable, ReleaseProxy]

  /**
   * glib's CLAMP(x, low, high): the upper bound is tested first, so when the
   * range is inverted (high < low) every x above high gives high and every
   * other x gives low.
   */
  function Clamp(x: Int32, low: Int32, high: Int32): (r: Int32)
    ensures r == x || r == low || r == high
    ensures low <= high ==> low <= r <= high
    ensures low <= x <= high ==> r == x
    ensures x > high ==> r == high
    ensures x <= high && x < low ==> r == low
  {
    if x > high then high else if x < low then low else x
  }

  /** One call of set_value: the requested value and whether powerd accepted it. */
  datatype Request = Request(value: Int32, callOk: bool)

  /**
   * The session's `current` after the given set_value history: each accepted
   * request overwrites it with the clamped value, a refused one leaves it,
   * and before any accepted request it is the 0 of the zero-filled struct.
   */
  ghost function Current(p: Params, reqs: seq<Request>): (c: Int32)
    decreases |reqs|
  {
    if reqs == [] then 0
    else
      var last := reqs[|reqs| - 1];
      if last.callOk then Clamp(last.value, p.min, p.max) else Current(p, reqs[..|reqs| - 1])
  }

  /** The setUserBrightness calls a set_value history sends, one per request. */
  ghost function SentLog(p: Params, reqs: seq<Request>): (s: seq<Event>)
    decreases |reqs|
  {
    if reqs == [] then []
    else SentLog(p, reqs[..|reqs| - 1])
         + [CallSetUserBrightness(Clamp(reqs[|reqs| - 1].value, p.min, p.max), DEFAULT_TIMEOUT)]
  }

  /** Everything a session does, from construction to (optionally) its teardown. */
  ghost function SessionLog(p: Params, reqs: seq<Request>, terminated: bool): (s: seq<Event>)
  {
    [NewCancellable] + SentLog(p, reqs) + (if terminated then TEARDOWN_LOG else [])
  }

  /** One more set_value request: its call is appended and only an accepted one sets `current`. */
  lemma AppendRequest(p: Params, reqs: seq<Request>, r: Request)
    ensures SentLog(p, reqs + [r]) == SentLog(p, reqs) + [CallSetUserBrightness(Clamp(r.value, p.min, p.max), DEFAULT_TIMEOUT)]
    ensures Current(p, reqs + [r]) == if r.callOk then Clamp(r.value, p.min, p.max) else Current(p, reqs)
    ensures SessionLog(p, reqs + [r], false)
            == SessionLog(p, reqs, false) + [CallSetUserBrightness(Clamp(r.value, p.min, p.max), DEFAULT_TIMEOUT)]
  {
    assert (reqs + [r])[..|reqs + [r]| - 1] == reqs;
  }

  /** `current` is the clamped value of the most recent accepted request. */
  lemma {:induction false} CurrentIsLastAccepted(p: Params, reqs: seq<Request>, i: nat)
    requires i < |reqs| && reqs[i].callOk
    requires forall j :: i < j < |reqs| ==> !reqs[j].callOk
    ensures Current(p, reqs) == Clamp(reqs[i].value, p.min, p.max)
    decreases |reqs|
  {
    if i < |reqs| - 1 {
      CurrentIsLastAccepted(p, reqs[..|reqs| - 1], i);
    }
  }

  /** With no accepted request, `current` is still the zero fill. */
  lemma {:induction false} CurrentWithoutAcceptance(p: Params, reqs: seq<Request>)
    requires forall j :: 0 <= j < |reqs| ==> !reqs[j].callOk
    ensures Current(p, reqs) == 0
    decreases |reqs|
  {
    if reqs != [] {
      CurrentWithoutAcceptance(p, reqs[..|reqs| - 1]);
    }
  }

  /**
   * Over any history, `current` is either the zero fill or a value inside
   * the advertised range (when the service advertises min <= max), and in
   * the latter case it was the clamp of some accepted request.
   */
  lemma {:induction false} CurrentInRange(p: Params, reqs: seq<Request>)
    requires p.min <= p.max
    ensures var c := Current(p, reqs);
      c == 0 || (p.min <= c <= p.max
                 && exists i :: 0 <= i < |reqs| && reqs[i].callOk && c == Clamp(reqs[i].value, p.min, p.max))
    decreases |reqs|
  {
    if reqs != [] {
      var prefix := reqs[..|reqs| - 1];
      CurrentInRange(p, prefix);
      if !reqs[|reqs| - 1].callOk && Current(p, prefix) != 0 {
        var i :| 0 <= i < |prefix| && prefix[i].callOk
                 && Current(p, prefix) == Clamp(prefix[i].value, p.min, p.max);
        assert reqs[i] == prefix[i];
      } else if reqs[|reqs| - 1].callOk {
        assert Current(p, reqs) == Clamp(reqs[|reqs| - 1].value, p.min, p.max);
      }
    }
  }

  /**
   * Each set_value sends exactly one setUserBrightness, in request order,
   * carrying the clamped request and timeout -1 (GDBus's default).
   */
  lemma {:induction false} SentLogAt(p: Params, reqs: seq<Request>, k: nat)
    requires k < |reqs|
    ensures |SentLog(p, reqs)| == |reqs|
    ensures SentLog(p, reqs)[k] == CallSetUserBrightness(Clamp(reqs[k].value, p.min, p.max), DEFAULT_TIMEOUT)
    decreases |reqs|
  {
    SentLogLength(p, reqs);
    if k < |reqs| - 1 {
      SentLogAt(p, reqs[..|reqs| - 1], k);
    }
  }

  lemma {:induction false} SentLogLength(p: Params, reqs: seq<Request>)
    ensures |SentLog(p, reqs)| == |reqs|
    decreases |reqs|
  {
    if reqs != [] {
      SentLogLength(p, reqs[..|reqs| - 1]);
    }
  }

  /** The set_value calls of a session contain nothing but setUserBrightness calls. */
  lemma SentLogOnlyCalls(p: Params, reqs: seq<Request>)
    ensures forall k :: 0 <= k < |SentLog(p, reqs)| ==> SentLog(p, reqs)[k].CallSetUserBrightness?
  {
    SentLogLength(p, reqs);
    forall k | 0 <= k < |SentLog(p, reqs)|
      ensures SentLog(p, reqs)[k].CallSetUserBrightness?
    {
      SentLogAt(p, reqs, k);
    }
  }

  /**
   * The whole life of a session: a successful bootstrap, construction, any
   * set_value calls, and free. The proxy is created first and released last,
   * each exactly once, and getBrightnessParams is called once, right after; the cancellable is created once, then cancelled, then
   * released, each exactly once; and when min <= max every brightness sent to
   * powerd lies in [min, max].
   */
  lemma LifecycleProtocol(p: Params, reqs: seq<Request>)
    ensures var t := BOOTSTRAP_OK_LOG + SessionLog(p, reqs, true);
      && |t| == |reqs| + 6
      && t[0] == NewProxyForBus && NewProxyForBus !in t[1..]
      && t[|t| - 3..] == TEARDOWN_LOG
      && Cancel !in t[..|t| - 3] && ReleaseCancellable !in t[..|t| - 2] && ReleaseProxy !in t[..|t| - 1]
      && t[..3] == BOOTSTRAP_OK_LOG + [NewCancellable] && NewCancellable !in t[3..]
      && (forall k :: 2 <= k < |t| ==> !t[k].CallGetBrightnessParams?)
      && (p.min <= p.max ==>
            forall k :: 0 <= k < |t| && t[k].CallSetUserBrightness? ==> p.min <= t[k].value <= p.max)
  {
    var s := SentLog(p, reqs);
    var t := BOOTSTRAP_OK_LOG + SessionLog(p, reqs, true);
    SentLogOnlyCalls(p, reqs);
    SentLogLength(p, reqs);
    assert t == [NewProxyForBus, CallGetBrightnessParams(PARAMS_TIMEOUT_MS), NewCancellable] + s + TEARDOWN_LOG;
    assert t[1..] == [CallGetBrightnessParams(PARAMS_TIMEOUT_MS), NewCancellable] + s + TEARDOWN_LOG;
    assert t[3..] == s + TEARDOWN_LOG;
    assert t[..|t| - 3] == [NewProxyForBus, CallGetBrightnessParams(PARAMS_TIMEOUT_MS), NewCancellable] + s;
    assert t[..|t| - 2] == t[..|t| - 3] + [Cancel];
    assert t[..|t| - 1] == t[..|t| - 3] + [Cancel, ReleaseCancellable];
    forall k | 0 <= k < |t| && t[k].CallSetUserBrightness? && p.min <= p.max
      ensures p.min <= t[k].value <= p.max
    {
      assert 3 <= k < 3 + |s|;
      SentLogAt(p, reqs, k - 3);
    }
  }

  /**
   * When the service sends an inverted range (max < min), CLAMP sends max for
   * requests above max and min for every other request.
   */
  lemma ClampInvertedRange(x: Int32, low: Int32, high: Int32)
    requires high < low
    ensures Clamp(x, low, high) == if x > high then high else low
  {
  }

  /** Among the values of [low, high], CLAMP picks the one nearest the request. */
  lemma ClampIsNearest(x: Int32, low: Int32, high: Int32, y: Int32)
    requires low <= y <= high
    ensures var r := Clamp(x, low, high) as int;
      var d := (x as int) - r;
      var e := (x as int) - (y as int);
      (if d >= 0 then d else -d) <= (if e >= 0 then e else -e)
  {
  }
}
