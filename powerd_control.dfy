/**
 * The powerd brightness control: connecting to powerd and fetching its
 * brightness parameters, and the session object that pushes clamped user
 * values to powerd. Every remote call's outcome is an input; the calls and
 * releases the code performs are recorded in ghost logs of Brightness.Event.
 */
module PowerdControl {
  import opened Brightness

  /** A GDBusProxy for com.canonical.powerd; only its identity matters here. */
  class Proxy {
    constructor () {}
  }

  /** A GCancellable; cancelling it is recorded as an Event. */
  class Cancellable {
    constructor () {}
  }

  /** How getBrightnessParams failed, when GDBus reports an error. */
  datatype DBusError = ServiceUnknown | OtherError

  /** The outcome of the getBrightnessParams call: the "((iiiib))" tuple, or a failure. */
  datatype ParamsReply =
    | Reply(body: (Int32, Int32, Int32, Int32, bool))
    | CallFailed(error: Option<DBusError>)

  /** The caller's brightness_params_t, which the bootstrap fills through pointers. */
  class ParamsOut {
    var dim: Int32
    var min: Int32
    var max: Int32
    var dflt: Int32
    var abSupported: bool

    constructor (p: Params)
      ensures Value() == p
    {
      dim, min, max, dflt, abSupported := p.dim, p.min, p.max, p.dflt, p.abSupported;
    }

    function Value(): Params
      reads this
    {
      Params(dim, min, max, dflt, abSupported)
    }
  }

  /**
   * getBrightnessParams: one call with the 400 ms timeout. On success the
   * five reply fields are stored in order; on failure nothing is written and
   * a warning is given unless GDBus reported that the service is unknown.
   */
  method GetBrightnessParams(proxy: Proxy, reply: ParamsReply, params: ParamsOut)
    returns (ok: bool, warned: bool, ghost log: seq<Event>)
    modifies params
    ensures log == [CallGetBrightnessParams(PARAMS_TIMEOUT_MS)]
    ensures ok <==> reply.Reply?
    ensures ok ==> params.dim == reply.body.0 && params.min == reply.body.1 && params.max == reply.body.2
                   && params.dflt == reply.body.3 && params.abSupported == reply.body.4
    ensures !ok ==> params.Value() == old(params.Value())
    ensures warned <==> reply == CallFailed(Some(OtherError))
  {
    log := [CallGetBrightnessParams(PARAMS_TIMEOUT_MS)];
    warned := false;
    match reply
    case CallFailed(error) =>
      if error.Some? && error.value != ServiceUnknown {
        warned := true;
      }
      ok := false;
    case Reply(body) =>
      params.dim := body.0;
      params.min := body.1;
      params.max := body.2;
      params.dflt := body.3;
      params.abSupported := body.4;
      ok := true;
  }

  /**
   * powerd_get_proxy: connect to powerd on the system bus, then fetch the
   * brightness parameters. A failed connection returns null without any call;
   * a failed fetch releases the proxy and returns null; otherwise the proxy is
   * returned, still held, and `params` holds the fetched tuple.
   */
  method PowerdGetProxy(connectOk: bool, reply: ParamsReply, params: ParamsOut)
    returns (proxy: Proxy?, warned: bool, ghost log: seq<Event>)
    modifies params
    ensures !connectOk ==> proxy == null && !warned && log == [NewProxyForBus]
    ensures !connectOk || reply.CallFailed? ==> params.Value() == old(params.Value())
    ensures connectOk && reply.CallFailed? ==>
      && proxy == null
      && log == BOOTSTRAP_OK_LOG + [ReleaseProxy]
      && (warned <==> reply.error == Some(OtherError))
    ensures connectOk && reply.Reply? ==>
      && proxy != null && fresh(proxy)
      && log == BOOTSTRAP_OK_LOG
      && !warned
      && params.Value() == Params(reply.body.0, reply.body.1, reply.body.2, reply.body.3, reply.body.4)
  {
    log := [NewProxyForBus];
    warned := false;
    if !connectOk {
      return null, false, log;
    }
    proxy := new Proxy();
    var ok; ghost var callLog;
    ok, warned, callLog := GetBrightnessParams(proxy, reply, params);
    log := log + callLog;
    if !ok {
      log := log + [ReleaseProxy];
      proxy := null;
    }
  }

  /**
   * setUserBrightness: one call with the given value, timeout -1 (GDBus's
   * default) and the session's cancellable; it succeeds exactly when powerd replies, and warns
   * otherwise.
   */
  method SetUserBrightness(proxy: Proxy, gcancel: Cancellable, brightness: Int32, callOk: bool)
    returns (ok: bool, warned: bool, ghost event: Event)
    ensures ok == callOk && warned == !callOk
    ensures event == CallSetUserBrightness(brightness, DEFAULT_TIMEOUT)
  {
    event := CallSetUserBrightness(brightness, DEFAULT_TIMEOUT);
    ok, warned := callOk, !callOk;
  }

  /**
   * IbBrightnessPowerdControl: the negotiated parameters, constants that only
   * construction sets, and the last value powerd confirmed. The
   * ghost history `requests` lists every set_value call; Valid() says that
   * `current` and the log are the ones that history determines.
   */
  class Control {
    const proxy: Proxy
    const gcancel: Cancellable
    const dim: Int32
    const min: Int32
    const max: Int32
    const dflt: Int32
    const abSupported: bool
    var current: Int32
    /** Set by Free; no operation may be called afterwards. */
    var terminated: bool
    ghost var requests: seq<Request>
    ghost var log: seq<Event>
    /** Whether the initial set_value of construction gave its warning. */
    ghost var initWarned: bool

    function Negotiated(): Params
      reads this
    {
      Params(dim, min, max, dflt, abSupported)
    }

    ghost predicate Valid()
      reads this
    {
      && current == Current(Negotiated(), requests)
      && log == SessionLog(Negotiated(), requests, terminated)
    }

    /**
     * ib_brightness_powerd_control_new: copy the parameters, create the
     * cancellable, and push the default to powerd with one set_value.
     */
    constructor (powerdProxy: Proxy, params: Params, callOk: bool)
      ensures Valid() && !terminated
      ensures proxy == powerdProxy && fresh(gcancel)
      ensures Negotiated() == params
      ensures requests == [Request(params.dflt, callOk)]
      ensures log == [NewCancellable, CallSetUserBrightness(Clamp(params.dflt, params.min, params.max), DEFAULT_TIMEOUT)]
      ensures current == if callOk then Clamp(params.dflt, params.min, params.max) else 0
      ensures initWarned == !callOk
    {
      proxy := powerdProxy;
      gcancel := new Cancellable();
      dim := params.dim;
      min := params.min;
      max := params.max;
      dflt := params.dflt;
      abSupported := params.abSupported;
      current := 0;
      terminated := false;
      requests := [];
      log := [NewCancellable];
      new;
      var warned := SetValue(dflt, callOk);
      initWarned := warned;
    }

    /**
     * ib_brightness_powerd_control_set_value: send CLAMP(value, min, max) to
     * powerd; only a successful call overwrites `current`, and a failed one
     * gives a warning.
     */
    method SetValue(value: Int32, callOk: bool) returns (warned: bool)
      requires Valid() && !terminated
      modifies this`current, this`requests, this`log
      ensures Valid() && !terminated
      ensures warned == !callOk
      ensures requests == old(requests) + [Request(value, callOk)]
      ensures log == old(log) + [CallSetUserBrightness(Clamp(value, min, max), DEFAULT_TIMEOUT)]
      ensures current == if callOk then Clamp(value, min, max) else old(current)
    {
      var v := Clamp(value, min, max);
      var ok, w, event := SetUserBrightness(proxy, gcancel, v, callOk);
      warned := w;
      AppendRequest(Negotiated(), requests, Request(value, callOk));
      log := log + [event];
      requests := requests + [Request(value, callOk)];
      if ok {
        current := v;
      }
    }

    /** ib_brightness_powerd_control_get_value: the last value powerd confirmed. */
    function GetValue(): (v: Int32)
      reads this
      requires Valid() && !terminated
      ensures v == Current(Negotiated(), requests)
      ensures min <= max ==> v == 0 || min <= v <= max
    {
      if min <= max then CurrentInRange(Negotiated(), requests); current else current
    }

    /** ib_brightness_powerd_control_get_max_value: the negotiated maximum. */
    function GetMaxValue(): (v: Int32)
      reads this
      requires Valid() && !terminated
      ensures v == Negotiated().max
      ensures min <= v ==> GetValue() == 0 || GetValue() <= v
    {
      max
    }

    /**
     * ib_brightness_powerd_control_free: cancel, then release the
     * cancellable, then release the proxy; the session is then terminated.
     */
    method Free()
      requires Valid() && !terminated
      modifies this`terminated, this`log
      ensures Valid() && terminated
      ensures log == old(log) + TEARDOWN_LOG
    {
      log := log + [Cancel];
      log := log + [ReleaseCancellable];
      log := log + [ReleaseProxy];
      terminated := true;
    }
  }

  /**
   * A client of the contracts above: bootstrap against a powerd that offers
   * dim 10, range [0, 100] and default 50, then a session whose requests
   * above and below the range are clamped to its ends, then teardown.
   */
  method ExampleSession()
  {
    var out := new ParamsOut(Params(0, 0, 0, 0, false));
    var proxy, bootWarned, blog := PowerdGetProxy(true, Reply((10, 0, 100, 50, true)), out);
    assert proxy != null && !bootWarned && blog == BOOTSTRAP_OK_LOG;
    var c := new Control(proxy, out.Value(), true);
    assert c.GetValue() == 50;
    var w := c.SetValue(150, true);
    assert c.log[|c.log| - 1] == CallSetUserBrightness(100, DEFAULT_TIMEOUT);
    assert c.GetValue() == 100;
    w := c.SetValue(-5, false);
    assert w && c.GetValue() == 100;
    w := c.SetValue(-5, true);
    assert c.GetValue() == 0 && c.GetMaxValue() == 100;
    c.Free();
    assert c.log[|c.log| - 3..] == TEARDOWN_LOG;
    assert blog + c.log == BOOTSTRAP_OK_LOG + SessionLog(c.Negotiated(), c.requests, true);
    LifecycleProtocol(c.Negotiated(), c.requests);
  }
}
