# powerd brightness control, modelled in Dafny

This project models the brightness control of indicator-power
(`src/ib-brightness-powerd-control.c`). The control is a client of the
`com.canonical.powerd` system service. It has two parts:

- **Bootstrap** (`powerd_get_proxy`, `getBrightnessParams`): connect to powerd.
  Then fetch its brightness parameters (dim, min, max, default, auto-brightness
  support) under a 400 ms timeout, writing them into the caller's
  `brightness_params_t`.
- **Session** (`IbBrightnessPowerdControl`): copies the parameters and creates a
  cancellable. It keeps `current`, the last value powerd confirmed. `set_value`
  sends `CLAMP(value, min, max)` through `setUserBrightness`. `free` cancels,
  then releases the cancellable, then releases the proxy.

The files:

- `brightness.dfy`, module `Brightness`. It holds the values: `Int32` for the
  C `int`/`gint` that D-Bus carries as `i`, the parameters, and the events the
  code causes (remote calls, creation and release of resources). It states
  glib's `CLAMP` exactly as the macro tests it. It also holds the specification
  of a session as functions of its history of set_value requests: `Current`
  gives the value `current` then holds, and `SentLog`/`SessionLog` the calls
  and releases made. `CurrentIsLastAccepted`, `CurrentWithoutAcceptance`,
  `CurrentInRange`, `SentLogAt` and `SentLogLength` are proved by induction on
  the history; `LifecycleProtocol` is built from them.
- `powerd_control.dfy`, module `PowerdControl`. This is the imperative code.
  Class `ParamsOut` is the `brightness_params_t` that the bootstrap fills
  through pointers. `PowerdGetProxy` is the exported `powerd_get_proxy`;
  `GetBrightnessParams` and `SetUserBrightness` are the two static helpers.
  Class `Control` is the session object, with the struct's fields; the
  negotiated parameters are constants, so nothing can change them after
  construction. A ghost request history and a ghost event log are tied to the
  remaining fields by `Valid()`.

Every remote outcome is an input to the model:

- the connection: `connectOk`
- the parameter reply: `ParamsReply`, which is either the five-field tuple or
  a failure with or without a GDBus error
- each setUserBrightness reply: `callOk`

Three behaviours of the code that the model keeps as written:

- If getBrightnessParams fails and GDBus sets no error, the code gives no
  warning. So `warned` holds only for a reported error other than
  `G_DBUS_ERROR_SERVICE_UNKNOWN`.
- The bootstrap returns a nullable proxy, as the C code does, not a typed error.
- Before the first confirmed set_value, `current` is 0, the zero fill of
  `g_new0`. When construction's initial set_value fails, the session keeps
  that 0.

## Model

| member | source | states |
|---|---|---|
| `Brightness.Clamp` | src/ib-brightness-powerd-control.c:155 | The value CLAMP produces is the request, the minimum or the maximum. When min <= max it lies in [min, max], and a request already in range is sent unchanged. A request above max always yields max, whatever the range, and a request below min and not above max yields min. |
| `Brightness.ClampInvertedRange` | src/ib-brightness-powerd-control.c:155 | If powerd sends max < min, a request above max yields max and every other request yields min. |
| `Brightness.ClampIsNearest` | src/ib-brightness-powerd-control.c:155 | The clamped value is at least as close to the request as any other value in [min, max]. |
| `Brightness.CurrentIsLastAccepted` | src/ib-brightness-powerd-control.c:155-160 | After any history of set_value calls, `current` is the clamp of the most recent request that powerd accepted. Later refused requests change nothing. |
| `Brightness.CurrentWithoutAcceptance` | src/ib-brightness-powerd-control.c:131 | If powerd has refused every request, `current` is still the 0 that `g_new0` wrote. |
| `Brightness.CurrentInRange` | src/ib-brightness-powerd-control.c:155-160 | When min <= max, `current` is always either 0 or a value in [min, max]. In the second case it is the clamp of some accepted request. |
| `Brightness.SentLogAt` | src/ib-brightness-powerd-control.c:155-156 | Each set_value call sends exactly one setUserBrightness, in request order. It carries CLAMP(value, min, max) and timeout -1 (GDBus's default). |
| `Brightness.LifecycleProtocol` | src/ib-brightness-powerd-control.c:25-182 | Over a whole session (successful bootstrap, construction, any set_value calls, free), the proxy is created first and released last, each exactly once; getBrightnessParams is called exactly once; and the log opens with the connection, the getBrightnessParams call and the creation of the cancellable. The cancellable is created, cancelled and released in that order, once each, and nothing follows the teardown. When min <= max, every value sent lies in [min, max]. |
| `PowerdControl.GetBrightnessParams` | src/ib-brightness-powerd-control.c:63-90 | Makes one getBrightnessParams call with the 400 ms timeout. It succeeds exactly when there is a reply, and then stores dim, min, max, default and ab_supported in that order. On failure it writes nothing. It warns exactly when GDBus reported an error other than "service unknown". |
| `PowerdControl.PowerdGetProxy` | src/ib-brightness-powerd-control.c:25-60 | If the connection fails: returns null, makes no getBrightnessParams call, leaves params untouched. If the fetch fails: releases the proxy once and returns null. If both succeed: returns a fresh proxy that is never released, with params equal to the fetched tuple. |
| `PowerdControl.SetUserBrightness` | src/ib-brightness-powerd-control.c:92-110 | Makes one setUserBrightness call with the given value and timeout -1 (GDBus's default). It reports success exactly when powerd replies, and warns on every failure. |
| `PowerdControl.Control.constructor` | src/ib-brightness-powerd-control.c:126-148 | Keeps the proxy, creates a fresh cancellable and copies every parameter verbatim. Sends exactly one setUserBrightness(CLAMP(dflt, min, max)). `current` is that clamped default on success and 0 on failure, and the failure's warning is recorded. |
| `PowerdControl.Control.SetValue` | src/ib-brightness-powerd-control.c:150-161 | Logs exactly one call with CLAMP(value, min, max). `current` becomes that value when the call succeeds and is unchanged when it fails, and a failure gives a warning. Only `current`, the history and the log may change (the parameters are constants), and the session invariant is kept. |
| `PowerdControl.Control.GetValue` | src/ib-brightness-powerd-control.c:163-167 | Returns `current`, which is the value the request history determines. When min <= max it is 0 or in [min, max]. It changes nothing. |
| `PowerdControl.Control.GetMaxValue` | src/ib-brightness-powerd-control.c:169-173 | Returns the negotiated max and changes nothing. When min <= max, the confirmed value is 0 or at most this max. |
| `PowerdControl.Control.Free` | src/ib-brightness-powerd-control.c:175-182 | Appends Cancel, then the release of the cancellable, then the release of the proxy to the log, each once. The session is then terminated, and every operation requires a session that is not terminated. |

## Left out

- Creating the D-Bus proxy and performing calls (`g_dbus_proxy_new_for_bus_sync`, `g_dbus_proxy_call_sync`): these are foreign library calls. Their outcomes are inputs. The bus, service name, object path and interface `com.canonical.powerd` are not represented.
- GVariant marshalling of `"((iiiib))"` and `"(i)"`: the reply arrives already unpacked as a five-field tuple of `Int32`/`bool`.
- What cancelling a GCancellable does to a call in flight: this needs concurrency. Cancelling is only a logged event.
- Timeouts: they are timing, not logic. Each call event records its timeout as a number (400 ms, or -1 for GDBus's default).
- Log messages (`g_debug`, `g_warning`) are reduced to a `warned` flag where the code decides whether to warn. GError freeing, `g_variant_unref` and reference counting are left out, except for the three `g_object_unref` call sites (the proxy after a failed fetch, the cancellable and the proxy in `free`), which are logged events, and `g_free`, which becomes the `terminated` flag.
- The `g_return_val_if_fail (params != NULL, NULL)` guard: `params` has a non-null class type, so a null argument cannot occur.
- A session used after `free`: in C this is use of freed memory. Every Control operation therefore requires a session that is not terminated.
