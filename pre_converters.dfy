/**
 * `LockNamePreConverter` and its two implementations: the starter's default, which fills in
 * `{@userId}` from a request attribute, and the example application's, which fills in `{@ip}`
 * from the client address. Each looks for one literal token and replaces every occurrence of it;
 * every other `{...}` is left for the core converter.
 */
module PreConverters {
  import opened Results
  import opened JavaText
  import opened CallContext

  /** The value of a request attribute, as far as the `(Long)` cast is concerned. */
  datatype Attribute = LongAttribute(n: Long) | OtherAttribute(text: string)

  /**
   * The parts of the current `HttpServletRequest` the converters read: the `userId` attribute,
   * the `X-Forwarded-For` header and the remote address.
   */
  datatype Request = Request(userId: Option<Attribute>, forwardedFor: Option<string>, remoteAddr: string)

  /**
   * `RequestContextHolder.getRequestAttributes()`: no request bound to the thread, a servlet
   * request, or request attributes of another kind (the cast to `ServletRequestAttributes` fails).
   */
  datatype RequestContext = NoRequest | ServletRequest(request: Request) | OtherRequestAttributes

  /** What `preConvertLockName` does: return a name, return null, or throw. */
  datatype PreResult = Returned(name: string) | ReturnedNull | Threw

  /**
   * The pluggable hook: the starter's default bean, the example application's bean that displaces
   * it, or any other implementation, given as a function of the raw name, the call and the request.
   */
  datatype PreConverter =
    | DefaultPreConverter
    | MyPreConverter
    | CustomPreConverter(convert: (string, seq<Arg>, RequestContext) -> PreResult)

  const USER_ID_MATCH := "{@userId}"
  const CLIENT_IP_MATCH := "{@ip}"

  function PreConvert(pc: PreConverter, raw: string, args: seq<Arg>, ctx: RequestContext): PreResult {
    match pc
    case DefaultPreConverter => DefaultPreConvert(raw, ctx)
    case MyPreConverter => MyPreConvert(raw, ctx)
    case CustomPreConverter(convert) => convert(raw, args, ctx)
  }

  // ---------------------------------------------------------------- the default converter

  /**
   * `String.valueOf((Long) request.getAttribute("userId"))`, or "null" without a request;
   * None when a cast throws.
   */
  function UserIdText(ctx: RequestContext): (r: Option<string>)
    ensures r.None? <==> ctx.OtherRequestAttributes? || (ctx.ServletRequest? && ctx.request.userId.Some? && ctx.request.userId.value.OtherAttribute?)
    ensures ctx.ServletRequest? && ctx.request.userId.Some? && ctx.request.userId.value.LongAttribute?
            ==> r == Some(DecimalString(ctx.request.userId.value.n))
    ensures ctx.NoRequest? || (ctx.ServletRequest? && ctx.request.userId.None?) ==> r == Some("null")
  {
    match ctx
    case NoRequest => Some("null")
    case OtherRequestAttributes => None
    case ServletRequest(request) =>
      match request.userId
      case None => Some("null")
      case Some(LongAttribute(n)) => Some(DecimalString(n))
      case Some(OtherAttribute(_)) => None
  }

  /**
   * `DefaultLockNamePreConverter.preConvertLockName`. It never returns null, throws exactly when
   * the name contains `{@userId}` and the request or attribute has the wrong type, and leaves a
   * name without `{@userId}` as it is.
   */
  function DefaultPreConvert(raw: string, ctx: RequestContext): (r: PreResult)
    ensures !r.ReturnedNull?
    ensures r.Threw? <==> Contains(raw, USER_ID_MATCH) && UserIdText(ctx).None?
    ensures !Contains(raw, USER_ID_MATCH) ==> r == Returned(raw)
  {
    if Contains(raw, USER_ID_MATCH) then
      match UserIdText(ctx)
      case None => Threw
      case Some(userId) => Returned(ReplaceAll(raw, USER_ID_MATCH, userId))
    else Returned(raw)
  }

  /**
   * Whenever the user id can be read, the default converter is exactly "replace every
   * `{@userId}` by it": the `contains` test in front of the replacement changes nothing.
   */
  lemma DefaultPreConvertReplaces(raw: string, ctx: RequestContext)
    requires UserIdText(ctx).Some?
    ensures DefaultPreConvert(raw, ctx) == Returned(ReplaceAll(raw, USER_ID_MATCH, UserIdText(ctx).value))
  {
    if !Contains(raw, USER_ID_MATCH) {
      ReplaceAllAbsent(raw, USER_ID_MATCH, UserIdText(ctx).value);
    }
  }

  /** A `Long` user id is written in decimal and reads back as the same number. */
  lemma UserIdIsDecimal(raw: string, request: Request, n: Long)
    requires request.userId == Some(LongAttribute(n))
    ensures DefaultPreConvert(raw, ServletRequest(request)) == Returned(ReplaceAll(raw, USER_ID_MATCH, DecimalString(n)))
    ensures ParseDecimal(DecimalString(n)) == n
  {
    DefaultPreConvertReplaces(raw, ServletRequest(request));
    DecimalStringRoundTrip(n);
  }

  // ---------------------------------------------------------------- the example converter

  /**
   * The client address: the whole `X-Forwarded-For` header when present, else the remote
   * address; "null" without a request; None when the cast to servlet attributes throws.
   */
  function ClientIp(ctx: RequestContext): (r: Option<string>)
    ensures r.None? <==> ctx.OtherRequestAttributes?
    ensures ctx.NoRequest? ==> r == Some("null")
    ensures ctx.ServletRequest? && ctx.request.forwardedFor.Some? ==> r == Some(ctx.request.forwardedFor.value)
    ensures ctx.ServletRequest? && ctx.request.forwardedFor.None? ==> r == Some(ctx.request.remoteAddr)
  {
    match ctx
    case NoRequest => Some("null")
    case OtherRequestAttributes => None
    case ServletRequest(request) =>
      match request.forwardedFor
      case Some(header) => Some(header)
      case None => Some(request.remoteAddr)
  }

  /**
   * `MyLockNamePreConverter.convertClientIp`: throws exactly when the name contains `{@ip}` and
   * the request attributes are not servlet ones; a name without `{@ip}` is left as it is.
   */
  function ConvertClientIp(name: string, ctx: RequestContext): (r: PreResult)
    ensures !r.ReturnedNull?
    ensures r.Threw? <==> Contains(name, CLIENT_IP_MATCH) && ClientIp(ctx).None?
    ensures !Contains(name, CLIENT_IP_MATCH) ==> r == Returned(name)
  {
    if Contains(name, CLIENT_IP_MATCH) then
      match ClientIp(ctx)
      case None => Threw
      case Some(ip) => Returned(ReplaceAll(name, CLIENT_IP_MATCH, ip))
    else Returned(name)
  }

  /** `MyLockNamePreConverter.convertOther`: the hook for further conversions, empty here. */
  function ConvertOther(name: string): (r: string)
    ensures r == name
  {
    name
  }

  /**
   * `MyLockNamePreConverter.preConvertLockName`: the client address first, then the rest. It
   * never returns null, throws only where `convertClientIp` does, and passes a name without
   * `{@ip}` through unchanged, whatever the request.
   */
  function MyPreConvert(raw: string, ctx: RequestContext): (r: PreResult)
    ensures !r.ReturnedNull?
    ensures r.Threw? <==> Contains(raw, CLIENT_IP_MATCH) && ClientIp(ctx).None?
    ensures !Contains(raw, CLIENT_IP_MATCH) ==> r == Returned(raw)
  {
    match ConvertClientIp(raw, ctx)
    case Returned(name) => Returned(ConvertOther(name))
    case other => other
  }

  /**
   * Whenever the client address can be read, the example converter is exactly "replace every
   * `{@ip}` by it".
   */
  lemma MyPreConvertReplaces(raw: string, ctx: RequestContext)
    requires ClientIp(ctx).Some?
    ensures MyPreConvert(raw, ctx) == ConvertClientIp(raw, ctx)
    ensures MyPreConvert(raw, ctx) == Returned(ReplaceAll(raw, CLIENT_IP_MATCH, ClientIp(ctx).value))
  {
    if !Contains(raw, CLIENT_IP_MATCH) {
      ReplaceAllAbsent(raw, CLIENT_IP_MATCH, ClientIp(ctx).value);
    }
  }

  /**
   * The example converter does not know `{@userId}`: since it displaces the default bean, the
   * token reaches the core converter untouched.
   */
  lemma MyPreConvertKeepsUserId(ctx: RequestContext)
    ensures MyPreConvert(USER_ID_MATCH, ctx) == Returned(USER_ID_MATCH)
  {
    forall i: nat | i <= |USER_ID_MATCH| ensures !OccursAt(USER_ID_MATCH, CLIENT_IP_MATCH, i) {
      if i + 5 <= 9 {
        if i == 0 {
          assert USER_ID_MATCH[2] != CLIENT_IP_MATCH[2];
        } else {
          assert USER_ID_MATCH[i] != CLIENT_IP_MATCH[0];
        }
      }
    }
  }
}
