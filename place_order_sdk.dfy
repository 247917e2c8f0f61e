/** `PlaceOrderSDK`: place the same order for several clients through the vendor SDK,
    one task per stored credential, after a layered validation of the request. */
module PlaceOrderSdk {
  import opened Common
  import opened Credentials

  /** The request body; "" stands for an absent string field, None for an absent
      or non-array list, and an absent `price` is None. */
  datatype PlaceRequest = PlaceRequest(
    clientIds: Option<seq<string>>,
    exchange: string,
    symbolToken: string,
    buyOrSell: string,
    productType: string,
    orderDuration: string,
    price: Option<int>,
    quantityInLot: Option<seq<int>>,
    orderType: string,
    amoOrder: string)

  /** A batch-level rejection: HTTP status and `{status, message, errorcode}`. */
  datatype Rejection = Rejection(code: int, status: string, message: string, errorcode: string)

  /** One element of the result array; `uniqueorderid` is absent on errors. */
  datatype PlaceResult = PlaceResult(
    clientId: string,
    status: string,
    message: string,
    errorcode: string,
    uniqueOrderId: Option<string>)

  datatype PlaceResponse = Rejected(rejection: Rejection) | Placed(results: seq<PlaceResult>)

  /** The payload of one client's order. */
  datatype OrderData = OrderData(
    clientCode: string,
    exchange: string,
    symbolToken: string,
    buyOrSell: string,
    productType: string,
    orderDuration: string,
    price: Option<int>,
    quantityInLot: int,
    orderType: string,
    amoOrder: string)

  /** The machine descriptors fetched once per request. */
  datatype Env = Env(localIp: string, macAddress: string, publicIp: string)

  /** What the SDK object of one task is configured with when it places the order. */
  datatype Session = Session(
    apiKey: string,
    sourceType: string,
    localIp: string,
    macAddress: string,
    publicIp: string,
    authToken: string)

  /** `Login`: no reply object, a reply (`status`, `message`, `AuthToken`), or an exception. */
  datatype LoginReply =
    | NoLoginReply
    | LoginReply(status: string, message: string, authToken: string)
    | LoginThrown(error: Thrown)

  /** `PlaceOrder`: no reply object, a reply, or an exception. */
  datatype OrderReply =
    | NoOrderReply
    | OrderReply(status: string, message: string, errorcode: string, uniqueOrderId: string, dataUniqueOrderId: string)
    | OrderThrown(error: Thrown)

  /** One entry of `os.networkInterfaces()`. */
  datatype NetInterface = NetInterface(family: string, internal: bool, address: string)
  datatype InterfaceGroup = InterfaceGroup(name: string, entries: seq<NetInterface>)

  predicate IsExternalIPv4(n: NetInterface) {
    n.family == "IPv4" && !n.internal
  }

  /** Every interface entry, group by group, in iteration order. */
  function AllEntries(groups: seq<InterfaceGroup>): seq<NetInterface> {
    if groups == [] then []
    else AllEntries(groups[..|groups| - 1]) + groups[|groups| - 1].entries
  }

  /** The address of the first external IPv4 entry, else the loopback address. */
  function FirstExternal(es: seq<NetInterface>): (ip: string)
    ensures (exists k :: 0 <= k < |es| && IsExternalIPv4(es[k])) ==>
      exists k :: (0 <= k < |es| && IsExternalIPv4(es[k]) && ip == es[k].address &&
        forall j :: 0 <= j < k ==> !IsExternalIPv4(es[j]))
    ensures (forall k :: 0 <= k < |es| ==> !IsExternalIPv4(es[k])) ==> ip == "127.0.0.1"
  {
    if es == [] then "127.0.0.1"
    else if IsExternalIPv4(es[0]) then es[0].address
    else
      var ip := FirstExternal(es[1..]);
      assert forall k :: 1 <= k < |es| ==> es[k] == es[1..][k - 1];
      ip
  }

  lemma AllEntriesStep(groups: seq<InterfaceGroup>, i: nat)
    requires i < |groups|
    ensures AllEntries(groups[..i + 1]) == AllEntries(groups[..i]) + groups[i].entries
  {
    assert groups[..i + 1][..i] == groups[..i];
  }

  lemma {:induction false} AllEntriesPrefix(groups: seq<InterfaceGroup>, i: nat)
    requires i <= |groups|
    ensures AllEntries(groups[..i]) <= AllEntries(groups)
    decreases |groups| - i
  {
    if i < |groups| {
      AllEntriesPrefix(groups, i + 1);
      AllEntriesStep(groups, i);
    } else {
      assert groups[..i] == groups;
    }
  }

  /** A first external entry fixes the result: what comes after it does not matter. */
  lemma {:induction false} FirstExternalAt(es: seq<NetInterface>, k: nat)
    requires k < |es| && IsExternalIPv4(es[k])
    requires forall j :: 0 <= j < k ==> !IsExternalIPv4(es[j])
    ensures FirstExternal(es) == es[k].address
  {
    if k > 0 {
      assert forall j :: 0 <= j < k - 1 ==> es[1..][j] == es[j + 1];
      FirstExternalAt(es[1..], k - 1);
    }
  }

  /** `getLocalIp`: the nested search with early return over the interface table. */
  method GetLocalIp(groups: seq<InterfaceGroup>) returns (ip: string)
    ensures ip == FirstExternal(AllEntries(groups))
  {
    var i := 0;
    while i < |groups|
      invariant 0 <= i <= |groups|
      invariant forall k :: 0 <= k < |AllEntries(groups[..i])| ==> !IsExternalIPv4(AllEntries(groups[..i])[k])
    {
      var entries := groups[i].entries;
      ghost var seen := AllEntries(groups[..i]);
      var j := 0;
      while j < |entries|
        invariant 0 <= j <= |entries|
        invariant forall k :: 0 <= k < |seen| + j ==> !IsExternalIPv4((seen + entries)[k])
      {
        if IsExternalIPv4(entries[j]) {
          AllEntriesStep(groups, i);
          AllEntriesPrefix(groups, i + 1);
          ghost var all := AllEntries(groups);
          assert all[|seen| + j] == entries[j];
          assert forall k :: 0 <= k < |seen| + j ==> all[k] == (seen + entries)[k];
          FirstExternalAt(all, |seen| + j);
          return entries[j].address;
        }
        j := j + 1;
      }
      AllEntriesStep(groups, i);
      i := i + 1;
    }
    assert groups[..i] == groups;
    ip := "127.0.0.1";
  }

  const InvalidIds := Rejection(400, ERROR, "client_ids array is required and cannot be empty", MO8001)
  const MissingFields := Rejection(400, ERROR, "Missing required order fields or quantityinlot mismatch", MO8002)

  /** Every required field is truthy and `quantityinlot` is an array aligned with `client_ids`. */
  predicate FieldsPresent(req: PlaceRequest)
    requires req.clientIds.Some?
  {
    && Truthy(req.exchange) && Truthy(req.symbolToken) && Truthy(req.buyOrSell)
    && Truthy(req.productType) && Truthy(req.orderDuration)
    && req.quantityInLot.Some? && |req.quantityInLot.value| == |req.clientIds.value|
  }

  /** The two validation layers, in the order the handler checks them. */
  function Validate(req: PlaceRequest): (r: Option<Rejection>)
    ensures r.None? <==> NonEmptyList(req.clientIds) && FieldsPresent(req)
  {
    if !NonEmptyList(req.clientIds) then Some(InvalidIds)
    else if !FieldsPresent(req) then Some(MissingFields)
    else None
  }

  predicate Accepted(req: PlaceRequest) {
    NonEmptyList(req.clientIds) && FieldsPresent(req)
  }

  /** `client_ids.indexOf(id)`: the first position of `id`. */
  function IndexOf(ids: seq<string>, id: string): (k: nat)
    requires id in ids
    ensures k < |ids| && ids[k] == id
    ensures forall j :: 0 <= j < k ==> ids[j] != id
  {
    if ids[0] == id then 0
    else
      var k := IndexOf(ids[1..], id);
      assert forall j :: 1 <= j <= k ==> ids[j] == ids[1..][j - 1];
      1 + k
  }

  /** The order of one credential: its own client code, the quantity at the first
      position of its client_id, and the price only when it is truthy. */
  function OrderDataFor(cred: Credential, req: PlaceRequest): (d: OrderData)
    requires Accepted(req) && cred.clientId in req.clientIds.value
    ensures d.clientCode == cred.clientId
    ensures d.quantityInLot == req.quantityInLot.value[IndexOf(req.clientIds.value, cred.clientId)]
    ensures d.price.Some? <==> req.price.Some? && req.price.value != 0
    ensures d.price.Some? ==> d.price == req.price
  {
    var k := IndexOf(req.clientIds.value, cred.clientId);
    OrderData(cred.clientId, req.exchange, req.symbolToken, req.buyOrSell, req.productType, req.orderDuration,
              if req.price.Some? && req.price.value != 0 then req.price else None,
              req.quantityInLot.value[k], req.orderType, req.amoOrder)
  }

  /** "MOB" for a token issued to the mobile source, "WEB" otherwise. */
  function SourceType(token: string): (s: string)
    ensures s == "MOB" <==> EndsWith(token, "_M")
    ensures s == "MOB" || s == "WEB"
  {
    if EndsWith(token, "_M") then "MOB" else "WEB"
  }

  /** The refresh guard as written: `auth_token || auth_token.length < 10`. */
  predicate RefreshGuard(token: string) {
    Truthy(token) || |token| < 10
  }

  /** The guard holds for every string token, so every task logs in first. */
  lemma RefreshGuardAlwaysHolds(token: string)
    ensures RefreshGuard(token)
  {
  }

  /** The token step of one task. */
  datatype TokenStep = KeepToken | NewToken(token: string) | TokenError(error: Thrown)

  function TokenStepFor(cred: Credential, reply: LoginReply): (step: TokenStep)
    ensures step.NewToken? <==>
      RefreshGuard(cred.authToken) && reply.LoginReply? && reply.status == SUCCESS && Truthy(reply.authToken)
    ensures step.NewToken? ==> step.token == reply.authToken
  {
    if !RefreshGuard(cred.authToken) then KeepToken
    else match reply
      case LoginReply(status, message, token) =>
        if status == SUCCESS && Truthy(token) then NewToken(token)
        else TokenError(Thrown("", "Failed to refresh token for " + cred.clientId + ": " + Or(message, "unknown error"), ""))
      case NoLoginReply =>
        TokenError(Thrown("", "Failed to refresh token for " + cred.clientId + ": unknown error", ""))
      case LoginThrown(e) => TokenError(e)
  }

  /** The result of a task whose SDK call threw. */
  function ErrorResult(clientId: string, e: Thrown): (r: PlaceResult)
    ensures r.clientId == clientId && r.status == ERROR && r.uniqueOrderId == None
    ensures r.errorcode == if Truthy(e.responseErrorcode) then e.responseErrorcode else MO8000
    ensures Truthy(r.message)
  {
    PlaceResult(clientId, ERROR, Or(e.responseMessage, Or(e.message, "Order placement failed")),
                Or(e.responseErrorcode, MO8000), None)
  }

  /** The result of a task whose order call returned: missing fields take their defaults. */
  function ReplyResult(clientId: string, reply: OrderReply): (r: PlaceResult)
    ensures r.clientId == clientId && Truthy(r.status) && Truthy(r.message)
    ensures reply.NoOrderReply? ==> r == PlaceResult(clientId, SUCCESS, "Order placed", "", Some(""))
    ensures reply.OrderReply? ==>
      && (r.status == if Truthy(reply.status) then reply.status else SUCCESS)
      && (r.message == if Truthy(reply.message) then reply.message else "Order placed")
      && r.errorcode == reply.errorcode
      && r.uniqueOrderId == Some(if Truthy(reply.uniqueOrderId) then reply.uniqueOrderId else reply.dataUniqueOrderId)
    ensures reply.OrderThrown? ==> r == ErrorResult(clientId, reply.error)
  {
    match reply
    case NoOrderReply => PlaceResult(clientId, SUCCESS, "Order placed", "", Some(""))
    case OrderReply(status, message, errorcode, uid, dataUid) =>
      PlaceResult(clientId, Or(status, SUCCESS), Or(message, "Order placed"), Or(errorcode, ""), Some(Or(uid, Or(dataUid, ""))))
    case OrderThrown(e) => ErrorResult(clientId, e)
  }

  /** The SDK configuration of a task before its token is set. */
  function SessionFor(cred: Credential, env: Env): Session {
    Session(cred.apiKey, SourceType(cred.authToken), env.localIp, env.macAddress, env.publicIp, "")
  }

  /** The result of one task, given its login reply. */
  function TaskResult(cred: Credential, data: OrderData, env: Env, reply: LoginReply,
                      place: (Session, OrderData) -> OrderReply): (r: PlaceResult)
    ensures r.clientId == cred.clientId
  {
    match TokenStepFor(cred, reply)
    case TokenError(e) => ErrorResult(cred.clientId, e)
    case KeepToken => ReplyResult(cred.clientId, place(SessionFor(cred, env).(authToken := cred.authToken), data))
    case NewToken(t) => ReplyResult(cred.clientId, place(SessionFor(cred, env).(authToken := t), data))
  }

  /** The store after one task: a refreshed token is written back. */
  function TaskWrite(records: seq<Credential>, cred: Credential, reply: LoginReply): seq<Credential> {
    match TokenStepFor(cred, reply)
    case NewToken(t) => WithToken(records, cred.clientId, t)
    case _ => records
  }

  /** One task: configure the SDK, refresh the token (writing it back), place the order. */
  method PlaceForCredential(
    store: CredentialStore,
    cred: Credential,
    data: OrderData,
    env: Env,
    login: Credential -> LoginReply,
    place: (Session, OrderData) -> OrderReply)
    returns (result: PlaceResult)
    modifies store
    ensures result == TaskResult(cred, data, env, login(cred), place)
    ensures store.records == TaskWrite(old(store.records), cred, login(cred))
  {
    var token := cred.authToken;
    var mo := SessionFor(cred, env);
    if RefreshGuard(token) {
      var loginResp := login(cred);
      if loginResp.LoginReply? && loginResp.status == SUCCESS && Truthy(loginResp.authToken) {
        token := loginResp.authToken;
        store.UpdateToken(cred.clientId, token);
      } else {
        var step := TokenStepFor(cred, loginResp);
        return ErrorResult(cred.clientId, step.error);
      }
    }
    mo := mo.(authToken := token);
    var response := place(mo, data);
    result := ReplyResult(cred.clientId, response);
  }

  /** The results of the tasks of `creds`, in credential order. */
  function TaskResults(creds: seq<Credential>, req: PlaceRequest, env: Env,
                       login: Credential -> LoginReply, place: (Session, OrderData) -> OrderReply): (rs: seq<PlaceResult>)
    requires Accepted(req) && forall c :: c in creds ==> c.clientId in req.clientIds.value
    ensures |rs| == |creds|
  {
    if creds == [] then []
    else
      var n := |creds| - 1;
      TaskResults(creds[..n], req, env, login, place) +
        [TaskResult(creds[n], OrderDataFor(creds[n], req), env, login(creds[n]), place)]
  }

  /** Result `i` is the task of credential `i`, placing the order `OrderDataFor` builds for it. */
  lemma {:induction false} TaskResultsAt(creds: seq<Credential>, req: PlaceRequest, env: Env,
                                         login: Credential -> LoginReply, place: (Session, OrderData) -> OrderReply, i: nat)
    requires Accepted(req) && forall c :: c in creds ==> c.clientId in req.clientIds.value
    requires i < |creds|
    ensures TaskResults(creds, req, env, login, place)[i] ==
      TaskResult(creds[i], OrderDataFor(creds[i], req), env, login(creds[i]), place)
    decreases |creds|
  {
    var n := |creds| - 1;
    var prev := TaskResults(creds[..n], req, env, login, place);
    assert TaskResults(creds, req, env, login, place) ==
      prev + [TaskResult(creds[n], OrderDataFor(creds[n], req), env, login(creds[n]), place)];
    if i < n {
      TaskResultsAt(creds[..n], req, env, login, place, i);
      assert creds[..n][i] == creds[i];
      assert prev[i] == TaskResult(creds[i], OrderDataFor(creds[i], req), env, login(creds[i]), place);
      assert TaskResults(creds, req, env, login, place)[i] == prev[i];
    } else {
      assert TaskResults(creds, req, env, login, place)[i] == TaskResult(creds[n], OrderDataFor(creds[n], req), env, login(creds[n]), place);
    }
  }

  /** Every result is its own credential's task, in credential order. */
  lemma TaskResultsContents(creds: seq<Credential>, req: PlaceRequest, env: Env,
                            login: Credential -> LoginReply, place: (Session, OrderData) -> OrderReply)
    requires Accepted(req) && forall c :: c in creds ==> c.clientId in req.clientIds.value
    ensures forall i :: 0 <= i < |creds| ==>
      TaskResults(creds, req, env, login, place)[i] == TaskResult(creds[i], OrderDataFor(creds[i], req), env, login(creds[i]), place)
  {
    forall i | 0 <= i < |creds|
      ensures TaskResults(creds, req, env, login, place)[i] ==
        TaskResult(creds[i], OrderDataFor(creds[i], req), env, login(creds[i]), place)
    {
      TaskResultsAt(creds, req, env, login, place, i);
    }
  }

  /** The store after the tasks of `creds`. */
  function WriteBacks(records: seq<Credential>, creds: seq<Credential>, login: Credential -> LoginReply): seq<Credential> {
    if creds == [] then records
    else
      var n := |creds| - 1;
      TaskWrite(WriteBacks(records, creds[..n], login), creds[n], login(creds[n]))
  }

  /** The whole handler as a function of the store it starts from. */
  function PlaceOutcome(records: seq<Credential>, req: PlaceRequest, env: Env,
                        login: Credential -> LoginReply, place: (Session, OrderData) -> OrderReply): (resp: PlaceResponse)
    ensures resp.Placed? <==> Accepted(req) && Missing(req.clientIds.value, records) == []
    ensures resp.Placed? ==> |resp.results| == |Lookup(records, req.clientIds.value)|
    ensures resp.Rejected? ==> resp.rejection.status == ERROR && resp.rejection.code == 400
  {
    match Validate(req)
    case Some(r) => Rejected(r)
    case None =>
      var ids := req.clientIds.value;
      MissingAfterLookup(ids, records);
      var creds := Lookup(records, ids);
      var missing := Missing(ids, creds);
      if |missing| > 0 then Rejected(Rejection(400, ERROR, MissingMessage(missing), MO8003))
      else Placed(TaskResults(creds, req, env, login, place))
  }

  /** The store after the handler. */
  function StoreAfter(records: seq<Credential>, req: PlaceRequest, login: Credential -> LoginReply): (store: seq<Credential>)
    ensures !(Accepted(req) && Missing(req.clientIds.value, records) == []) ==> store == records
  {
    if !Accepted(req) then records
    else
      var ids := req.clientIds.value;
      MissingAfterLookup(ids, records);
      var creds := Lookup(records, ids);
      if |Missing(ids, creds)| > 0 then records else WriteBacks(records, creds, login)
  }

  lemma WriteBacksStep(records: seq<Credential>, creds: seq<Credential>, login: Credential -> LoginReply, i: nat)
    requires i < |creds|
    ensures WriteBacks(records, creds[..i + 1], login) == TaskWrite(WriteBacks(records, creds[..i], login), creds[i], login(creds[i]))
  {
    assert creds[..i + 1][..i] == creds[..i];
  }

  lemma TaskResultsStep(creds: seq<Credential>, req: PlaceRequest, env: Env,
                        login: Credential -> LoginReply, place: (Session, OrderData) -> OrderReply, i: nat)
    requires Accepted(req) && forall c :: c in creds ==> c.clientId in req.clientIds.value
    requires i < |creds|
    ensures TaskResults(creds[..i + 1], req, env, login, place) ==
      TaskResults(creds[..i], req, env, login, place) +
        [TaskResult(creds[i], OrderDataFor(creds[i], req), env, login(creds[i]), place)]
  {
    assert creds[..i + 1][..i] == creds[..i];
  }

  /** The tasks of all fetched credentials, in credential order. */
  method RunTasks(
    store: CredentialStore,
    credentials: seq<Credential>,
    req: PlaceRequest,
    env: Env,
    login: Credential -> LoginReply,
    place: (Session, OrderData) -> OrderReply)
    returns (results: seq<PlaceResult>)
    requires Accepted(req) && forall c :: c in credentials ==> c.clientId in req.clientIds.value
    modifies store
    ensures results == TaskResults(credentials, req, env, login, place)
    ensures store.records == WriteBacks(old(store.records), credentials, login)
  {
    results := [];
    var i := 0;
    while i < |credentials|
      invariant 0 <= i <= |credentials|
      invariant results == TaskResults(credentials[..i], req, env, login, place)
      invariant store.records == WriteBacks(old(store.records), credentials[..i], login)
    {
      var cred := credentials[i];
      WriteBacksStep(old(store.records), credentials, login, i);
      TaskResultsStep(credentials, req, env, login, place, i);
      var orderData := OrderDataFor(cred, req);
      var result := PlaceForCredential(store, cred, orderData, env, login, place);
      results := results + [result];
      i := i + 1;
    }
    assert credentials[..i] == credentials;
  }

  /** The handler: validate, resolve credentials, then run one task per credential
      (`Promise.all` keeps credential order). */
  method PlaceOrderSDK(
    store: CredentialStore,
    req: PlaceRequest,
    interfaces: seq<InterfaceGroup>,
    macAddress: string,
    publicIp: string,
    login: Credential -> LoginReply,
    place: (Session, OrderData) -> OrderReply)
    returns (resp: PlaceResponse)
    modifies store
    ensures resp == PlaceOutcome(old(store.records), req, Env(FirstExternal(AllEntries(interfaces)), macAddress, publicIp), login, place)
    ensures store.records == StoreAfter(old(store.records), req, login)
  {
    var localIp := GetLocalIp(interfaces);
    var env := Env(localIp, macAddress, publicIp);
    var rejection := Validate(req);
    if rejection.Some? {
      return Rejected(rejection.value);
    }
    var ids := req.clientIds.value;
    var credentials := Lookup(store.records, ids);
    var missing := Missing(ids, credentials);
    if |missing| > 0 {
      return Rejected(Rejection(400, ERROR, MissingMessage(missing), MO8003));
    }
    var results := RunTasks(store, credentials, req, env, login, place);
    resp := Placed(results);
  }
}

/** What the order fan-out promises over all inputs. */
module PlaceOrderSdkProperties {
  import opened Common
  import opened Credentials
  import opened PlaceOrderSdk

  /** A request that fails either validation layer is rejected before the store is
      read: the answer and the store do not depend on the stored credentials. */
  lemma RejectionIgnoresStore(r1: seq<Credential>, r2: seq<Credential>, req: PlaceRequest, env: Env,
                              login: Credential -> LoginReply, place: (Session, OrderData) -> OrderReply)
    requires !Accepted(req)
    ensures PlaceOutcome(r1, req, env, login, place) == PlaceOutcome(r2, req, env, login, place)
    ensures PlaceOutcome(r1, req, env, login, place).Rejected?
    ensures PlaceOutcome(r1, req, env, login, place).rejection.errorcode ==
      if NonEmptyList(req.clientIds) then MO8002 else MO8001
    ensures StoreAfter(r1, req, login) == r1
  {
  }

  /** An accepted request is rejected with MO8003 exactly when some requested id has
      no stored record, and the message lists those ids in request order. */
  lemma MissingCredentialsRejected(records: seq<Credential>, req: PlaceRequest, env: Env,
                                   login: Credential -> LoginReply, place: (Session, OrderData) -> OrderReply)
    requires Accepted(req)
    ensures PlaceOutcome(records, req, env, login, place).Rejected? <==> |Missing(req.clientIds.value, records)| > 0
    ensures PlaceOutcome(records, req, env, login, place).Rejected? ==>
      PlaceOutcome(records, req, env, login, place).rejection ==
        Rejection(400, ERROR, MissingMessage(Missing(req.clientIds.value, records)), MO8003)
    ensures PlaceOutcome(records, req, env, login, place).Rejected? ==> StoreAfter(records, req, login) == records
  {
    MissingAfterLookup(req.clientIds.value, records);
  }

  lemma {:induction false} TaskResultsClientIds(creds: seq<Credential>, req: PlaceRequest, env: Env,
                                                login: Credential -> LoginReply, place: (Session, OrderData) -> OrderReply)
    requires Accepted(req) && forall c :: c in creds ==> c.clientId in req.clientIds.value
    ensures forall i :: 0 <= i < |creds| ==> TaskResults(creds, req, env, login, place)[i].clientId == creds[i].clientId
  {
    if creds != [] {
      var n := |creds| - 1;
      TaskResultsClientIds(creds[..n], req, env, login, place);
    }
  }

  /** With every credential present, the answer holds one result per stored
      credential, in store order, and every requested client gets a result. */
  lemma OneResultPerCredential(records: seq<Credential>, req: PlaceRequest, env: Env,
                               login: Credential -> LoginReply, place: (Session, OrderData) -> OrderReply)
    requires Accepted(req) && |Missing(req.clientIds.value, records)| == 0
    ensures PlaceOutcome(records, req, env, login, place).Placed?
    ensures |PlaceOutcome(records, req, env, login, place).results| == |Lookup(records, req.clientIds.value)|
    ensures forall i :: 0 <= i < |Lookup(records, req.clientIds.value)| ==>
      PlaceOutcome(records, req, env, login, place).results[i].clientId == Lookup(records, req.clientIds.value)[i].clientId
    ensures forall id :: id in req.clientIds.value ==>
      exists i :: 0 <= i < |PlaceOutcome(records, req, env, login, place).results| &&
        PlaceOutcome(records, req, env, login, place).results[i].clientId == id
  {
    var ids := req.clientIds.value;
    var creds := Lookup(records, ids);
    MissingAfterLookup(ids, records);
    var rs := TaskResults(creds, req, env, login, place);
    TaskResultsClientIds(creds, req, env, login, place);
    forall id | id in ids
      ensures exists i :: 0 <= i < |rs| && rs[i].clientId == id
    {
      assert id !in Missing(ids, creds);
      var i :| 0 <= i < |creds| && creds[i].clientId == id;
      assert rs[i].clientId == id;
    }
  }

  /** Every task result carries a status and a message; a result without an order id is an error. */
  lemma TaskResultShape(cred: Credential, data: OrderData, env: Env, reply: LoginReply,
                        place: (Session, OrderData) -> OrderReply)
    ensures TaskResult(cred, data, env, reply, place).clientId == cred.clientId
    ensures Truthy(TaskResult(cred, data, env, reply, place).status)
    ensures Truthy(TaskResult(cred, data, env, reply, place).message)
    ensures TaskResult(cred, data, env, reply, place).uniqueOrderId.None? ==>
      TaskResult(cred, data, env, reply, place).status == ERROR
  {
  }

  /** A failed login ends the task with an ERROR result and leaves the store alone. */
  lemma LoginFailureIsError(records: seq<Credential>, cred: Credential, data: OrderData, env: Env, reply: LoginReply,
                            place: (Session, OrderData) -> OrderReply)
    requires !(reply.LoginReply? && reply.status == SUCCESS && Truthy(reply.authToken))
    ensures TaskResult(cred, data, env, reply, place).status == ERROR
    ensures TaskResult(cred, data, env, reply, place).uniqueOrderId == None
    ensures TaskResult(cred, data, env, reply, place).errorcode ==
      if reply.LoginThrown? && Truthy(reply.error.responseErrorcode) then reply.error.responseErrorcode else MO8000
    ensures reply.LoginReply? ==>
      TaskResult(cred, data, env, reply, place).message ==
        "Failed to refresh token for " + cred.clientId + ": " + Or(reply.message, "unknown error")
    ensures TaskWrite(records, cred, reply) == records
  {
    RefreshGuardAlwaysHolds(cred.authToken);
  }

  /** A successful login: the order goes out with the new token, under the source
      type of the old one, and the new token is written back to the store. */
  lemma RefreshedTokenIsUsed(records: seq<Credential>, cred: Credential, data: OrderData, env: Env, reply: LoginReply,
                             place: (Session, OrderData) -> OrderReply)
    requires reply.LoginReply? && reply.status == SUCCESS && Truthy(reply.authToken)
    ensures TaskResult(cred, data, env, reply, place) ==
      ReplyResult(cred.clientId, place(Session(cred.apiKey, SourceType(cred.authToken), env.localIp,
                                               env.macAddress, env.publicIp, reply.authToken), data))
    ensures TaskWrite(records, cred, reply) == WithToken(records, cred.clientId, reply.authToken)
  {
    RefreshGuardAlwaysHolds(cred.authToken);
  }

  /** Token write-backs change tokens only: the store keeps its records, ids and keys. */
  lemma {:induction false} WriteBacksChangeOnlyTokens(records: seq<Credential>, creds: seq<Credential>,
                                                      login: Credential -> LoginReply)
    ensures |WriteBacks(records, creds, login)| == |records|
    ensures forall i :: 0 <= i < |records| ==>
      && WriteBacks(records, creds, login)[i].clientId == records[i].clientId
      && WriteBacks(records, creds, login)[i].apiKey == records[i].apiKey
  {
    if creds != [] {
      WriteBacksChangeOnlyTokens(records, creds[..|creds| - 1], login);
    }
  }

  /** A client listed twice gets one order, sized by its first position. */
  lemma DuplicateIdsPlaceOnce(env: Env, login: Credential -> LoginReply, place: (Session, OrderData) -> OrderReply)
    ensures var cred := Credential("C1", "key", "token");
      var req := PlaceRequest(Some(["C1", "C1"]), "NSE", "11536", "BUY", "NORMAL", "DAY", None, Some([2, 5]), "MARKET", "N");
      && PlaceOutcome([cred], req, env, login, place).Placed?
      && |PlaceOutcome([cred], req, env, login, place).results| == 1
      && OrderDataFor(cred, req).quantityInLot == 2
  {
    var cred := Credential("C1", "key", "token");
    var req := PlaceRequest(Some(["C1", "C1"]), "NSE", "11536", "BUY", "NORMAL", "DAY", None, Some([2, 5]), "MARKET", "N");
    var ids := req.clientIds.value;
    assert Lookup([cred], ids) == [cred];
    assert HasRecord([cred], "C1") by { assert [cred][0].clientId == "C1"; }
    assert Missing(ids, [cred]) == [];
  }
}
