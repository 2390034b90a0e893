/**
 * The messages the worker and the Functions host exchange over their
 * bidirectional stream: the message structures, their `oneof` unions and the
 * code tables of their enumerations.
 *
 * Enumerated fields travel as raw 32-bit codes (`Int32`), exactly as in the
 * message structures; each enumeration has its code and a decoder that, like
 * the generated `from_i32`, yields no value for a code it does not know.
 * Maps become `map`, repeated fields `seq`, and optional sub-messages `Option`.
 */
module RpcMessages {
  import opened Wrappers

  // ---------------------------------------------------------------------
  // Scalars and opaque foreign payloads
  // ---------------------------------------------------------------------

  type Int32 = x: int | -0x8000_0000 <= x < 0x8000_0000
  type Int64 = x: int | -0x8000_0000_0000_0000 <= x < 0x8000_0000_0000_0000
  type Byte = x: int | 0 <= x < 0x100

  /** A 64-bit float, carried as its bit pattern; no arithmetic on it is modelled. */
  datatype Float64 = Float64(bits: bv64)

  /** A point in time, as seconds and nanoseconds since the epoch. */
  datatype Timestamp = Timestamp(seconds: Int64, nanos: Int32)

  /** A span of time, as seconds and nanoseconds. */
  datatype Duration = Duration(seconds: Int64, nanos: Int32)

  // ---------------------------------------------------------------------
  // Nullable wrappers
  // ---------------------------------------------------------------------

  /** The single variant of a nullable wrapper's `oneof`. */
  datatype NullableValue<T> = Value(value: T)

  /**
   * A nullable wrapper message: a `oneof` with the one variant `Value`.
   * A field of wrapper type is itself optional, so such a field has three
   * states: absent, present with its `oneof` unset, and present with a value.
   */
  datatype Nullable<T> = Nullable(inner: Option<NullableValue<T>>)

  type NullableString = Nullable<string>
  type NullableDouble = Nullable<Float64>
  type NullableBool = Nullable<bool>
  type NullableTimestamp = Nullable<Timestamp>

  /** The three states of an optional nullable field. */
  datatype NullableState<T> = Absent | Unset | Set(value: T)

  /** Which of its three states an optional nullable field is in. */
  function StateOf<T>(field: Option<Nullable<T>>): (s: NullableState<T>)
    ensures s.Absent? <==> field.None?
    ensures s.Unset? <==> field == Some(Nullable(Option.None))
    ensures s.Set? ==> field == Some(Nullable(Some(Value(s.value))))
  {
    if field.None? then Absent
    else if field.value.inner.None? then Unset
    else Set(field.value.inner.value.value)
  }

  /** The field that is in a given state: the inverse of StateOf. */
  function FieldOf<T>(s: NullableState<T>): Option<Nullable<T>> {
    match s
    case Absent => Option.None
    case Unset => Some(Nullable(Option.None))
    case Set(v) => Some(Nullable(Some(Value(v))))
  }

  /** No two distinct fields share a state: all three states are kept apart. */
  lemma NullableStatesRoundTrip<T>(field: Option<Nullable<T>>, s: NullableState<T>)
    ensures FieldOf(StateOf(field)) == field
    ensures StateOf(FieldOf(s)) == s
  {
  }

  /** A nullable field read as a plain optional value, ignoring the wrapper. */
  function AsOption<T>(field: Option<Nullable<T>>): (r: Option<T>)
    ensures r.Some? <==> StateOf(field).Set?
    ensures r.Some? ==> StateOf(field) == Set(r.value)
  {
    if field.Some? && field.value.inner.Some? then Some(field.value.inner.value.value) else Option.None
  }

  /**
   * Reading a nullable field as a plain optional value loses exactly one
   * distinction: an absent field and a present one without a value both read
   * as no value. Every other pair of distinct fields still reads differently,
   * so an absent string never reads as the empty string.
   */
  lemma CollapsingNullableLosesUnset<T>(f: Option<Nullable<T>>, g: Option<Nullable<T>>)
    ensures AsOption(f) == AsOption(g) <==> f == g || (!StateOf(f).Set? && !StateOf(g).Set?)
  {
    NullableStatesRoundTrip(f, StateOf(g));
    NullableStatesRoundTrip(g, StateOf(f));
  }

  /** The two states that collapse are nonetheless distinct fields. */
  lemma AbsentAndUnsetDiffer<T>()
    ensures AsOption<T>(Option.None) == AsOption<T>(Some(Nullable(Option.None)))
    ensures StateOf<T>(Option.None) != StateOf<T>(Some(Nullable(Option.None)))
  {
  }

  // ---------------------------------------------------------------------
  // Enumerations and their code tables
  // ---------------------------------------------------------------------

  /** StatusResult.Status. */
  datatype Status = Failure | Success | Cancelled {
    function Code(): Int32 {
      match this
      case Failure => 0
      case Success => 1
      case Cancelled => 2
    }
  }

  function StatusFromI32(code: Int32): (r: Option<Status>)
    ensures r.Some? ==> r.value.Code() == code
    ensures r.None? <==> !(0 <= code <= 2)
  {
    if code == 0 then Some(Failure)
    else if code == 1 then Some(Success)
    else if code == 2 then Some(Cancelled)
    else Option.None
  }

  /** FileChangeEventRequest.Type: the kinds of file change, as bit flags. */
  datatype FileChangeType = Unknown | Created | Deleted | Changed | Renamed | All {
    function Code(): Int32 {
      match this
      case Unknown => 0
      case Created => 1
      case Deleted => 2
      case Changed => 4
      case Renamed => 8
      case All => 15
    }

    /** The code as a bit pattern. */
    function Flags(): (b: bv32)
      ensures b as int == Code()
    {
      match this
      case Unknown => 0
      case Created => 1
      case Deleted => 2
      case Changed => 4
      case Renamed => 8
      case All => 15
    }
  }

  function FileChangeTypeFromI32(code: Int32): (r: Option<FileChangeType>)
    ensures r.Some? ==> r.value.Code() == code
    ensures r.None? <==> code !in {0, 1, 2, 4, 8, 15}
  {
    if code == 0 then Some(Unknown)
    else if code == 1 then Some(Created)
    else if code == 2 then Some(Deleted)
    else if code == 4 then Some(Changed)
    else if code == 8 then Some(Renamed)
    else if code == 15 then Some(All)
    else Option.None
  }

  predicate IsSingleBit(b: bv32) {
    b != 0 && b & (b - 1) == 0
  }

  /** The four concrete kinds of change. */
  const ConcreteChanges: seq<FileChangeType> := [Created, Deleted, Changed, Renamed]

  /** Each concrete kind is one bit of its own, `Unknown` is no bit, and `All` is every concrete bit. */
  lemma FileChangeFlags()
    ensures IsSingleBit(Created.Flags()) && IsSingleBit(Deleted.Flags())
    ensures IsSingleBit(Changed.Flags()) && IsSingleBit(Renamed.Flags())
    ensures forall i, j :: 0 <= i < j < |ConcreteChanges| ==>
      ConcreteChanges[i].Flags() & ConcreteChanges[j].Flags() == 0
    ensures Unknown.Flags() == 0
    ensures All.Flags() == Created.Flags() | Deleted.Flags() | Changed.Flags() | Renamed.Flags()
  {
  }

  /** WorkerActionResponse.Action. */
  datatype Action = Restart | Reload {
    function Code(): Int32 {
      match this
      case Restart => 0
      case Reload => 1
    }
  }

  function ActionFromI32(code: Int32): (r: Option<Action>)
    ensures r.Some? ==> r.value.Code() == code
    ensures r.None? <==> !(0 <= code <= 1)
  {
    if code == 0 then Some(Restart) else if code == 1 then Some(Reload) else Option.None
  }

  /** BindingInfo.Direction. */
  datatype Direction = In | Out | Inout {
    function Code(): Int32 {
      match this
      case In => 0
      case Out => 1
      case Inout => 2
    }
  }

  function DirectionFromI32(code: Int32): (r: Option<Direction>)
    ensures r.Some? ==> r.value.Code() == code
    ensures r.None? <==> !(0 <= code <= 2)
  {
    if code == 0 then Some(In)
    else if code == 1 then Some(Out)
    else if code == 2 then Some(Inout)
    else Option.None
  }

  /** BindingInfo.DataType. */
  datatype DataType = Undefined | String | Binary | Stream {
    function Code(): Int32 {
      match this
      case Undefined => 0
      case String => 1
      case Binary => 2
      case Stream => 3
    }
  }

  function DataTypeFromI32(code: Int32): (r: Option<DataType>)
    ensures r.Some? ==> r.value.Code() == code
    ensures r.None? <==> !(0 <= code <= 3)
  {
    if code == 0 then Some(Undefined)
    else if code == 1 then Some(DataType.String)
    else if code == 2 then Some(Binary)
    else if code == 3 then Some(DataType.Stream)
    else Option.None
  }

  /** RpcLog.Level, with the severities of the logging framework. */
  datatype Level = Trace | Debug | Information | Warning | Error | Critical | None {
    function Code(): Int32 {
      match this
      case Trace => 0
      case Debug => 1
      case Information => 2
      case Warning => 3
      case Error => 4
      case Critical => 5
      case None => 6
    }
  }

  function LevelFromI32(code: Int32): (r: Option<Level>)
    ensures r.Some? ==> r.value.Code() == code
    ensures r.None? <==> !(0 <= code <= 6)
  {
    if code == 0 then Some(Trace)
    else if code == 1 then Some(Debug)
    else if code == 2 then Some(Information)
    else if code == 3 then Some(Warning)
    else if code == 4 then Some(Error)
    else if code == 5 then Some(Critical)
    else if code == 6 then Some(Level.None)
    else Option.None
  }

  /** The levels in the order they are declared. */
  const LevelsInDeclarationOrder: seq<Level> :=
    [Trace, Debug, Information, Warning, Error, Critical, Level.None]

  /** `a` is declared before `b`. */
  predicate LevelBelow(a: Level, b: Level) {
    exists i, j :: 0 <= i < j < |LevelsInDeclarationOrder|
      && LevelsInDeclarationOrder[i] == a && LevelsInDeclarationOrder[j] == b
  }

  /** Each level sits in the declaration order at the index given by its code. */
  lemma LevelAtCode(l: Level)
    ensures 0 <= l.Code() < |LevelsInDeclarationOrder| && LevelsInDeclarationOrder[l.Code()] == l
  {
  }

  lemma CodeAtIndex(k: int)
    requires 0 <= k < |LevelsInDeclarationOrder|
    ensures LevelsInDeclarationOrder[k].Code() == k
  {
  }

  /**
   * The derived `Ord` compares discriminants; for `Level` that is the same
   * as comparing positions in the declaration.
   */
  lemma LevelOrderMatchesCodes(a: Level, b: Level)
    ensures LevelBelow(a, b) <==> a.Code() < b.Code()
  {
    if LevelBelow(a, b) {
      var i, j :| 0 <= i < j < |LevelsInDeclarationOrder|
        && LevelsInDeclarationOrder[i] == a && LevelsInDeclarationOrder[j] == b;
      CodeAtIndex(i);
      CodeAtIndex(j);
    } else {
      LevelAtCode(a);
      LevelAtCode(b);
    }
  }

  /** RpcHttpCookie.SameSite. */
  datatype SameSite = None | Lax | Strict {
    function Code(): Int32 {
      match this
      case None => 0
      case Lax => 1
      case Strict => 2
    }
  }

  function SameSiteFromI32(code: Int32): (r: Option<SameSite>)
    ensures r.Some? ==> r.value.Code() == code
    ensures r.None? <==> !(0 <= code <= 2)
  {
    if code == 0 then Some(SameSite.None)
    else if code == 1 then Some(Lax)
    else if code == 2 then Some(Strict)
    else Option.None
  }

  /** Each code table is one-to-one, so decoding an enumeration's code gives it back. */
  lemma CodeTablesRoundTrip(
    s: Status, f: FileChangeType, a: Action, d: Direction, t: DataType, l: Level, c: SameSite)
    ensures StatusFromI32(s.Code()) == Some(s)
    ensures FileChangeTypeFromI32(f.Code()) == Some(f)
    ensures ActionFromI32(a.Code()) == Some(a)
    ensures DirectionFromI32(d.Code()) == Some(d)
    ensures DataTypeFromI32(t.Code()) == Some(t)
    ensures LevelFromI32(l.Code()) == Some(l)
    ensures SameSiteFromI32(c.Code()) == Some(c)
  {
  }

  // ---------------------------------------------------------------------
  // Typed data and HTTP payloads
  // ---------------------------------------------------------------------

  /** TypedData: a value of one of seven kinds, or no value when `data` is unset. */
  datatype TypedData = TypedData(data: Option<Data>)

  /** The `oneof` of TypedData: exactly one kind per value. */
  datatype Data =
    | String(text: string)
    | Json(json: string)
    | Bytes(bytes: seq<Byte>)
    | Stream(stream: seq<Byte>)
    | Http(http: RpcHttp)
    | Int(integer: Int64)
    | Double(double: Float64)

  /** The field tag each kind of Data is written under. */
  function DataTag(d: Data): (tag: int)
    ensures tag in DataTags
  {
    match d
    case String(_) => 1
    case Json(_) => 2
    case Bytes(_) => 3
    case Stream(_) => 4
    case Http(_) => 5
    case Int(_) => 6
    case Double(_) => 7
  }

  /** The tags the `oneof` declares, in declaration order. */
  const DataTags: seq<int> := [1, 2, 3, 4, 5, 6, 7]

  /** Two values of Data are of the same kind: the same variant, whatever its payload. */
  predicate SameKind(a: Data, b: Data) {
    || (a.String? && b.String?)
    || (a.Json? && b.Json?)
    || (a.Bytes? && b.Bytes?)
    || (a.Stream? && b.Stream?)
    || (a.Http? && b.Http?)
    || (a.Int? && b.Int?)
    || (a.Double? && b.Double?)
  }

  /** A tag names exactly one kind of Data. */
  lemma DataTagDeterminesKind(a: Data, b: Data)
    ensures DataTag(a) == DataTag(b) <==> SameKind(a, b)
  {
  }

  /** The tags of the fields a TypedData populates: at most one, and none for no value. */
  function PopulatedTags(t: TypedData): (tags: set<int>)
    ensures |tags| <= 1
    ensures tags == {} <==> t.data.None?
    ensures forall tag :: tag in tags ==> tag in DataTags
  {
    if t.data.Some? then {DataTag(t.data.value)} else {}
  }

  /** HttpCookie. */
  datatype RpcHttpCookie = RpcHttpCookie(
    name: string,
    value: string,
    domain: Option<NullableString>,
    path: Option<NullableString>,
    expires: Option<NullableTimestamp>,
    secure: Option<NullableBool>,
    httpOnly: Option<NullableBool>,
    sameSite: Int32,
    maxAge: Option<NullableDouble>)

  /** A claim of a claims identity. */
  datatype RpcClaim = RpcClaim(value: string, claimType: string)

  /** A claims identity attached to an HTTP request. */
  datatype RpcClaimsIdentity = RpcClaimsIdentity(
    authenticationType: Option<NullableString>,
    nameClaimType: Option<NullableString>,
    roleClaimType: Option<NullableString>,
    claims: seq<RpcClaim>)

  /** An HTTP request or response; its bodies are typed data, which may itself be HTTP. */
  datatype RpcHttp = RpcHttp(
    requestMethod: string,
    url: string,
    headers: map<string, string>,
    body: Option<TypedData>,
    params: map<string, string>,
    statusCode: string,
    query: map<string, string>,
    enableContentNegotiation: bool,
    rawBody: Option<TypedData>,
    identities: seq<RpcClaimsIdentity>,
    cookies: seq<RpcHttpCookie>)

  /**
   * How deeply HTTP payloads nest inside a value. The nesting is finite:
   * every body and raw body sits strictly less deep than the payload holding it.
   */
  function HttpDepth(t: TypedData): (n: nat)
    ensures n == 0 <==> !(t.data.Some? && t.data.value.Http?)
    ensures t.data.Some? && t.data.value.Http? && t.data.value.http.body.Some? ==>
      HttpDepth(t.data.value.http.body.value) < n
    ensures t.data.Some? && t.data.value.Http? && t.data.value.http.rawBody.Some? ==>
      HttpDepth(t.data.value.http.rawBody.value) < n
  {
    match t.data
    case Some(Http(http)) =>
      var inBody := if http.body.Some? then HttpDepth(http.body.value) else 0;
      var inRawBody := if http.rawBody.Some? then HttpDepth(http.rawBody.value) else 0;
      1 + (if inBody < inRawBody then inRawBody else inBody)
    case _ => 0
  }

  // ---------------------------------------------------------------------
  // Messages
  // ---------------------------------------------------------------------

  datatype RpcException = RpcException(source: string, stackTrace: string, message: string)

  datatype RpcLog = RpcLog(
    invocationId: string,
    category: string,
    level: Int32,
    message: string,
    eventId: string,
    exception: Option<RpcException>,
    properties: string)

  /** The outcome of a request: its status code, a message, an exception and captured logs. */
  datatype StatusResult = StatusResult(
    status: Int32,
    result: string,
    exception: Option<RpcException>,
    logs: seq<RpcLog>)

  datatype BindingInfo = BindingInfo(bindingType: string, direction: Int32, dataType: Int32)

  datatype ParameterBinding = ParameterBinding(name: string, data: Option<TypedData>)

  datatype RpcFunctionMetadata = RpcFunctionMetadata(
    name: string,
    directory: string,
    scriptFile: string,
    entryPoint: string,
    bindings: map<string, BindingInfo>,
    isProxy: bool)

  datatype StartStream = StartStream(workerId: string)

  datatype WorkerInitRequest = WorkerInitRequest(
    hostVersion: string,
    capabilities: map<string, string>,
    logCategories: map<string, Int32>)

  datatype WorkerInitResponse = WorkerInitResponse(
    workerVersion: string,
    capabilities: map<string, string>,
    result: Option<StatusResult>)

  datatype WorkerHeartbeat = WorkerHeartbeat

  datatype WorkerTerminate = WorkerTerminate(gracePeriod: Option<Duration>)

  datatype WorkerStatusRequest = WorkerStatusRequest

  datatype WorkerStatusResponse = WorkerStatusResponse

  datatype FileChangeEventRequest = FileChangeEventRequest(changeType: Int32, fullPath: string, name: string)

  datatype WorkerActionResponse = WorkerActionResponse(action: Int32, reason: string)

  datatype FunctionLoadRequest = FunctionLoadRequest(
    functionId: string,
    metadata: Option<RpcFunctionMetadata>,
    managedDependencyEnabled: bool)

  datatype FunctionLoadResponse = FunctionLoadResponse(
    functionId: string,
    result: Option<StatusResult>,
    isDependencyDownloaded: bool)

  datatype InvocationRequest = InvocationRequest(
    invocationId: string,
    functionId: string,
    inputData: seq<ParameterBinding>,
    triggerMetadata: map<string, TypedData>)

  datatype InvocationCancel = InvocationCancel(invocationId: string, gracePeriod: Option<Duration>)

  datatype InvocationResponse = InvocationResponse(
    invocationId: string,
    outputData: seq<ParameterBinding>,
    returnValue: Option<TypedData>,
    result: Option<StatusResult>)

  datatype FunctionEnvironmentReloadRequest = FunctionEnvironmentReloadRequest(
    environmentVariables: map<string, string>)

  datatype FunctionEnvironmentReloadResponse = FunctionEnvironmentReloadResponse(
    result: Option<StatusResult>)

  /** One message of the stream: a request id and at most one kind of content. */
  datatype StreamingMessage = StreamingMessage(requestId: string, content: Option<Content>)

  /** The payload `oneof` of a streaming message, in declaration order. */
  datatype Content =
    | StartStream(startStream: StartStream)
    | WorkerInitRequest(workerInitRequest: WorkerInitRequest)
    | WorkerInitResponse(workerInitResponse: WorkerInitResponse)
    | WorkerHeartbeat(workerHeartbeat: WorkerHeartbeat)
    | WorkerTerminate(workerTerminate: WorkerTerminate)
    | WorkerStatusRequest(workerStatusRequest: WorkerStatusRequest)
    | WorkerStatusResponse(workerStatusResponse: WorkerStatusResponse)
    | FileChangeEventRequest(fileChangeEventRequest: FileChangeEventRequest)
    | WorkerActionResponse(workerActionResponse: WorkerActionResponse)
    | FunctionLoadRequest(functionLoadRequest: FunctionLoadRequest)
    | FunctionLoadResponse(functionLoadResponse: FunctionLoadResponse)
    | InvocationRequest(invocationRequest: InvocationRequest)
    | InvocationResponse(invocationResponse: InvocationResponse)
    | InvocationCancel(invocationCancel: InvocationCancel)
    | RpcLog(rpcLog: RpcLog)
    | FunctionEnvironmentReloadRequest(functionEnvironmentReloadRequest: FunctionEnvironmentReloadRequest)
    | FunctionEnvironmentReloadResponse(functionEnvironmentReloadResponse: FunctionEnvironmentReloadResponse)

  /** The tag list the `oneof` declares for the content, in declaration order. */
  const ContentTags: seq<int> := [20, 17, 16, 15, 14, 12, 13, 6, 7, 8, 9, 4, 5, 21, 2, 25, 26]

  /** Where each kind of content stands in the declaration. */
  function ContentPosition(c: Content): (i: nat)
    ensures i < |ContentTags|
  {
    match c
    case StartStream(_) => 0
    case WorkerInitRequest(_) => 1
    case WorkerInitResponse(_) => 2
    case WorkerHeartbeat(_) => 3
    case WorkerTerminate(_) => 4
    case WorkerStatusRequest(_) => 5
    case WorkerStatusResponse(_) => 6
    case FileChangeEventRequest(_) => 7
    case WorkerActionResponse(_) => 8
    case FunctionLoadRequest(_) => 9
    case FunctionLoadResponse(_) => 10
    case InvocationRequest(_) => 11
    case InvocationResponse(_) => 12
    case InvocationCancel(_) => 13
    case RpcLog(_) => 14
    case FunctionEnvironmentReloadRequest(_) => 15
    case FunctionEnvironmentReloadResponse(_) => 16
  }

  /** The field tag each kind of content is written under, as its own variant declares it. */
  function ContentTag(c: Content): (tag: int)
    ensures tag == ContentTags[ContentPosition(c)]
  {
    match c
    case StartStream(_) => 20
    case WorkerInitRequest(_) => 17
    case WorkerInitResponse(_) => 16
    case WorkerHeartbeat(_) => 15
    case WorkerTerminate(_) => 14
    case WorkerStatusRequest(_) => 12
    case WorkerStatusResponse(_) => 13
    case FileChangeEventRequest(_) => 6
    case WorkerActionResponse(_) => 7
    case FunctionLoadRequest(_) => 8
    case FunctionLoadResponse(_) => 9
    case InvocationRequest(_) => 4
    case InvocationResponse(_) => 5
    case InvocationCancel(_) => 21
    case RpcLog(_) => 2
    case FunctionEnvironmentReloadRequest(_) => 25
    case FunctionEnvironmentReloadResponse(_) => 26
  }

  /** The content's tag list has seventeen entries, no two alike. */
  lemma ContentTagsDistinct()
    ensures |ContentTags| == 17
    ensures forall i, j :: 0 <= i < j < |ContentTags| ==> ContentTags[i] != ContentTags[j]
  {
  }

  /** A tag names exactly one kind of content: two contents share a tag only when they are of the same kind. */
  lemma ContentTagDeterminesKind(a: Content, b: Content)
    ensures ContentTag(a) == ContentTag(b) <==> ContentPosition(a) == ContentPosition(b)
  {
    ContentTagsDistinct();
  }
}
