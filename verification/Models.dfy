/** The values that the service stores and exchanges (models/job.go), without their identity on the heap. */
module Models {
  import opened Common

  datatype JobStatus = Active | Inactive | Deleted | OtherStatus(name: string)

  datatype JobType = AtLeastOnce | AtMostOnce | OtherType(name: string)

  datatype Json =
    | Null
    | Bool(b: bool)
    | Number(n: real)
    | Str(s: string)
    | Arr(items: seq<Json>)
    | Obj(members: map<string, Json>)

  type Metadata = map<string, Json>

  /** A value of Go's `interface{}` type, told apart by its dynamic type. `M` stands for a metadata map. */
  datatype Dynamic<+M> =
    | StringValue(s: string)
    | StatusValue(status: JobStatus)
    | TypeValue(jobType: JobType)
    | MapValue(m: M)
    | TimeValue(t: Time)
    | DurationValue(d: Duration)
    | IntValue(n: int)
    | BoolValue(b: bool)
    | OtherValue

  /** The dynamic type that decoding a JSON value into `interface{}` gives: numbers become float64, and
      nothing becomes a JobStatus, a JobType, an int, a time or a duration. */
  function Decoded(v: Json): Dynamic<Metadata> {
    match v
    case Str(s) => StringValue(s)
    case Bool(b) => BoolValue(b)
    case Obj(members) => MapValue(members)
    case _ => OtherValue
  }

  function DecodedObject(body: map<string, Json>): map<string, Dynamic<Metadata>> {
    map key | key in body :: Decoded(body[key])
  }

  datatype Job = Job(
    id: string,
    schedule: string,
    api: string,
    jobType: JobType,
    status: JobStatus,
    createdAt: Time,
    updatedAt: Time,
    lastExecuted: Option<Time>,
    nextRun: Option<Time>,
    metadata: Option<Metadata>)

  datatype Execution = Execution(
    id: string,
    jobId: string,
    executedAt: Time,
    completedAt: Option<Time>,
    httpStatus: int,
    responseTime: Duration,
    success: bool,
    error: string,
    responseBody: string)
}
