/**
 * The `Device` record of one emulator instance and its dictionary codec
 * (`to_dict` / `from_dict`), which is what the state file stores per instance.
 */
module DeviceRecord {
  import opened Wrappers
  import Text

  /** A property value: the state file and the create dialog only hold integers and strings. */
  datatype Scalar = IntVal(i: int) | StrVal(s: string)

  /** One `key: value` entry of a properties dictionary. */
  datatype Prop = Prop(key: string, value: Scalar)

  /** A properties dictionary, in insertion order (Python dictionaries are ordered). */
  type Props = seq<Prop>

  /** Python's `str(value)` for a property value. */
  function Render(v: Scalar): (r: string)
    ensures v.StrVal? ==> r == v.s
    ensures v.IntVal? ==> r == Text.IntToString(v.i) && Text.CanonicalDecimal(r) && Text.ParseInt(r) == Some(v.i)
  {
    match v
    case StrVal(s) => s
    case IntVal(i) => Text.IntToStringRoundTrip(i); Text.IntToString(i)
  }

  /** Instance status as stored in the record; the manager writes these three. */
  const CreatedStatus := "created"
  const RunningStatus := "running"
  const StoppedStatus := "stopped"

  /** One managed instance: its name, last manager-issued status, creation properties, creation ordinal and optional pid. */
  datatype Device = Device(name: string, status: string, properties: Props, index: int, pid: Option<int>)

  /** A value held in a record dictionary. `Other` stands for any JSON value of a shape the record never holds (lists, booleans, floats). */
  datatype Value = Null | Int(i: int) | Str(s: string) | PropsVal(props: Props) | Other

  /** A record dictionary, as `to_dict` builds it and `json.load` returns it. */
  type RecordDict = map<string, Value>

  /** The keys `to_dict` writes. */
  const RecordKeys: set<string> := {"name", "status", "properties", "index", "pid"}

  /** Why `from_dict` could not build a record. */
  datatype DecodeError = MissingKey(key: string) | IllTyped(key: string)

  /** `Device.to_dict`: exactly the five keys, each holding the matching field; an absent pid is written as null. */
  function ToDict(d: Device): (r: RecordDict)
    ensures r.Keys == RecordKeys
    ensures r["name"] == Str(d.name) && r["status"] == Str(d.status)
    ensures r["properties"] == PropsVal(d.properties) && r["index"] == Int(d.index)
    ensures d.pid.None? ==> r["pid"] == Null
    ensures d.pid.Some? ==> r["pid"] == Int(d.pid.value)
  {
    map["name" := Str(d.name), "status" := Str(d.status), "properties" := PropsVal(d.properties),
        "index" := Int(d.index), "pid" := PidValue(d.pid)]
  }

  function PidValue(pid: Option<int>): Value {
    match pid
    case None => Null
    case Some(p) => Int(p)
  }

  /** The first of the required keys, in the order `from_dict` looks them up, that is missing. */
  function FirstMissing(data: RecordDict): Option<string> {
    if "name" !in data then Some("name")
    else if "status" !in data then Some("status")
    else if "properties" !in data then Some("properties")
    else if "index" !in data then Some("index")
    else None
  }

  /** `data.get("pid")`: an absent key and an explicit null both mean no pid. */
  function DecodePid(data: RecordDict): Result<Option<int>, DecodeError> {
    if "pid" !in data then Success(None)
    else match data["pid"]
      case Null => Success(None)
      case Int(p) => Success(Some(p))
      case _ => Failure(IllTyped("pid"))
  }

  /**
   * `Device.from_dict`: the four required keys are looked up first (a missing one is
   * the `KeyError` Python raises); the values must then have the record's field types.
   */
  function FromDict(data: RecordDict): (r: Result<Device, DecodeError>)
    ensures FirstMissing(data).Some? ==> r == Failure(MissingKey(FirstMissing(data).value))
    ensures r.Success? ==> "name" in data && "status" in data && "properties" in data && "index" in data
    ensures r.Success? ==> data["name"] == Str(r.value.name) && data["status"] == Str(r.value.status)
    ensures r.Success? ==> data["properties"] == PropsVal(r.value.properties) && data["index"] == Int(r.value.index)
    ensures r.Success? && "pid" !in data ==> r.value.pid == None
    ensures r.Success? && "pid" in data ==> data["pid"] == PidValue(r.value.pid)
  {
    if FirstMissing(data).Some? then Failure(MissingKey(FirstMissing(data).value))
    else if !data["name"].Str? then Failure(IllTyped("name"))
    else if !data["status"].Str? then Failure(IllTyped("status"))
    else if !data["properties"].PropsVal? then Failure(IllTyped("properties"))
    else if !data["index"].Int? then Failure(IllTyped("index"))
    else match DecodePid(data)
      case Success(pid) => Success(Device(data["name"].s, data["status"].s, data["properties"].props, data["index"].i, pid))
      case Failure(e) => Failure(e)
  }

  /** The codec round-trip: decoding what `to_dict` wrote gives back the same record. */
  lemma RoundTrip(d: Device)
    ensures FromDict(ToDict(d)) == Success(d)
  {
  }

  /** A dictionary lacking `pid` decodes with no pid and every other field copied. */
  lemma OptionalPid(name: string, status: string, props: Props, index: int)
    ensures FromDict(map["name" := Str(name), "status" := Str(status), "properties" := PropsVal(props), "index" := Int(index)])
         == Success(Device(name, status, props, index, None))
  {
  }

  /**
   * `from_dict` accepts exactly the encodings of records: a dictionary decodes to `d`
   * when it agrees with `to_dict(d)` on the four required keys and either holds the same
   * pid or lacks the key while `d` has no pid. Keys beyond the five are ignored.
   */
  lemma DecodesExactlyEncodings(data: RecordDict, d: Device)
    ensures FromDict(data) == Success(d) <==>
      && (forall k :: k in {"name", "status", "properties", "index"} ==> k in data && data[k] == ToDict(d)[k])
      && (if "pid" in data then data["pid"] == ToDict(d)["pid"] else d.pid == None)
  {
  }
}
