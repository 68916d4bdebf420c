/**
 * Saving and loading the registry. The state file is a JSON object mapping each
 * instance name to its record dictionary; reading and parsing the file are outside
 * the model and arrive here as an abstract parse result.
 */
module Persistence {
  import opened Wrappers
  import opened DeviceRecord
  import opened Lifecycle

  /** A top-level value of the state file: a record dictionary, or anything that is not a JSON object. */
  datatype Entry = Record(fields: RecordDict) | NotAnObject

  /** The state file as the loader finds it: missing, unreadable or not a JSON object, or a parsed object. */
  datatype StateFile = Absent | Malformed | Parsed(state: map<string, Entry>)

  /** `Device.from_dict` applied to one top-level value; indexing a non-object fails too. */
  function DecodeEntry(e: Entry): Result<Device, DecodeError> {
    match e
    case Record(fields) => FromDict(fields)
    case NotAnObject => Failure(IllTyped("record"))
  }

  /** `save_state`: every record written under its registry name through `to_dict`. */
  function SaveState(devices: Registry): (state: map<string, Entry>)
    ensures state.Keys == devices.Keys
    ensures forall n :: n in devices ==> state[n].Record? && state[n].fields.Keys == RecordKeys
  {
    map n | n in devices :: Record(ToDict(devices[n]))
  }

  /** Every entry of a parsed state file decodes. */
  ghost predicate AllDecode(state: map<string, Entry>) {
    forall n :: n in state ==> DecodeEntry(state[n]).Success?
  }

  /**
   * `load_state`: a missing or malformed file, or any entry that `from_dict` rejects,
   * gives an empty registry; otherwise every entry is decoded under its own key.
   */
  function LoadState(f: StateFile): (r: Registry)
    ensures !f.Parsed? ==> r == map[]
    ensures f.Parsed? && !AllDecode(f.state) ==> r == map[]
    ensures f.Parsed? && AllDecode(f.state) ==>
      r.Keys == f.state.Keys && forall n :: n in r ==> DecodeEntry(f.state[n]) == Success(r[n])
  {
    match f
    case Absent => map[]
    case Malformed => map[]
    case Parsed(state) =>
      if forall n :: n in state ==> DecodeEntry(state[n]).Success? then
        map n | n in state :: DecodeEntry(state[n]).value
      else
        map[]
  }

  /** One saved record decodes back to itself. */
  lemma EntryRoundTrip(d: Device)
    ensures DecodeEntry(Record(ToDict(d))) == Success(d)
  {
    RoundTrip(d);
  }

  /** Saving then loading reproduces the registry exactly: same keys, same field values. */
  lemma {:induction false} SaveLoadRoundTrip(devices: Registry)
    ensures LoadState(Parsed(SaveState(devices))) == devices
  {
    var state := SaveState(devices);
    forall n | n in state ensures DecodeEntry(state[n]) == Success(devices[n]) {
      EntryRoundTrip(devices[n]);
    }
    LoadDecodesEach(state, devices);
  }

  /** A file whose every entry decodes to the matching record loads as exactly those records. */
  lemma LoadDecodesEach(state: map<string, Entry>, devices: Registry)
    requires state.Keys == devices.Keys
    requires forall n :: n in state ==> DecodeEntry(state[n]) == Success(devices[n])
    ensures LoadState(Parsed(state)) == devices
  {
    assert AllDecode(state);
    var r := LoadState(Parsed(state));
    assert forall n :: n in r ==> r[n] == devices[n];
  }

  /** One entry missing a required key, however well-formed the rest, empties the whole registry. */
  lemma OneBadEntryEmptiesRegistry(state: map<string, Entry>, bad: string)
    requires bad in state && state[bad].Record? && FirstMissing(state[bad].fields).Some?
    ensures LoadState(Parsed(state)) == map[]
  {
  }

  /** After a malformed file the manager starts empty and a create proceeds normally. */
  lemma CreateAfterMalformedLoad(cfg: Config, name: string, exec: Commands.Argv -> Commands.Outcome)
    requires cfg.maxInstances >= 1
    requires exec(Commands.CreateArgv(cfg.ldplayerPath, name, cfg.defaultProperties)).Output?
    ensures var s := CreateInstance(cfg, LoadState(Malformed), name, None, exec);
            s.result.Success? && s.devices == map[name := Device(name, CreatedStatus, cfg.defaultProperties, 0, None)]
  {
  }

  /** A create followed by a save and a fresh load yields the created record, with status `created`. */
  lemma CreateThenReload(cfg: Config, devices: Registry, name: string, properties: Option<Props>, exec: Commands.Argv -> Commands.Outcome)
    requires CreateInstance(cfg, devices, name, properties, exec).result.Success?
    ensures var s := CreateInstance(cfg, devices, name, properties, exec);
            var reloaded := LoadState(Parsed(SaveState(s.devices)));
            name in reloaded && reloaded[name] == s.result.value && reloaded[name].status == CreatedStatus
  {
    SaveLoadRoundTrip(CreateInstance(cfg, devices, name, properties, exec).devices);
  }
}
