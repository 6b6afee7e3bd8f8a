/** The device record shared by the watcher and the configuration flow, and
    the config entry that stores a list of them. */
module Devices {
  import opened Options

  /** Path of the remote ingestion endpoint, appended to the server URL when
      posting and refused inside a configured server URL. */
  const IngestPath: string := "/api/ingest.php"

  /** One configured device, as the dictionary the forms produce. A field is
      `None` when its key is absent or holds `None`. */
  datatype Device = Device(
    name: Option<string>,
    entityId: Option<string>,
    serverUrl: Option<string>,
    key: Option<string>,
    enabled: Option<bool>,
    verifySsl: Option<bool>,
    pollSeconds: Option<int>)

  /** Python truthiness of an optional string: neither `None` nor `""`. */
  predicate Truthy(s: Option<string>) {
    s.Some? && s.value != []
  }

  /** A config entry. `options` and `data` are the device lists stored under
      the devices key of the entry's two mappings, `None` when that key is
      absent. */
  datatype Entry = Entry(entryId: string, options: Option<seq<Device>>, data: Option<seq<Device>>)

  /** The entry's device list: the options' list when that key is present
      (even an empty one), otherwise the data's list, otherwise none. */
  function EntryDevices(entry: Entry): (devices: seq<Device>)
    ensures entry.options.Some? ==> devices == entry.options.value
    ensures entry.options.None? && entry.data.Some? ==> devices == entry.data.value
    ensures entry.options.None? && entry.data.None? ==> devices == []
  {
    entry.options.GetOr(entry.data.GetOr([]))
  }
}
