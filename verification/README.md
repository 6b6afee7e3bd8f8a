# PenguinGEOMap watcher and options flow, in Dafny

This project models the two pieces of logic in the PenguinGEOMap Home
Assistant integration that decide what gets sent and what gets stored:

- the per-device **watcher** (`DeviceWatcher` in `__init__.py`): its guarded
  start, its stop, the debounced state-change callback that schedules a post
  of a device tracker's position, the endpoint URL and JSON body of that
  post, and the setup and unload of all watchers of a config entry;
- the **configuration flow** (`config_flow.py`): `validate_inputs` and the
  options flow's add, edit and delete operations on the device list.

Everything is immutable data and pure functions. A watcher is a `Watcher`
record (configured fields, the subscription handle `unsub`, the last pair
sent `lastSent`); the callback is a step function returning the new record
and the post it schedules, if any; `Feed` runs it over a sequence of events.
`Lifecycle.Run` adds the host around it: a count of live subscriptions that
each start that subscribes adds to, each stop that holds a handle cancels
from, and each state change is delivered through, so the effect of calling
start twice is visible.

Files, one module each: `options.dfy` (`Option`), `text.dfy` (Python's
`strip`, `rstrip('/')` and substring test), `devices.dfy` (the device record,
the config entry and the ingestion path), `watchers.dfy` (`DeviceWatcher`),
`lifecycle.dfy` (delivery by the host, entry setup and unload),
`config_flow.py`'s logic in `config_flow.dfy`.

Modelling choices:

- A device record is the dictionary the forms produce: each field is `None`
  when the key is absent or holds `None`. A string field is "truthy" when it
  is present and non-empty.
- The key pattern from `const.py` is not part of this model; the validator
  takes it as a parameter `keyMatches: string -> bool`, applied to the trimmed
  key (whatever `re.match` does with that pattern).
- Coordinates are integers: the code only compares them for equality.
- The clock reading `int(time.time())` is carried by the event; the task the
  callback schedules is the `Post` it returns.
- The field names of `const.py` are a `Field` datatype; the error strings are
  the literal ones of `validate_inputs`.
- `async_start` is not idempotent: a second call replaces the handle without
  cancelling the first subscription (`Lifecycle.DoubleStartLeaks`).
- The registry (`hass.data[DOMAIN]`) is a snapshot of each entry's watchers
  as they stand right after setup; later callbacks change only `lastSent`,
  which unloading does not look at, and nothing restarts those watchers.
- `validate_inputs` judges the trimmed strings, but the add and edit steps
  store the input as entered, and the watcher uses the stored server URL
  untrimmed (`Lifecycle.PaddedUrlAccepted`).

## Model

| member | source | states |
|---|---|---|
| `Text.StripSpec` | custom_components/penguin_geomap/config_flow.py:36 | `str.strip()`: the result sits inside the input with only whitespace around it, and neither starts nor ends with whitespace |
| `Text.StripIdempotent` | custom_components/penguin_geomap/config_flow.py:36 | stripping an already stripped string changes nothing |
| `Text.Contains` | custom_components/penguin_geomap/config_flow.py:39 | the substring test holds exactly when the pattern occurs at some index |
| `Text.RStripSlashes` | custom_components/penguin_geomap/__init__.py:55 | `rstrip('/')`: a prefix of the input, everything removed is a slash, and the result does not end in a slash |
| `Devices.EntryDevices` | custom_components/penguin_geomap/__init__.py:69 | the device list is the options' list when present (even empty), otherwise the data's list, otherwise empty |
| `Watchers.NewWatcher` | custom_components/penguin_geomap/__init__.py:17-25 | name defaults to "Unknown", enabled defaults to true, the other fields are copied, no handle and no last-sent pair |
| `Watchers.Start` | custom_components/penguin_geomap/__init__.py:27-33 | a disabled or incompletely configured watcher is unchanged; otherwise the handle becomes a subscription on exactly `[entity_id]`, and nothing else changes |
| `Watchers.StartFromDevice` | custom_components/penguin_geomap/__init__.py:19-33 | a freshly built watcher subscribes iff its device is not disabled and has non-empty entity id, key and server URL |
| `Watchers.Stop` | custom_components/penguin_geomap/__init__.py:36-38 | afterwards there is no handle, the held handle (if any) is the one cancelled, nothing else changes |
| `Watchers.StopIdempotent` | custom_components/penguin_geomap/__init__.py:36-38 | a second stop cancels nothing and changes nothing |
| `Watchers.StartStopRestores` | custom_components/penguin_geomap/__init__.py:27-38 | start then stop returns a freshly built watcher to its initial state |
| `Watchers.Position` | custom_components/penguin_geomap/__init__.py:42-48 | an event yields a pair iff it has a new state with both latitude and longitude |
| `Watchers.StateChanged` | custom_components/penguin_geomap/__init__.py:40-52 | a post is scheduled iff the event has a position different from the last one sent; then it carries that pair and the clock reading and the pair becomes the last sent; otherwise nothing changes |
| `Watchers.StateChangedSettles` | custom_components/penguin_geomap/__init__.py:50-52 | the same event delivered again schedules nothing |
| `Watchers.Feed` | custom_components/penguin_geomap/__init__.py:40-52 | over an event sequence the posts are exactly those of the independent debounce reference (each event's position and clock reading, kept when present and different from the last kept); at most one per event, none repeats the pair before it, the last-sent pair ends as the last posted, only the last-sent pair changes |
| `Watchers.FreshNoConsecutiveRepeats` | custom_components/penguin_geomap/__init__.py:50-52 | a debounced post sequence never has two consecutive equal pairs, and its first pair differs from the one sent before |
| `Watchers.FeedNoConsecutiveRepeats` | custom_components/penguin_geomap/__init__.py:50-52 | for any event sequence, consecutive posts carry different pairs |
| `Watchers.SamePositionPostsOnce` | custom_components/penguin_geomap/__init__.py:42-52 | events that all report one pair (or none) schedule at most one post, and none if that pair was already sent |
| `Watchers.IngestUrl` | custom_components/penguin_geomap/__init__.py:55 | the URL is the server URL without its trailing slashes followed by `/api/ingest.php` |
| `Watchers.TrailingSlashesIgnored` | custom_components/penguin_geomap/__init__.py:55 | adding any number of trailing slashes to the server URL does not change the endpoint |
| `Watchers.PlainUrlKept` | custom_components/penguin_geomap/__init__.py:55 | a server URL not ending in a slash is used verbatim before the ingestion path |
| `Watchers.Payload` | custom_components/penguin_geomap/__init__.py:56 | the body has exactly the keys key, lat, lon, ts, name, entity_id, with key, name and entity_id taken from the watcher |
| `Watchers.PayloadRoundTrip` | custom_components/penguin_geomap/__init__.py:56 | reading lat, lon and ts back from the body gives the post |
| `Watchers.Outbound` | custom_components/penguin_geomap/__init__.py:54-56 | a request is built iff the watcher has a server URL, to its endpoint with its body |
| `Watchers.ReadyWatcherSends` | custom_components/penguin_geomap/__init__.py:54-56 | every post of a startable watcher becomes a request whose body carries that post |
| `Lifecycle.DispatchPostsOnce` | custom_components/penguin_geomap/__init__.py:50-52 | however many live subscriptions deliver an event, it is posted at most once |
| `Lifecycle.Run` | custom_components/penguin_geomap/__init__.py:27-52 | starts, stops and state changes only ever change a watcher's handle and last-sent pair |
| `Lifecycle.LiveFeeds` | custom_components/penguin_geomap/__init__.py:33-52 | with one live subscription every state change reaches the callback: the posts are exactly the debounced positions of the events, and the watcher ends as the callback run over them directly leaves it |
| `Lifecycle.UnheardEvents` | custom_components/penguin_geomap/__init__.py:33 | with no live subscription, state changes leave the watcher as it is and post nothing |
| `Lifecycle.StartFeeds` | custom_components/penguin_geomap/__init__.py:27-52 | a start followed by state changes posts exactly the debounced positions when the watcher is startable, and nothing otherwise |
| `Lifecycle.RunFresh` | custom_components/penguin_geomap/__init__.py:27-52 | under any starts, stops and events, posts never repeat the pair before them and the last-sent pair is the last posted |
| `Lifecycle.NotReadyNeverPosts` | custom_components/penguin_geomap/__init__.py:27-33 | a disabled or incompletely configured watcher never subscribes and never posts, whatever happens |
| `Lifecycle.StoppedStaysSilent` | custom_components/penguin_geomap/__init__.py:36-38 | a stopped watcher with no live subscription posts nothing until started again |
| `Lifecycle.StartStopSilences` | custom_components/penguin_geomap/__init__.py:27-38 | a fresh watcher started once and then stopped posts nothing more |
| `Lifecycle.DoubleStartLeaks` | custom_components/penguin_geomap/__init__.py:33 | a second start leaves the first subscription live, so after a stop a new position is still posted |
| `Lifecycle.StartAll` | custom_components/penguin_geomap/__init__.py:71-72 | one watcher per device, in list order, each built and started |
| `Lifecycle.SetupEntry` | custom_components/penguin_geomap/__init__.py:67-74 | the entry's devices become its started watchers in the registry; other entries are untouched |
| `Lifecycle.HeldHandlesSpec` | custom_components/penguin_geomap/__init__.py:78 | the handles the watchers hold are at most one per watcher, and a handle is among them exactly when some watcher holds it |
| `Lifecycle.StopAll` | custom_components/penguin_geomap/__init__.py:78 | every watcher is stopped, and the cancelled handles are exactly the held ones, one per holding watcher, in order |
| `Lifecycle.UnloadEntry` | custom_components/penguin_geomap/__init__.py:76-79 | the entry leaves the registry, each of the entry's own watchers comes back stopped and otherwise unchanged, exactly the handles they held are cancelled, an unknown entry stops nothing |
| `Lifecycle.SetupUnloadRoundTrip` | custom_components/penguin_geomap/__init__.py:67-79 | setup then unload restores the registry without the entry, returns each watcher to its fresh state, and cancels every started device's subscription |
| `Lifecycle.AcceptedDeviceStarts` | custom_components/penguin_geomap/__init__.py:27-33 | a device accepted by the validator, with a key pattern rejecting the empty key and not disabled, subscribes on start |
| `Lifecycle.PaddedUrlAccepted` | custom_components/penguin_geomap/config_flow.py:36-40 | a leading space on an accepted URL keeps it accepted, and the watcher's endpoint then starts with that space |
| `ConfigFlow.CodesDistinct` | custom_components/penguin_geomap/config_flow.py:38-46 | the four error strings `must_start_http`, `do_not_include_ingest`, `invalid_key` and `required` are pairwise distinct |
| `ConfigFlow.ValidateInputs` | custom_components/penguin_geomap/config_flow.py:34-47 | error keys are within server URL, key, entity id; no URL error iff the trimmed URL has an http(s) scheme and lacks the ingestion path, which wins over the scheme error; key error iff the trimmed key fails the pattern; entity error iff the trimmed entity id is empty |
| `ConfigFlow.ValidateInputsAcceptable` | custom_components/penguin_geomap/config_flow.py:34-47 | no errors iff the form is acceptable field by field |
| `ConfigFlow.InitFlow` | custom_components/penguin_geomap/config_flow.py:66-69 | the flow starts from the options' device list, else the data's, else empty, with no index chosen |
| `ConfigFlow.Add` | custom_components/penguin_geomap/config_flow.py:85-92 | the list changes iff an acceptable input was submitted, and then grows by that one device at the end; otherwise the form is shown with the validator's errors |
| `ConfigFlow.Edit` | custom_components/penguin_geomap/config_flow.py:94-103 | an in-range integer choice is recorded and opens the edit form; any other choice goes back to the menu without changing the list |
| `ConfigFlow.EditForm` | custom_components/penguin_geomap/config_flow.py:105-116 | no chosen index in range: unchanged; acceptable input: only the chosen device is replaced, the length is kept, the index is cleared; otherwise the form is shown with the errors |
| `ConfigFlow.Delete` | custom_components/penguin_geomap/config_flow.py:118-129 | an in-range integer choice removes exactly that device, keeping the others in order; any other choice, including a non-integer, changes nothing |
| `ConfigFlow.AddThenDeleteRestores` | custom_components/penguin_geomap/config_flow.py:85-126 | deleting the device just added restores the flow |
| `ConfigFlow.EditThenRevertRestores` | custom_components/penguin_geomap/config_flow.py:94-116 | editing a device and then editing it back restores the list |
| `ConfigFlow.AddKeepsAcceptable` | custom_components/penguin_geomap/config_flow.py:85-91 | adding keeps every listed device acceptable |
| `ConfigFlow.EditKeepsAcceptable` | custom_components/penguin_geomap/config_flow.py:94-115 | editing keeps every listed device acceptable |
| `ConfigFlow.DeleteKeepsAcceptable` | custom_components/penguin_geomap/config_flow.py:118-126 | deleting keeps every listed device acceptable |

## Left out

- The HTTP request itself (`aiohttp` session, 10 second timeout, status check, exception logging, `__init__.py:57-65`): network I/O whose outcomes only produce log lines; the model stops at the request (`Watchers.Outbound`).
- Home Assistant's APIs: the subscription call, `async_create_task`, `time.time()` and the `hass.data` bag become a handle datatype, returned posts, a timestamp carried by the event, and a `Registry` map.
- Logging everywhere.
- Form and menu rendering: `device_schema`, the voluptuous schemas and selectors, `async_step_init`'s menu, and the index option lists of the edit and delete steps; only the list mutations and the errors shown are kept.
- `async_step_save`, `ConfigFlow.async_step_user`, `async_update_entry` and `async_get_options_flow`: they only hand data to the host or chain the modelled operations.
- The concrete key pattern of `const.py`: a parameter of the validator.
- Floating-point coordinates (including NaN, which never equals itself): coordinates are integers compared for equality.
- Values of the wrong Python type in a device record (a non-string name, a non-boolean `enabled`), and a name key present with value `None`.
- `int(...)` parsing of the chosen index: the model takes its outcome, an integer or "not an integer".
- Lifecycle.Run: a stop that holds a handle while the host has no live subscription leaves the count at zero; under the commands modelled this never happens.
