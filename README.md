# localtuya IR button: verified model

This project models the IR button platform of localtuya (`custom_components/localtuya/button.py`).
It covers two pieces of logic:

- **Dynamic data-point allocation.** A button can be declared with a placeholder id, meaning any id below
  `DYNAMIC_DP = 1000`. When the button is constructed, the placeholder is replaced by
  `max(max(ids) + 1, 1000)`. Here `ids` are the ids of all entity records in the device's shared
  configuration entry. The new id is written back, in place, into the record that held the placeholder.
  An id of 1000 or more is kept as it is.
- **The press command.** Pressing a button writes one payload,
  `{control: "send_ir", head, key1, type: 0, delay: 0}`, to the fixed data point `PRESS_DP = 201`.
  The button's own id is not used for this.

The files:

- `wrappers.dfy`: the generic `Option` and `Result` types.
- `button.dfy`, module `Button`, which has three parts:
  - The pure specification. `Ids` and `MaxOf` model the list comprehension and Python's `max`.
    `NextDynamicId` is the new id. `FindEntity` models `get_entity_config`. `Allocate` is the whole allocation step.
  - The class `ConfigEntry`. Its field `entities` is the shared list that the method `AssignDynamicId` updates in place.
  - The class `LocalTuyaButton`. Its constructor runs the allocation and then reads the IR codes from the record.
    It also has `Press` and `Available`.

A record's id is an `int`. localtuya stores ids as strings and converts them with `int()` and `str()`.
Two of the error paths the Python code can hit during allocation are modelled as `Err` values of `Allocate`:

- `max()` over an empty entity list.
- `get_entity_config` finding no record that carries the placeholder.

In both cases nothing is written. The max is computed before the record is looked up, so an empty list
reports `NoEntities` first. In Python these are uncaught exceptions that abort the construction. So the
constructor of `LocalTuyaButton` requires that the record exists, and it proves that the allocation then succeeds.

`get_entity_config` lives in `custom_components/localtuya/entity.py`, which is not part of this model.
It is modelled as returning the first record whose id equals the requested one, and failing when there is none.

`AllocateExample` puts the placeholder `2` in a record of its own. A placeholder that no record carries makes
`get_entity_config` fail, and `Allocate` then returns `Err(MissingEntityConfig)`.
The errors are whatever `max()` and `get_entity_config` raise; `SetupError` records only which of the two failed.
The new id is larger than every id present before the allocation, the placeholder's own old id included.

## Model

| member | source | states |
|---|---|---|
| Button.IsPlaceholder | custom_components/localtuya/button.py:41 | an id is a placeholder exactly when it is below 1000 |
| Button.Ids | custom_components/localtuya/button.py:42 | the comprehension keeps one id per record, in order |
| Button.MaxOf | custom_components/localtuya/button.py:42 | `max()` of a non-empty list is an element of the list and no element exceeds it |
| Button.NextDynamicId | custom_components/localtuya/button.py:42 | the allocated id is at least 1000 and above every id present, and it is the least such value (1000, or one more than an existing id) |
| Button.FindEntity | custom_components/localtuya/button.py:43 | the lookup gives the first record carrying the id; it gives nothing exactly when no record carries it |
| Button.Allocate | custom_components/localtuya/button.py:41-44 | allocation fails exactly for a placeholder whose record is missing; the error is `NoEntities` for an empty list and `MissingEntityConfig` otherwise; the length of the list is kept |
| Button.FinalIdUnchanged | custom_components/localtuya/button.py:41 | an id of 1000 or more is returned unchanged and the list is left as it was |
| Button.PlaceholderGetsFreshId | custom_components/localtuya/button.py:42 | a placeholder whose record exists gets `max(max(ids) + 1, 1000)`, which is final and strictly above every earlier id |
| Button.OnlyPlaceholderRecordChanges | custom_components/localtuya/button.py:43 | only the id field of the record that held the placeholder changes; the length, its other fields and all other records are unchanged |
| Button.AllocatePreservesDistinctIds | custom_components/localtuya/button.py:42-43 | pairwise distinct ids stay pairwise distinct after an allocation |
| Button.AllocateIdempotent | custom_components/localtuya/button.py:41-44 | allocating again with the resolved id changes neither the list nor the id |
| Button.SequentialPlaceholdersDistinct | custom_components/localtuya/button.py:42-43 | two different placeholders allocated one after the other both succeed, and the second id is strictly larger than the first |
| Button.RepeatedPlaceholderDistinct | custom_components/localtuya/button.py:42-43 | when two records carry the same placeholder, allocating it twice in sequence succeeds both times, and the second id is strictly larger than the first |
| Button.AllocateExample | custom_components/localtuya/button.py:41-44 | records with ids 5, 1001 and placeholder 2: the placeholder record becomes 1002 and nothing else changes |
| Button.ConfigEntry.AssignDynamicId | custom_components/localtuya/button.py:41-44 | the in-place update leaves the shared list as `Allocate` describes and returns its id; on failure the list is untouched |
| Button.LocalTuyaButton.constructor | custom_components/localtuya/button.py:32-48 | construction commits the allocation, the button's id is final, its record is the one found under that id, and head and key1 are that record's IR codes |
| Button.PressCommand | custom_components/localtuya/button.py:58-65 | the command goes to data point 201 with control `send_ir`, type 0 and delay 0, and carries the given head and key1 |
| Button.PressCommandDeterminedByCodes | custom_components/localtuya/button.py:58-64 | two press commands are equal exactly when their head and key1 are equal, so nothing else varies |
| Button.LocalTuyaButton.Press | custom_components/localtuya/button.py:56-65 | a press writes the fixed send_ir payload with the button's own codes to data point 201, whatever the button's id |
| Button.LocalTuyaButton.Available | custom_components/localtuya/button.py:68-70 | the button always reports itself available |

## Left out

- `flow_schema` (lines 21-26): a declaration for the voluptuous schema library, with no logic of its own.
- The Home Assistant entity framework: the `LocalTuyaEntity` and `ButtonEntity` base classes, `super().__init__`
  (apart from its record lookup), `device_class`, `status_updated` and `restore_state_when_connected`.
  These are framework hooks with no behaviour of their own here. The record's device class is kept as a field only.
- The send itself, `self._device.set_dp(...)` on line 65: asynchronous network I/O. `Press` returns the `(payload, dp)`
  pair the call receives. Transport errors are not modelled.
- `json.dumps` on line 65: the payload is a datatype, not JSON text.
- Logging (lines 18 and 49) and the `partial(async_setup_entry, ...)` registration on line 82.
- The string form of ids, and `int()` raising on a non-numeric id (lines 41-42): every id is an integer in the model.
  What this loses: line 43 passes the raw `buttonid` string to `get_entity_config`, which compares strings. So records
  `"01"` and `"1"` are different records in localtuya but carry the same id for `FindEntity` and `DistinctIds`.
  For `buttonid "1"` localtuya rewrites record `"1"`, while the model rewrites whichever of the two comes first.
- A record without an `id` key: `e[CONF_ID]` on line 42 raises `KeyError`. Every record carries an id in the model.
- Concurrency: constructions are modelled as sequential. Concurrent construction of two placeholder buttons is not modelled.
- Button.ConfigEntry.AssignDynamicId: records are values held in a sequence, so aliasing of the mutated record
  by other holders of the same dict is not captured.
