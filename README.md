# Travel bucket list: the selection list and its removal flow

This project models the live state logic of the travel-bucket-list front end's
`App` component. The user picks places from a catalogue into a personal
selection list and removes them through a confirmation modal.

- `places.dfy` (module `Places`): a catalogue place, with its id, title,
  image and coordinate.
- `selection.dfy` (module `Selection`): the selection list as a value.
  - `HasId` is the duplicate test.
  - `AddPlace` is the guarded prepend.
  - `RemovePlace` is the order-preserving filter.
  - `RecordedId` is the id read from the place recorded for deletion. It is
    absent when no place was recorded.
  - The lemmas state what these operations promise. Ids stay unique, removal
    keeps order, and adding then removing a new place is a round trip.
- `app.dfy` (module `App`): class `AppState` holds the component's
  `userPlaces`, `modalIsOpen`, the recorded place (`selected`) and
  `updateError`. Each event handler is a method that performs one atomic
  transition. Its contract gives the whole new state and keeps the invariant
  `Valid()`, which says that no two listed places share an id.
  `SelectionScenario` and `RemovalScenario` are clients that drive the
  handlers through short sessions over the catalogue entries p1, p2 and p3.
- `wrappers.dfy` (module `Wrappers`): `Option`, which stands for JavaScript's
  `null` / `undefined`.

The removal target is an `Option<string>`. When no place has been recorded,
`selectedPlace.current?.id` is `undefined`. That value never equals a place id
under `!==`, so the filter keeps every place. `None` plays that role here.

The doc comments of the two list handlers promise an optimistic update that
is reverted on error (src/App.jsx:57-58 for adding, src/App.jsx:78-79 for
removing). The code that would persist the change and revert it is commented
out (src/App.jsx:67-74, src/App.jsx:87-94). The model follows the code: adding
and removing are plain local updates, and nothing ever sets `updateError`.

## Model

| member | source | states |
|---|---|---|
| Selection.HasId | src/App.jsx:62 | the `some` test is true exactly when some position of the list carries the id |
| Selection.AddPlace | src/App.jsx:60-65 | if the id is already listed, the list comes back unchanged; otherwise the new place is first, the old list follows in order, and the length grows by one; either way the id is listed afterwards |
| Selection.AddKeepsUnique | src/App.jsx:62-64 | adding keeps the ids of the list pairwise distinct |
| Selection.AddIdempotent | src/App.jsx:62-64 | adding the same place twice gives the same list as adding it once |
| Selection.RemovePlace | src/App.jsx:82-83 | the result is no longer than the input, no element carries the target id, and a place survives exactly when it was in the input and its id differs from the target |
| Selection.RemoveAbsent | src/App.jsx:82-83 | removing an id that no place carries, or with no place recorded, returns the list unchanged |
| Selection.RemoveIsSubsequence | src/App.jsx:83 | the surviving places keep their original relative order (the result is a subsequence of the input) |
| Selection.SubsequenceKeepsUnique | src/App.jsx:83 | a subsequence of a list with distinct ids has distinct ids |
| Selection.RemoveKeepsUnique | src/App.jsx:83 | removing keeps the ids of the list pairwise distinct |
| Selection.RemoveListedShrinksByOne | src/App.jsx:83 | in a list with distinct ids, removing a listed id shortens the list by exactly one |
| Selection.RemoveIdempotent | src/App.jsx:83 | removing twice with the same target is the same as removing once |
| Selection.AddThenRemove | src/App.jsx:64-83 | removing a place just added under a new id gives back the list before the add |
| App.AppState.constructor | src/App.jsx:14-25 | the initial state has an empty list, a closed modal, no recorded place and no update error |
| App.AppState.StartRemovePlace | src/App.jsx:46-49 | records the place and opens the modal; the list and the error are unchanged |
| App.AppState.StopRemovePlace | src/App.jsx:52-54 | closes the modal; the list, the recorded place and the error are unchanged |
| App.AppState.SelectPlace | src/App.jsx:60-65 | the list becomes the guarded prepend of the place: unchanged for a listed id, the place in front otherwise; ids stay distinct; nothing else changes |
| App.AppState.ConfirmRemovePlace | src/App.jsx:81-96 | the list becomes the filter by the recorded id; no place with that id is left; the survivors keep their order; with no place recorded the list is unchanged; ids stay distinct; the modal is closed |
| App.AppState.DismissError | src/App.jsx:101-103 | clears the update error, which closes the error modal; nothing else changes |

## Left out

- The distance sort of the available places is not part of this model. It lives in src/loc.js, which is only imported by src/utils/utils.js, and it rests on floating-point trigonometry.
- The initial fetch of the user's places, the persistence call after each change, and the rollback with an update error on failure are commented out in src/App.jsx, so they are not live behaviour. The model does not claim any rollback. For the same reason `isFetching` and the load `error` (src/App.jsx:20-21) are never changed by live code and are not fields of `AppState`.
- React scheduling is not modelled: asynchronous handlers, batching of state updates, `useCallback` dependencies and stale closures. Each handler is one atomic state transition.
- The backend (`backend/app.js`) is not part of this model. It consists of HTTP routing, CORS headers, static files and JSON file reads and writes, all of which are I/O.
- The `fetch` and geolocation wrappers (`src/utils/utils.js`) are not part of this model. They are network and browser calls.
- Rendering is not part of this model: `Places.jsx`, `AvailablePlaces.jsx`, the modals and the header are view markup. `ErrorModalIsOpen` stands for the error modal's `open` flag only.
- The static catalogue (`src/assets/places.js`) contributes only three entries, as the values `Waterfall`, `Dunes` and `Peaks` used by the scenarios. Their titles, alt texts and coordinates are carried over; their image sources are left empty because they are imported asset files.
- Place coordinates are kept as `real` values that no operation reads.
