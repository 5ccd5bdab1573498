# AR furniture placement: a Dafny model of its event logic

The app is an augmented-reality demo. The user picks a catalog item (Basketball, Teapot
or Toy Car) and taps Place. A raycast from the screen centre then finds a horizontal
surface, the item's USDZ model is loaded asynchronously, and it is anchored in the scene
at the hit. A trash button clears the scene. A banner reports degraded camera tracking.
With ARKit and RealityKit turned into plain inputs, three pieces of logic remain, and this
project models them and proves their properties:

* **View model** (`ViewModel`, class `ARViewModel`). It holds the fixed catalog, the
  optional selection, the `placementEnabled` flag and the outgoing action stream. The
  stream is a sequence field that `placeSelectedItem` and `removeAll` append to.
* **Coordinator** (`ARLogic`, class `Coordinator`). It consumes the stream in order.
  `.removeAll` empties the scene's anchor list. `.place(f)` raycasts and, on a hit,
  starts a load. A load is recorded in a list of pending loads; each entry holds the hit
  transform and the furniture. A separate completion step resolves entry `i`: on success
  it appends one anchor, on failure it does nothing. Each frame recomputes
  `placementEnabled`, but only while something is selected. After `Deliver`, `PlaceObject`,
  `CompleteLoad` and `SessionDidUpdate`, the new state is a function of the old one,
  defined in `SceneModel`. `SceneModel` also folds whole
  runs of events (`Run`) and proves what holds of every run.
* **Content view** (`ContentLogic`). Tracking state maps to a banner message and colour.
  The banner is shown when the message is non-empty. The placement panel is shown while
  something is selected, the carousel otherwise. `UserActions` wires the taps and buttons
  to the view model and drives a whole session as a client method.

Inputs: a raycast is the list of world transforms it hit (`seq<Transform>`; the code uses
its `first` and `isEmpty`). A model load ends in a `Result<ModelEntity, LoadError>`. The
tracking state is a parameter. UUIDs are parameters of the view model's constructor.

Four behaviours of the code that are easy to get wrong:

* `selectFurniture` assigns and does not toggle. Selecting the selected item keeps it selected.
* `placeSelectedItem` checks only that something is selected, not `placementEnabled`.
* A load that finishes after `.removeAll` still adds its anchor; nothing discards stale
  completions (`SceneModel.StaleLoadStillAnchors`). A run of place, clear, complete
  therefore ends with one anchor, not zero.
* Placement returns no typed result. A missing view, a missed raycast and a failed load
  all leave the scene unchanged.

## Model

| member | source | states |
|---|---|---|
| `ViewModel.DefaultCatalog` | MVVM/ViewModel/ARViewModel.swift:29-35 | the catalog has three items carrying the given ids, with pairwise distinct names and model names |
| `ViewModel.PlaceIntent` | MVVM/ViewModel/ARViewModel.swift:41-44 | the actions sent for a selection: none exactly when nothing is selected, otherwise one `.place` of the selected item |
| `ViewModel.ARViewModel.constructor` | MVVM/ViewModel/ARViewModel.swift:19-34 | after init the catalog is Basketball/ball_basketball_realistic, Teapot/teapot, Toy Car/toy_car in that order; nothing is selected, so the selection is within the catalog; placement is off; nothing was sent |
| `ViewModel.ARViewModel.LoadFurnitureCatalog` | MVVM/ViewModel/ARViewModel.swift:29-35 | installs the fixed catalog and changes nothing else |
| `ViewModel.ARViewModel.SelectFurniture` | MVVM/ViewModel/ARViewModel.swift:37-39 | the selection becomes exactly the argument, nil included, so reselecting keeps the item; catalog, flag and stream unchanged |
| `ViewModel.ARViewModel.PlaceSelectedItem` | MVVM/ViewModel/ARViewModel.swift:41-44 | with no selection the stream is unchanged; with selection `f` exactly one `.place(f)` is appended whatever `placementEnabled` is; nothing else changes |
| `ViewModel.ARViewModel.RemoveAll` | MVVM/ViewModel/ARViewModel.swift:46-48 | appends exactly one `.removeAll` and changes nothing else |
| `SceneModel.PlaceObject` | ARLogic/ARViewContainer.swift:61-92 | anchors never change; a missing view or an empty raycast leaves the pending loads unchanged; otherwise exactly one load is started for `f`, at the first hit |
| `SceneModel.Handle` | ARLogic/ARViewContainer.swift:50-57 | `.place` acts on the furniture carried by the action; `.removeAll` empties the anchors when there is a view, leaves pending loads alone, and does nothing without a view |
| `SceneModel.CompleteLoad` | ARLogic/ARViewContainer.swift:75-88 | the finished load leaves the pending list and nothing else does; a failure leaves the anchors unchanged; a success appends exactly one anchor at the recorded transform, holding the loaded model |
| `SceneModel.FrameUpdate` | ARLogic/ARViewContainer.swift:94-100 | with no selection the flag is unchanged; with a selection it becomes "the raycast hit something" |
| `SceneModel.FlagFollowsLastSelectedFrame` | ARLogic/ARViewContainer.swift:94-100 | over any interleaving of selections and frames, the selection is the last one chosen, and the flag is the hit test of the last frame that arrived while something was selected, or the initial flag if none did |
| `SceneModel.FlagStaysAfterDeselect` | ARLogic/ARViewContainer.swift:94-100 | deselecting does not reset the flag: after a frame that hit, deselecting and a frame that misses leave `placementEnabled` true |
| `SceneModel.RunConsistent` | ARLogic/ARViewContainer.swift:61-65 | no run changes whether there is a view; without a view no anchor or pending load ever appears |
| `SceneModel.AnchorCountSinceLastClear` | ARLogic/ARViewContainer.swift:50-88 | after any run, the anchor count is the number of successful loads since the last `.removeAll`, plus the earlier anchors if nothing cleared them; loads started before the clear count too |
| `SceneModel.AnchorsOnlyGrowWithoutClear` | ARLogic/ARViewContainer.swift:81-86 | in a run without `.removeAll`, the earlier anchors stay, in order, at the front of the list |
| `SceneModel.NoSpeculativePlacement` | ARLogic/ARViewContainer.swift:68-75 | every pending load was already pending at the start or came from a delivered `.place` of its furniture whose raycast hit first at its transform; every anchor was already there at the start, or belongs to a load pending at the start, or sits at such a hit |
| `SceneModel.StaleLoadStillAnchors` | ARLogic/ARViewContainer.swift:50-88 | place, clear, then a successful completion leaves exactly that one anchor: the late load is not discarded |
| `SceneModel.OutOfOrderCompletion` | ARLogic/ARViewContainer.swift:75-88 | two places whose loads finish in reverse order both end up anchored, each at its own hit, in completion order; no load is lost or doubled |
| `ARLogic.Coordinator.constructor` | ARLogic/ARViewContainer.swift:40-47 | a new coordinator has no view, no anchors, no pending loads and no subscription |
| `ARLogic.Coordinator.AttachView` | ARLogic/ARViewContainer.swift:12 | the view is set and its scene is empty |
| `ARLogic.Coordinator.SubscribeToActionStream` | ARLogic/ARViewContainer.swift:49-59 | the sink is installed; actions sent earlier are never delivered |
| `ARLogic.Coordinator.Deliver` | ARLogic/ARViewContainer.swift:50-57 | handles the oldest undelivered action on the stream, exactly as `SceneModel.Handle`, and advances by one, so actions are handled in the order sent |
| `ARLogic.Coordinator.PlaceObject` | ARLogic/ARViewContainer.swift:61-92 | the new state is `SceneModel.PlaceObject` of the old one; only the pending loads can change |
| `ARLogic.Coordinator.CompleteLoad` | ARLogic/ARViewContainer.swift:75-88 | the new state is `SceneModel.CompleteLoad` of the old one |
| `ARLogic.Coordinator.SessionDidUpdate` | ARLogic/ARViewContainer.swift:94-100 | `placementEnabled` becomes `SceneModel.FrameUpdate` of the selection, the old flag and this frame's raycast; nothing else changes |
| `ContentLogic.StatusMessage` | MVVM/View/ContentView.swift:59-77 | the message is empty exactly when tracking is normal; the colour is clear exactly then, red exactly when unavailable, blue exactly while initializing, yellow for every other limited reason |
| `ContentLogic.StatusTexts` | MVVM/View/ContentView.swift:61-74 | the exact text and colour for every state, including the "Tracking limited" fallback |
| `ContentLogic.OtherLimitedReasons` | MVVM/View/ContentView.swift:73-74 | every limited reason other than initializing, excessive motion and insufficient features gets "Tracking limited" in yellow |
| `ContentLogic.BannerShown` | MVVM/View/ContentView.swift:44-46 | the banner is shown exactly when tracking is not normal |
| `ContentLogic.BottomPanel` | MVVM/View/ContentView.swift:20-31 | the placement panel exactly when something is selected, the carousel exactly when nothing is |
| `UserActions.TapCarouselItem` | MVVM/View/ContentView.swift:27-29 | tapping a thumbnail, which is always a catalog item, selects that item and switches to the placement panel; the selection stays within the catalog |
| `UserActions.CloseButtonAsWritten` | MVVM/View/PlacementView.swift:34-37 | the close button as written keeps the selection, so the placement panel stays; the selection stays within the catalog |
| `UserActions.CloseButton` | MVVM/View/PlacementView.swift:34-37 | the close button as intended clears the selection and brings back the carousel |
| `UserActions.TeapotSession` | ARLogic/ARViewContainer.swift:50-99 | from launch: selecting the Teapot and a frame that finds a surface enable placement; Place starts one Teapot load at the hit and yields one anchor; a load that finishes after the trash button still leaves one anchor; the close button as written leaves the placement panel up, and only the intended close shows the carousel |

## Left out

- Session setup (world-tracking configuration, plane detection, mesh reconstruction, coaching overlay) and the rest of `makeUIView` and `updateUIView`. This is platform wiring; only the view hand-off (`AttachView`) and the subscription are modelled.
- The raycast and the asset loader themselves. Only their outcomes are modelled, as inputs. Collision shapes and gesture installation on a loaded model are RealityKit calls and are not modelled.
- Threading. The frame callback's `DispatchQueue.main.async`, the loader's `receive(on:)` and the Combine `sink`/`cancellables` plumbing become sequential steps. The code hands actions to the sink synchronously inside `send`; the model delivers them in a separate `Deliver` step. It therefore also admits interleavings the app cannot produce.
- `ARLogic.Coordinator.SessionDidUpdate`: requires a view instead of modelling the crash of the force-unwrapped `arView!`. It reads the selection and raycasts in the same step, whereas the code raycasts later, on the main queue.
- `ARLogic.Coordinator.SubscribeToActionStream`: requires that no sink is installed yet. Subscribing twice would install two sinks, and every action would be handled twice; this is not modelled.
- The weak `arView` reference becoming nil after `AttachView` is not modelled: once attached, the model's view never goes away. In the app, once the view is released, later places and clears do nothing, because of the guard in `placeObject` and the optional chaining in the `.removeAll` case.
- Log output (`print`), haptics (Managers/HapticsManager.swift, which none of these files call), thumbnails and UUID generation. Ids are parameters.
- Layout, animation and styling of the SwiftUI views, and the Place button's `.disabled(!isEnabled)` gating, which lives in the view, not the view model.
- `ContentView` reads `viewModel.arTrackingState`, which `ARViewModel` does not declare. The tracking state is therefore a parameter of `ContentLogic.StatusMessage`.

## Findings

| source | as written | input that shows it | evidently intended | confidence | as-written member | corrected member |
|---|---|---|---|---|---|---|
| MVVM/View/PlacementView.swift:36 | the close button calls `selectFurniture(selectedFurniture!)`, which just assigns the current selection back | any selection `f`, then a tap on the close button: the selection is still `f` and the placement panel stays | the close button deselects, and the carousel reappears | high; not executed | `UserActions.CloseButtonAsWritten` | `UserActions.CloseButton` |
