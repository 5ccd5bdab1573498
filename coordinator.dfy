/**
 * The `Coordinator` of ARLogic/ARViewContainer.swift as a class: it consumes the view
 * model's action stream in order, raycasts and starts model loads, anchors loaded models
 * in the scene and recomputes `placementEnabled` every frame. Each state change is tied to
 * the value-level model in SceneModel, where the properties of whole runs are proved.
 */
module ARLogic {
  import opened Wrappers
  import opened Furnishing
  import opened ViewModel
  import opened SceneModel

  class Coordinator {
    const viewModel: ARViewModel
    /** The weak `arView` reference is set. */
    var hasView: bool
    /** `arView.scene.anchors`. */
    var anchors: seq<Anchor>
    /** Loads started by `placeObject` whose sinks have not fired yet. */
    var pending: seq<PendingLoad>
    /** The action-stream sink is installed. */
    var subscribed: bool
    /** How many actions of `viewModel.actionStream` the sink has been handed. */
    var delivered: nat

    function State(): CoordinatorState
      reads this
    {
      CoordinatorState(hasView, anchors, pending)
    }

    ghost predicate Valid()
      reads this
    {
      Consistent(State())
    }

    constructor (viewModel: ARViewModel)
      ensures this.viewModel == viewModel
      ensures State() == CoordinatorState(false, [], []) && Valid()
      ensures !subscribed && delivered == 0
    {
      this.viewModel := viewModel;
      hasView, anchors, pending := false, [], [];
      subscribed, delivered := false, 0;
    }

    /** `makeUIView` hands the coordinator its freshly made view, whose scene is empty. */
    method AttachView()
      requires Valid() && !hasView
      modifies this`hasView
      ensures Valid() && State() == CoordinatorState(true, [], [])
    {
      hasView := true;
    }

    /**
     * Installs the sink. The stream is a passthrough subject: actions sent before this
     * point are never delivered, so delivery starts at the current end of the stream.
     */
    method SubscribeToActionStream()
      requires !subscribed
      modifies this`subscribed, this`delivered
      ensures subscribed && delivered == |viewModel.actionStream|
    {
      subscribed := true;
      delivered := |viewModel.actionStream|;
    }

    /**
     * The sink receives the oldest action not yet handled; `hits` is what a raycast
     * from the screen centre returns at that moment.
     */
    method Deliver(hits: seq<Transform>)
      requires Valid() && subscribed && delivered < |viewModel.actionStream|
      modifies this`anchors, this`pending, this`delivered
      ensures Valid() && delivered == old(delivered) + 1
      ensures State() == Handle(old(State()), viewModel.actionStream[old(delivered)], hits)
    {
      var action := viewModel.actionStream[delivered];
      match action {
        case Place(f) =>
          PlaceObject(f, hits);
        case RemoveAll =>
          if hasView {
            anchors := [];
          }
      }
      delivered := delivered + 1;
    }

    /** Raycasts and, on a hit, starts loading `f.modelName` for an anchor at the first hit. */
    method PlaceObject(f: Furniture, hits: seq<Transform>)
      requires Valid()
      modifies this`pending
      ensures Valid() && State() == SceneModel.PlaceObject(old(State()), f, hits)
    {
      if !hasView {
        return;
      }
      if |hits| > 0 {
        pending := pending + [PendingLoad(hits[0], f)];
      }
    }

    /** The asset loader finishes load `i`, with a model or an error. */
    method CompleteLoad(i: nat, outcome: Result<ModelEntity, LoadError>)
      requires Valid() && i < |pending|
      modifies this`anchors, this`pending
      ensures Valid() && State() == SceneModel.CompleteLoad(old(State()), i, outcome)
    {
      var load := pending[i];
      pending := pending[..i] + pending[i + 1..];
      if outcome.Success? {
        anchors := anchors + [Anchor(load.transform, outcome.value)];
      }
    }

    /** `session(_:didUpdate:)`: with `hits` the raycast of this frame. */
    method SessionDidUpdate(hits: seq<Transform>)
      requires hasView
      modifies viewModel`placementEnabled
      ensures viewModel.placementEnabled
           == FrameUpdate(old(viewModel.selectedFurniture), old(viewModel.placementEnabled), hits)
    {
      if viewModel.selectedFurniture.Some? {
        viewModel.placementEnabled := |hits| > 0;
      }
    }
  }
}
