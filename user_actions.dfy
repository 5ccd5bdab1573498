/**
 * What the buttons and taps of the two SwiftUI views do to the view model, and a whole
 * session driven through them.
 */
module UserActions {
  import opened Wrappers
  import opened Furnishing
  import opened ViewModel
  import opened SceneModel
  import opened ARLogic
  import opened ContentLogic

  /**
   * A tap on a carousel thumbnail (MVVM/View/ContentView.swift) selects that item; the
   * carousel shows only the catalog's items.
   */
  method TapCarouselItem(vm: ARViewModel, item: Furniture)
    requires item in vm.furnitureCatalog
    modifies vm`selectedFurniture
    ensures vm.selectedFurniture == Some(item) && BottomPanel(vm.selectedFurniture) == PlacementPanel
    ensures vm.SelectionInCatalog()
  {
    vm.SelectFurniture(Some(item));
  }

  /**
   * The close button of the placement panel as written: it passes the current selection
   * back to `selectFurniture`, which assigns, so the selection and the panel stay.
   */
  method CloseButtonAsWritten(vm: ARViewModel)
    requires vm.selectedFurniture.Some?
    modifies vm`selectedFurniture
    ensures vm.selectedFurniture == old(vm.selectedFurniture)
    ensures BottomPanel(vm.selectedFurniture) == PlacementPanel
    ensures old(vm.SelectionInCatalog()) ==> vm.SelectionInCatalog()
  {
    vm.SelectFurniture(Some(vm.selectedFurniture.value));
  }

  /** The close button as intended: it clears the selection and the carousel comes back. */
  method CloseButton(vm: ARViewModel)
    requires vm.selectedFurniture.Some?
    modifies vm`selectedFurniture
    ensures vm.selectedFurniture == None
    ensures BottomPanel(vm.selectedFurniture) == Carousel
    ensures vm.SelectionInCatalog()
  {
    vm.SelectFurniture(None);
  }

  /**
   * The app from launch: the Teapot is tapped, a frame finds a surface, Place is tapped and
   * its load succeeds; Place is tapped again and the trash button clears the scene before
   * that second load finishes, which still adds its anchor. The close button as written
   * leaves the placement panel up; the intended close brings the carousel back.
   */
  method TeapotSession(id0: Uuid, id1: Uuid, id2: Uuid, hit: Transform, first: ModelEntity, second: ModelEntity)
    returns (enabled: bool, placedTeapot: bool, afterLoad: nat, afterStaleLoad: nat,
             panelAfterClose: Panel, panelAfterIntendedClose: Panel)
    ensures enabled && placedTeapot
    ensures afterLoad == 1 && afterStaleLoad == 1
    ensures panelAfterClose == PlacementPanel && panelAfterIntendedClose == Carousel
  {
    var vm := new ARViewModel(id0, id1, id2);
    var c := new Coordinator(vm);
    c.AttachView();
    c.SubscribeToActionStream();

    TapCarouselItem(vm, vm.furnitureCatalog[1]);
    c.SessionDidUpdate([hit]);
    enabled := vm.placementEnabled;

    vm.PlaceSelectedItem();
    c.Deliver([hit]);
    placedTeapot := c.pending == [PendingLoad(hit, Furniture(id1, "Teapot", "teapot"))];
    c.CompleteLoad(0, Success(first));
    afterLoad := |c.anchors|;

    vm.PlaceSelectedItem();
    c.Deliver([hit]);
    vm.RemoveAll();
    c.Deliver([]);
    c.CompleteLoad(0, Success(second));
    afterStaleLoad := |c.anchors|;

    CloseButtonAsWritten(vm);
    panelAfterClose := BottomPanel(vm.selectedFurniture);
    CloseButton(vm);
    panelAfterIntendedClose := BottomPanel(vm.selectedFurniture);
  }
}
