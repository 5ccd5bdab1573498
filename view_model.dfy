/** The view model of MVVM/ViewModel/ARViewModel.swift: catalog, selection, placement flag and the action stream. */
module ViewModel {
  import opened Wrappers
  import opened Furnishing

  /** What the view model asks the AR coordinator to do. */
  datatype ARAction = Place(furniture: Furniture) | RemoveAll

  /** The catalog `loadFurnitureCatalog` installs; `id0`..`id2` are the UUIDs drawn for its three items. */
  function DefaultCatalog(id0: Uuid, id1: Uuid, id2: Uuid): (c: seq<Furniture>)
    ensures |c| == 3
    ensures c[0].id == id0 && c[1].id == id1 && c[2].id == id2
    ensures forall i, j :: 0 <= i < j < |c| ==> c[i].name != c[j].name && c[i].modelName != c[j].modelName
  {
    [ Furniture(id0, "Basketball", "ball_basketball_realistic"),
      Furniture(id1, "Teapot", "teapot"),
      Furniture(id2, "Toy Car", "toy_car") ]
  }

  /** The actions `placeSelectedItem` sends for a given selection. */
  function PlaceIntent(selection: Option<Furniture>): (r: seq<ARAction>)
    ensures r == [] <==> selection.None?
    ensures |r| <= 1
    ensures forall a :: a in r ==> a.Place? && Some(a.furniture) == selection
  {
    match selection
    case None => []
    case Some(f) => [Place(f)]
  }

  class ARViewModel {
    var furnitureCatalog: seq<Furniture>
    var selectedFurniture: Option<Furniture>
    var placementEnabled: bool
    /** Every action sent on `actionStream` so far, oldest first. */
    var actionStream: seq<ARAction>

    /** The selection is nothing or one of the catalog's items. */
    predicate SelectionInCatalog()
      reads this
    {
      selectedFurniture.None? || selectedFurniture.value in furnitureCatalog
    }

    /** `init()`: the catalog is loaded, nothing is selected, placement is off and nothing was sent. */
    constructor (id0: Uuid, id1: Uuid, id2: Uuid)
      ensures furnitureCatalog == DefaultCatalog(id0, id1, id2)
      ensures furnitureCatalog == [ Furniture(id0, "Basketball", "ball_basketball_realistic"),
                                    Furniture(id1, "Teapot", "teapot"),
                                    Furniture(id2, "Toy Car", "toy_car") ]
      ensures selectedFurniture == None && !placementEnabled && SelectionInCatalog()
      ensures actionStream == []
    {
      furnitureCatalog := [];
      selectedFurniture := None;
      placementEnabled := false;
      actionStream := [];
      new;
      LoadFurnitureCatalog(id0, id1, id2);
    }

    method LoadFurnitureCatalog(id0: Uuid, id1: Uuid, id2: Uuid)
      modifies this`furnitureCatalog
      ensures furnitureCatalog == DefaultCatalog(id0, id1, id2)
    {
      furnitureCatalog := DefaultCatalog(id0, id1, id2);
    }

    /** Plain assignment: selecting the item already selected keeps it selected. */
    method SelectFurniture(furniture: Option<Furniture>)
      modifies this`selectedFurniture
      ensures selectedFurniture == furniture
      ensures furnitureCatalog == old(furnitureCatalog) && placementEnabled == old(placementEnabled)
      ensures actionStream == old(actionStream)
    {
      selectedFurniture := furniture;
    }

    /** Sends `.place` for the current selection, if any; `placementEnabled` is not consulted. */
    method PlaceSelectedItem()
      modifies this`actionStream
      ensures actionStream == old(actionStream) + PlaceIntent(selectedFurniture)
      ensures old(selectedFurniture).None? ==> actionStream == old(actionStream)
      ensures old(selectedFurniture).Some? ==> actionStream == old(actionStream) + [Place(old(selectedFurniture).value)]
      ensures furnitureCatalog == old(furnitureCatalog) && selectedFurniture == old(selectedFurniture)
      ensures placementEnabled == old(placementEnabled)
    {
      if selectedFurniture.None? {
        return;
      }
      actionStream := actionStream + [Place(selectedFurniture.value)];
    }

    method RemoveAll()
      modifies this`actionStream
      ensures actionStream == old(actionStream) + [ARAction.RemoveAll]
      ensures furnitureCatalog == old(furnitureCatalog) && selectedFurniture == old(selectedFurniture)
      ensures placementEnabled == old(placementEnabled)
    {
      actionStream := actionStream + [ARAction.RemoveAll];
    }
  }
}
