/**
 * The decisions of MVVM/View/ContentView.swift: the tracking-status banner of `ARStatusView`
 * and which bottom panel `ContentView.body` shows.
 */
module ContentLogic {
  import opened Wrappers
  import opened Furnishing

  /** The reasons ARKit gives for limited tracking; `Unknown` stands for reasons added later. */
  datatype LimitedReason = Initializing | ExcessiveMotion | InsufficientFeatures | Relocalizing | Unknown

  /** The camera's tracking state, as ARKit reports it. */
  datatype TrackingState = NotAvailable | Limited(reason: LimitedReason) | Normal

  datatype Color = Clear | Red | Blue | Yellow

  datatype Status = Status(message: string, color: Color)

  /** `statusMessage(for:)`: the banner text and colour for a tracking state. */
  function StatusMessage(state: TrackingState): (r: Status)
    ensures r.message == "" <==> state.Normal?
    ensures r.color == Clear <==> state.Normal?
    ensures r.color == Red <==> state.NotAvailable?
    ensures r.color == Blue <==> state == Limited(Initializing)
    ensures r.color == Yellow <==> state.Limited? && state.reason != Initializing
  {
    match state
    case Normal => Status("", Clear)
    case NotAvailable => Status("AR Not Available", Red)
    case Limited(reason) =>
      match reason
      case Initializing => Status("Move device to scan", Blue)
      case ExcessiveMotion => Status("Move slower", Yellow)
      case InsufficientFeatures => Status("Aim at a textured surface", Yellow)
      case _ => Status("Tracking limited", Yellow)
  }

  /** The texts the banner shows. */
  lemma StatusTexts()
    ensures StatusMessage(Normal) == Status("", Clear)
    ensures StatusMessage(NotAvailable) == Status("AR Not Available", Red)
    ensures StatusMessage(Limited(Initializing)) == Status("Move device to scan", Blue)
    ensures StatusMessage(Limited(ExcessiveMotion)) == Status("Move slower", Yellow)
    ensures StatusMessage(Limited(InsufficientFeatures)) == Status("Aim at a textured surface", Yellow)
    ensures StatusMessage(Limited(Relocalizing)) == Status("Tracking limited", Yellow)
    ensures StatusMessage(Limited(Unknown)) == Status("Tracking limited", Yellow)
  {
  }

  /** Every limited reason the switch does not name falls back to the generic message. */
  lemma OtherLimitedReasons(reason: LimitedReason)
    requires reason !in {Initializing, ExcessiveMotion, InsufficientFeatures}
    ensures StatusMessage(Limited(reason)) == Status("Tracking limited", Yellow)
  {
  }

  /** The banner is drawn when the message is not empty. */
  function BannerShown(state: TrackingState): (shown: bool)
    ensures shown <==> !state.Normal?
  {
    StatusMessage(state).message != ""
  }

  datatype Panel = PlacementPanel | Carousel

  /** `ContentView.body`: the placement controls while something is selected, the catalog otherwise. */
  function BottomPanel(selection: Option<Furniture>): (p: Panel)
    ensures p == PlacementPanel <==> selection.Some?
    ensures p == Carousel <==> selection.None?
  {
    if selection.Some? then PlacementPanel else Carousel
  }
}
