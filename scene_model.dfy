/**
 * The state the AR coordinator of ARLogic/ARViewContainer.swift keeps, as values: whether
 * the `ARView` is attached, the anchors of its scene and the model loads still in flight,
 * with the effect of every event on it. Raycasts and model loads are inputs: a raycast is
 * the list of world transforms it hit, a load ends with a loaded model or an error.
 */
module SceneModel {
  import opened Wrappers
  import opened Furnishing
  import opened ViewModel

  /** The world transform of a raycast hit; no arithmetic is done on it. */
  datatype Transform = Transform(pose: nat)

  /** A model entity returned by the asset loader. */
  datatype ModelEntity = ModelEntity(handle: nat)

  datatype LoadError = LoadError(description: string)

  /** An anchor entity at a world transform holding the model loaded for it. */
  datatype Anchor = Anchor(transform: Transform, model: ModelEntity)

  /** A load started by `placeObject`: where its anchor goes and what was asked for. */
  datatype PendingLoad = PendingLoad(transform: Transform, furniture: Furniture)

  datatype CoordinatorState = CoordinatorState(hasView: bool, anchors: seq<Anchor>, pending: seq<PendingLoad>)

  /** Without a view there is no scene and no load can have been started. */
  predicate Consistent(s: CoordinatorState) {
    !s.hasView ==> s.anchors == [] && s.pending == []
  }

  /** `placeObject(f)`, with `hits` the result of the raycast from the screen centre. */
  function PlaceObject(s: CoordinatorState, f: Furniture, hits: seq<Transform>): (r: CoordinatorState)
    ensures r.hasView == s.hasView && r.anchors == s.anchors
    ensures !s.hasView || hits == [] ==> r.pending == s.pending
    ensures s.hasView && hits != [] ==> r.pending == s.pending + [PendingLoad(hits[0], f)]
  {
    if !s.hasView then s
    else if |hits| > 0 then s.(pending := s.pending + [PendingLoad(hits[0], f)])
    else s
  }

  /** The body of the action-stream sink: `.place` acts on the furniture the action carries. */
  function Handle(s: CoordinatorState, action: ARAction, hits: seq<Transform>): (r: CoordinatorState)
    ensures action.Place? ==> r == PlaceObject(s, action.furniture, hits)
    ensures action.RemoveAll? ==> r.hasView == s.hasView && r.pending == s.pending
    ensures action.RemoveAll? && s.hasView ==> r.anchors == []
    ensures action.RemoveAll? && !s.hasView ==> r == s
  {
    match action
    case Place(f) => PlaceObject(s, f, hits)
    case RemoveAll => if s.hasView then s.(anchors := []) else s
  }

  /** The sink of load `i`: it leaves the in-flight list and, on success, anchors its model. */
  function CompleteLoad(s: CoordinatorState, i: nat, outcome: Result<ModelEntity, LoadError>): (r: CoordinatorState)
    requires i < |s.pending|
    ensures r.hasView == s.hasView
    ensures r.pending == s.pending[..i] + s.pending[i + 1..] && |r.pending| == |s.pending| - 1
    ensures outcome.Failure? ==> r.anchors == s.anchors
    ensures outcome.Success? ==> r.anchors == s.anchors + [Anchor(s.pending[i].transform, outcome.value)]
  {
    var load := s.pending[i];
    var rest := s.pending[..i] + s.pending[i + 1..];
    match outcome
    case Success(m) => s.(anchors := s.anchors + [Anchor(load.transform, m)], pending := rest)
    case Failure(_) => s.(pending := rest)
  }

  /** `session(_:didUpdate:)` on `placementEnabled`, with `hits` the fresh raycast of that frame. */
  function FrameUpdate(selection: Option<Furniture>, enabled: bool, hits: seq<Transform>): (r: bool)
    ensures selection.None? ==> r == enabled
    ensures selection.Some? ==> (r <==> hits != [])
  {
    if selection.Some? then |hits| > 0 else enabled
  }

  /** What reaches the selection and the flag: a `selectFurniture` call, or a frame with its raycast. */
  datatype SelectionEvent = Select(choice: Option<Furniture>) | Frame(hits: seq<Transform>)

  datatype SelectionState = SelectionState(selection: Option<Furniture>, enabled: bool)

  /** The selection and `placementEnabled` after the events, taken one at a time. */
  function AfterEvents(s: SelectionState, evs: seq<SelectionEvent>): SelectionState
    decreases |evs|
  {
    if evs == [] then s
    else
      var t := AfterEvents(s, evs[..|evs| - 1]);
      match evs[|evs| - 1]
      case Select(x) => t.(selection := x)
      case Frame(hits) => t.(enabled := FrameUpdate(t.selection, t.enabled, hits))
  }

  /** The selection in force after the events: the last one chosen, or the initial one. */
  function SelectionAfter(initial: Option<Furniture>, evs: seq<SelectionEvent>): Option<Furniture>
    decreases |evs|
  {
    if evs == [] then initial
    else
      match evs[|evs| - 1]
      case Select(x) => x
      case Frame(_) => SelectionAfter(initial, evs[..|evs| - 1])
  }

  /** The raycast of the last frame that arrived while something was selected, if any did. */
  function LastSelectedFrame(initial: Option<Furniture>, evs: seq<SelectionEvent>): Option<seq<Transform>>
    decreases |evs|
  {
    if evs == [] then None
    else
      var init := evs[..|evs| - 1];
      match evs[|evs| - 1]
      case Frame(hits) => if SelectionAfter(initial, init).Some? then Some(hits) else LastSelectedFrame(initial, init)
      case Select(_) => LastSelectedFrame(initial, init)
  }

  /**
   * Over any interleaving of selections and frames, the flag is the hit test of the last
   * frame that arrived while something was selected, or the initial flag if none did.
   * Frames while nothing is selected, and deselecting itself, leave it as it was.
   */
  lemma {:induction false} FlagFollowsLastSelectedFrame(s: SelectionState, evs: seq<SelectionEvent>)
    ensures AfterEvents(s, evs).selection == SelectionAfter(s.selection, evs)
    ensures AfterEvents(s, evs).enabled
         == match LastSelectedFrame(s.selection, evs)
            case None => s.enabled
            case Some(hits) => hits != []
    decreases |evs|
  {
    if evs != [] {
      FlagFollowsLastSelectedFrame(s, evs[..|evs| - 1]);
    }
  }

  /**
   * Deselecting does not reset the flag: after a frame that found a surface, the item is
   * deselected and later frames find nothing, yet `placementEnabled` stays true.
   */
  lemma FlagStaysAfterDeselect(s: SelectionState, f: Furniture, hits: seq<Transform>, later: seq<Transform>)
    requires hits != []
    ensures AfterEvents(s, [Select(Some(f)), Frame(hits), Select(None), Frame(later)]).enabled
  {
    var e1 := [Select(Some(f))];
    var e2 := e1 + [Frame(hits)];
    var e3 := e2 + [Select(None)];
    var evs := e3 + [Frame(later)];
    assert evs[..3] == e3 && e3[..2] == e2 && e2[..1] == e1 && e1[..0] == [];
    assert SelectionAfter(s.selection, e1) == Some(f);
    assert LastSelectedFrame(s.selection, e2) == Some(hits);
    assert SelectionAfter(s.selection, e3) == None;
    assert LastSelectedFrame(s.selection, evs) == Some(hits);
    FlagFollowsLastSelectedFrame(s, evs);
    assert evs == [Select(Some(f)), Frame(hits), Select(None), Frame(later)];
  }

  // ---------------------------------------------------------------------------
  // Runs of events

  /** What can happen to the coordinator: the sink gets the next action, or a load finishes. */
  datatype Event =
    | Deliver(action: ARAction, hits: seq<Transform>)
    | Complete(index: nat, outcome: Result<ModelEntity, LoadError>)

  /** Only a load that is in flight can finish. */
  predicate Enabled(s: CoordinatorState, e: Event) {
    e.Complete? ==> e.index < |s.pending|
  }

  function Step(s: CoordinatorState, e: Event): CoordinatorState
    requires Enabled(s, e)
  {
    match e
    case Deliver(a, hits) => Handle(s, a, hits)
    case Complete(i, outcome) => CompleteLoad(s, i, outcome)
  }

  /** The state after the events, or `None` if one of them is a completion of no load in flight. */
  function Run(s: CoordinatorState, evs: seq<Event>): Option<CoordinatorState>
    decreases |evs|
  {
    if evs == [] then Some(s)
    else
      match Run(s, evs[..|evs| - 1])
      case None => None
      case Some(t) => if Enabled(t, evs[|evs| - 1]) then Some(Step(t, evs[|evs| - 1])) else None
  }

  predicate IsClear(e: Event) {
    e.Deliver? && e.action.RemoveAll?
  }

  predicate HasClear(evs: seq<Event>) {
    exists k :: 0 <= k < |evs| && IsClear(evs[k])
  }

  /** The events after the last `.removeAll` delivery (all of them if there is none). */
  function SinceLastClear(evs: seq<Event>): seq<Event>
    decreases |evs|
  {
    if evs == [] then []
    else if IsClear(evs[|evs| - 1]) then []
    else SinceLastClear(evs[..|evs| - 1]) + [evs[|evs| - 1]]
  }

  /** The number of loads that finished successfully. */
  function Successes(evs: seq<Event>): nat
    decreases |evs|
  {
    if evs == [] then 0
    else Successes(evs[..|evs| - 1]) + (if evs[|evs| - 1].Complete? && evs[|evs| - 1].outcome.Success? then 1 else 0)
  }

  lemma SuccessesSnoc(evs: seq<Event>, e: Event)
    ensures Successes(evs + [e]) == Successes(evs) + (if e.Complete? && e.outcome.Success? then 1 else 0)
  {
  }

  lemma HasClearSnoc(evs: seq<Event>)
    requires evs != []
    ensures HasClear(evs) <==> HasClear(evs[..|evs| - 1]) || IsClear(evs[|evs| - 1])
  {
  }

  lemma StepConsistent(s: CoordinatorState, e: Event)
    requires Consistent(s) && Enabled(s, e)
    ensures Consistent(Step(s, e)) && Step(s, e).hasView == s.hasView
  {
  }

  /** Every run keeps the view as it was and keeps the state consistent. */
  lemma {:induction false} RunConsistent(s: CoordinatorState, evs: seq<Event>)
    requires Consistent(s) && Run(s, evs).Some?
    ensures Consistent(Run(s, evs).value) && Run(s, evs).value.hasView == s.hasView
    decreases |evs|
  {
    if evs != [] {
      RunConsistent(s, evs[..|evs| - 1]);
      StepConsistent(Run(s, evs[..|evs| - 1]).value, evs[|evs| - 1]);
    }
  }

  /**
   * The anchor count equals the successful loads since the last `.removeAll` (plus the
   * anchors there were, if nothing cleared them). Loads started before the clear count:
   * nothing discards a completion that arrives after it.
   */
  lemma {:induction false} AnchorCountSinceLastClear(s: CoordinatorState, evs: seq<Event>)
    requires Consistent(s) && Run(s, evs).Some?
    ensures |Run(s, evs).value.anchors| == (if HasClear(evs) then 0 else |s.anchors|) + Successes(SinceLastClear(evs))
    decreases |evs|
  {
    if evs != [] {
      var init, e := evs[..|evs| - 1], evs[|evs| - 1];
      AnchorCountSinceLastClear(s, init);
      RunConsistent(s, init);
      HasClearSnoc(evs);
      if !IsClear(e) {
        SuccessesSnoc(SinceLastClear(init), e);
      }
    }
  }

  /** Between clears the anchor list only grows: the anchors there were stay, in order, at its front. */
  lemma {:induction false} AnchorsOnlyGrowWithoutClear(s: CoordinatorState, evs: seq<Event>)
    requires Run(s, evs).Some? && !HasClear(evs)
    ensures s.anchors <= Run(s, evs).value.anchors
    decreases |evs|
  {
    if evs != [] {
      HasClearSnoc(evs);
      AnchorsOnlyGrowWithoutClear(s, evs[..|evs| - 1]);
    }
  }

  /** Some delivered `.place(f)` hit a surface first at `t`. */
  predicate PlacedAt(evs: seq<Event>, t: Transform, f: Furniture) {
    exists k :: 0 <= k < |evs| && evs[k].Deliver? && evs[k].action == Place(f) && |evs[k].hits| > 0 && evs[k].hits[0] == t
  }

  /** Some delivered `.place` hit a surface first at `t`. */
  predicate HitAt(evs: seq<Event>, t: Transform) {
    exists k :: 0 <= k < |evs| && evs[k].Deliver? && evs[k].action.Place? && |evs[k].hits| > 0 && evs[k].hits[0] == t
  }

  lemma PlacedAtSnoc(evs: seq<Event>, t: Transform, f: Furniture)
    requires evs != [] && PlacedAt(evs[..|evs| - 1], t, f)
    ensures PlacedAt(evs, t, f) && HitAt(evs, t)
  {
  }

  /** Some load in flight in `s` will anchor at `t`. */
  predicate LoadingAt(s: CoordinatorState, t: Transform) {
    exists p :: p in s.pending && p.transform == t
  }

  lemma HitAtSnoc(evs: seq<Event>, t: Transform)
    requires evs != [] && HitAt(evs[..|evs| - 1], t)
    ensures HitAt(evs, t)
  {
  }

  /**
   * No speculative placement: every load in flight was started by a delivered `.place` of
   * its furniture whose raycast hit first at its transform, and every anchor sits at such a hit
   * (or was there before the run).
   */
  lemma {:induction false} NoSpeculativePlacement(s: CoordinatorState, evs: seq<Event>)
    requires Run(s, evs).Some?
    ensures forall p :: p in Run(s, evs).value.pending ==> p in s.pending || PlacedAt(evs, p.transform, p.furniture)
    ensures forall a :: a in Run(s, evs).value.anchors ==> a in s.anchors || LoadingAt(s, a.transform) || HitAt(evs, a.transform)
    decreases |evs|
  {
    if evs != [] {
      var init, e := evs[..|evs| - 1], evs[|evs| - 1];
      NoSpeculativePlacement(s, init);
      var t := Run(s, init).value;
      var r := Run(s, evs).value;
      forall p | p in r.pending && p !in s.pending
        ensures PlacedAt(evs, p.transform, p.furniture)
      {
        if p in t.pending {
          PlacedAtSnoc(evs, p.transform, p.furniture);
        } else {
          assert e.Deliver? && e.action.Place? && |e.hits| > 0 && p == PendingLoad(e.hits[0], e.action.furniture);
          assert evs[|evs| - 1] == e;
        }
      }
      forall a | a in r.anchors && a !in s.anchors && !LoadingAt(s, a.transform)
        ensures HitAt(evs, a.transform)
      {
        if a in t.anchors {
          HitAtSnoc(evs, a.transform);
        } else {
          assert e.Complete? && e.outcome.Success?;
          var p := t.pending[e.index];
          assert p in t.pending && a.transform == p.transform;
          assert p !in s.pending;
          PlacedAtSnoc(evs, p.transform, p.furniture);
        }
      }
    }
  }

  lemma RunSnoc(s: CoordinatorState, evs: seq<Event>, e: Event)
    requires Run(s, evs).Some? && Enabled(Run(s, evs).value, e)
    ensures Run(s, evs + [e]) == Some(Step(Run(s, evs).value, e))
  {
  }

  /**
   * A load started before `.removeAll` and finishing after it still anchors its model:
   * the clear empties the scene, then the late completion repopulates it.
   */
  lemma StaleLoadStillAnchors(s: CoordinatorState, f: Furniture, hits: seq<Transform>, m: ModelEntity)
    requires s.hasView && hits != []
    ensures Run(s, [Deliver(Place(f), hits), Deliver(RemoveAll, []), Complete(|s.pending|, Success(m))])
         == Some(s.(anchors := [Anchor(hits[0], m)]))
  {
    var e0, e1, e2 := Deliver(Place(f), hits), Deliver(RemoveAll, []), Complete(|s.pending|, Success(m));
    RunSnoc(s, [], e0);
    var s1 := Step(s, e0);
    assert s1.pending == s.pending + [PendingLoad(hits[0], f)];
    RunSnoc(s, [e0], e1);
    var s2 := Step(s1, e1);
    assert s2.anchors == [] && s2.pending == s1.pending;
    assert [e0] + [e1] == [e0, e1] && [e0, e1] + [e2] == [e0, e1, e2];
    RunSnoc(s, [e0, e1], e2);
    var s3 := Step(s2, e2);
    assert s2.pending[|s.pending|] == PendingLoad(hits[0], f);
    assert s2.pending[..|s.pending|] + s2.pending[|s.pending| + 1..] == s.pending;
    assert s3 == s.(anchors := [Anchor(hits[0], m)]);
  }

  /**
   * Two placements whose loads finish in the reverse order both end up in the scene,
   * each at its own hit, in completion order; no load is lost or doubled.
   */
  lemma OutOfOrderCompletion(s: CoordinatorState, f: Furniture, g: Furniture, hf: seq<Transform>, hg: seq<Transform>,
                             mf: ModelEntity, mg: ModelEntity)
    requires s.hasView && hf != [] && hg != []
    ensures var n := |s.pending|;
      Run(s, [Deliver(Place(f), hf), Deliver(Place(g), hg), Complete(n + 1, Success(mg)), Complete(n, Success(mf))])
      == Some(s.(anchors := s.anchors + [Anchor(hg[0], mg), Anchor(hf[0], mf)]))
  {
    var n := |s.pending|;
    var e0, e1, e2, e3 := Deliver(Place(f), hf), Deliver(Place(g), hg), Complete(n + 1, Success(mg)), Complete(n, Success(mf));
    var pf, pg := PendingLoad(hf[0], f), PendingLoad(hg[0], g);
    assert [e0] + [e1] == [e0, e1] && [e0, e1] + [e2] == [e0, e1, e2] && [e0, e1, e2] + [e3] == [e0, e1, e2, e3];
    RunSnoc(s, [], e0);
    var s1 := Step(s, e0);
    RunSnoc(s, [e0], e1);
    var s2 := Step(s1, e1);
    assert s2.pending == s.pending + [pf, pg];
    assert s2.pending[..n + 1] == s.pending + [pf];
    RunSnoc(s, [e0, e1], e2);
    var s3 := Step(s2, e2);
    assert s3.pending == s.pending + [pf] && s3.anchors == s.anchors + [Anchor(hg[0], mg)];
    assert s3.pending[..n] == s.pending;
    RunSnoc(s, [e0, e1, e2], e3);
    var s4 := Step(s3, e3);
    assert s4.pending == s.pending;
    assert s4 == s.(anchors := s.anchors + [Anchor(hg[0], mg), Anchor(hf[0], mf)]);
  }
}
