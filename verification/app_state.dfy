/** The presentation state of the classifier app: two readiness flags, the
    selected image and the latest predictions, changed by the continuations of
    the app's asynchronous calls. `Step` is the transition function over
    snapshots; the class `App` holds the same fields as mutable state and each
    of its methods performs one step. */
module AppState {
  import opened TensorBuilder

  datatype Option<T> = None | Some(value: T)

  /** A value, or the error an external call threw. */
  datatype Result<T> = Ok(value: T) | Err(error: string)

  /** The `{ uri }` object the app keeps as its image source. */
  datatype ImageSource = ImageSource(uri: string)

  /** One entry of the classifier's answer. */
  datatype Prediction = Prediction(className: string, probability: real)

  /** How a visit to the image library ends: cancelled by the user, with the
      URI of the chosen image, or with the picker throwing. */
  datatype PickResult = Cancelled | Picked(uri: string) | PickFailed(error: string)

  /** The component state. */
  datatype Snapshot = Snapshot(
    isTfReady: bool,
    isModelReady: bool,
    predictions: Option<seq<Prediction>>,
    image: Option<ImageSource>)

  /** What resumes the app: the numeric runtime finished initialising, the model
      finished loading, the user pressed the image area (and the picker
      returned), or a classification that was started earlier finished. */
  datatype Event =
    | TfReady
    | ModelLoaded
    | Press(pick: PickResult)
    | ClassifyDone(outcome: Result<seq<Prediction>>)

  function Initial(): Snapshot
  {
    Snapshot(false, false, None, None)
  }

  /** Which events can happen in a state: each readiness step happens once and
      in order, and a classification only finishes while an image is selected
      (how many are in flight is not tracked). */
  predicate Enabled(s: Snapshot, e: Event)
  {
    match e
    case TfReady => !s.isTfReady
    case ModelLoaded => s.isTfReady && !s.isModelReady
    case Press(_) => true
    case ClassifyDone(_) => s.image.Some?
  }

  /** The invariant the app keeps: the model is only ready once the runtime is,
      an image is only selected once the model is ready, and predictions only
      exist for a selected image. */
  predicate Inv(s: Snapshot)
  {
    (s.isModelReady ==> s.isTfReady) &&
    (s.image.Some? ==> s.isModelReady) &&
    (s.predictions.Some? ==> s.image.Some?)
  }

  function Step(s: Snapshot, e: Event): (r: Snapshot)
    requires Enabled(s, e)
    ensures Inv(s) ==> Inv(r)
    ensures r.isTfReady == (s.isTfReady || e == TfReady)
    ensures r.isModelReady == (s.isModelReady || e == ModelLoaded)
    ensures !s.isModelReady && e.Press? ==> r == s
  {
    match e
    case TfReady => s.(isTfReady := true)
    case ModelLoaded => s.(isModelReady := true)
    case Press(pick) =>
      if !s.isModelReady then s
      else if pick.Picked? then s.(image := Some(ImageSource(pick.uri)))
      else s
    case ClassifyDone(outcome) =>
      if outcome.Ok? then s.(predictions := Some(outcome.value)) else s
  }

  /** `events` can happen one after the other starting in `s`. */
  predicate ValidTrace(s: Snapshot, events: seq<Event>)
    decreases |events|
  {
    events == [] || (Enabled(s, events[0]) && ValidTrace(Step(s, events[0]), events[1..]))
  }

  function Run(s: Snapshot, events: seq<Event>): Snapshot
    requires ValidTrace(s, events)
    decreases |events|
  {
    if events == [] then s else Run(Step(s, events[0]), events[1..])
  }

  /** The predictions shown after `events`: those of the latest successful
      classification among them, or `shown` if none succeeded. */
  function LatestPredictions(events: seq<Event>, shown: Option<seq<Prediction>>): Option<seq<Prediction>>
  {
    if events == [] then shown
    else
      var last := events[|events| - 1];
      if last.ClassifyDone? && last.outcome.Ok? then Some(last.outcome.value)
      else LatestPredictions(events[..|events| - 1], shown)
  }

  /** A valid trace extended by one event enabled at its end is valid, and
      running it takes one more step. */
  lemma {:induction false} RunSnoc(s: Snapshot, events: seq<Event>, e: Event)
    requires ValidTrace(s, events) && Enabled(Run(s, events), e)
    ensures ValidTrace(s, events + [e])
    ensures Run(s, events + [e]) == Step(Run(s, events), e)
    decreases |events|
  {
    if events == [] {
      assert events + [e] == [e];
      assert [e][1..] == [];
    } else {
      assert (events + [e])[0] == events[0];
      assert (events + [e])[1..] == events[1..] + [e];
      RunSnoc(Step(s, events[0]), events[1..], e);
    }
  }

  /** A prefix of a valid trace is valid, and the event after it is enabled. */
  lemma {:induction false} TracePrefix(s: Snapshot, events: seq<Event>, k: nat)
    requires ValidTrace(s, events) && k < |events|
    ensures ValidTrace(s, events[..k])
    ensures Enabled(Run(s, events[..k]), events[k])
    ensures ValidTrace(s, events[..k + 1])
    ensures Run(s, events[..k + 1]) == Step(Run(s, events[..k]), events[k])
    decreases k
  {
    if k == 0 {
      assert events[..0] == [];
    } else {
      TracePrefix(Step(s, events[0]), events[1..], k - 1);
      assert events[1..][..k - 1] == events[1..k];
      assert events[1..][..k] == events[1..k + 1];
      assert events[..k][0] == events[0] && events[..k][1..] == events[1..k];
      assert events[..k + 1][0] == events[0] && events[..k + 1][1..] == events[1..k + 1];
    }
    assert events[..k] + [events[k]] == events[..k + 1];
    RunSnoc(s, events[..k], events[k]);
  }

  /** Every state the app passes through keeps the invariant. */
  lemma {:induction false} RunKeepsInv(s: Snapshot, events: seq<Event>)
    requires Inv(s) && ValidTrace(s, events)
    ensures Inv(Run(s, events))
    decreases |events|
  {
    if events != [] {
      RunKeepsInv(Step(s, events[0]), events[1..]);
    }
  }

  /** Once the runtime or the model is ready it stays ready. */
  lemma {:induction false} ReadinessIsPermanent(s: Snapshot, events: seq<Event>)
    requires ValidTrace(s, events)
    ensures s.isTfReady ==> Run(s, events).isTfReady
    ensures s.isModelReady ==> Run(s, events).isModelReady
    decreases |events|
  {
    if events != [] {
      ReadinessIsPermanent(Step(s, events[0]), events[1..]);
    }
  }

  /** Starting from the initial state, the model finishes loading only after
      the runtime has become ready. */
  lemma TfReadyBeforeModelLoaded(events: seq<Event>, k: nat)
    requires ValidTrace(Initial(), events) && k < |events| && events[k] == ModelLoaded
    ensures TfReady in events[..k]
  {
    TracePrefix(Initial(), events, k);
    TfReadyOnlyByEvent(Initial(), events[..k]);
  }

  /** The runtime flag is only raised by the runtime-ready event. */
  lemma {:induction false} TfReadyOnlyByEvent(s: Snapshot, events: seq<Event>)
    requires ValidTrace(s, events) && !s.isTfReady
    ensures Run(s, events).isTfReady ==> TfReady in events
    decreases |events|
  {
    if events != [] && events[0] != TfReady {
      TfReadyOnlyByEvent(Step(s, events[0]), events[1..]);
      assert events == [events[0]] + events[1..];
    }
  }

  /** The predictions on show are those of the latest classification that
      succeeded: failed classifications, presses and readiness steps never
      touch them. */
  lemma {:induction false} PredictionsAreLatestSuccess(s: Snapshot, events: seq<Event>)
    requires ValidTrace(s, events)
    ensures Run(s, events).predictions == LatestPredictions(events, s.predictions)
    decreases |events|
  {
    if events != [] {
      var k := |events| - 1;
      TracePrefix(s, events, k);
      assert events[..k + 1] == events;
      PredictionsAreLatestSuccess(s, events[..k]);
    }
  }

  /** The outcome of one classification of the selected image: fetching and
      decoding it either failed, or its tensor is handed to the model. */
  function Classification(decoded: Result<DecodedImage>, infer: Tensor -> Result<seq<Prediction>>): Result<seq<Prediction>>
    requires decoded.Ok? ==> WellSized(decoded.value)
  {
    match decoded
    case Err(e) => Err(e)
    case Ok(img) => infer(RgbTensor(img))
  }

  /** The alpha channel never reaches the classifier: two decoded images of the
      same size that agree on every red, green and blue byte are classified
      alike, whatever the model. */
  lemma ClassificationIgnoresAlpha(a: DecodedImage, b: DecodedImage, infer: Tensor -> Result<seq<Prediction>>)
    requires WellSized(a) && WellSized(b)
    requires a.width == b.width && a.height == b.height
    requires forall p, c | 0 <= p < PixelCount(a) && 0 <= c < 3 :: Rgba(a.data, p, c) == Rgba(b.data, p, c)
    ensures Classification(Ok(a), infer) == Classification(Ok(b), infer)
  {
    AlphaIgnored(a.data, b.data, PixelCount(a));
  }

  /** The app component. The model itself is not a field here: the classifier
      is passed to `ClassifyImage` as the function `infer`. */
  class App {
    var isTfReady: bool
    var isModelReady: bool
    var predictions: Option<seq<Prediction>>
    var image: Option<ImageSource>

    function State(): Snapshot
      reads this
    {
      Snapshot(isTfReady, isModelReady, predictions, image)
    }

    predicate Valid()
      reads this
    {
      Inv(State())
    }

    /** Every flag false, no image, no predictions. */
    constructor ()
      ensures State() == Initial() && Valid()
    {
      isTfReady := false;
      isModelReady := false;
      predictions := None;
      image := None;
    }

    /** The numeric runtime finished initialising. */
    method OnTfReady()
      requires Valid() && !isTfReady
      modifies this
      ensures Valid() && State() == Step(old(State()), TfReady)
      ensures isTfReady && isModelReady == old(isModelReady)
      ensures image == old(image) && predictions == old(predictions)
    {
      isTfReady := true;
    }

    /** The model finished loading; this continuation only runs after the
        runtime became ready. */
    method OnModelLoaded()
      requires Valid() && isTfReady && !isModelReady
      modifies this
      ensures Valid() && State() == Step(old(State()), ModelLoaded)
      ensures isTfReady && isModelReady
      ensures image == old(image) && predictions == old(predictions)
    {
      isModelReady := true;
    }

    /** A press on the image area. The handler is only attached once the model
        is ready; it opens the picker and, unless the pick was cancelled or the
        picker threw, stores the chosen image and starts a classification
        (which finishes later, through `ClassifyImage`). */
    method OnPress(pick: PickResult) returns (classifying: bool)
      requires Valid()
      modifies this
      ensures Valid() && State() == Step(old(State()), Press(pick))
      ensures classifying <==> old(isModelReady) && pick.Picked?
      ensures classifying ==> image == Some(ImageSource(pick.uri))
      ensures !classifying ==> image == old(image)
      ensures predictions == old(predictions)
      ensures isTfReady == old(isTfReady) && isModelReady == old(isModelReady)
    {
      classifying := false;
      if isModelReady {
        match pick {
          case Picked(uri) =>
            image := Some(ImageSource(uri));
            classifying := true;
          case Cancelled =>
          case PickFailed(_) =>
        }
      }
    }

    /** classifyImage: fetch and decode the selected image (`decoded` is what
        that produced), build its tensor, classify it with `infer`, and show
        the predictions; any failure is logged and leaves the state alone. */
    method ClassifyImage(decoded: Result<DecodedImage>, infer: Tensor -> Result<seq<Prediction>>)
      requires Valid() && image.Some?
      requires decoded.Ok? ==> WellSized(decoded.value)
      modifies this
      ensures Valid()
      ensures State() == Step(old(State()), ClassifyDone(Classification(decoded, infer)))
      ensures Classification(decoded, infer).Ok? ==> predictions == Some(Classification(decoded, infer).value)
      ensures Classification(decoded, infer).Err? ==> predictions == old(predictions)
      ensures image == old(image) && isTfReady == old(isTfReady) && isModelReady == old(isModelReady)
    {
      var outcome: Result<seq<Prediction>>;
      match decoded {
        case Err(e) =>
          outcome := Err(e);
        case Ok(img) =>
          var tensor := ImageToTensor(img);
          outcome := infer(tensor);
      }
      if outcome.Ok? {
        predictions := Some(outcome.value);
      }
    }
  }
}
