# Image classifier app: tensor builder and presentation state

A Dafny model of the logic in the React Native image classifier's `App`
component (`App.js`). The app lets a user pick an image and shows the labels a
pretrained MobileNet model predicts for it. Two parts are modelled.

- **Tensor builder** (`tensor_builder.dfy`, module `TensorBuilder`). It models
  `imageToTensor`. The decoded image comes in as `DecodedImage(width, height, data)`,
  where `data` holds four bytes per pixel (red, green, blue, alpha).
  `ImageToTensor` allocates a byte array of `width * height * 3` elements. It
  fills the array in a `while` loop that steps `i` by 3 and `offset` by 4, exactly
  as the source does. It returns the values together with the shape
  `[height, width, 3]`. The method is proved against the specification function
  `RgbProjection`. Lemmas then show three things about that function:
  - each colour byte lands at stride 3;
  - it is the only buffer with that property;
  - it never looks at an alpha byte.
- **Presentation state** (`app_state.dfy`, module `AppState`). It models the
  component state: `isTfReady`, `isModelReady`, `predictions` and `image`. The
  continuations of the component's asynchronous calls change this state. They
  are modelled as events:
  - the runtime became ready;
  - the model finished loading;
  - the user pressed the image area and the picker returned;
  - a classification finished.

  `Step` is the transition function over snapshots of the state. The class
  `App` holds the same fields as mutable state, and each of its methods performs
  one step. The predicate `Enabled` says which events may happen in a state.
  The order of the readiness steps enters the model through it, taken from the
  order of the awaits in `componentDidMount`. The lemmas below derive
  consequences of that order; they do not establish it. Lemmas over whole event
  traces prove four things:
  - the invariant holds in every state;
  - readiness is permanent;
  - the model becomes ready only after the runtime does;
  - the predictions shown are those of the latest successful classification.

The external calls are modelled as parameters:
- the JPEG decoder's output, or the error thrown while fetching or decoding, is
  a `Result<DecodedImage>`;
- the model's `classify` is a function `infer` from tensors to a result;
- the picker's outcome is a `PickResult`.

The source stores decoder bytes into a `Uint8Array`. Those bytes are already in
0..255, so the model uses the subset type `Byte` and no wrap-around is needed.

## Model

| member | source | states |
|---|---|---|
| TensorBuilder.ImageToTensor | App.js:48-63 | The result has shape `[height, width, 3]`. Its values are exactly `RgbProjection` of the decoded buffer over all `width*height` pixels, which makes the result `RgbTensor(img)`. The loop invariant keeps `i == 3*pixels` and `offset == 4*pixels`, and keeps the filled prefix equal to the projection of the pixels copied so far. Every read and write is in bounds whenever the decoder's buffer covers all pixels. |
| TensorBuilder.RgbTensorIsRgb | App.js:52-60 | The tensor handed to the classifier has exactly `width*height*3` values. For each pixel and each of red, green and blue, its value equals that channel of the decoded pixel. |
| TensorBuilder.RgbProjection | App.js:51-60 | The RGB projection of `n` pixels has exactly `3*n` bytes. |
| TensorBuilder.RgbProjectionAt | App.js:54-58 | For each pixel `p < n` and channel `c < 3`, output byte `3p+c` equals input byte `4p+c`. |
| TensorBuilder.RgbProjectionCharacterised | App.js:52-60 | A buffer holds the RGB channels of the first `n` pixels (length `3n`, channel-by-channel equal) if and only if it equals the projection. |
| TensorBuilder.AlphaIgnored | App.js:51-59 | Two decoded buffers that agree on every red, green and blue byte give the same output, whatever their alpha bytes. |
| TensorBuilder.AlphaChangeInvisible | App.js:55-59 | Overwriting the alpha byte of any pixel leaves the tensor unchanged. |
| TensorBuilder.RgbTensorShape | App.js:52-62 | The element count of the shape `[height, width, 3]` equals the buffer length. A zero width or height gives an empty buffer. |
| TensorBuilder.TwoPixelExample | App.js:48-63 | A one-row, two-pixel image `[10,20,30,255, 40,50,60,255]` gives values `[10,20,30,40,50,60]` with shape `[1,2,3]`. |
| AppState.Step | App.js:28-95 | Each transition preserves the invariant: model ready implies runtime ready, an image implies model ready, and predictions imply an image. Only the runtime-ready event sets `isTfReady` and only the model-loaded event sets `isModelReady`. A press before the model is ready changes nothing. |
| AppState.ClassificationIgnoresAlpha | App.js:51-71 | Two decoded images of the same width and height that agree on every red, green and blue byte get the same classification, whatever the model. The alpha channel never reaches the classifier. |
| AppState.Enabled | App.js:28-34 | Says which event may happen in which state. It encodes the order of the awaits in `componentDidMount` (App.js:29-34): the runtime becomes ready once, and the model finishes loading only after that. It also encodes the call site of `classifyImage` (App.js:87-90): a classification only finishes once an image is selected. This is an assumption taken from the code's ordering, not a derived fact. |
| AppState.RunKeepsInv | App.js:21-95 | Starting from any state that keeps the invariant, every state reached by a valid event trace keeps it. |
| AppState.ReadinessIsPermanent | App.js:28-34 | Once the runtime or the model is ready, it stays ready for the rest of any trace. |
| AppState.TfReadyOnlyByEvent | App.js:29-32 | If the runtime was not ready and is ready after a trace, then the runtime-ready event occurred in it. |
| AppState.TfReadyBeforeModelLoaded | App.js:28-34 | In any trace from the initial state, every model-loaded event is preceded by a runtime-ready event. |
| AppState.PredictionsAreLatestSuccess | App.js:65-77 | After any trace, the predictions shown are those of the latest successful classification in it, or the earlier ones if none succeeded. Failed classifications, presses and readiness steps never change them. |
| AppState.App.constructor | App.js:21-26 | The initial state has both flags false, no predictions and no image. |
| AppState.App.OnTfReady | App.js:29-32 | Sets `isTfReady` and changes nothing else (one `Step`). |
| AppState.App.OnModelLoaded | App.js:33-34 | This runs only after the runtime is ready. It sets `isModelReady` and changes nothing else. |
| AppState.App.OnPress | App.js:79-95 | The press handler is attached only once the model is ready (App.js:115). A press starts a classification if and only if the model is ready and the pick returned an image. In that case the image is replaced. A cancelled or failed pick leaves the image and predictions unchanged. |
| AppState.App.ClassifyImage | App.js:65-77 | Requires a selected image. The method builds the tensor with `ImageToTensor`. On success it replaces the predictions with the model's answer. On any failure it leaves the predictions, the image and the flags unchanged. |

## Left out

- `jpeg.decode` (App.js:50): the decoder is external. Its output is an input to the model. The model requires that the pixel buffer covers `4*width*height` bytes. The source does not check this; it relies on the decoder. Out-of-range reads in JavaScript would store `undefined` as 0. The model excludes this case by its precondition instead of modelling it. The source has no length check of its own, so the model has none either.
- `tf.tensor3d` (App.js:62): modelled as the value `Tensor(values, shape)`. The library's own checks and storage are not modelled.
- `tf.ready`, `mobilenet.load` and `model.classify` (App.js:29, 33, 71): external library calls. Readiness is modelled as events and classification as the `infer` parameter. `this.model` is not a field of the model; the loaded model is the `infer` function. A rejected `tf.ready` or `mobilenet.load` is modelled as the event never happening.
- Prediction probabilities are floating point. They are carried as `real` and nothing is proved about them.
- `Image.resolveAssetSource`, `fetch` and `response.arrayBuffer` (App.js:67-69): I/O. Their combined effect is the `decoded` parameter, either a decoded image or an error.
- `getPermissionAsync` (App.js:39-46): it only shows an alert on denial and changes no state. `ImagePicker.launchImageLibraryAsync` (App.js:81-85) is modelled only through its outcome, a `PickResult`.
- Asynchrony: each continuation is one atomic event. Events from an un-awaited `classifyImage` (App.js:90) may interleave with later presses in any order. The model does not record which image a finishing classification was started for, so a late result for an older image replaces the predictions, just as in the source. The model also keeps no count of the classifications in flight, so it allows more finished classifications than selections.
- `render`, `styles` and `console.log` (App.js:97-192, 73, 75, 93): presentation and logging only.
