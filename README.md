# ASL lesson page — verified model of the recognition core

The lesson page of the sign-language tutor watches the camera. For every frame in which
the hand tracker finds a hand, it turns the hand's 21 landmarks into a feature vector and
feeds that vector to a pre-trained classifier. The page then shows the letter of the most
probable of the 26 classes. This project models that core in Dafny and proves what it
computes.

- `Extrema` (`extrema.dfy`) models `Math.min(...)` and `Math.max(...)` over a non-empty
  list. It proves that each is the least or greatest element of the list, and that both
  commute with any strictly increasing map.
- `Features` (`features.dfy`) models `calculateScaledRatios`. `CalculateScaledRatios` is
  imperative, with the page's nested `i < j` loops. It is proved equal to the specification
  function `ScaledRatios`, and the layout of the vector is proved about that function:
  - its length is `3·n(n−1)/2`, which is 630 for a 21-landmark hand;
  - pair `(i, j)`, in loop order, holds landmark `i`'s normalised x, y, z;
  - landmark `i`'s triple forms one run of `n−1−i` consecutive copies.

  The partner `j` is never read: it only sets how many times landmark `i`'s triple is
  repeated. The last landmark contributes only through the bounding box. The model
  reproduces the page's computation as written.
- `FeatureProperties` (`feature_properties.dfy`) holds three kinds of result:
  - every feature value lies in `[0, 1]`;
  - the vector depends on the landmarks other than the last only through their normalised
    triples;
  - the vector is unchanged when the hand is translated, or when one axis is multiplied by
    a positive factor.
- `Labels` (`labels.dfy`) models `indexOf` with JavaScript's `-1` for a missing value, and
  `predictionData.indexOf(Math.max(...predictionData))`, which picks the first largest
  probability. It also models the alphabet lookup `labels[maxIndex]`.
- `Lesson` (`lesson.dfy`) models the per-frame state as the class `LessonPage`. Its fields
  are the shown letter, the classifier and the "model loaded" flag. Its methods are
  `loadModel`, `predictGesture` and the tracker's `onResults` callback.

Numbers are modelled as mathematical reals. The classifier is a function value of the
datatype `Classifier`, returning one probability per letter. The fetch of the model is a
parameter of `LoadModel`: `None` stands for a fetch that threw.

In the source, `model` is a plain `let` in the component body rather than React state.
Every render recreates `loadModel`, `predictGesture` and `calculateScaledRatios` and re-runs
`let model = null`. The effect with an empty dependency list runs only after the first
render, though. So the callback it registers and the `loadModel()` call it makes are that
render's copies, and both close over that render's `model`. The class field `model` models
that one variable. The flag `isModelLoaded` is React state that prediction never reads.
`LessonPage.Valid` keeps the flag equal to "a classifier is held".

## Model

| member | source | states |
|---|---|---|
| Extrema.MinOf | app/lesson/page.tsx:30-32 | `Math.min(...s)` of a non-empty list, defined by recursion on the list |
| Extrema.MaxOf | app/lesson/page.tsx:30-32 | `Math.max(...s)` of a non-empty list, defined by recursion on the list |
| Extrema.MinOfBounds | app/lesson/page.tsx:30-32 | `Math.min` of a non-empty list is at most every element and is one of the elements |
| Extrema.MaxOfBounds | app/lesson/page.tsx:30-32 | `Math.max` of a non-empty list is at least every element and is one of the elements |
| Extrema.MinOfIs | app/lesson/page.tsx:30-32 | any lower bound that the list contains is its `Math.min` |
| Extrema.MaxOfIs | app/lesson/page.tsx:30-32 | any upper bound that the list contains is its `Math.max` |
| Extrema.IncreasingExtrema | app/lesson/page.tsx:30-32 | applying a strictly increasing map to every element applies it to the minimum and to the maximum |
| Features.Column | app/lesson/page.tsx:27-29 | `landmarks.map(l => l.x)` and its y and z counterparts: one coordinate of every landmark, in order |
| Features.BoundsOf | app/lesson/page.tsx:30-36 | the per-axis minima and the per-axis scales (maximum minus minimum) |
| Features.Triple | app/lesson/page.tsx:42-44 | the three values pushed for a pair: the first landmark's coordinates, each normalised by its axis's minimum and scale |
| Features.ScaledRatios | app/lesson/page.tsx:26-49 | the reference definition of `calculateScaledRatios`: for each `i`, landmark `i`'s triple once per partner `j > i` |
| Features.CalculateScaledRatios | app/lesson/page.tsx:26-49 | the bounds computation followed by the nested `i < j` loops returns exactly the specification vector `ScaledRatios` |
| Features.PairsBeforeClosed | app/lesson/page.tsx:39-40 | the first `i` outer iterations run `i(2n−i−1)/2` inner iterations |
| Features.FeatureLength | app/lesson/page.tsx:38-47 | the vector has three values per unordered pair, `3·n(n−1)/2`, so 630 for 21 landmarks |
| Features.PushesAt | app/lesson/page.tsx:40-45 | each inner iteration for first index `i` pushes landmark `i`'s normalised x, y, z in that order |
| Features.PairEntry | app/lesson/page.tsx:39-46 | the three values of pair `(i, j)` in loop order are landmark `i`'s normalised x, y, z; landmark `j` is not read |
| Features.Repetition | app/lesson/page.tsx:39-46 | landmark `i`'s triple fills one run of `n−1−i` consecutive copies right after the runs of earlier landmarks; the runs cover the vector and the last landmark's run is empty |
| FeatureProperties.BoundsContain | app/lesson/page.tsx:27-36 | every landmark lies inside the box spanned by the per-axis minima and scales |
| FeatureProperties.TripleInUnit | app/lesson/page.tsx:41-45 | a landmark inside a box of positive extent normalises to three values in `[0, 1]` |
| FeatureProperties.UnitRange | app/lesson/page.tsx:26-49 | when every axis scale is positive, every feature value lies in `[0, 1]` |
| FeatureProperties.SameTriples | app/lesson/page.tsx:39-46 | two hands whose first `n−1` landmarks normalise alike give the same vector |
| FeatureProperties.LastLandmarkOnlyBounds | app/lesson/page.tsx:39-46 | moving the last landmark anywhere that keeps the bounding box leaves the vector unchanged |
| FeatureProperties.TranslatedBounds | app/lesson/page.tsx:27-36 | translating the hand shifts each minimum by the offset and keeps each scale |
| FeatureProperties.TranslationInvariant | app/lesson/page.tsx:26-49 | translating every landmark by a fixed offset leaves the vector unchanged and keeps every scale positive |
| FeatureProperties.StretchedAxis | app/lesson/page.tsx:30-32 | multiplying one axis by `c > 0` multiplies that axis's minimum and maximum by `c` |
| FeatureProperties.StretchedBounds | app/lesson/page.tsx:30-36 | multiplying one axis by `c > 0` multiplies that axis's minimum and scale by `c` and leaves the other axes' bounds alone |
| FeatureProperties.StretchedTriple | app/lesson/page.tsx:41-45 | a landmark and its box, rescaled together on one axis, normalise to the same triple |
| FeatureProperties.AxisRescalingInvariant | app/lesson/page.tsx:26-49 | multiplying one axis of every landmark by `c > 0` leaves the vector unchanged and keeps every scale positive |
| Labels.IndexOf | app/lesson/page.tsx:61 | `indexOf` is `-1` exactly when the value is absent; otherwise it gives a position holding the value, and no earlier position holds it |
| Labels.ArgMax | app/lesson/page.tsx:61 | `indexOf(Math.max(...p))` gives a position of a largest value, and every earlier value is strictly smaller |
| Labels.FirstMaximum | app/lesson/page.tsx:61 | a position is chosen if and only if it holds a largest value and every earlier value is strictly smaller |
| Labels.Letters | app/lesson/page.tsx:60 | splitting the alphabet gives 26 one-letter strings, `labels[k]` being the `k`-th letter |
| Labels.LettersDistinct | app/lesson/page.tsx:60 | no two labels are equal |
| Labels.Label | app/lesson/page.tsx:60-62 | the shown label is one of the 26 letters |
| Labels.LabelOfFirstMaximum | app/lesson/page.tsx:60-62 | the label is the letter of position `i` if and only if `i` is the first largest probability |
| Labels.TieGoesToFirst | app/lesson/page.tsx:61-62 | with probabilities `0.2, 0.9, 0.9, 0.1, …` the chosen position is 1 and the label is "B" |
| Labels.OneHotFirstLetter | app/lesson/page.tsx:60-62 | probabilities with 1.0 at position 0 and 0.0 elsewhere give the label "A" |
| Lesson.Recognise | app/lesson/page.tsx:56-62 | a frame classified with a ready classifier shows one of the 26 letters, never the placeholder |
| Lesson.RecognitionInvariance | app/lesson/page.tsx:56-62 | the recognised letter is unchanged by translating the hand or by rescaling one axis by a positive factor |
| Lesson.CertainFirstClass | app/lesson/page.tsx:56-62 | a classifier that always puts 1.0 on the first class makes every hand read as "A" |
| Lesson.LessonPage.constructor | app/lesson/page.tsx:12-14 | the page starts with "No letter detected", no classifier and the flag down |
| Lesson.LessonPage.LoadModel | app/lesson/page.tsx:16-24 | a successful fetch stores the classifier and raises the flag; a failed fetch changes nothing; the flag never goes down and the letter is untouched |
| Lesson.LessonPage.PredictGesture | app/lesson/page.tsx:51-64 | without a classifier nothing changes; with one, the letter becomes the label of the first largest probability of `predict` applied to the hand's feature vector |
| Lesson.LessonPage.OnResults | app/lesson/page.tsx:82-94 | a frame without a hand shows "No letter detected"; a frame with a hand and no classifier keeps the letter; a frame with both shows the recognised letter of the first hand; the classifier and the flag never change |

## Left out

- Camera capture, hand-tracker configuration and `hands.send` (page.tsx:66-81, 96-106) are I/O. The model receives the tracker's per-frame result as the argument of `OnResults`.
- Canvas drawing (`clearRect`, `drawConnectors`, `drawLandmarks`), console logging, the JSX markup and `app/page.tsx` have no effect on the recognised letter.
- The internals of the classifier are not modelled: tensor construction, `predict` and `prediction.data()`. `predict` is an opaque function value that returns 26 probabilities. The check that the feature-vector width matches the classifier's input is not modelled either.
- Lesson.LessonPage.PredictGesture: the source does not await `predictGesture`, so predictions from overlapping frames can finish out of order. The model runs each prediction to completion inside its frame.
- Floating point: numbers are reals, so rounding is not modelled, nor NaN, nor infinities.
- Features.CalculateScaledRatios: a zero axis scale makes the source divide by zero and produce NaN or infinite values. The model requires every axis scale to be positive whenever the loops divide, that is from two landmarks on (`WellScaled`).
- Lesson.LessonPage.OnResults requires `WellScaled` of the first hand when a classifier is held. This carries the positive-scale requirement of `CalculateScaledRatios`.
- Features.CalculateScaledRatios: for an empty landmark list, `Math.min()` and `Math.max()` give `+Infinity` and `-Infinity`, which reals cannot represent. The model returns the empty vector before computing bounds, which is what the source returns, since its loops never run and the bounds are never read.
- Labels.Label takes exactly 26 probabilities. An output of another width could make `labels[maxIndex]` undefined in the source, and the model does not represent that case.
