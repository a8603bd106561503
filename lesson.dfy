/** The per-frame state of the lesson page: the letter on screen, the classifier once it has
    been fetched, and the "model loaded" flag. */
module Lesson {
  import opened Features
  import opened Labels
  import opened FeatureProperties

  datatype Option<T> = None | Some(value: T)

  /** The fetched classifier, seen only through `predict`: one feature vector in, one
      probability per letter out. */
  datatype Classifier = Classifier(predict: seq<real> -> Probabilities)

  /** The text shown before any letter is recognised and whenever no hand is in view. */
  const NoLetter: string := "No letter detected"

  /** The letter a frame with this hand shows once the classifier is ready. */
  function Recognise(c: Classifier, hand: seq<Landmark>): (r: string)
    requires WellScaled(hand)
    ensures r in Letters() && r != NoLetter
  {
    Label(c.predict(ScaledRatios(hand)))
  }

  /** The letter does not depend on where the hand is in the picture, nor on how large it
      appears along any one axis. */
  lemma RecognitionInvariance(c: Classifier, hand: seq<Landmark>, d: Landmark, a: Axis, k: real)
    requires WellScaled(hand) && k > 0.0
    ensures WellScaled(Translate(hand, d)) && WellScaled(Stretch(hand, a, k))
    ensures Recognise(c, Translate(hand, d)) == Recognise(c, hand)
    ensures Recognise(c, Stretch(hand, a, k)) == Recognise(c, hand)
  {
    TranslationInvariant(hand, d);
    AxisRescalingInvariant(hand, a, k);
  }

  /** A classifier that always puts all its weight on the first class makes every hand read
      as "A". */
  lemma CertainFirstClass(hand: seq<Landmark>)
    requires WellScaled(hand)
    ensures Recognise(Classifier(v => [1.0] + seq(25, k => 0.0)), hand) == "A"
  {
    var c := Classifier(v => [1.0] + seq(25, k => 0.0));
    OneHotFirstLetter(c.predict(ScaledRatios(hand)));
  }

  /** What the screen can show: the placeholder or one letter of the alphabet. */
  predicate Shown(letter: string) {
    letter == NoLetter || letter in Letters()
  }

  class LessonPage {
    var detectedLetter: string
    var model: Option<Classifier>
    var isModelLoaded: bool

    /** The flag is raised exactly when a classifier is held, and the screen shows the
        placeholder or a letter. */
    predicate Valid()
      reads this
    {
      isModelLoaded == model.Some? && Shown(detectedLetter)
    }

    /** The page as first rendered: no letter, no classifier, flag down. */
    constructor ()
      ensures Valid()
      ensures detectedLetter == NoLetter && model == None && !isModelLoaded
    {
      detectedLetter := NoLetter;
      model := None;
      isModelLoaded := false;
    }

    /** `loadModel`: `fetched` is what the fetch produced (None when it threw). A success
        stores the classifier and raises the flag; a failure is only logged. */
    method LoadModel(fetched: Option<Classifier>)
      requires Valid()
      modifies this
      ensures Valid()
      ensures model == (if fetched.Some? then fetched else old(model))
      ensures isModelLoaded == (old(isModelLoaded) || fetched.Some?)
      ensures detectedLetter == old(detectedLetter)
    {
      if fetched.Some? {
        model := fetched;
        isModelLoaded := true;
      }
    }

    /** `predictGesture`: without a classifier nothing changes; otherwise the hand's feature
        vector goes through `predict` and the first largest probability picks the letter. */
    method PredictGesture(landmarks: seq<Landmark>)
      requires Valid()
      requires model.Some? ==> WellScaled(landmarks)
      modifies this
      ensures Valid()
      ensures model == old(model) && isModelLoaded == old(isModelLoaded)
      ensures detectedLetter ==
        if model.None? then old(detectedLetter) else Recognise(model.value, landmarks)
    {
      if model.None? {
        return;
      }
      var ratios := CalculateScaledRatios(landmarks);
      var predictionData := model.value.predict(ratios);
      var labels := Letters();
      var maxIndex := ArgMax(predictionData);
      detectedLetter := labels[maxIndex];
    }

    /** The `onResults` callback of the hand tracker, given the hands found in one frame:
        the first hand is classified, and no hand resets the letter. */
    method OnResults(multiHandLandmarks: seq<seq<Landmark>>)
      requires Valid()
      requires |multiHandLandmarks| > 0 && model.Some? ==> WellScaled(multiHandLandmarks[0])
      modifies this
      ensures Valid()
      ensures model == old(model) && isModelLoaded == old(isModelLoaded)
      ensures |multiHandLandmarks| == 0 ==> detectedLetter == NoLetter
      ensures |multiHandLandmarks| > 0 && model.None? ==> detectedLetter == old(detectedLetter)
      ensures |multiHandLandmarks| > 0 && model.Some? ==>
        detectedLetter == Recognise(model.value, multiHandLandmarks[0])
    {
      if |multiHandLandmarks| > 0 {
        var landmarks := multiHandLandmarks[0];
        PredictGesture(landmarks);
      } else {
        detectedLetter := NoLetter;
      }
    }
  }
}
