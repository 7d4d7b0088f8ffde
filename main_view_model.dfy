/**
 * The screen state machine of the app's view model: the current screen, the
 * six quiz questions whose option lists are narrowed in place, the answers
 * written by index, and the hard-coded tour the app shows.  Each delayed
 * (`asyncAfter`) body is a step method of its own, without timing.
 */
module ViewModel {
  import opened Optional
  import opened Text
  import opened PlaceView
  import opened DataFetchingService

  /** A quiz question; `options` is narrowed in place while the quiz runs. */
  class Quiz {
    var question: string
    var callToAction: string
    var options: seq<string>

    constructor (question: string, callToAction: string, options: seq<string>)
      ensures this.question == question && this.callToAction == callToAction && this.options == options
    {
      this.question := question;
      this.callToAction := callToAction;
      this.options := options;
    }
  }

  /** The screen on show; a quiz screen refers to the (shared, mutable) question object. */
  datatype AppScreen =
    | Intro
    | Loading
    | QuizStep(quiz: Quiz, index: int)
    | TourStop(place: Place, index: int)
    | Error(message: string)

  // ---------------------------------------------------------------------------
  // Narrowing a question's options

  /**
   * `options.filter { $0 != answer }`: every option equal to the answer goes,
   * every other one stays as often as it was there.
   */
  function Without(options: seq<string>, answer: string): (kept: seq<string>)
    ensures |kept| <= |options|
    ensures answer !in kept
    ensures forall x :: x != answer ==> multiset(kept)[x] == multiset(options)[x]
  {
    if options == [] then []
    else
      assert options == [options[0]] + options[1..];
      (if options[0] != answer then [options[0]] else []) + Without(options[1..], answer)
  }

  /** Filtering works element by element, so the kept options stay in their order. */
  lemma {:induction false} WithoutConcat(a: seq<string>, b: seq<string>, answer: string)
    ensures Without(a + b, answer) == Without(a, answer) + Without(b, answer)
  {
    if a == [] {
      assert a + b == b;
    } else {
      assert (a + b)[0] == a[0];
      assert (a + b)[1..] == a[1..] + b;
      WithoutConcat(a[1..], b, answer);
    }
  }

  /** Filtering twice by the same answer is filtering once. */
  lemma {:induction false} WithoutIdempotent(options: seq<string>, answer: string)
    ensures Without(Without(options, answer), answer) == Without(options, answer)
  {
    if options != [] {
      var head := if options[0] != answer then [options[0]] else [];
      WithoutConcat(head, Without(options[1..], answer), answer);
      WithoutIdempotent(options[1..], answer);
      assert Without(head, answer) == head by {
        if head != [] { assert head[1..] == []; }
      }
    }
  }

  /** Options without the answer are left exactly as they were. */
  lemma {:induction false} WithoutAbsent(options: seq<string>, answer: string)
    requires answer !in options
    ensures Without(options, answer) == options
  {
    if options != [] {
      WithoutAbsent(options[1..], answer);
    }
  }

  // ---------------------------------------------------------------------------
  // `tourCoordinates`

  /** `places.compactMap { $0.coordinates }`: the coordinates present, in order. */
  function TourCoordinatesOf(places: seq<Place>): (coords: seq<Coordinate>)
    ensures |coords| <= |places|
    ensures forall c :: c in coords ==> exists p :: p in places && p.coordinates == Some(c)
    ensures (forall i :: 0 <= i < |places| ==> places[i].coordinates.Some?) ==>
      |coords| == |places| && forall i :: 0 <= i < |coords| ==> places[i].coordinates == Some(coords[i])
  {
    if places == [] then []
    else
      var rest := TourCoordinatesOf(places[1..]);
      assert forall c :: c in rest ==> exists p :: p in places && p.coordinates == Some(c);
      match places[0].coordinates
      case Some(c) => [c] + rest
      case None => rest
  }

  /** A stop without coordinates is skipped; the others keep their relative order. */
  lemma {:induction false} TourCoordinatesConcat(a: seq<Place>, b: seq<Place>)
    ensures TourCoordinatesOf(a + b) == TourCoordinatesOf(a) + TourCoordinatesOf(b)
  {
    if a == [] {
      assert a + b == b;
    } else {
      assert (a + b)[0] == a[0];
      assert (a + b)[1..] == a[1..] + b;
      TourCoordinatesConcat(a[1..], b);
    }
  }

  /** Stops made from a decoded reply all have coordinates: one coordinate per location, in order. */
  lemma FetchedTourCoordinates(tour: TourResponse)
    ensures var coords := TourCoordinatesOf(ToPlaces(tour));
      && |coords| == |tour.locations|
      && forall i :: 0 <= i < |coords| ==>
           coords[i] == Coordinate(tour.locations[i].geolocation.latitude, tour.locations[i].geolocation.longitude)
  {
  }

  // ---------------------------------------------------------------------------
  // The data the app ships with

  const ShippedQuestions: seq<string> := [
    "What's the focus you'd like for your walk?",
    "Want an extra touch to your experience?",
    "How long would you like to walk?",
    "How far do you feel like walking?",
    "What's your walking distance preference?",
    "How much moolah are you willing to spend on activities?"]

  const ShippedCallsToAction: seq<string> := [
    "Choose one",
    "Choose one",
    "Pick a duration",
    "Choose a distance",
    "Choose one",
    "Choose one"]

  const ShippedOptions: seq<seq<string>> := [
    ["History", "Architecture", "Art", "Food", "Nature", "Culture"],
    ["None", "History", "Architecture", "Art", "Food", "Nature", "Culture"],
    ["1 hour", "2 hours", "3 hours", "5 hours", "8 hours"],
    ["1/2 mile", "1 mile", "2 miles", "3 miles", "5 miles", "8 miles"],
    ["1/2 mile", "1 mile", "2 miles", "3 miles", "5 miles", "8 miles"],
    ["No Money", "$10", "$25", "$50", "$100", "No Limit"]]

  // The stops' long texts, verbatim.
  const CityMarketTour: string :=
    "Begin your day with a visit to the historic Charleston City Market. It's a great spot to experience Charleston's vibrancy and pick up a snack."
  const CityMarketStory: string :=
    "The Charleston City Market is a historic market complex that dates back to the 1790s. It originally consisted of a Meat Market, Beef Market, and a Fish Market. Its architectural design showcases an interesting mix of Greek Revival and Roman architectural styles. The four block-long sheds, with their open sides and towering columns, have been the commercial hub of the city for centuries."

  const CarriageRideTour: string :=
    "Rather than walking, take a carriage tour from one of the companies near the Market. You'll be able to see and learn about the architectural details of the historic district without having to walk."
  const CarriageRideStory: string :=
    "While the carriage tour is more of an experience than a place, it's your window into the architectural history of Charleston. The guide will provide detailed information about a variety of architectural styles seen in the city, from the grand mansions in the South of Broad district to the quaint and colorful houses of Rainbow Row."

  const RainbowRowTour: string :=
    "Post carriage tour, visit Rainbow Row - 13 colorful historic houses, an iconic Charleston sight, known for its Georgian architecture."
  const RainbowRowStory: string :=
    "Rainbow Row is a series of thirteen brightly colored, Georgian-style row houses. They date back to 1740 and represent the longest cluster of Georgian row houses in the United States. After being restored in the early 20th century, the owners painted the houses in pastel colors, leading to the name 'Rainbow Row'."

  const WaterfrontParkTour: string :=
    "Take a leisurely stroll along the park for views of Charleston Harbor, and don't miss the famous Pineapple Fountain."
  const WaterfrontParkStory: string :=
    "Waterfront Park is a testament to modern landscape architecture. Opened in 1990, the park was built on reclaimed land that was once marshes and docks. The Pineapple Fountain, a centerpiece of the park, embodies the city's Southern hospitality. The architecture of the park is designed to seamlessly integrate with the historic landscape of the city."

  const HuskTour: string :=
    "For a gastronomical experience, head to Husk, one of Charleston's most renowned restaurants, known for its unique Southern cuisine."
  const HuskStory: string :=
    "Housed in a late 19th-century Victorian mansion, Husk is a visual and culinary delight. The building is beautifully restored, featuring intricate woodworking and period-specific architectural details throughout. The restaurant adeptly combines the old-world charm of its architectural surroundings with a modern, southern-inspired menu."

  const RussellHouseTour: string :=
    "Visit this historic house museum for a glimpse into Antebellum life and marvel at the stunning neoclassical architecture."
  const RussellHouseStory: string :=
    "The Nathaniel Russell House, built in 1808, is considered one of the finest examples of neoclassical architecture in the United States. It is well-known for its magnificent free-flying staircase that ascends three stories, its gracefully proportioned rooms, and elaborate decorative plasterwork. The house stands as a testament to the wealthy merchant class of Charleston's past."

  const KaminskysTour: string :=
    "End your tour with something sweet from Kaminsky's. This cozy caf\U{221A}\U{00A9} serves up decadent desserts that are well worth a visit."
  const KaminskysStory: string :=
    "Kaminsky's occupies a charming, rustic building in the bustling Deco District. While it may not be as historically significant as some other buildings, its cozy and warm interiors, along with a vintage-inspired decor, provide a comforting environment that complements its deliciously sweet offerings."

  const ShippedPlaces: seq<Place> := [
    Place(
      "Charleston City Market",
      "Historic Market",
      CityMarketTour,
      CityMarketStory,
      Some(Coordinate(32.7811, -79.9297))),
    Place(
      "Carriage Tour",
      "Guided Tour",
      CarriageRideTour,
      CarriageRideStory,
      Some(Coordinate(32.7795, -79.9364))),
    Place(
      "Rainbow Row",
      "Historic Houses",
      RainbowRowTour,
      RainbowRowStory,
      Some(Coordinate(32.7715, -79.9282))),
    Place(
      "Waterfront Park",
      "Park",
      WaterfrontParkTour,
      WaterfrontParkStory,
      Some(Coordinate(32.7715, -79.9236))),
    Place(
      "Husk Restaurant",
      "Restaurant",
      HuskTour,
      HuskStory,
      Some(Coordinate(32.7680, -79.9307))),
    Place(
      "Nathaniel Russell House Museum",
      "Historic House Museum",
      RussellHouseTour,
      RussellHouseStory,
      Some(Coordinate(32.7695, -79.9307))),
    Place(
      "Kaminsky's Dessert Cafe",
      "Cafe",
      KaminskysTour,
      KaminskysStory,
      Some(Coordinate(32.7908, -79.9367)))]

  /** Every hard-coded place has coordinates. */
  lemma ShippedPlacesHaveCoordinates()
    ensures |ShippedPlaces| == 7
    ensures forall i :: 0 <= i < |ShippedPlaces| ==> ShippedPlaces[i].coordinates.Some?
  {
  }

  /**
   * With options from the shipped lists, the budget is always 0: the mapper
   * reads the amount from the fifth answer, a walking distance like "2 miles"
   * that never parses, and no shipped last answer is exactly "no limit"
   * (the option is spelled "No Limit").
   */
  lemma ShippedAnswersGiveZeroBudget(answers: seq<string>)
    requires |answers| >= 6
    requires answers[4] in ShippedOptions[4] && answers[5] in ShippedOptions[5]
    ensures MapAnswers(answers).budget == 0
  {
    assert ' ' in answers[4];
    BudgetWithSpace(answers);
  }

  // ---------------------------------------------------------------------------
  // The view model

  class MainViewModel {
    var appScreen: AppScreen
    const quizes: seq<Quiz>
    var answers: seq<string>
    const places: seq<Place>

    /** A quiz screen shows one of the questions, a tour screen one of the places, at its own index. */
    ghost predicate ScreenInRange()
      reads this
    {
      match appScreen
      case QuizStep(quiz, index) => 0 <= index < |quizes| && quiz == quizes[index]
      case TourStop(place, index) => 0 <= index < |places| && place == places[index]
      case _ => true
    }

    ghost predicate Valid()
      reads this
    {
      && |answers| == |quizes| > 0
      && (forall i, j :: 0 <= i < j < |quizes| ==> quizes[i] != quizes[j])
      && |places| > 0
      && (forall i :: 0 <= i < |places| ==> places[i].coordinates.Some?)
      && ScreenInRange()
    }

    /** `init`: the six questions, one empty answer per question, the intro screen. */
    constructor ()
      ensures Valid()
      ensures appScreen == Intro
      ensures |quizes| == 6 && answers == seq(6, _ => "")
      ensures forall i :: 0 <= i < 6 ==>
        && quizes[i].question == ShippedQuestions[i]
        && quizes[i].callToAction == ShippedCallsToAction[i]
        && quizes[i].options == ShippedOptions[i]
      ensures places == ShippedPlaces
      ensures forall i :: 0 <= i < 6 ==> fresh(quizes[i])
    {
      var q0 := new Quiz(ShippedQuestions[0], ShippedCallsToAction[0], ShippedOptions[0]);
      var q1 := new Quiz(ShippedQuestions[1], ShippedCallsToAction[1], ShippedOptions[1]);
      var q2 := new Quiz(ShippedQuestions[2], ShippedCallsToAction[2], ShippedOptions[2]);
      var q3 := new Quiz(ShippedQuestions[3], ShippedCallsToAction[3], ShippedOptions[3]);
      var q4 := new Quiz(ShippedQuestions[4], ShippedCallsToAction[4], ShippedOptions[4]);
      var q5 := new Quiz(ShippedQuestions[5], ShippedCallsToAction[5], ShippedOptions[5]);
      var all := [q0, q1, q2, q3, q4, q5];
      quizes := all;
      places := ShippedPlaces;
      answers := seq(|all|, _ => "");
      appScreen := Intro;
      new;
      ShippedPlacesHaveCoordinates();
    }

    /** The delayed body of `init`: show the first question. */
    method ShowFirstQuiz()
      requires Valid()
      modifies this`appScreen
      ensures Valid()
      ensures appScreen == QuizStep(quizes[0], 0)
    {
      appScreen := QuizStep(quizes[0], 0);
    }

    /** `addAnswer`: overwrite one slot; an earlier answer may be replaced. */
    method AddAnswer(answer: string, index: int)
      requires Valid()
      requires 0 <= index < |answers|
      modifies this`answers
      ensures Valid()
      ensures answers == old(answers)[index := answer]
      ensures |answers| == |old(answers)| && answers[index] == answer
      ensures forall j :: 0 <= j < |answers| && j != index ==> answers[j] == old(answers[j])
    {
      answers := answers[index := answer];
    }

    /**
     * `navigateToNextQuiz`: if there is a next question, narrow its options by
     * the answer just given and show it; otherwise go to the loading screen.
     * No other question changes.
     */
    method NavigateToNextQuiz(answer: string, index: int)
      requires Valid()
      requires index >= -1
      modifies this`appScreen, if index + 1 < |quizes| then {quizes[index + 1]} else {}
      ensures Valid()
      ensures index + 1 < |quizes| ==>
        && quizes[index + 1].options == Without(old(quizes[index + 1].options), answer)
        && appScreen == QuizStep(quizes[index + 1], index + 1)
      ensures index + 1 >= |quizes| ==> appScreen == Loading
      ensures forall j :: 0 <= j < |quizes| && j != index + 1 ==> quizes[j].options == old(quizes[j].options)
      ensures forall j :: 0 <= j < |quizes| ==>
        quizes[j].question == old(quizes[j].question) && quizes[j].callToAction == old(quizes[j].callToAction)
    {
      var currentQuizIndex := index + 1;
      if currentQuizIndex < |quizes| {
        var nextQuiz := quizes[currentQuizIndex];
        nextQuiz.options := Without(nextQuiz.options, answer);
        appScreen := QuizStep(nextQuiz, currentQuizIndex);
      } else {
        NavigateToTour();
      }
    }

    /** `submit`: record the answer, then (after the app's short delay) move on. */
    method Submit(answer: string, index: int)
      requires Valid()
      requires 0 <= index < |answers|
      modifies this`answers, this`appScreen, if index + 1 < |quizes| then {quizes[index + 1]} else {}
      ensures Valid()
      ensures answers == old(answers)[index := answer]
      ensures index + 1 < |quizes| ==>
        && quizes[index + 1].options == Without(old(quizes[index + 1].options), answer)
        && appScreen == QuizStep(quizes[index + 1], index + 1)
      ensures index + 1 >= |quizes| ==> appScreen == Loading
      ensures forall j :: 0 <= j < |quizes| && j != index + 1 ==> quizes[j].options == old(quizes[j].options)
      ensures forall j :: 0 <= j < |quizes| ==>
        quizes[j].question == old(quizes[j].question) && quizes[j].callToAction == old(quizes[j].callToAction)
    {
      AddAnswer(answer, index);
      NavigateToNextQuiz(answer, index);
    }

    /** `navigateToTour`: the loading screen. No request is made. */
    method NavigateToTour()
      requires Valid()
      modifies this`appScreen
      ensures Valid()
      ensures appScreen == Loading
    {
      appScreen := Loading;
    }

    /** The delayed body of `navigateToTour`: the first hard-coded place. */
    method ShowFirstPlace()
      requires Valid()
      modifies this`appScreen
      ensures Valid()
      ensures appScreen == TourStop(places[0], 0)
    {
      appScreen := TourStop(places[0], 0);
    }

    /** `navigateTo(placeIndex:)`: show place `index` if there is one; otherwise nothing changes. */
    method NavigateTo(index: int)
      requires Valid()
      modifies this`appScreen
      ensures Valid()
      ensures 0 <= index < |places| ==> appScreen == TourStop(places[index], index)
      ensures !(0 <= index < |places|) ==> appScreen == old(appScreen)
      ensures appScreen.QuizStep? ==> appScreen == old(appScreen)
    {
      if index >= 0 && index < |places| {
        appScreen := TourStop(places[index], index);
      }
    }

    /** `tourCoordinates`: every shipped place has coordinates, so there is one per place. */
    function TourCoordinates(): (coords: seq<Coordinate>)
      requires Valid()
      reads this
      ensures |coords| == |places|
      ensures forall i :: 0 <= i < |coords| ==> places[i].coordinates == Some(coords[i])
    {
      TourCoordinatesOf(places)
    }
  }

  /**
   * The stop screen's map centre is the shown place's own coordinates, and the
   * read `tourCoordinates[index]` is always in range.
   */
  lemma DisplayedPlaceCoordinates(vm: MainViewModel)
    requires vm.Valid() && vm.appScreen.TourStop?
    ensures 0 <= vm.appScreen.index < |vm.TourCoordinates()|
    ensures Some(PlaceCoordinates(vm.TourCoordinates(), vm.appScreen.index)) == vm.appScreen.place.coordinates
  {
  }

  /**
   * On a stop screen, an arrow is shown exactly when the swipe it sends leads
   * to another stop, so a shown arrow always moves and a hidden one would not.
   */
  lemma ArrowsMatchNavigation(vm: MainViewModel)
    requires vm.Valid() && vm.appScreen.TourStop?
    ensures var i := vm.appScreen.index;
      && (ShowsLeftArrow(i) <==> 0 <= SwipeTarget(Left, i) < |vm.places|)
      && (ShowsRightArrow(i, |vm.TourCoordinates()|) <==> 0 <= SwipeTarget(Right, i) < |vm.places|)
  {
  }

  /**
   * Answering the questions 0, 1, ..., N-1 in order shows the questions 1 to
   * N-1 in turn and then the loading screen; the answers are exactly those
   * given, and question k is narrowed by the answer to question k-1 only.
   */
  method SubmitInOrder(vm: MainViewModel, given: seq<string>) returns (ghost screens: seq<AppScreen>)
    requires vm.Valid() && |given| == |vm.answers|
    modifies vm`answers, vm`appScreen, set q | q in vm.quizes
    ensures vm.Valid()
    ensures vm.answers == given
    ensures vm.appScreen == Loading
    ensures |screens| == |given|
    ensures forall k :: 0 <= k < |given| - 1 ==> screens[k] == QuizStep(vm.quizes[k + 1], k + 1)
    ensures screens[|given| - 1] == Loading
    ensures forall k :: 1 <= k < |given| ==>
      vm.quizes[k].options == Without(old(vm.quizes[k].options), given[k - 1])
    ensures vm.quizes[0].options == old(vm.quizes[0].options)
    ensures forall k :: 0 <= k < |vm.quizes| ==>
      vm.quizes[k].question == old(vm.quizes[k].question) && vm.quizes[k].callToAction == old(vm.quizes[k].callToAction)
  {
    screens := [];
    var i := 0;
    while i < |given|
      invariant 0 <= i <= |given|
      invariant vm.Valid()
      invariant |vm.answers| == |given| && vm.answers[..i] == given[..i]
      invariant |screens| == i
      invariant forall k :: 0 <= k < i && k + 1 < |given| ==> screens[k] == QuizStep(vm.quizes[k + 1], k + 1)
      invariant i == |given| ==> screens[i - 1] == Loading
      invariant i > 0 ==> vm.appScreen == screens[i - 1]
      invariant forall k :: 1 <= k <= i && k < |given| ==>
        vm.quizes[k].options == Without(old(vm.quizes[k].options), given[k - 1])
      invariant forall k :: (k == 0 || i < k < |given|) ==> vm.quizes[k].options == old(vm.quizes[k].options)
      invariant forall k :: 0 <= k < |vm.quizes| ==>
        vm.quizes[k].question == old(vm.quizes[k].question) && vm.quizes[k].callToAction == old(vm.quizes[k].callToAction)
    {
      vm.Submit(given[i], i);
      screens := screens + [vm.appScreen];
      assert vm.answers[..i + 1] == vm.answers[..i] + [given[i]];
      i := i + 1;
    }
    assert vm.answers == vm.answers[..i];
  }
}
