/**
 * The pure parts of the data-fetching service: the request and response
 * shapes, the mapping from the six quiz answers to a tour request, the
 * form-encoded request body, and the mapping from a decoded response to the
 * ordered list of stops.  The network call and the JSON decoder are not
 * modelled; a decoded response is simply a `TourResponse` value.
 */
module DataFetchingService {
  import opened Optional
  import opened Text
  import opened PlaceView

  datatype TourRequest = TourRequest(
    location: string,
    interests: string,
    budget: int,
    duration: int,
    distance: int,
    startTime: string)

  datatype Geolocation = Geolocation(latitude: real, longitude: real)

  datatype Location = Location(
    locationName: string,
    category: string,
    story: string,
    suggestedVisitDuration: string,
    geolocation: Geolocation)

  /** A decoded reply: every summary field may be missing, the stop list may not. */
  datatype TourResponse = TourResponse(
    tourName: Option<string>,
    startTime: Option<string>,
    totalDuration: Option<string>,
    totalDistance: Option<string>,
    budget: Option<string>,
    locations: seq<Location>)

  // ---------------------------------------------------------------------------
  // Answers to request

  const FixedLocation: string := "Charleston, SC"
  const FixedStartTime: string := "morning"
  /** The option of the second question that means "no extra interest"; compared case-sensitively. */
  const NoExtraInterest: string := "None"
  /** The sixth answer that turns an unreadable budget into `NoLimitBudget`; compared case-sensitively. */
  const NoLimit: string := "no limit"
  const NoLimitBudget: int := 1000

  function Interests(primary: string, extra: string): string {
    if extra != NoExtraInterest then AsciiLower(primary) + ", " + AsciiLower(extra)
    else AsciiLower(primary)
  }

  /**
   * Lowercase, remove every `longUnit`, then every `shortUnit`, then parse;
   * `0` when the rest is not an integer.
   */
  function ParseWithUnit(answer: string, longUnit: string, shortUnit: string): int
    requires |longUnit| > 0 && |shortUnit| > 0
  {
    ParseInt(RemoveAll(RemoveAll(AsciiLower(answer), longUnit), shortUnit)).GetOr(0)
  }

  function Budget(amount: string, limit: string): int {
    ParseInt(RemoveAll(AsciiLower(amount), "$")).GetOr(if limit == NoLimit then NoLimitBudget else 0)
  }

  /**
   * `QuizToTourRequestMapper.map`: reads answers 0 to 5 (a shorter list traps
   * in the app); the location and start time are the same for every input.
   */
  function MapAnswers(answers: seq<string>): (request: TourRequest)
    requires |answers| >= 6
    ensures request.location == "Charleston, SC" && request.startTime == "morning"
  {
    TourRequest(
      location := FixedLocation,
      interests := Interests(answers[0], answers[1]),
      budget := Budget(answers[4], answers[5]),
      duration := ParseWithUnit(answers[2], " hours", " hour"),
      distance := ParseWithUnit(answers[3], " miles", " mile"),
      startTime := FixedStartTime)
  }

  /**
   * The extra interest is appended, lowercased and after ", ", exactly when the
   * second answer is not literally "None"; a lowercase "none" is appended.
   */
  lemma InterestsRule(answers: seq<string>)
    requires |answers| >= 6
    ensures answers[1] == "None" ==> MapAnswers(answers).interests == AsciiLower(answers[0])
    ensures answers[1] != "None" ==>
      MapAnswers(answers).interests == AsciiLower(answers[0]) + ", " + AsciiLower(answers[1])
  {
  }

  /** Removing both spellings of a unit from "d<unit>" or "d<unit>s" leaves the digits `d`. */
  lemma {:induction false} UnitStripped(d: string, unit: string)
    requires |d| > 0 && AllDigits(d)
    requires |unit| > 0 && unit[0] == ' '
    ensures RemoveAll(RemoveAll(d + unit + "s", unit + "s"), unit) == d
    ensures RemoveAll(RemoveAll(d + unit, unit + "s"), unit) == d
  {
    DigitsExclude(d, ' ');
    var longUnit := unit + "s";
    assert longUnit[0] == ' ';
    assert d + unit + "s" == d + longUnit;
    RemoveAllSuffix(d, longUnit);
    RemoveAllAbsent(d, unit);
    RemoveAllSkipsPrefix(d, unit, longUnit);
    RemoveAllShort(unit, longUnit);
    RemoveAllSuffix(d, unit);
  }

  /** An answer that lowercases to "d<unit>" or "d<unit>s" reads as the number d. */
  lemma UnitValue(answer: string, d: string, unit: string)
    requires |d| > 0 && AllDigits(d) && |unit| > 0 && unit[0] == ' '
    requires AsciiLower(answer) == d + unit + "s" || AsciiLower(answer) == d + unit
    ensures ParseWithUnit(answer, unit + "s", unit) == DigitsValue(d)
  {
    UnitStripped(d, unit);
    ParseDigits(d);
  }

  /** An answer that lowercases to "d hours" or "d hour" gives duration d. */
  lemma DurationOfHours(answers: seq<string>, d: string)
    requires |answers| >= 6 && |d| > 0 && AllDigits(d)
    requires AsciiLower(answers[2]) == d + " hours" || AsciiLower(answers[2]) == d + " hour"
    ensures MapAnswers(answers).duration == DigitsValue(d)
  {
    assert d + " hours" == d + " hour" + "s" && " hour" + "s" == " hours";
    UnitValue(answers[2], d, " hour");
  }

  /** An answer that lowercases to "d miles" or "d mile" gives distance d. */
  lemma DistanceOfMiles(answers: seq<string>, d: string)
    requires |answers| >= 6 && |d| > 0 && AllDigits(d)
    requires AsciiLower(answers[3]) == d + " miles" || AsciiLower(answers[3]) == d + " mile"
    ensures MapAnswers(answers).distance == DigitsValue(d)
  {
    assert d + " miles" == d + " mile" + "s" && " mile" + "s" == " miles";
    UnitValue(answers[3], d, " mile");
  }

  /**
   * Removing the short unit first would leave the plural 's' behind: the order
   * of the two removals matters.
   */
  lemma {:induction false} ShortUnitFirstLeavesS(d: string)
    requires |d| > 0 && AllDigits(d)
    ensures RemoveAll(RemoveAll(d + " hours", " hour"), " hours") == d + "s"
    ensures ParseInt(RemoveAll(RemoveAll(d + " hours", " hour"), " hours")) == None
  {
    DigitsExclude(d, ' ');
    assert d + " hours" == d + " hour" + "s";
    assert (d + " hour") + "s" == d + (" hour" + "s");
    RemoveAllSkipsPrefix(d, " hour" + "s", " hour");
    assert (" hour" + "s")[..|" hour"|] == " hour";
    assert (" hour" + "s")[|" hour"|..] == "s";
    assert RemoveAll(" hour" + "s", " hour") == RemoveAll("s", " hour");
    RemoveAllShort("s", " hour");
    assert ' ' !in d + "s";
    RemoveAllAbsent(d + "s", " hours");
    assert (d + "s")[|d|] == 's';
    ParseRejects(d + "s", 's');
  }

  /** A half mile is not an integer, so it gives distance 0. */
  lemma HalfMileIsZero(answers: seq<string>)
    requires |answers| >= 6 && answers[3] == "1/2 mile"
    ensures MapAnswers(answers).distance == 0
  {
    var lowered := AsciiLower(answers[3]);
    assert lowered == "1/2 mile";
    var once := RemoveAll(lowered, " miles");
    RemoveAllSkipsPrefix("1/2", " mile", " miles");
    assert "1/2" + " mile" == "1/2 mile";
    RemoveAllShort(" mile", " miles");
    RemoveAllSuffix("1/2", " mile");
    assert "1/2"[1] == '/';
    ParseRejects("1/2", '/');
  }

  /** An amount that lowercases to "$d" reads as d. */
  lemma DollarValue(amount: string, limit: string, d: string)
    requires |d| > 0 && AllDigits(d) && AsciiLower(amount) == "$" + d
    ensures Budget(amount, limit) == DigitsValue(d)
  {
    DigitsExclude(d, '$');
    RemoveAllSkipsPrefix([], "$" + d, "$");
    assert [] + ("$" + d) == "$" + d;
    assert ("$" + d)[..1] == "$" && ("$" + d)[1..] == d;
    RemoveAllAbsent(d, "$");
    ParseDigits(d);
  }

  /** An amount that lowercases to "$d" is the budget d, whatever the sixth answer. */
  lemma BudgetOfDollars(answers: seq<string>, d: string)
    requires |answers| >= 6 && |d| > 0 && AllDigits(d)
    requires AsciiLower(answers[4]) == "$" + d
    ensures MapAnswers(answers).budget == DigitsValue(d)
  {
    DollarValue(answers[4], answers[5], d);
  }

  /**
   * An amount that does not parse once every '$' is removed falls back to
   * 1000 when the sixth answer is exactly "no limit", and to 0 otherwise.
   */
  lemma BudgetFallback(answers: seq<string>)
    requires |answers| >= 6
    requires ParseInt(RemoveAll(AsciiLower(answers[4]), "$")) == None
    ensures answers[5] == "no limit" ==> MapAnswers(answers).budget == 1000
    ensures answers[5] != "no limit" ==> MapAnswers(answers).budget == 0
  {
  }

  /** An amount holding a space never parses, so only the fallback decides the budget. */
  lemma BudgetWithSpace(answers: seq<string>)
    requires |answers| >= 6 && ' ' in answers[4]
    ensures MapAnswers(answers).budget == if answers[5] == "no limit" then 1000 else 0
  {
    AsciiLowerKeeps(answers[4], ' ');
    RemoveAllKeeps(AsciiLower(answers[4]), "$", ' ');
    ParseRejects(RemoveAll(AsciiLower(answers[4]), "$"), ' ');
  }

  /** Text with no space and no digit reads as no distance at all. */
  lemma NotANumber()
    ensures ParseWithUnit("not-a-number", " miles", " mile") == 0
  {
    var text := "not-a-number";
    assert forall i :: 0 <= i < |text| ==> !IsUpper(text[i]);
    AsciiLowerIdentity(text);
    assert ' ' !in text;
    RemoveAllAbsent(text, " miles");
    RemoveAllAbsent(text, " mile");
    assert text[0] == 'n';
    ParseRejects(text, 'n');
  }

  /** Examples: "1 mile" reads as 1 and "2 miles" as 2. */
  lemma MileExamples()
    ensures ParseWithUnit("1 mile", " miles", " mile") == 1
    ensures ParseWithUnit("2 miles", " miles", " mile") == 2
  {
    LowercaseUnchanged("1 mile");
    assert "1 mile" == "1" + " mile";
    UnitValue("1 mile", "1", " mile");
    LowercaseUnchanged("2 miles");
    assert "2 miles" == "2" + " mile" + "s" && " mile" + "s" == " miles";
    UnitValue("2 miles", "2", " mile");
  }

  /** Examples: "2 hours" reads as 2 and "3 hours" as 3. */
  lemma HourExamples()
    ensures ParseWithUnit("2 hours", " hours", " hour") == 2
    ensures ParseWithUnit("3 hours", " hours", " hour") == 3
  {
    LowercaseUnchanged("2 hours");
    assert "2 hours" == "2" + " hour" + "s" && " hour" + "s" == " hours";
    UnitValue("2 hours", "2", " hour");
    LowercaseUnchanged("3 hours");
    assert "3 hours" == "3" + " hour" + "s";
    UnitValue("3 hours", "3", " hour");
  }

  /** Examples: "$10" is a budget of 10 and "$25" one of 25, whatever the sixth answer. */
  lemma DollarExamples(limit: string)
    ensures Budget("$10", limit) == 10
    ensures Budget("$25", limit) == 25
  {
    LowercaseUnchanged("$10");
    assert "$10" == "$" + "10" && "10"[..1] == "1";
    DollarValue("$10", limit, "10");
    LowercaseUnchanged("$25");
    assert "$25" == "$" + "25" && "25"[..1] == "2";
    DollarValue("$25", limit, "25");
  }

  /** Example: History, None, 3 hours, not-a-number, $25, no give duration 3, distance 0 and budget 25. */
  lemma HistoryExample()
    ensures var request := MapAnswers(["History", "None", "3 hours", "not-a-number", "$25", "no"]);
      request.duration == 3 && request.distance == 0 && request.budget == 25
  {
    var answers := ["History", "None", "3 hours", "not-a-number", "$25", "no"];
    HourExamples();
    NotANumber();
    DollarExamples("no");
  }

  /** Example: the amount "$bogus" with the sixth answer "no limit" gives the fallback budget 1000. */
  lemma NoLimitExample()
    ensures MapAnswers(["History", "None", "3 hours", "1 mile", "$bogus", "no limit"]).budget == 1000
  {
    var answers := ["History", "None", "3 hours", "1 mile", "$bogus", "no limit"];
    assert Budget("$bogus", "no limit") == 1000 by {
      LowercaseUnchanged("$bogus");
      assert "$bogus"[1] == 'b';
      RemoveAllKeeps("$bogus", "$", 'b');
      ParseRejects(RemoveAll("$bogus", "$"), 'b');
    }
    assert answers[4] == "$bogus" && answers[5] == "no limit";
  }

  /**
   * Example: Art, Food, 2 hours, 1 mile, $10, no give the whole request
   * {Charleston, SC; art, food; budget 10; duration 2; distance 1; morning}.
   */
  lemma ArtFoodExample()
    ensures MapAnswers(["Art", "Food", "2 hours", "1 mile", "$10", "no"])
      == TourRequest("Charleston, SC", "art, food", 10, 2, 1, "morning")
  {
    ArtFoodInterests();
    HourExamples();
    MileExamples();
    DollarExamples("no");
  }

  lemma ArtFoodInterests()
    ensures Interests("Art", "Food") == "art, food"
  {
    assert AsciiLower("Art") == "art";
    assert AsciiLower("Food") == "food";
  }

  // ---------------------------------------------------------------------------
  // The form-encoded request body

  /** The keys of the request's parameter dictionary, in declaration order. */
  const ParameterKeys: seq<string> := ["location", "interests", "budget", "duration", "distance", "start_time"]

  /**
   * The parameter dictionary, each value already in its `"\(value)"` text:
   * exactly the six keys; the three strings verbatim (no percent-encoding) and
   * the three integers as decimal text that reads back as the same integer.
   */
  function Parameters(request: TourRequest): (params: map<string, string>)
    ensures params.Keys == set k | k in ParameterKeys
    ensures params["location"] == request.location
    ensures params["interests"] == request.interests
    ensures params["start_time"] == request.startTime
    ensures ParseInt(params["budget"]) == Some(request.budget)
    ensures ParseInt(params["duration"]) == Some(request.duration)
    ensures ParseInt(params["distance"]) == Some(request.distance)
  {
    IntToStringRoundTrip(request.budget);
    IntToStringRoundTrip(request.duration);
    IntToStringRoundTrip(request.distance);
    map[
      "location" := request.location,
      "interests" := request.interests,
      "budget" := IntToString(request.budget),
      "duration" := IntToString(request.duration),
      "distance" := IntToString(request.distance),
      "start_time" := request.startTime]
  }

  /**
   * The order in which the dictionary happens to be iterated: each of its six
   * keys exactly once, in an order the app does not choose.
   */
  predicate IsIterationOrder(keys: seq<string>) {
    multiset(keys) == multiset(ParameterKeys)
  }

  function Field(request: TourRequest, key: string): string
    requires key in ParameterKeys
  {
    Parameters(request)[key]
  }

  /** The `map` step: "key=value" for each entry, in iteration order. */
  function Pieces(request: TourRequest, keys: seq<string>): seq<string>
    requires IsIterationOrder(keys)
  {
    seq(|keys|, i requires 0 <= i < |keys| =>
      assert keys[i] in multiset(keys);
      keys[i] + "=" + Field(request, keys[i]))
  }

  /**
   * The request body: one "key=value" piece per dictionary entry, joined by
   * '&'.  It has six entries and starts with the first key in iteration order,
   * its '=' and its value verbatim.
   */
  function FormBody(request: TourRequest, keys: seq<string>): (body: string)
    requires IsIterationOrder(keys)
    ensures |keys| == 6 && keys[0] in Parameters(request)
    ensures keys[0] + "=" + Parameters(request)[keys[0]] <= body
  {
    IterationOrderKeys(keys);
    Join(Pieces(request, keys), "&")
  }

  lemma DecimalHasNoAmpersand(n: int)
    ensures '&' !in IntToString(n)
  {
    NatToStringDigits(if n < 0 then -n else n);
    DigitsExclude(NatToString(if n < 0 then -n else n), '&');
  }

  lemma FieldHasNoAmpersand(request: TourRequest, key: string)
    requires key in ParameterKeys
    requires '&' !in request.location && '&' !in request.interests && '&' !in request.startTime
    ensures '&' !in key + "=" + Field(request, key)
  {
    DecimalHasNoAmpersand(request.budget);
    DecimalHasNoAmpersand(request.duration);
    DecimalHasNoAmpersand(request.distance);
  }

  /** An iteration order lists the six keys, each once. */
  lemma IterationOrderKeys(keys: seq<string>)
    requires IsIterationOrder(keys)
    ensures |keys| == 6
    ensures forall k :: k in keys <==> k in ParameterKeys
  {
    assert |multiset(keys)| == |keys| && |multiset(ParameterKeys)| == 6;
    forall k ensures k in keys <==> k in ParameterKeys {
      assert k in keys <==> k in multiset(keys);
    }
  }

  /** No piece holds an '&' when the three text fields hold none. */
  lemma PiecesHaveNoAmpersand(request: TourRequest, keys: seq<string>)
    requires IsIterationOrder(keys)
    requires '&' !in request.location && '&' !in request.interests && '&' !in request.startTime
    ensures forall i :: 0 <= i < |Pieces(request, keys)| ==> '&' !in Pieces(request, keys)[i]
  {
    var pieces := Pieces(request, keys);
    forall i | 0 <= i < |pieces| ensures '&' !in pieces[i] {
      assert keys[i] in multiset(keys);
      FieldHasNoAmpersand(request, keys[i]);
    }
  }

  /**
   * When the text fields hold no '&', the body splits back at '&' into
   * exactly six pieces, one "key=value" per key in iteration order, each value
   * verbatim.
   */
  lemma FormBodyPieces(request: TourRequest, keys: seq<string>)
    requires IsIterationOrder(keys)
    requires '&' !in request.location && '&' !in request.interests && '&' !in request.startTime
    ensures |keys| == 6
    ensures forall k :: k in keys <==> k in ParameterKeys
    ensures Split(FormBody(request, keys), '&') == Pieces(request, keys)
  {
    IterationOrderKeys(keys);
    PiecesHaveNoAmpersand(request, keys);
    SplitJoin(Pieces(request, keys), '&');
  }

  /** The body of a mapped request splits into six pieces when the interest answers hold no '&'. */
  lemma MappedFormBodyPieces(answers: seq<string>, keys: seq<string>)
    requires |answers| >= 6 && IsIterationOrder(keys)
    requires '&' !in answers[0] && '&' !in answers[1]
    ensures |Split(FormBody(MapAnswers(answers), keys), '&')| == 6
  {
    AsciiLowerKeeps(answers[0], '&');
    AsciiLowerKeeps(answers[1], '&');
    FormBodyPieces(MapAnswers(answers), keys);
  }

  // ---------------------------------------------------------------------------
  // Response to stops

  function ToPlace(tourName: Option<string>, location: Location): Place {
    Place(
      locationTitle := location.locationName,
      categoryName := location.category,
      tourDescription := tourName.GetOr(""),
      storyDescription := location.story,
      coordinates := Some(Coordinate(location.geolocation.latitude, location.geolocation.longitude)))
  }

  /**
   * `tour.locations.map { ... }`: one stop per location, in the same order,
   * each carrying the same tour-level summary (empty when the tour has no
   * name) and the location's own coordinates.
   */
  function ToPlaces(tour: TourResponse): (places: seq<Place>)
    ensures |places| == |tour.locations|
    ensures forall i :: 0 <= i < |places| ==>
      && places[i].locationTitle == tour.locations[i].locationName
      && places[i].categoryName == tour.locations[i].category
      && places[i].storyDescription == tour.locations[i].story
      && places[i].tourDescription == (if tour.tourName.Some? then tour.tourName.value else "")
      && places[i].coordinates == Some(Coordinate(tour.locations[i].geolocation.latitude,
                                                  tour.locations[i].geolocation.longitude))
  {
    seq(|tour.locations|, i requires 0 <= i < |tour.locations| => ToPlace(tour.tourName, tour.locations[i]))
  }

  /** The mapping works location by location: splitting the locations splits the stops. */
  lemma ToPlacesSplits(tour: TourResponse, k: nat)
    requires k <= |tour.locations|
    ensures ToPlaces(tour) == ToPlaces(tour.(locations := tour.locations[..k]))
                            + ToPlaces(tour.(locations := tour.locations[k..]))
  {
  }
}
